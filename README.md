# gene-fusion-vault in Dafny

A Dafny model of the data-shaping core of gene-fusion-vault. This is a web
application that keeps a database of genes. Each gene carries a per-user
record of internal fields: notes, assignee, tags, price, clone and antibody
details. The model covers:

- **CSV import dialog** (`CsvImport`): header normalisation, the blank-row
  filter, the gene and clone row validators (loops proved against
  specification functions), the all-or-nothing gate in front of the bulk
  import, the dialog's state, and the two download templates.
- **Gene table** (`GeneTable`): the search / priority / status filter; the
  36-column CSV export with its field escaping; a round trip of the export
  through an RFC 4180-style reader (`CsvReader`, section 2 of RFC 4180, with
  line feeds as record separators).
- **Main page** (`IndexPage`): the table rows derived from the stored genes,
  with priority and status read from the tags; the case-insensitive lookup
  by symbol; the selected gene; and the gene selection flow (local hit, or
  external fetch and save).
- **Genes hook** (`GenesHook`): the join of genes with the signed-in user's
  internal fields, the loading state of `fetchGenes`, and the record
  `updateInternalFields` upserts.
- **Gene details view** (`GeneDetails`, `TagParsing`): the edit form, tag
  parsing and its round trip with the displayed text, the saved fields, the
  merged record, the editing state, and the name and description
  fallbacks.
- **Clone panel** (`CloneManagement`): the idle / adding / editing(id) state
  machine, the save, and the field display and input rules.
- **Search box** (`GeneSearch`): the trim-and-guard submit, the Enter key
  and the disabled button.

Shared modules model the JavaScript behaviour the components rely on:

- `Strings`: `toLowerCase` on ASCII letters, `trim` over the ECMAScript
  white-space set, `includes`, `split` and `join`.
- `Sequences`: `filter` and subsequences.
- `JsValues`: truthiness, `||`, `String(v)`, `parseFloat` and `Number` on
  decimal literals.

Values the components read from loosely typed objects are a `Value`:
undefined, a text, an array of strings, or a number. A number is kept as
the text JavaScript prints for it in plain decimal notation. I/O is passed in as parameters:

- database replies, the signed-in user, and collaborator results or
  failures;
- each handler returns the calls it makes (`Call`, `UpdateCall`,
  `SelectCall`, `BulkCall`) and the notifications it shows (`Notice`).

Where the design description and the code differ, the model follows the
code:

- The table has one row per gene, not one per clone, because the hook
  attaches one internal-fields record per gene.
- The chromosome comes from the external `genomic_pos.chr`, not from
  `map_location`.
- The assignee defaults to the empty text, not "Unassigned".
- Priority and status are derived from the tags.
- A concentration is accepted whenever `parseFloat` reads a numeric prefix
  ("12abc" and "Infinity" pass). The design asks for a finite decimal.
- The export round trip is proved against the RFC 4180 reader written here.
  The CSV library the import uses is not part of this model.

## Model

| member | source | states |
|---|---|---|
| CsvImport.TransformHeaderNormal | src/components/CSVImportDialog.tsx:77 | a normalised header has no white space and no upper-case letter, and normalising it again changes nothing |
| CsvImport.TransformHeader | src/components/CSVImportDialog.tsx:77 | `transformHeader` yields a column name without white space and no longer than the header |
| CsvImport.CollapseWhitespace | src/components/CSVImportDialog.tsx:77 | `replace(/\s+/g, '_')` leaves no white space and never lengthens the text |
| CsvImport.CollapseRun | src/components/CSVImportDialog.tsx:77 | a maximal white-space run between other text becomes exactly one `_` |
| CsvImport.CollapseNoWhitespace | src/components/CSVImportDialog.tsx:77 | text without white space is left unchanged |
| CsvImport.CollapsePrefix | src/components/CSVImportDialog.tsx:77 | text without white space in front of any text passes through unchanged |
| CsvImport.DropBlankRowsSpec | src/components/CSVImportDialog.tsx:64-66 | a row is kept iff some cell is non-empty; the kept rows are an order-preserving subsequence; a second pass changes nothing |
| CsvImport.DropBlankRows | src/components/CSVImportDialog.tsx:64-66 | every kept row has a non-empty cell, and no row is added |
| CsvImport.GeneOfReadsOnlyGeneColumns | src/components/CSVImportDialog.tsx:91-99 | a valid gene depends only on the seven named columns; every other column is dropped |
| CsvImport.CheckGeneRow | src/components/CSVImportDialog.tsx:85-100 | one row of `validateGeneData`: rejected iff the symbol is absent or empty, with the 1-based row number and the symbol error; an accepted gene carries the row's symbol |
| CsvImport.CheckCloneRow | src/components/CSVImportDialog.tsx:109-132 | one row of `validateCloneData`: an error carries the 1-based row number; an accepted clone has both required columns, copies them, and has a concentration iff one was given, never NaN |
| CsvImport.ValidateGeneData | src/components/CSVImportDialog.tsx:81-103 | the `forEach` loop pushes exactly the accepted genes and the errors of the rows, in row order |
| CsvImport.ValidateGeneSpec | src/components/CSVImportDialog.tsx:85-101 | every row lands in exactly one list; the errors are in strictly increasing row order; the valid genes are the rows with a symbol, in order |
| CsvImport.GeneErrorsIff | src/components/CSVImportDialog.tsx:86-88 | row i is reported as "Row i+1: Gene symbol is required" iff its symbol is absent or empty; that is the only gene error |
| CsvImport.AcceptedGenesAreFiltered | src/components/CSVImportDialog.tsx:85-100 | the valid list is the rows that have a symbol, each copied by the gene mapping, in input order |
| CsvImport.PartitionSizes | src/components/CSVImportDialog.tsx:85-101 | the valid list and the error list together have one entry per row |
| CsvImport.RejectedErrorsSpec | src/components/CSVImportDialog.tsx:109-119 | the error list holds exactly the errors of the rejected rows, in strictly increasing row order, so no row has two errors |
| CsvImport.ValidateCloneData | src/components/CSVImportDialog.tsx:105-136 | the `forEach` loop pushes exactly the accepted clones and the errors of the rows, in row order |
| CsvImport.ValidateCloneSpec | src/components/CSVImportDialog.tsx:109-133 | every row lands in exactly one list; each row has at most one error; errors keep row order |
| CsvImport.CloneErrorsIff | src/components/CSVImportDialog.tsx:110-119 | the "are required" error iff `gene_symbol` or `clone_id` is missing; the concentration error iff both are present and a non-empty concentration parses to NaN |
| CsvImport.EmptyConcentrationAccepted | src/components/CSVImportDialog.tsx:115-132 | a row with an empty or absent concentration is accepted with the concentration undefined |
| CsvImport.InvalidConcentrationScenario | src/components/CSVImportDialog.tsx:115-118 | the clone row with concentration "abc" yields exactly the error for row 1, invalid concentration |
| CsvImport.ImportAllOrNothing | src/components/CSVImportDialog.tsx:145-166 | the bulk import is called iff every row passes, and then with one object per row |
| CsvImport.ImportGate | src/components/CSVImportDialog.tsx:145-166 | a blocked import has at least one error; a bulk call is for genes iff the genes tab is active |
| CsvImport.NoRejections | src/components/CSVImportDialog.tsx:146-151 | the error list is empty iff every row is accepted |
| CsvImport.MissingSymbolScenario | src/components/CSVImportDialog.tsx:146-151 | the two-row gene file whose second row has no symbol is blocked with the row 2 error |
| CsvImport.ImportDialog.constructor | src/components/CSVImportDialog.tsx:42-48 | the dialog starts closed on the genes tab with no file, rows, errors or progress |
| CsvImport.ImportDialog.ImportDisabled | src/components/CSVImportDialog.tsx:325 | the import button is enabled only with rows, no errors shown, and no import running |
| CsvImport.ImportDialog.OnParsed | src/components/CSVImportDialog.tsx:62-73 | the parse callback stores the non-blank rows and the parser's messages and changes nothing else |
| CsvImport.ImportDialog.ResetState | src/components/CSVImportDialog.tsx:187-192 | file, rows, errors and progress are cleared; the rest is kept |
| CsvImport.ImportDialog.HandleImport | src/components/CSVImportDialog.tsx:138-185 | no rows: nothing changes. Otherwise `importing` is false and progress 0 at the end. Validation errors are shown and no bulk import is called. With none, the bulk import gets the valid rows, and on success the dialog closes and resets |
| CsvImport.GeneTemplateValid | src/components/CSVImportDialog.tsx:197-199 | the example line of the gene template passes gene validation |
| CsvImport.CloneTemplateMisencoded | src/components/CSVImportDialog.tsx:202 | the strain written in the clone template is the UTF-8 bytes of "DH5α" read as ISO 8859-1, and it differs from "DH5α" |
| CsvImport.IntendedCloneTemplateValid | src/components/CSVImportDialog.tsx:201-202 | the example line of the corrected clone template passes clone validation with strain "DH5α" and a concentration |
| GeneTable.FilteredDataSpec | src/components/GeneDataTable.tsx:81-94 | a row is shown iff it is in the data and passes search, priority and status; the shown rows are an order-preserving subsequence, never more, and filtering them again changes nothing |
| GeneTable.FilteredData | src/components/GeneDataTable.tsx:81-94 | `filteredData` shows no more rows than the data, each passing search, priority and status |
| GeneTable.NoFilterShowsAll | src/components/GeneDataTable.tsx:83-92 | an empty search with both selects on "all" shows the data unchanged |
| GeneTable.NarrowingSearch | src/components/GeneDataTable.tsx:83-87 | extending the search term never brings a row back |
| GeneTable.UnknownPriorityShowsNothing | src/components/GeneDataTable.tsx:89 | a priority filter naming no priority (and not "all") shows no row |
| GeneTable.ExportFieldsSpec | src/components/GeneDataTable.tsx:97-145 | 36 fields per row, as many as headers; tags joined with "; "; absent or falsy internal fields empty; a price of 0 empty, a truthy price printed |
| GeneTable.ExportFields | src/components/GeneDataTable.tsx:106-143 | one exported field per header |
| GeneTable.ExportDisplayColumns | src/components/GeneDataTable.tsx:97-116 | the first ten fields are the display columns their headers name (Gene ID, Symbol, … Status), the eleventh the tags cell |
| GeneTable.ExportInternalColumns | src/components/GeneDataTable.tsx:97-143 | fields 12 to 36 are the internal fields in header order, `value \|\| ''`: a truthy text exports as itself |
| GeneTable.ContainsChar | src/components/GeneDataTable.tsx:151 | `includes` of a one-character text holds iff the character occurs |
| GeneTable.EscapeFieldSpec | src/components/GeneDataTable.tsx:148-154 | a field is quoted iff it holds a comma, a quote or a line feed; any other field is written as it is |
| GeneTable.EscapeField | src/components/GeneDataTable.tsx:148-154 | a field needing no quotes is written as it is; one that needs them is wrapped in quotes and is at least two characters longer |
| GeneTable.QuotedRoundTrip | src/components/GeneDataTable.tsx:152 | reading a quote-doubled field up to its closing quote gives the field back |
| GeneTable.UnquotedRoundTrip | src/components/GeneDataTable.tsx:154 | a field without comma or line feed reads back as itself |
| GeneTable.FieldRoundTrip | src/components/GeneDataTable.tsx:147-154 | reading an escaped field back gives the field and leaves the separator |
| GeneTable.RecordRoundTrip | src/components/GeneDataTable.tsx:148-155 | reading an exported line back gives its fields |
| GeneTable.LinesRoundTrip | src/components/GeneDataTable.tsx:148-156 | reading the line-feed-joined lines back gives the records |
| GeneTable.ExportRoundTrip | src/components/GeneDataTable.tsx:96-156 | reading the export back gives the header and, for each shown row in order, its 36 fields |
| IndexPage.PriorityRule | src/pages/Index.tsx:91-92 | High iff the tags include "high-priority"; Medium iff they include "medium-priority" but not "high-priority"; Low otherwise |
| IndexPage.StatusRule | src/pages/Index.tsx:95-96 | Complete iff the tags include "complete"; Partial iff "partial" but not "complete"; Pending otherwise |
| IndexPage.PriorityOf | src/pages/Index.tsx:91-92 | the tag "high-priority" always gives High; Medium only with "medium-priority" |
| IndexPage.StatusOf | src/pages/Index.tsx:95-96 | the tag "complete" always gives Complete; Partial only with "partial" |
| IndexPage.TableRowOf | src/pages/Index.tsx:84-123 | a row keeps the gene's id and symbol, organism "Homo sapiens"; with no internal fields: no assignee, no tags, nothing to export; only the 25 exported internal fields are carried |
| IndexPage.TableData | src/pages/Index.tsx:77 | one row per gene |
| IndexPage.TableDataSpec | src/pages/Index.tsx:77-125 | one row per gene in order with its id and symbol, and the priority and status its tags give; organism "Homo sapiens"; with no internal fields: Low, Pending, no assignee, no tags |
| IndexPage.TableRowDefaults | src/pages/Index.tsx:79-90 | name "Unknown", protein name "N/A" and chromosome "N/A" when the stored value is falsy or missing (a present but falsy `chr` included); a truthy stored text is shown as it is |
| IndexPage.FindBySymbol | src/pages/Index.tsx:22 | no result iff no gene's symbol equals the input ignoring case; a result is a stored gene with such a symbol |
| IndexPage.FindBySymbolFirst | src/pages/Index.tsx:22 | the result is the first gene that matches |
| IndexPage.FindBySymbolIgnoresCase | src/pages/Index.tsx:22 | lowercasing the input does not change the result |
| IndexPage.LowercaseSearchFinds | src/pages/Index.tsx:22-26 | searching "brca1" finds the stored gene "BRCA1" |
| IndexPage.FindById | src/pages/Index.tsx:74 | no result iff no gene has the id; a result is a stored gene with that id |
| IndexPage.SelectedGeneData | src/pages/Index.tsx:74 | a result is the stored gene with the selected id; a non-empty selected id that is stored always gives one |
| IndexPage.NewGeneFrom | src/pages/Index.tsx:42-47 | the saved symbol is the hit's symbol when truthy, else the typed one; name and description come from the hit |
| IndexPage.IndexState.constructor | src/pages/Index.tsx:14-15 | no gene is selected and the search tab is active |
| IndexPage.IndexState.OnRowSelect | src/pages/Index.tsx:224 | choosing a row selects its gene id |
| IndexPage.IndexState.HandleGeneSelect | src/pages/Index.tsx:19-68 | a local hit: that gene is selected with no call. Otherwise the external service is asked. With no hit: "not found" and no change. With hits: the first hit is saved, and when a row comes back it is selected |
| GenesHook.FindInternalFields | src/hooks/useGenes.ts:90 | no record iff none has the gene id; a found record is one of them with that gene id |
| GenesHook.FindInternalFieldsFirst | src/hooks/useGenes.ts:90 | the record found is the first for that gene |
| GenesHook.CombinedData | src/hooks/useGenes.ts:88-91 | one entry per gene, each carrying its gene unchanged |
| GenesHook.CombinedDataSpec | src/hooks/useGenes.ts:88-91 | one entry per gene in order; internal fields present iff a loaded record has the gene's id, and then for that gene |
| GenesHook.LoadedInternalFieldsSpec | src/hooks/useGenes.ts:71-85 | with no signed-in user no gene has internal fields; with one, every attached record is that user's and from the table |
| GenesHook.UpsertRecord | src/hooks/useGenes.ts:147-151 | the upserted keys are the fields' keys plus gene and user ids; the edited fields win over the ids |
| GenesHook.UpdateInternalFields | src/hooks/useGenes.ts:137-155 | no user: no upsert and the "must be logged in" error; with a user the upsert of that record and the database's error |
| GenesHook.GenesStore.constructor | src/hooks/useGenes.ts:57-58 | no genes, not loading |
| GenesHook.GenesStore.FetchGenes | src/hooks/useGenes.ts:61-103 | a failed genes query keeps the genes; otherwise the genes become the returned rows joined with the loaded internal fields; loading is off at the end |
| TagParsing.DropEmpty | src/components/GeneDataDisplay.tsx:428 | a piece is kept iff it is a non-empty piece of the input; the kept pieces keep their order |
| TagParsing.DropEmptyIsFilter | src/components/GeneDataDisplay.tsx:428 | dropping the empty pieces is `filter(t => t)` on the pieces |
| TagParsing.ParseTags | src/components/GeneDataDisplay.tsx:428 | no parsed tag is empty |
| TagParsing.TrimAllClean | src/components/GeneDataDisplay.tsx:428 | trimmed comma-free pieces have no surrounding white space and no comma |
| TagParsing.ParseTagsClean | src/components/GeneDataDisplay.tsx:428 | no parsed tag is empty, has surrounding white space or holds a comma |
| TagParsing.ParseEmpty | src/components/GeneDataDisplay.tsx:428 | the empty input holds no tags |
| TagParsing.JoinedTagsRoundTrip | src/components/GeneDataDisplay.tsx:427-428 | parsing white space followed by tags joined with ", " gives the tags back |
| TagParsing.TagsInputRoundTrip | src/components/GeneDataDisplay.tsx:427-428 | non-empty, trimmed, comma-free tags survive display and parsing unchanged |
| GeneDetails.InitialEditData | src/components/GeneDataDisplay.tsx:20-48 | the form has exactly the 25 text fields |
| GeneDetails.InitialEditDataEmpty | src/components/GeneDataDisplay.tsx:20-48 | a gene with no internal fields starts with empty texts, no tags and an empty price |
| GeneDetails.FieldsToUpdate | src/components/GeneDataDisplay.tsx:72-76 | the save has fields iff the tags are an array or a text (splitting anything else throws) |
| GeneDetails.FieldsToUpdateSpec | src/components/GeneDataDisplay.tsx:72-76 | the saved fields are the form's texts, the tags kept or parsed, and the price `parseFloat` reads or undefined when empty |
| GeneDetails.MergedInternalFields | src/components/GeneDataDisplay.tsx:81-88 | the old record overlaid by the saved fields, the saved fields winning, with the new update time |
| GeneDetails.Displayed | src/components/GeneDataDisplay.tsx:175 | the stored value when truthy, else the external one, else the placeholder (the same rule at lines 225 and 233 with "No description available") |
| GeneDetails.DetailsEditor.constructor | src/components/GeneDataDisplay.tsx:19-48 | not editing, the form at its initial values |
| GeneDetails.DetailsEditor.StartEditing | src/components/GeneDataDisplay.tsx:314 | Edit enters editing and keeps the form |
| GeneDetails.DetailsEditor.EditTags | src/components/GeneDataDisplay.tsx:428 | typing in the tags input stores the parsed tags |
| GeneDetails.DetailsEditor.EditPrice | src/components/GeneDataDisplay.tsx:420 | typing in the price input stores the text as typed |
| GeneDetails.DetailsEditor.EditText | src/components/GeneDataDisplay.tsx:336 | typing in a text field stores that field's text |
| GeneDetails.DetailsEditor.HandleSave | src/components/GeneDataDisplay.tsx:70-94 | the upsert of the saved fields. On success, editing ends and the merged record is handed on. On failure, or tags that cannot be split, the editing state is kept and nothing is handed on. The form never changes |
| GeneDetails.DetailsEditor.HandleCancel | src/components/GeneDataDisplay.tsx:96-128 | the form returns to its initial values and editing ends |
| GeneDetails.CancelRestoresForm | src/components/GeneDataDisplay.tsx:96-128 | after editing tags and price, cancelling gives back the form the view opened with |
| CloneManagement.ShowsFieldSpec | src/components/CloneManagement.tsx:87-88 | undefined, empty text and the number 0 are hidden; a text is shown iff non-empty |
| CloneManagement.ClearedNumberShowsEmpty | src/components/CloneManagement.tsx:118-122 | clearing a number input stores 0, which then shows as empty |
| CloneManagement.TypedTextShowsBack | src/components/CloneManagement.tsx:107-123 | text typed into a text input or text area shows back unchanged |
| CloneManagement.CloneEditor.constructor | src/components/CloneManagement.tsx:21-23 | idle: no clone edited, not adding, an empty form |
| CloneManagement.CloneEditor.HandleEdit | src/components/CloneManagement.tsx:27-30 | edits the clone's id with its record as the form; adding mode is kept |
| CloneManagement.CloneEditor.HandleAddNew | src/components/CloneManagement.tsx:32-35 | adding mode with the form `{clone: ''}`; the edited id is kept |
| CloneManagement.CloneEditor.HandleCancel | src/components/CloneManagement.tsx:53-57 | both modes cleared and the form emptied |
| CloneManagement.CloneEditor.EditField | src/components/CloneManagement.tsx:119-122 | a number input stores `Number(input)`, other inputs the text |
| CloneManagement.CloneEditor.HandleSave | src/components/CloneManagement.tsx:37-51 | adding wins over editing; the update has no clone id when adding and the edited id when editing. A failed update changes no state and calls nothing. A successful one clears the mode it saved and empties the form. With neither mode set, no update is made |
| CloneManagement.AddWhileEditing | src/components/CloneManagement.tsx:39-46 | adding while editing and saving sends no clone id and leaves the edited id set with an empty form |
| CloneManagement.SaveWithoutUserKeepsForm | src/components/CloneManagement.tsx:37-51 | a save without a signed-in user keeps the edited clone and the typed value |
| GeneSearch.SearchOutcomeSpec | src/components/GeneSearch.tsx:19-42 | no call iff the input is all white space, with the "symbol required" toast. Otherwise one call while searching, with a non-empty symbol that is the input with its surrounding white space and nothing else removed, and the error toast iff the call throws |
| GeneSearch.LeadingSpaceIgnored | src/components/GeneSearch.tsx:32 | white space before a symbol does not change the symbol searched |
| GeneSearch.SearchOutcome | src/components/GeneSearch.tsx:19-42 | no call means the "symbol required" toast; a call has a non-empty symbol and never that toast |
| GeneSearch.SearchBox.constructor | src/components/GeneSearch.tsx:15-16 | an empty input, not searching |
| GeneSearch.SearchBox.ButtonDisabled | src/components/GeneSearch.tsx:73 | an enabled button means no search is running and a submit would call `onGeneSelect` |
| GeneSearch.SearchBox.Type | src/components/GeneSearch.tsx:66 | typing sets the input and keeps the flag |
| GeneSearch.SearchBox.HandleSearch | src/components/GeneSearch.tsx:19-42 | does what the outcome function says. A blank input keeps the flag. Otherwise the flag is false afterwards, whether the call returns or throws. The input is kept |
| GeneSearch.SearchBox.HandleKeyPress | src/components/GeneSearch.tsx:44-48 | Enter submits as the button does; any other key does nothing |
| GeneSearch.EnabledButtonSearches | src/components/GeneSearch.tsx:73 | a call is made iff the trimmed input is non-empty, exactly when the button is enabled, and the box is ready again afterwards |
| JsValues.OrEmpty | src/components/GeneDataTable.tsx:119 | `v \|\| ''` is empty for a falsy value, the text for a text, the printed number for a truthy number |
| JsValues.ParseFloatNaN | src/components/CSVImportDialog.tsx:115-116 | `parseFloat` gives NaN iff, after leading white space, neither a decimal literal nor a signed "Infinity" starts the text |
| JsValues.ParseFloatReadsPrefix | src/components/CSVImportDialog.tsx:115 | `parseFloat("12abc")` is 12 |
| JsValues.ParseFloatOfWord | src/components/CSVImportDialog.tsx:116 | `parseFloat("abc")` is NaN |
| JsValues.ParseFloat | src/components/CSVImportDialog.tsx:115 | `parseFloat` gives NaN or a printed number (never a text starting with "N") |
| JsValues.ToNumber | src/components/CloneManagement.tsx:121 | `Number` of an empty or all-white-space text is 0; otherwise NaN or a printed number |
| JsValues.PrintDecimalTruthy | src/components/GeneDataTable.tsx:126 | a parsed decimal is a truthy number iff it has a nonzero digit |
| JsValues.ToNumberOfEmpty | src/components/CloneManagement.tsx:121 | `Number("")` is 0, a falsy number |
| Strings.TrimEmpty | src/components/GeneSearch.tsx:20 | `trim()` is empty iff every character is white space |
| Strings.TrimIsTrimmed | src/components/GeneSearch.tsx:32 | a trimmed text has no surrounding white space |
| Strings.TrimCharacterised | src/components/GeneSearch.tsx:32 | `trim()` gives `t` iff `t` has no surrounding white space and the input is `t` with white space on either side |

## Left out

- Supabase I/O (queries, their ordering and limits, authentication) is left out. Replies, the signed-in user and query failures are parameters.
- Toasts and console logging are left out, apart from the notices returned by the search box and the page's selection flow.
- `refetch` after an update, `saveGene`, `searchGenes` and `fetchExternalGeneData` are not modelled: they are I/O. Their results are parameters.
- The external gene proxy function and the sign-in button are not part of this model.
- The CSV library's parser is not part of this model. Import starts from the rows it hands over: a map from normalised column name to cell text.
- The bulk import functions are left out. The dialog references them, but the hook does not provide them. The model records the call and whether it threw, not progress or success counts.
- `deleteClone` (CloneManagement.tsx:59-66) is left out: the hook does not provide it.
- CloneManagement.CloneEditor.HandleSave: the third argument of the editing-mode update is recorded in the call. The hook's function ignores it, so the upsert is the same two-argument upsert.
- Dates and locale formatting are a `formatDate` parameter of the table rows. The ISO time stamp of a save is a parameter `now`. The export's file name is left out.
- Blob and anchor downloads, the clipboard, `window.open` and JSX rendering are left out.
- `parseFloat` and `Number` are modelled on plain decimal literals and "Infinity": exponents, hexadecimal and binary literals, and rounding beyond 17 digits are not modelled. A number is kept as its plain decimal text.
- JsValues.PrintDecimal: does not model JavaScript's exponent notation when printing, used for magnitudes below 1e-6 or from 1e21 up. `parseFloat("0.0000001")` prints as "1e-7" in JavaScript, but the model keeps "0.0000001", so an exported price of that size differs from the source's `toString()`.
- `toLowerCase` is modelled on ASCII letters only. Unicode case folding is not modelled.
- The genomic position object is reduced to its `chr` property.
- The tab switcher, the file input and the progress callback of the import dialog are left out. `activeTab` and `hasFile` are fields that the model sets.

## Findings

| source | as written | input that shows it | evidently intended | confidence | as-written member | corrected member |
|---|---|---|---|---|---|---|
| src/components/CSVImportDialog.tsx:202 | the clone template's strain is "DH5Î±" (U+00CE U+00B1) | downloading the clone template | "DH5α" (U+03B1): the UTF-8 bytes of α were read as ISO 8859-1 when the line was written | high, not executed | CsvImport.CloneTemplateMisencoded | CsvImport.IntendedCloneTemplateValid |
