/** The gene table: the combined search / priority / status filter over the
    table rows, and the CSV export of the filtered rows. */
module GeneTable {
  import opened Strings
  import opened Sequences
  import opened Options
  import opened JsValues
  import CsvReader

  datatype Priority = High | Medium | Low
  datatype Status = Complete | Partial | Pending

  function PriorityName(p: Priority): string
  {
    match p
    case High => "High"
    case Medium => "Medium"
    case Low => "Low"
  }

  function StatusName(s: Status): string
  {
    match s
    case Complete => "Complete"
    case Partial => "Partial"
    case Pending => "Pending"
  }

  /** A row of the table: the display columns, then the stored internal
      fields under their database names (absent when not stored). */
  datatype GeneRecord = GeneRecord(
    id: string,
    symbol: string,
    name: string,
    chromosome: string,
    organism: string,
    proteinName: string,
    priority: Priority,
    assignedTo: string,
    lastModified: string,
    status: Status,
    tags: Value,
    internal: map<string, Value>)

  // ---------------------------------------------------------------------
  // Filtering
  // ---------------------------------------------------------------------

  /** The lowercased search term occurs in the lowercased symbol, name, id
      or assignee. */
  predicate MatchesSearch(g: GeneRecord, term: string)
  {
    var t := ToLower(term);
    || Contains(ToLower(g.symbol), t)
    || Contains(ToLower(g.name), t)
    || Contains(ToLower(g.id), t)
    || Contains(ToLower(g.assignedTo), t)
  }

  /** The three filters, combined with "and"; "all" switches a select off. */
  predicate Matches(g: GeneRecord, term: string, priorityFilter: string, statusFilter: string)
  {
    && MatchesSearch(g, term)
    && (priorityFilter == "all" || PriorityName(g.priority) == priorityFilter)
    && (statusFilter == "all" || StatusName(g.status) == statusFilter)
  }

  function MatchesFilter(term: string, priorityFilter: string, statusFilter: string): GeneRecord -> bool
  {
    g => Matches(g, term, priorityFilter, statusFilter)
  }

  /** `filteredData`. */
  function FilteredData(data: seq<GeneRecord>, term: string, priorityFilter: string, statusFilter: string): (r: seq<GeneRecord>)
    ensures |r| <= |data|
    ensures forall i :: 0 <= i < |r| ==> Matches(r[i], term, priorityFilter, statusFilter)
  {
    Filter(data, MatchesFilter(term, priorityFilter, statusFilter))
  }

  /** A row is shown exactly when it is in the data and passes all three
      filters; the shown rows keep the data's order, are never more than the
      data, and filtering them again changes nothing. */
  lemma FilteredDataSpec(data: seq<GeneRecord>, term: string, priorityFilter: string, statusFilter: string)
    ensures forall g :: g in FilteredData(data, term, priorityFilter, statusFilter) <==>
      g in data && Matches(g, term, priorityFilter, statusFilter)
    ensures IsSubsequence(FilteredData(data, term, priorityFilter, statusFilter), data)
    ensures |FilteredData(data, term, priorityFilter, statusFilter)| <= |data|
    ensures FilteredData(FilteredData(data, term, priorityFilter, statusFilter), term, priorityFilter, statusFilter)
      == FilteredData(data, term, priorityFilter, statusFilter)
  {
    var p := MatchesFilter(term, priorityFilter, statusFilter);
    forall g ensures g in Filter(data, p) <==> g in data && Matches(g, term, priorityFilter, statusFilter) {
      FilterMembers(data, p, g);
    }
    FilterIsSubsequence(data, p);
    FilterIdempotent(data, p);
  }

  /** With no search term and both selects on "all", every row is shown. */
  lemma NoFilterShowsAll(data: seq<GeneRecord>)
    ensures FilteredData(data, "", "all", "all") == data
  {
    FilterKeepsAll(data, MatchesFilter("", "all", "all"));
  }

  lemma {:induction false} ContainsPrefix(hay: string, a: string, b: string)
    requires Contains(hay, a + b)
    ensures Contains(hay, a)
  {
    if a + b <= hay {
      assert hay[..|a|] == (a + b)[..|a|] == a;
    } else {
      ContainsPrefix(hay[1..], a, b);
    }
  }

  /** Typing more of the search term never brings a row back. */
  lemma NarrowingSearch(data: seq<GeneRecord>, term: string, more: string, priorityFilter: string, statusFilter: string)
    ensures forall g :: g in FilteredData(data, term + more, priorityFilter, statusFilter) ==>
      g in FilteredData(data, term, priorityFilter, statusFilter)
  {
    FilteredDataSpec(data, term + more, priorityFilter, statusFilter);
    FilteredDataSpec(data, term, priorityFilter, statusFilter);
    ToLowerAppend(term, more);
    var t, m := ToLower(term), ToLower(more);
    forall h: string | Contains(h, t + m) ensures Contains(h, t) {
      ContainsPrefix(h, t, m);
    }
  }

  /** A priority filter that names no priority shows nothing. */
  lemma UnknownPriorityShowsNothing(data: seq<GeneRecord>, term: string, priorityFilter: string, statusFilter: string)
    requires priorityFilter !in {"all", "High", "Medium", "Low"}
    ensures FilteredData(data, term, priorityFilter, statusFilter) == []
  {
    FilteredDataSpec(data, term, priorityFilter, statusFilter);
  }

  // ---------------------------------------------------------------------
  // Export
  // ---------------------------------------------------------------------

  const ExportHeaders: seq<string> := [
    "Gene ID", "Symbol", "Name", "Chromosome", "Organism", "Protein Name", "Priority", "Assigned To",
    "Last Modified", "Status", "Tags",
    "Notes", "NBT Number", "Catalog Number", "Host", "Clone", "Clonality", "Isotype", "Price (USD)",
    "Parent Product ID", "Light Chain", "Storage Temperature", "Lead Time", "Country of Origin",
    "Datasheet URL", "Website URL", "Product Application", "Research Area", "Image URL", "Image Filename",
    "Image Caption", "Positive Control", "Expression System", "Purification", "Supplied As", "Immunogen"]

  /** The internal fields exported after the eleven display columns, in
      header order. */
  const InternalExportKeys: seq<string> := [
    "notes", "nbt_num", "catalog_num", "host", "clone", "clonality", "isotype", "price_usd",
    "parent_product_id", "light_chain", "storage_temperature", "lead_time", "country_of_origin",
    "datasheet_url", "website_url_to_product", "product_application", "research_area", "image_url",
    "image_filename", "image_caption", "positive_control", "expression_system", "purification",
    "supplied_as", "immunogen"]

  /** The tags column: an array joined with "; ", anything else empty. */
  function TagsCell(tags: Value): string
  {
    if tags.TagList? then Join(tags.items, "; ") else ""
  }

  /** The field list of one exported row. */
  function ExportFields(g: GeneRecord): (r: seq<string>)
    ensures |r| == |ExportHeaders|
  {
    [g.id, g.symbol, g.name, g.chromosome, g.organism, g.proteinName, PriorityName(g.priority),
     g.assignedTo, g.lastModified, StatusName(g.status), TagsCell(g.tags)] +
    seq(|InternalExportKeys|, i requires 0 <= i < |InternalExportKeys| => OrEmpty(Get(g.internal, InternalExportKeys[i])))
  }

  /** Every exported row has one field per header; the tags are joined with
      "; "; an internal field that is absent or falsy is empty, and a falsy
      price (undefined, 0 or NaN) in particular; a truthy price prints as the
      number. */
  lemma ExportFieldsSpec(g: GeneRecord)
    ensures |ExportFields(g)| == |ExportHeaders| == 36
    ensures ExportHeaders[10] == "Tags" && g.tags.TagList? ==> ExportFields(g)[10] == Join(g.tags.items, "; ")
    ensures forall i :: 0 <= i < 25 && !Truthy(Get(g.internal, InternalExportKeys[i])) ==> ExportFields(g)[11 + i] == ""
    ensures ExportHeaders[18] == "Price (USD)" && InternalExportKeys[7] == "price_usd"
    ensures "price_usd" in g.internal && g.internal["price_usd"] == Number(Zero) ==> ExportFields(g)[18] == ""
    ensures "price_usd" in g.internal && g.internal["price_usd"].Number? && NumTruthy(g.internal["price_usd"].n) ==>
      ExportFields(g)[18] == g.internal["price_usd"].n.printed
  {
  }

  /** The display column a header names, read by name from the row. */
  function DisplayColumn(g: GeneRecord, header: string): string
  {
    if header == "Gene ID" then g.id
    else if header == "Symbol" then g.symbol
    else if header == "Name" then g.name
    else if header == "Chromosome" then g.chromosome
    else if header == "Organism" then g.organism
    else if header == "Protein Name" then g.proteinName
    else if header == "Priority" then PriorityName(g.priority)
    else if header == "Assigned To" then g.assignedTo
    else if header == "Last Modified" then g.lastModified
    else if header == "Status" then StatusName(g.status)
    else ""
  }

  /** The first eleven exported fields sit under their headers: the ten
      display columns those headers name, then the tags. */
  lemma ExportDisplayColumns(g: GeneRecord)
    ensures forall i :: 0 <= i < 10 ==> ExportFields(g)[i] == DisplayColumn(g, ExportHeaders[i])
    ensures ExportHeaders[10] == "Tags" && ExportFields(g)[10] == TagsCell(g.tags)
  {
    var f := ExportFields(g);
    assert f[..11] == [g.id, g.symbol, g.name, g.chromosome, g.organism, g.proteinName, PriorityName(g.priority),
                       g.assignedTo, g.lastModified, StatusName(g.status), TagsCell(g.tags)];
    assert ExportHeaders[..11] == ["Gene ID", "Symbol", "Name", "Chromosome", "Organism", "Protein Name",
                                   "Priority", "Assigned To", "Last Modified", "Status", "Tags"];
    forall i | 0 <= i < 10 ensures f[i] == DisplayColumn(g, ExportHeaders[i]) {
      assert f[i] == f[..11][i] && ExportHeaders[i] == ExportHeaders[..11][i];
    }
  }

  /** The other 25 exported fields are the internal fields in
      `InternalExportKeys` order, as text when truthy and empty otherwise. */
  lemma ExportInternalColumns(g: GeneRecord)
    ensures forall i :: 0 <= i < |InternalExportKeys| ==>
      ExportFields(g)[11 + i] == OrEmpty(Get(g.internal, InternalExportKeys[i]))
    ensures forall i :: 0 <= i < |InternalExportKeys| ==>
      var v := Get(g.internal, InternalExportKeys[i]);
      Truthy(v) && v.Text? ==> ExportFields(g)[11 + i] == v.s
  {
  }

  /** `String(field).includes(',')` and the like: a one-character needle
      occurs exactly when the character does. */
  lemma {:induction false} ContainsChar(s: string, c: char)
    ensures Contains(s, [c]) <==> c in s
  {
    if s != [] {
      ContainsChar(s[1..], c);
      assert s == [s[0]] + s[1..];
    }
  }

  predicate NeedsQuotes(s: string)
  {
    Contains(s, ",") || Contains(s, "\"") || Contains(s, "\n")
  }

  /** `replace(/"/g, '""')`. */
  function DoubleQuotes(s: string): (r: string)
    ensures |r| >= |s|
  {
    if s == [] then []
    else (if s[0] == '"' then "\"\"" else [s[0]]) + DoubleQuotes(s[1..])
  }

  /** The escaping of one field. */
  function EscapeField(s: string): (r: string)
    ensures !NeedsQuotes(s) ==> r == s
    ensures NeedsQuotes(s) ==> |r| >= |s| + 2 && r[0] == '"' && r[|r| - 1] == '"'
  {
    if NeedsQuotes(s) then "\"" + DoubleQuotes(s) + "\"" else s
  }

  /** A field is wrapped in quotes exactly when it holds a comma, a quote or
      a line feed; any other field is written as it is. */
  lemma EscapeFieldSpec(s: string)
    ensures (EscapeField(s) != [] && EscapeField(s)[0] == '"') <==> (',' in s || '"' in s || '\n' in s)
    ensures !(',' in s || '"' in s || '\n' in s) ==> EscapeField(s) == s
  {
    ContainsChar(s, ',');
    ContainsChar(s, '"');
    ContainsChar(s, '\n');
  }

  lemma {:induction false} UnquotedRoundTrip(s: string, c: string)
    requires ',' !in s && '\n' !in s
    requires CsvReader.AtFieldEnd(c)
    ensures CsvReader.ReadUnquoted(s + c) == (s, c)
  {
    if s == [] {
      assert s + c == c;
    } else {
      assert s[0] in s;
      assert (s + c)[0] == s[0] && (s + c)[1..] == s[1..] + c;
      assert ',' !in s[1..] && '\n' !in s[1..];
      UnquotedRoundTrip(s[1..], c);
      assert [s[0]] + s[1..] == s;
    }
  }

  lemma {:induction false} QuotedRoundTrip(s: string, c: string)
    requires c == [] || c[0] != '"'
    ensures CsvReader.ReadQuoted(DoubleQuotes(s) + "\"" + c) == Some((s, c))
  {
    var t := DoubleQuotes(s) + "\"" + c;
    if s == [] {
      assert t == "\"" + c && t[1..] == c;
    } else if s[0] == '"' {
      assert t == "\"\"" + (DoubleQuotes(s[1..]) + "\"" + c);
      QuotedRoundTrip(s[1..], c);
      assert s == "\"" + s[1..];
    } else {
      assert t == [s[0]] + (DoubleQuotes(s[1..]) + "\"" + c);
      QuotedRoundTrip(s[1..], c);
      assert s == [s[0]] + s[1..];
    }
  }

  /** Reading an escaped field back, followed by a separator or the end of
      the text, gives the field and leaves the separator. */
  lemma FieldRoundTrip(s: string, c: string)
    requires CsvReader.AtFieldEnd(c)
    ensures CsvReader.ReadField(EscapeField(s) + c) == Some((s, c))
  {
    if NeedsQuotes(s) {
      QuotedFieldRoundTrip(s, c);
    } else {
      BareFieldRoundTrip(s, c);
    }
  }

  lemma QuotedFieldRoundTrip(s: string, c: string)
    requires CsvReader.AtFieldEnd(c)
    ensures CsvReader.ReadField("\"" + DoubleQuotes(s) + "\"" + c) == Some((s, c))
  {
    var u := DoubleQuotes(s) + "\"" + c;
    assert "\"" + DoubleQuotes(s) + "\"" + c == ['"'] + u;
    assert (['"'] + u)[1..] == u;
    QuotedRoundTrip(s, c);
  }

  lemma BareFieldRoundTrip(s: string, c: string)
    requires CsvReader.AtFieldEnd(c)
    requires !NeedsQuotes(s)
    ensures CsvReader.ReadField(s + c) == Some((s, c))
  {
    ContainsChar(s, ',');
    ContainsChar(s, '"');
    ContainsChar(s, '\n');
    UnquotedRoundTrip(s, c);
    if s != [] {
      assert s[0] in s;
      assert (s + c)[0] == s[0];
    } else {
      assert s + c == c;
    }
  }

  /** Escaped fields, in order. */
  function EscapeFields(fields: seq<string>): (r: seq<string>)
    ensures |r| == |fields|
  {
    seq(|fields|, i requires 0 <= i < |fields| => EscapeField(fields[i]))
  }

  /** One line of the export: the escaped fields joined with commas. */
  function CsvLine(fields: seq<string>): string
  {
    Join(EscapeFields(fields), ",")
  }

  /** The export's text: the header line, then one line per row, joined with
      line feeds and without a final one. */
  function ExportCsv(rows: seq<GeneRecord>): string
  {
    Join(Lines([ExportHeaders] + seq(|rows|, i requires 0 <= i < |rows| => ExportFields(rows[i]))), "\n")
  }

  function Lines(records: seq<seq<string>>): (r: seq<string>)
    ensures |r| == |records|
  {
    seq(|records|, i requires 0 <= i < |records| => CsvLine(records[i]))
  }

  /** `exportData`'s text for the current filters. */
  function ExportData(data: seq<GeneRecord>, term: string, priorityFilter: string, statusFilter: string): string
  {
    ExportCsv(FilteredData(data, term, priorityFilter, statusFilter))
  }

  /** Reading one exported line back gives its fields. */
  lemma {:induction false} RecordRoundTrip(fields: seq<string>, c: string)
    requires |fields| >= 1
    requires c == [] || c[0] == '\n'
    ensures CsvReader.ReadRecord(CsvLine(fields) + c) ==
      Some((fields, if c == [] then None else Some(c[1..])))
  {
    var escaped := EscapeFields(fields);
    if |fields| == 1 {
      assert CsvLine(fields) == EscapeField(fields[0]);
      FieldRoundTrip(fields[0], c);
      assert fields == [fields[0]];
    } else {
      var tail := CsvLine(fields[1..]) + c;
      CsvLineCons(fields, c);
      FieldRoundTrip(fields[0], "," + tail);
      CsvReader.ReadRecordAfterComma(CsvLine(fields) + c, fields[0], tail);
      RecordRoundTrip(fields[1..], c);
      assert fields == [fields[0]] + fields[1..];
    }
  }

  lemma CsvLineCons(fields: seq<string>, c: string)
    requires |fields| >= 2
    ensures CsvLine(fields) + c == EscapeField(fields[0]) + ("," + (CsvLine(fields[1..]) + c))
  {
    var escaped := EscapeFields(fields);
    assert EscapeFields(fields[1..]) == escaped[1..];
  }

  /** Reading the lines of records back gives the records, provided each
      record has a field. */
  lemma {:induction false} LinesRoundTrip(records: seq<seq<string>>)
    requires |records| >= 1
    requires forall i :: 0 <= i < |records| ==> |records[i]| >= 1
    ensures CsvReader.ReadCsv(Join(Lines(records), "\n")) == Some(records)
  {
    var lines := Lines(records);
    if |records| == 1 {
      RecordRoundTrip(records[0], []);
      assert CsvLine(records[0]) + [] == CsvLine(records[0]);
      assert Join(lines, "\n") == lines[0] == CsvLine(records[0]);
      assert records == [records[0]];
    } else {
      var rest := Join(lines[1..], "\n");
      assert Lines(records[1..]) == lines[1..];
      var text := CsvLine(records[0]) + ("\n" + rest);
      assert Join(lines, "\n") == text;
      RecordRoundTrip(records[0], "\n" + rest);
      assert ("\n" + rest)[1..] == rest;
      LinesRoundTrip(records[1..]);
      ReadCsvStep(text, records[0], rest, records[1..]);
      assert records == [records[0]] + records[1..];
    }
  }

  lemma ReadCsvStep(s: string, fields: seq<string>, rest: string, more: seq<seq<string>>)
    requires CsvReader.ReadRecord(s) == Some((fields, Some(rest)))
    requires CsvReader.ReadCsv(rest) == Some(more)
    ensures CsvReader.ReadCsv(s) == Some([fields] + more)
  {
  }

  /** The export loses nothing: read back as comma-separated text it is the
      header line of 36 names and then exactly one record per shown row, in
      order, each that row's 36 fields. */
  lemma ExportRoundTrip(data: seq<GeneRecord>, term: string, priorityFilter: string, statusFilter: string)
    ensures var shown := FilteredData(data, term, priorityFilter, statusFilter);
      CsvReader.ReadCsv(ExportData(data, term, priorityFilter, statusFilter)) ==
        Some([ExportHeaders] + seq(|shown|, i requires 0 <= i < |shown| => ExportFields(shown[i])))
  {
    var shown := FilteredData(data, term, priorityFilter, statusFilter);
    var records := [ExportHeaders] + seq(|shown|, i requires 0 <= i < |shown| => ExportFields(shown[i]));
    forall i | 0 <= i < |records| ensures |records[i]| >= 1 {
      if i > 0 {
        ExportFieldsSpec(shown[i - 1]);
      }
    }
    LinesRoundTrip(records);
  }
}
