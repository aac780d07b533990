/** The main page: the table rows built from the stored genes, the selected
    gene's lookup, and the gene selection flow (local hit, or external fetch
    and save). */
module IndexPage {
  import opened Strings
  import opened Options
  import opened JsValues
  import opened GenesHook
  import GeneTable

  // ---------------------------------------------------------------------
  // Table rows
  // ---------------------------------------------------------------------

  /** `tags?.includes(t)`: membership for an array of tags; a string is
      searched for the text; anything else does not include it. */
  predicate TagsInclude(tags: Value, t: string)
  {
    match tags
    case TagList(items) => t in items
    case Text(s) => Contains(s, t)
    case _ => false
  }

  function TagsOf(gene: GeneData): Value
  {
    if gene.internal.Some? then Get(gene.internal.value.fields, "tags") else Undefined
  }

  function PriorityOf(tags: Value): (r: GeneTable.Priority)
    ensures TagsInclude(tags, "high-priority") ==> r == GeneTable.High
    ensures r == GeneTable.Medium ==> TagsInclude(tags, "medium-priority")
  {
    if TagsInclude(tags, "high-priority") then GeneTable.High
    else if TagsInclude(tags, "medium-priority") then GeneTable.Medium
    else GeneTable.Low
  }

  function StatusOf(tags: Value): (r: GeneTable.Status)
    ensures TagsInclude(tags, "complete") ==> r == GeneTable.Complete
    ensures r == GeneTable.Partial ==> TagsInclude(tags, "partial")
  {
    if TagsInclude(tags, "complete") then GeneTable.Complete
    else if TagsInclude(tags, "partial") then GeneTable.Partial
    else GeneTable.Pending
  }

  /** The priority follows the first of "high-priority", "medium-priority"
      the tags include; High wins when both are there. */
  lemma PriorityRule(tags: Value)
    ensures PriorityOf(tags) == GeneTable.High <==> TagsInclude(tags, "high-priority")
    ensures PriorityOf(tags) == GeneTable.Medium <==>
      !TagsInclude(tags, "high-priority") && TagsInclude(tags, "medium-priority")
    ensures PriorityOf(tags) == GeneTable.Low <==>
      !TagsInclude(tags, "high-priority") && !TagsInclude(tags, "medium-priority")
  {
  }

  /** The status follows the first of "complete", "partial" the tags
      include; Complete wins when both are there. */
  lemma StatusRule(tags: Value)
    ensures StatusOf(tags) == GeneTable.Complete <==> TagsInclude(tags, "complete")
    ensures StatusOf(tags) == GeneTable.Partial <==>
      !TagsInclude(tags, "complete") && TagsInclude(tags, "partial")
    ensures StatusOf(tags) == GeneTable.Pending <==>
      !TagsInclude(tags, "complete") && !TagsInclude(tags, "partial")
  {
  }

  /** The chromosome column: `genomic_pos.chr`, or "N/A" when there is no
      genomic position or its `chr` is falsy. */
  function Chromosome(gene: Gene): string
  {
    if gene.genomicPos.Some? && Truthy(gene.genomicPos.value) then JsString(gene.genomicPos.value) else "N/A"
  }

  /** The internal fields the row carries for the export, by name. */
  function ExportedInternal(gene: GeneData): map<string, Value>
  {
    if gene.internal.None? then map[]
    else
      var fields := gene.internal.value.fields;
      map k | k in fields && k in GeneTable.InternalExportKeys :: fields[k]
  }

  /** The time the "Last Modified" column shows: the internal fields' update
      time if set, else the gene's. */
  function LastModifiedTime(gene: GeneData): string
  {
    if gene.internal.Some? && gene.internal.value.updated_at != "" then gene.internal.value.updated_at
    else gene.gene.updated_at
  }

  /** One table row; `formatDate` stands for the locale date formatting. */
  function TableRowOf(gene: GeneData, formatDate: string -> string): (r: GeneTable.GeneRecord)
    ensures r.id == gene.gene.id && r.symbol == gene.gene.symbol && r.organism == "Homo sapiens"
    ensures gene.internal.None? ==> r.assignedTo == "" && r.tags == TagList([]) && r.internal == map[]
    ensures forall k :: k in r.internal ==> k in GeneTable.InternalExportKeys
  {
    var g := gene.gene;
    var internal := if gene.internal.Some? then gene.internal.value.fields else map[];
    var tags := TagsOf(gene);
    GeneTable.GeneRecord(
      g.id, g.symbol, TextOr(g.name, "Unknown"), Chromosome(g), "Homo sapiens", TextOr(g.description, "N/A"),
      PriorityOf(tags), TextOr(Get(internal, "assigned_to"), ""), formatDate(LastModifiedTime(gene)),
      StatusOf(tags), Or(tags, TagList([])), ExportedInternal(gene))
  }

  /** `tableData`. */
  function TableData(genes: seq<GeneData>, formatDate: string -> string): (r: seq<GeneTable.GeneRecord>)
    ensures |r| == |genes|
  {
    seq(|genes|, i requires 0 <= i < |genes| => TableRowOf(genes[i], formatDate))
  }

  /** One row per gene, in order, with the gene's id and symbol, and the
      priority and status its tags give (see PriorityRule and StatusRule);
      a gene without internal fields shows priority Low, status Pending, no
      assignee and no tags; the organism is always "Homo sapiens". */
  lemma TableDataSpec(genes: seq<GeneData>, formatDate: string -> string)
    ensures |TableData(genes, formatDate)| == |genes|
    ensures forall i :: 0 <= i < |genes| ==>
      var row := TableData(genes, formatDate)[i];
      && row.id == genes[i].gene.id
      && row.symbol == genes[i].gene.symbol
      && row.organism == "Homo sapiens"
      && row.priority == PriorityOf(TagsOf(genes[i]))
      && row.status == StatusOf(TagsOf(genes[i]))
      && (genes[i].internal.None? ==>
            row.priority == GeneTable.Low && row.status == GeneTable.Pending &&
            row.assignedTo == "" && row.tags == TagList([]))
  {
  }

  /** The text columns fall back to their defaults exactly when the stored
      value is missing or falsy, and show the stored text otherwise. */
  lemma TableRowDefaults(gene: GeneData, formatDate: string -> string)
    ensures !Truthy(gene.gene.name) ==> TableRowOf(gene, formatDate).name == "Unknown"
    ensures gene.gene.name.Text? && gene.gene.name.s != "" ==> TableRowOf(gene, formatDate).name == gene.gene.name.s
    ensures !Truthy(gene.gene.description) ==> TableRowOf(gene, formatDate).proteinName == "N/A"
    ensures gene.gene.description.Text? && gene.gene.description.s != "" ==>
      TableRowOf(gene, formatDate).proteinName == gene.gene.description.s
    ensures gene.gene.genomicPos.None? ==> TableRowOf(gene, formatDate).chromosome == "N/A"
    ensures gene.gene.genomicPos.Some? && !Truthy(gene.gene.genomicPos.value) ==>
      TableRowOf(gene, formatDate).chromosome == "N/A"
    ensures gene.gene.genomicPos.Some? && gene.gene.genomicPos.value.Text? && gene.gene.genomicPos.value.s != "" ==>
      TableRowOf(gene, formatDate).chromosome == gene.gene.genomicPos.value.s
  {
  }

  // ---------------------------------------------------------------------
  // Lookups
  // ---------------------------------------------------------------------

  /** `genes.find(g => g.symbol.toLowerCase() === symbol.toLowerCase())`. */
  function FindBySymbol(genes: seq<GeneData>, symbol: string): (r: Option<GeneData>)
    ensures r.None? <==> forall k :: 0 <= k < |genes| ==> ToLower(genes[k].gene.symbol) != ToLower(symbol)
    ensures r.Some? ==> r.value in genes && ToLower(r.value.gene.symbol) == ToLower(symbol)
  {
    if genes == [] then None
    else if ToLower(genes[0].gene.symbol) == ToLower(symbol) then Some(genes[0])
    else FindBySymbol(genes[1..], symbol)
  }

  /** The lookup is the first gene whose symbol matches ignoring case. */
  lemma {:induction false} FindBySymbolFirst(genes: seq<GeneData>, symbol: string, i: nat)
    requires i < |genes| && ToLower(genes[i].gene.symbol) == ToLower(symbol)
    requires forall j :: 0 <= j < i ==> ToLower(genes[j].gene.symbol) != ToLower(symbol)
    ensures FindBySymbol(genes, symbol) == Some(genes[i])
  {
    if i > 0 {
      FindBySymbolFirst(genes[1..], symbol, i - 1);
    }
  }

  /** The lookup ignores the case of the typed symbol. */
  lemma FindBySymbolIgnoresCase(genes: seq<GeneData>, symbol: string)
    ensures FindBySymbol(genes, ToLower(symbol)) == FindBySymbol(genes, symbol)
  {
    ToLowerIdempotent(symbol);
    FindBySymbolSameKey(genes, ToLower(symbol), symbol);
  }

  lemma {:induction false} FindBySymbolSameKey(genes: seq<GeneData>, a: string, b: string)
    requires ToLower(a) == ToLower(b)
    ensures FindBySymbol(genes, a) == FindBySymbol(genes, b)
  {
    if genes != [] {
      FindBySymbolSameKey(genes[1..], a, b);
    }
  }

  lemma BrcaLowered()
    ensures ToLower("BRCA1") == "brca1"
  {
    var r := ToLower("BRCA1");
    assert r[0] == 'b' && r[1] == 'r' && r[2] == 'c' && r[3] == 'a' && r[4] == '1';
  }

  /** Searching "brca1" finds the stored gene "BRCA1", and with no
      earlier match it is that gene that is selected. */
  lemma LowercaseSearchFinds(genes: seq<GeneData>, i: nat)
    requires i < |genes| && genes[i].gene.symbol == "BRCA1"
    requires forall j :: 0 <= j < i ==> ToLower(genes[j].gene.symbol) != "brca1"
    ensures FindBySymbol(genes, "brca1") == Some(genes[i])
  {
    var lower := "brca1";
    BrcaLowered();
    ToLowerIdempotent("BRCA1");
    FindBySymbolFirst(genes, lower, i);
  }

  /** `genes.find(g => g.id === id)`. */
  function FindById(genes: seq<GeneData>, id: string): (r: Option<GeneData>)
    ensures r.None? <==> forall k :: 0 <= k < |genes| ==> genes[k].gene.id != id
    ensures r.Some? ==> r.value in genes && r.value.gene.id == id
  {
    if genes == [] then None
    else if genes[0].gene.id == id then Some(genes[0])
    else FindById(genes[1..], id)
  }

  /** `selectedGeneData`: nothing when no gene (or the empty id) is selected. */
  function SelectedGeneData(selected: Option<string>, genes: seq<GeneData>): (r: Option<GeneData>)
    ensures r.Some? ==> selected.Some? && r.value in genes && r.value.gene.id == selected.value
    ensures selected.Some? && selected.value != "" && (exists k :: 0 <= k < |genes| && genes[k].gene.id == selected.value) ==> r.Some?
  {
    if selected.Some? && selected.value != "" then FindById(genes, selected.value) else None
  }

  // ---------------------------------------------------------------------
  // Gene selection
  // ---------------------------------------------------------------------

  /** A hit of the external gene service: the properties the page reads. */
  datatype Hit = Hit(symbol: Value, entrezgene: Value, name: Value, summary: Value)

  /** The gene `saveGene` is asked to store. */
  datatype NewGene = NewGene(symbol: string, entrez_id: Value, name: Value, description: Value)

  /** The gene built from the first hit: the hit's symbol if it has one,
      else the typed symbol; the Entrez id as text. */
  function NewGeneFrom(hit: Hit, typed: string): (r: NewGene)
    ensures Truthy(hit.symbol) && hit.symbol.Text? ==> r.symbol == hit.symbol.s
    ensures !Truthy(hit.symbol) ==> r.symbol == typed
    ensures r.name == hit.name && r.description == hit.summary
    ensures hit.entrezgene.Undefined? <==> r.entrez_id.Undefined?
  {
    NewGene(if Truthy(hit.symbol) then JsString(hit.symbol) else typed,
            if hit.entrezgene.Undefined? then Undefined else Text(JsString(hit.entrezgene)),
            hit.name, hit.summary)
  }

  /** The reply of `saveGene`: it throws, or returns the stored row (whose id
      is kept here) or nothing. */
  datatype SaveReply = SaveThrows | SavedRow(id: string) | SavedNothing

  /** The calls the flow makes to the hook, in order. */
  datatype Call = FetchExternal(symbol: string) | SaveGene(gene: NewGene)

  /** The notifications the flow shows, in order. */
  datatype Notice = Fetching(symbol: string) | NotFound(symbol: string) | FetchFailed

  datatype Tab = SearchTab | DetailsTab | BrowseTab

  class IndexState {
    var selectedGene: Option<string>
    var activeTab: Tab

    constructor ()
      ensures selectedGene == None && activeTab == SearchTab
    {
      selectedGene, activeTab := None, SearchTab;
    }

    /** Choosing a row in the table selects its gene. */
    method OnRowSelect(id: string)
      modifies this
      ensures selectedGene == Some(id) && activeTab == old(activeTab)
    {
      selectedGene := Some(id);
    }

    /** `handleGeneSelect(symbol)` with the stored `genes`, the external
        service's hits (None when it returned nothing) and the reply of the
        save. A stored gene with the symbol, ignoring case, is selected with
        no call made; otherwise the external service is asked, and with a
        hit the first one is saved and, when a row comes back, selected;
        with no hit "not found" is shown and nothing changes. */
    method HandleGeneSelect(symbol: string, genes: seq<GeneData>, hits: Option<seq<Hit>>, saveReply: SaveReply)
      returns (calls: seq<Call>, notices: seq<Notice>)
      modifies this
      ensures FindBySymbol(genes, symbol).Some? ==>
        && calls == [] && notices == []
        && selectedGene == Some(FindBySymbol(genes, symbol).value.gene.id) && activeTab == DetailsTab
      ensures FindBySymbol(genes, symbol).None? && (hits.None? || hits.value == []) ==>
        && calls == [FetchExternal(symbol)] && notices == [Fetching(symbol), NotFound(symbol)]
        && selectedGene == old(selectedGene) && activeTab == old(activeTab)
      ensures FindBySymbol(genes, symbol).None? && hits.Some? && hits.value != [] ==>
        && calls == [FetchExternal(symbol), SaveGene(NewGeneFrom(hits.value[0], symbol))]
        && (saveReply.SavedRow? ==>
              notices == [Fetching(symbol)] && selectedGene == Some(saveReply.id) && activeTab == DetailsTab)
        && (saveReply.SavedNothing? ==>
              notices == [Fetching(symbol)] && selectedGene == old(selectedGene) && activeTab == old(activeTab))
        && (saveReply.SaveThrows? ==>
              notices == [Fetching(symbol), FetchFailed] && selectedGene == old(selectedGene) && activeTab == old(activeTab))
    {
      calls, notices := [], [];
      var existing := FindBySymbol(genes, symbol);
      if existing.Some? {
        selectedGene := Some(existing.value.gene.id);
        activeTab := DetailsTab;
        return;
      }
      notices := notices + [Fetching(symbol)];
      calls := calls + [FetchExternal(symbol)];
      if hits.Some? && |hits.value| > 0 {
        var geneInfo := hits.value[0];
        calls := calls + [SaveGene(NewGeneFrom(geneInfo, symbol))];
        match saveReply
        case SaveThrows =>
          notices := notices + [FetchFailed];
        case SavedRow(id) =>
          selectedGene := Some(id);
          activeTab := DetailsTab;
        case SavedNothing =>
      } else {
        notices := notices + [NotFound(symbol)];
      }
    }
  }
}
