/** The CSV import dialog: what happens to the rows the CSV library returns,
    the per-row validation for gene and clone files, the all-or-nothing gate
    in front of the bulk import, and the dialog's import state. */
module CsvImport {
  import opened Strings
  import opened Sequences
  import opened Options
  import opened JsValues

  // ---------------------------------------------------------------------
  // Header normalisation and blank rows
  // ---------------------------------------------------------------------

  /** `header.toLowerCase().replace(/\s+/g, '_')`. */
  function TransformHeader(header: string): (r: string)
    ensures NoWhitespace(r) && |r| <= |header|
  {
    CollapseWhitespace(ToLower(header))
  }

  /** `replace(/\s+/g, '_')`: every maximal run of white space becomes one
      underscore. */
  function CollapseWhitespace(s: string): (r: string)
    ensures NoWhitespace(r)
    ensures |r| <= |s|
    decreases |s|
  {
    if s == [] then []
    else if IsWhitespace(s[0]) then "_" + CollapseWhitespace(TrimStart(s))
    else [s[0]] + CollapseWhitespace(s[1..])
  }

  /** Text without white space is left alone. */
  lemma {:induction false} CollapseNoWhitespace(s: string)
    requires NoWhitespace(s)
    ensures CollapseWhitespace(s) == s
  {
    if s != [] {
      CollapseNoWhitespace(s[1..]);
    }
  }

  /** A white-space run between a white-space-free part and a part that does
      not start with white space turns into exactly one underscore. With
      `CollapseNoWhitespace` this pins the result down for every input. */
  lemma CollapseRun(a: string, w: string, b: string)
    requires NoWhitespace(a)
    requires w != [] && AllWhitespace(w)
    requires b == [] || !IsWhitespace(b[0])
    ensures CollapseWhitespace(a + w + b) == a + "_" + CollapseWhitespace(b)
  {
    var c := CollapseWhitespace(b);
    CollapsePrefix(a, w + b);
    CollapseRunAtStart(w, b);
    assert a + w + b == a + (w + b);
    assert a + ("_" + c) == a + "_" + c;
  }

  /** White-space-free text in front passes through unchanged. */
  lemma {:induction false} CollapsePrefix(a: string, s: string)
    requires NoWhitespace(a)
    ensures CollapseWhitespace(a + s) == a + CollapseWhitespace(s)
  {
    if a == [] {
      assert a + s == s;
    } else {
      var t := a + s;
      assert t[0] == a[0] && t[1..] == a[1..] + s;
      NoWhitespaceTail(a);
      CollapsePrefix(a[1..], s);
      CollapseNonWhitespaceHead(t);
      ConsConcat(a, CollapseWhitespace(s));
    }
  }

  lemma CollapseRunAtStart(w: string, b: string)
    requires w != [] && AllWhitespace(w)
    requires b == [] || !IsWhitespace(b[0])
    ensures CollapseWhitespace(w + b) == "_" + CollapseWhitespace(b)
  {
    TrimStartSkips(w, b);
    CollapseWhitespaceHead(w + b);
  }

  lemma NoWhitespaceTail(a: string)
    requires a != [] && NoWhitespace(a)
    ensures !IsWhitespace(a[0]) && NoWhitespace(a[1..])
  {
    assert forall i :: 0 <= i < |a| - 1 ==> a[1..][i] == a[i + 1];
  }

  lemma ConsConcat(a: string, c: string)
    requires a != []
    ensures [a[0]] + (a[1..] + c) == a + c
  {
    assert a == [a[0]] + a[1..];
  }

  lemma CollapseWhitespaceHead(s: string)
    requires s != [] && IsWhitespace(s[0])
    ensures CollapseWhitespace(s) == "_" + CollapseWhitespace(TrimStart(s))
  {
  }

  lemma CollapseNonWhitespaceHead(s: string)
    requires s != [] && !IsWhitespace(s[0])
    ensures CollapseWhitespace(s) == [s[0]] + CollapseWhitespace(s[1..])
  {
  }

  /** A normalised header holds no white space and no upper-case letter, and
      normalising it again changes nothing. */
  lemma TransformHeaderNormal(header: string)
    ensures NoWhitespace(TransformHeader(header))
    ensures forall i :: 0 <= i < |TransformHeader(header)| ==> !IsUpper(TransformHeader(header)[i])
    ensures TransformHeader(TransformHeader(header)) == TransformHeader(header)
  {
    var lower := ToLower(header);
    CollapseKeepsLower(lower);
    var h := TransformHeader(header);
    assert ToLower(h) == h;
    CollapseNoWhitespace(h);
  }

  lemma {:induction false} CollapseKeepsLower(s: string)
    requires forall i :: 0 <= i < |s| ==> !IsUpper(s[i])
    ensures forall i :: 0 <= i < |CollapseWhitespace(s)| ==> !IsUpper(CollapseWhitespace(s)[i])
    decreases |s|
  {
    if s != [] {
      if IsWhitespace(s[0]) {
        CollapseKeepsLower(TrimStart(s));
      } else {
        CollapseKeepsLower(s[1..]);
      }
    }
  }

  /** A row as the CSV library hands it over with `header: true`: normalised
      column name to cell text. A column the line does not reach is absent,
      which the source reads as `undefined`. */
  type Row = map<string, string>

  /** Some cell is neither null, undefined nor the empty string. The library
      produces only strings, so this is "some cell is non-empty". */
  predicate HasContent(row: Row)
  {
    exists k :: k in row && row[k] != ""
  }

  /** The blank-row filter applied to the parsed rows. */
  function DropBlankRows(rows: seq<Row>): (r: seq<Row>)
    ensures |r| <= |rows|
    ensures forall i :: 0 <= i < |r| ==> HasContent(r[i])
  {
    Filter(rows, HasContent)
  }

  /** The filter keeps a row exactly when one of its cells is non-empty,
      keeps the original order, and a second pass changes nothing. */
  lemma DropBlankRowsSpec(rows: seq<Row>)
    ensures forall r :: r in DropBlankRows(rows) <==> r in rows && HasContent(r)
    ensures IsSubsequence(DropBlankRows(rows), rows)
    ensures DropBlankRows(DropBlankRows(rows)) == DropBlankRows(rows)
  {
    forall r ensures r in DropBlankRows(rows) <==> r in rows && HasContent(r) {
      FilterMembers(rows, HasContent, r);
    }
    FilterIsSubsequence(rows, HasContent);
    FilterIdempotent(rows, HasContent);
  }

  // ---------------------------------------------------------------------
  // Row validation
  // ---------------------------------------------------------------------

  /** `!row[key]` is false: the column is present with a non-empty value. */
  predicate Present(row: Row, key: string)
  {
    key in row && row[key] != ""
  }

  /** Reading an optional column: `undefined` when the column is absent. */
  function Cell(row: Row, key: string): Option<string>
  {
    if key in row then Some(row[key]) else None
  }

  datatype Problem = SymbolRequired | SymbolAndCloneIdRequired | InvalidConcentration

  /** A validation error for the row with the given 1-based number. */
  datatype RowError = RowError(row: nat, problem: Problem)

  function DigitChar(d: nat): char
    requires d < 10
  {
    (48 + d) as char
  }

  /** Decimal text of a natural number, as template literals print it. */
  function NatToString(n: nat): (r: string)
    ensures r != []
  {
    if n < 10 then [DigitChar(n)] else NatToString(n / 10) + [DigitChar(n % 10)]
  }

  /** The message the dialog shows for an error. */
  function Message(e: RowError): string
  {
    "Row " + NatToString(e.row) + ": " +
    match e.problem
    case SymbolRequired => "Gene symbol is required"
    case SymbolAndCloneIdRequired => "Gene symbol and clone ID are required"
    case InvalidConcentration => "Invalid concentration value"
  }

  function Messages(es: seq<RowError>): (r: seq<string>)
    ensures |r| == |es|
  {
    seq(|es|, i requires 0 <= i < |es| => Message(es[i]))
  }

  /** The columns a gene file may carry; a valid row keeps these and no other. */
  const GeneColumns: seq<string> :=
    ["symbol", "name", "entrezgene", "chromosome", "map_location", "type_of_gene", "summary"]

  /** A validated gene row. */
  datatype ParsedGene = ParsedGene(
    symbol: string,
    name: Option<string>,
    entrezgene: Option<string>,
    chromosome: Option<string>,
    map_location: Option<string>,
    type_of_gene: Option<string>,
    summary: Option<string>)

  /** The object pushed for an accepted gene row. */
  function GeneOf(row: Row): ParsedGene
    requires "symbol" in row
  {
    ParsedGene(row["symbol"], Cell(row, "name"), Cell(row, "entrezgene"), Cell(row, "chromosome"),
               Cell(row, "map_location"), Cell(row, "type_of_gene"), Cell(row, "summary"))
  }

  /** Two rows that agree on the seven gene columns give the same gene:
      every other column of the file is dropped. */
  lemma GeneOfReadsOnlyGeneColumns(row1: Row, row2: Row)
    requires "symbol" in row1 && "symbol" in row2
    requires forall k :: k in GeneColumns ==> (k in row1 <==> k in row2) && (k in row1 ==> row1[k] == row2[k])
    ensures GeneOf(row1) == GeneOf(row2)
  {
    assert GeneColumns[0] == "symbol" && GeneColumns[1] == "name" && GeneColumns[2] == "entrezgene";
    assert GeneColumns[3] == "chromosome" && GeneColumns[4] == "map_location";
    assert GeneColumns[5] == "type_of_gene" && GeneColumns[6] == "summary";
  }

  /** A validated clone row; the concentration is the number `parseFloat`
      read, or undefined when the column was empty or absent. */
  datatype ParsedClone = ParsedClone(
    gene_symbol: string,
    clone_id: string,
    vector: Option<string>,
    bacterial_strain: Option<string>,
    antibiotic_resistance: Option<string>,
    concentration: Option<Num>,
    location: Option<string>,
    notes: Option<string>,
    priority: Option<string>,
    status: Option<string>)

  /** The outcome of checking one row: the object pushed to the valid list,
      or the error pushed to the error list. */
  datatype Outcome<T> = Accepted(value: T) | Rejected(error: RowError)

  /** The body of the `forEach` in `validateGeneData` for the row at `index`. */
  function CheckGeneRow(row: Row, index: nat): (r: Outcome<ParsedGene>)
    ensures r.Rejected? <==> !Present(row, "symbol")
    ensures r.Rejected? ==> r.error.row == index + 1 && r.error.problem == SymbolRequired
    ensures r.Accepted? ==> r.value.symbol == row["symbol"] && r.value.symbol != ""
  {
    if !Present(row, "symbol") then Rejected(RowError(index + 1, SymbolRequired))
    else Accepted(GeneOf(row))
  }

  /** The body of the `forEach` in `validateCloneData` for the row at `index`:
      the required columns first, the concentration only after them. */
  function CheckCloneRow(row: Row, index: nat): (r: Outcome<ParsedClone>)
    ensures r.Rejected? ==> r.error.row == index + 1 && r.error.problem != SymbolRequired
    ensures r.Accepted? ==> Present(row, "gene_symbol") && Present(row, "clone_id")
    ensures r.Accepted? ==> r.value.gene_symbol == row["gene_symbol"] && r.value.clone_id == row["clone_id"]
    ensures r.Accepted? && r.value.concentration.Some? ==> r.value.concentration.value != NaN
    ensures r.Accepted? ==> (r.value.concentration.None? <==> !Present(row, "concentration"))
  {
    if !Present(row, "gene_symbol") || !Present(row, "clone_id") then
      Rejected(RowError(index + 1, SymbolAndCloneIdRequired))
    else if Present(row, "concentration") && ParseFloat(row["concentration"]) == NaN then
      Rejected(RowError(index + 1, InvalidConcentration))
    else
      var concentration := if Present(row, "concentration") then Some(ParseFloat(row["concentration"])) else None;
      Accepted(ParsedClone(row["gene_symbol"], row["clone_id"], Cell(row, "vector"),
                           Cell(row, "bacterial_strain"), Cell(row, "antibiotic_resistance"), concentration,
                           Cell(row, "location"), Cell(row, "notes"), Cell(row, "priority"), Cell(row, "status")))
  }

  function GeneOutcomes(data: seq<Row>): (r: seq<Outcome<ParsedGene>>)
    ensures |r| == |data|
  {
    seq(|data|, i requires 0 <= i < |data| => CheckGeneRow(data[i], i))
  }

  function CloneOutcomes(data: seq<Row>): (r: seq<Outcome<ParsedClone>>)
    ensures |r| == |data|
  {
    seq(|data|, i requires 0 <= i < |data| => CheckCloneRow(data[i], i))
  }

  /** The accepted objects, in row order. */
  function AcceptedValues<T>(outs: seq<Outcome<T>>): seq<T>
  {
    if outs == [] then []
    else
      var last := outs[|outs| - 1];
      AcceptedValues(outs[..|outs| - 1]) + (if last.Accepted? then [last.value] else [])
  }

  /** The errors, in row order. */
  function RejectedErrors<T>(outs: seq<Outcome<T>>): seq<RowError>
  {
    if outs == [] then []
    else
      var last := outs[|outs| - 1];
      RejectedErrors(outs[..|outs| - 1]) + (if last.Rejected? then [last.error] else [])
  }

  lemma AcceptedSnoc<T>(outs: seq<Outcome<T>>, o: Outcome<T>)
    ensures AcceptedValues(outs + [o]) == AcceptedValues(outs) + (if o.Accepted? then [o.value] else [])
  {
    assert (outs + [o])[..|outs|] == outs;
  }

  lemma RejectedSnoc<T>(outs: seq<Outcome<T>>, o: Outcome<T>)
    ensures RejectedErrors(outs + [o]) == RejectedErrors(outs) + (if o.Rejected? then [o.error] else [])
  {
    assert (outs + [o])[..|outs|] == outs;
  }

  /** Each row lands in exactly one of the two lists. */
  lemma {:induction false} PartitionSizes<T>(outs: seq<Outcome<T>>)
    ensures |AcceptedValues(outs)| + |RejectedErrors(outs)| == |outs|
  {
    if outs != [] {
      PartitionSizes(outs[..|outs| - 1]);
    }
  }

  /** Every rejected outcome at position i names row i + 1. */
  predicate Numbered<T>(outs: seq<Outcome<T>>)
  {
    forall i :: 0 <= i < |outs| && outs[i].Rejected? ==> outs[i].error.row == i + 1
  }

  /** The error list holds exactly the errors of the rejected rows, in
      strictly increasing row order, so no row has two errors. */
  lemma RejectedErrorsSpec<T>(outs: seq<Outcome<T>>)
    requires Numbered(outs)
    ensures forall e :: e in RejectedErrors(outs) ==>
      1 <= e.row <= |outs| && outs[e.row - 1] == Rejected(e)
    ensures forall i :: 0 <= i < |outs| && outs[i].Rejected? ==> outs[i].error in RejectedErrors(outs)
    ensures forall j, k :: 0 <= j < k < |RejectedErrors(outs)| ==>
      RejectedErrors(outs)[j].row < RejectedErrors(outs)[k].row
  {
    RejectedErrorsSound(outs);
    RejectedErrorsComplete(outs);
    RejectedErrorsIncreasing(outs);
  }

  lemma {:induction false} RejectedErrorsSound<T>(outs: seq<Outcome<T>>)
    requires Numbered(outs)
    ensures forall e :: e in RejectedErrors(outs) ==>
      1 <= e.row <= |outs| && outs[e.row - 1] == Rejected(e)
  {
    if outs != [] {
      var init := outs[..|outs| - 1];
      var last := outs[|outs| - 1];
      assert Numbered(init) by {
        assert forall i :: 0 <= i < |init| ==> init[i] == outs[i];
      }
      RejectedErrorsSound(init);
      assert outs == init + [outs[|outs| - 1]];
      RejectedSnoc(init, outs[|outs| - 1]);
      forall e | e in RejectedErrors(outs) ensures 1 <= e.row <= |outs| && outs[e.row - 1] == Rejected(e) {
        if e in RejectedErrors(init) {
          assert init[e.row - 1] == outs[e.row - 1];
        }
      }
    }
  }

  lemma {:induction false} RejectedErrorsComplete<T>(outs: seq<Outcome<T>>)
    ensures forall i :: 0 <= i < |outs| && outs[i].Rejected? ==> outs[i].error in RejectedErrors(outs)
  {
    if outs != [] {
      var init := outs[..|outs| - 1];
      RejectedErrorsComplete(init);
      assert outs == init + [outs[|outs| - 1]];
      RejectedSnoc(init, outs[|outs| - 1]);
      forall i | 0 <= i < |outs| && outs[i].Rejected? ensures outs[i].error in RejectedErrors(outs) {
        if i < |init| {
          assert init[i] == outs[i];
        }
      }
    }
  }

  lemma {:induction false} RejectedErrorsIncreasing<T>(outs: seq<Outcome<T>>)
    requires Numbered(outs)
    ensures forall j, k :: 0 <= j < k < |RejectedErrors(outs)| ==>
      RejectedErrors(outs)[j].row < RejectedErrors(outs)[k].row
  {
    if outs != [] {
      var init := outs[..|outs| - 1];
      var last := outs[|outs| - 1];
      assert Numbered(init) by {
        assert forall i :: 0 <= i < |init| ==> init[i] == outs[i];
      }
      RejectedErrorsIncreasing(init);
      RejectedErrorsSound(init);
      assert outs == init + [outs[|outs| - 1]];
      RejectedSnoc(init, outs[|outs| - 1]);
      var errs, before := RejectedErrors(outs), RejectedErrors(init);
      forall j, k | 0 <= j < k < |errs| ensures errs[j].row < errs[k].row {
        if k < |before| {
          assert errs[j] == before[j] && errs[k] == before[k];
        } else {
          assert errs[j] == before[j] && before[j] in before;
          assert errs[k] == last.error && last.error.row == |outs|;
        }
      }
    }
  }

  lemma GeneOutcomesNumbered(data: seq<Row>)
    ensures Numbered(GeneOutcomes(data))
  {
  }

  lemma CloneOutcomesNumbered(data: seq<Row>)
    ensures Numbered(CloneOutcomes(data))
  {
  }

  /** Outcomes of a prefix extended by one row. */
  lemma GeneOutcomesSnoc(data: seq<Row>, i: nat)
    requires i < |data|
    ensures GeneOutcomes(data[..i + 1]) == GeneOutcomes(data[..i]) + [CheckGeneRow(data[i], i)]
  {
  }

  lemma CloneOutcomesSnoc(data: seq<Row>, i: nat)
    requires i < |data|
    ensures CloneOutcomes(data[..i + 1]) == CloneOutcomes(data[..i]) + [CheckCloneRow(data[i], i)]
  {
  }

  /** `validateGeneData`: one pass over the rows, pushing either the gene or
      the error. */
  method ValidateGeneData(data: seq<Row>) returns (valid: seq<ParsedGene>, errors: seq<RowError>)
    ensures valid == AcceptedValues(GeneOutcomes(data))
    ensures errors == RejectedErrors(GeneOutcomes(data))
  {
    valid, errors := [], [];
    for i := 0 to |data|
      invariant valid == AcceptedValues(GeneOutcomes(data[..i]))
      invariant errors == RejectedErrors(GeneOutcomes(data[..i]))
    {
      GeneOutcomesSnoc(data, i);
      AcceptedSnoc(GeneOutcomes(data[..i]), CheckGeneRow(data[i], i));
      RejectedSnoc(GeneOutcomes(data[..i]), CheckGeneRow(data[i], i));
      var row := data[i];
      if !Present(row, "symbol") {
        errors := errors + [RowError(i + 1, SymbolRequired)];
      } else {
        valid := valid + [GeneOf(row)];
      }
    }
    assert data[..|data|] == data;
  }

  /** `validateCloneData`: as above, with the concentration check after the
      required columns. */
  method ValidateCloneData(data: seq<Row>) returns (valid: seq<ParsedClone>, errors: seq<RowError>)
    ensures valid == AcceptedValues(CloneOutcomes(data))
    ensures errors == RejectedErrors(CloneOutcomes(data))
  {
    valid, errors := [], [];
    for i := 0 to |data|
      invariant valid == AcceptedValues(CloneOutcomes(data[..i]))
      invariant errors == RejectedErrors(CloneOutcomes(data[..i]))
    {
      CloneOutcomesSnoc(data, i);
      AcceptedSnoc(CloneOutcomes(data[..i]), CheckCloneRow(data[i], i));
      RejectedSnoc(CloneOutcomes(data[..i]), CheckCloneRow(data[i], i));
      var row := data[i];
      if !Present(row, "gene_symbol") || !Present(row, "clone_id") {
        errors := errors + [RowError(i + 1, SymbolAndCloneIdRequired)];
        continue;
      }
      var concentration := if Present(row, "concentration") then Some(ParseFloat(row["concentration"])) else None;
      if Present(row, "concentration") && concentration.value == NaN {
        errors := errors + [RowError(i + 1, InvalidConcentration)];
        continue;
      }
      valid := valid + [ParsedClone(row["gene_symbol"], row["clone_id"], Cell(row, "vector"),
                                    Cell(row, "bacterial_strain"), Cell(row, "antibiotic_resistance"), concentration,
                                    Cell(row, "location"), Cell(row, "notes"), Cell(row, "priority"), Cell(row, "status"))];
    }
    assert data[..|data|] == data;
  }

  predicate HasSymbol(row: Row)
  {
    Present(row, "symbol")
  }

  /** The accepted genes are the rows that have a symbol, in input order,
      each copied by `GeneOf`. */
  lemma {:induction false} AcceptedGenesAreFiltered(data: seq<Row>)
    ensures var kept := Filter(data, HasSymbol);
      AcceptedValues(GeneOutcomes(data)) == seq(|kept|, i requires 0 <= i < |kept| => GeneOf(kept[i]))
  {
    if data != [] {
      var n := |data| - 1;
      var init := data[..n];
      AcceptedGenesAreFiltered(init);
      assert data == init + [data[n]];
      GeneOutcomesSnoc(data, n);
      assert GeneOutcomes(data)[..n] == GeneOutcomes(init);
      FilterSnoc(init, data[n], HasSymbol);
    }
  }

  /** `validateGeneData`'s result: every row lands in exactly one list; a row
      is rejected exactly when its symbol is missing or empty, with the error
      "Row i+1: Gene symbol is required"; the errors keep row order; the valid
      genes are the rows with a symbol, in order. */
  lemma ValidateGeneSpec(data: seq<Row>)
    ensures |AcceptedValues(GeneOutcomes(data))| + |RejectedErrors(GeneOutcomes(data))| == |data|
    ensures forall i :: 0 <= i < |data| ==>
      (!Present(data[i], "symbol") <==> RowError(i + 1, SymbolRequired) in RejectedErrors(GeneOutcomes(data)))
    ensures forall e :: e in RejectedErrors(GeneOutcomes(data)) ==> e.problem == SymbolRequired
    ensures forall j, k :: 0 <= j < k < |RejectedErrors(GeneOutcomes(data))| ==>
      RejectedErrors(GeneOutcomes(data))[j].row < RejectedErrors(GeneOutcomes(data))[k].row
    ensures var kept := Filter(data, HasSymbol);
      AcceptedValues(GeneOutcomes(data)) == seq(|kept|, i requires 0 <= i < |kept| => GeneOf(kept[i]))
  {
    var outs := GeneOutcomes(data);
    PartitionSizes(outs);
    GeneOutcomesNumbered(data);
    RejectedErrorsSpec(outs);
    AcceptedGenesAreFiltered(data);
    GeneErrorsIff(data);
  }

  lemma GeneErrorsIff(data: seq<Row>)
    ensures forall i :: 0 <= i < |data| ==>
      (!Present(data[i], "symbol") <==> RowError(i + 1, SymbolRequired) in RejectedErrors(GeneOutcomes(data)))
    ensures forall e :: e in RejectedErrors(GeneOutcomes(data)) ==> e.problem == SymbolRequired
  {
    var outs := GeneOutcomes(data);
    GeneOutcomesNumbered(data);
    RejectedErrorsSpec(outs);
    forall i | 0 <= i < |data|
      ensures !Present(data[i], "symbol") <==> RowError(i + 1, SymbolRequired) in RejectedErrors(outs)
    {
      assert outs[i] == CheckGeneRow(data[i], i);
    }
  }

  /** `validateCloneData`'s result: a row missing `gene_symbol` or `clone_id`
      gets only the "are required" error; otherwise it is rejected with
      "Invalid concentration value" exactly when the concentration is
      non-empty and `parseFloat` gives NaN; each row has at most one error and
      the errors keep row order. */
  lemma ValidateCloneSpec(data: seq<Row>)
    ensures |AcceptedValues(CloneOutcomes(data))| + |RejectedErrors(CloneOutcomes(data))| == |data|
    ensures forall i :: 0 <= i < |data| ==>
      ((!Present(data[i], "gene_symbol") || !Present(data[i], "clone_id")) <==>
        RowError(i + 1, SymbolAndCloneIdRequired) in RejectedErrors(CloneOutcomes(data)))
    ensures forall i :: 0 <= i < |data| ==>
      ((Present(data[i], "gene_symbol") && Present(data[i], "clone_id") &&
        Present(data[i], "concentration") && ParseFloat(data[i]["concentration"]) == NaN) <==>
        RowError(i + 1, InvalidConcentration) in RejectedErrors(CloneOutcomes(data)))
    ensures forall j, k :: 0 <= j < k < |RejectedErrors(CloneOutcomes(data))| ==>
      RejectedErrors(CloneOutcomes(data))[j].row < RejectedErrors(CloneOutcomes(data))[k].row
  {
    var outs := CloneOutcomes(data);
    PartitionSizes(outs);
    CloneOutcomesNumbered(data);
    RejectedErrorsSpec(outs);
    CloneErrorsIff(data);
  }

  lemma CloneErrorsIff(data: seq<Row>)
    ensures forall i :: 0 <= i < |data| ==>
      ((!Present(data[i], "gene_symbol") || !Present(data[i], "clone_id")) <==>
        RowError(i + 1, SymbolAndCloneIdRequired) in RejectedErrors(CloneOutcomes(data)))
    ensures forall i :: 0 <= i < |data| ==>
      ((Present(data[i], "gene_symbol") && Present(data[i], "clone_id") &&
        Present(data[i], "concentration") && ParseFloat(data[i]["concentration"]) == NaN) <==>
        RowError(i + 1, InvalidConcentration) in RejectedErrors(CloneOutcomes(data)))
  {
    var outs := CloneOutcomes(data);
    CloneOutcomesNumbered(data);
    RejectedErrorsSpec(outs);
    forall i | 0 <= i < |data|
      ensures (!Present(data[i], "gene_symbol") || !Present(data[i], "clone_id")) <==>
        RowError(i + 1, SymbolAndCloneIdRequired) in RejectedErrors(outs)
      ensures (Present(data[i], "gene_symbol") && Present(data[i], "clone_id") &&
        Present(data[i], "concentration") && ParseFloat(data[i]["concentration"]) == NaN) <==>
        RowError(i + 1, InvalidConcentration) in RejectedErrors(outs)
    {
      assert outs[i] == CheckCloneRow(data[i], i);
    }
  }

  /** An empty or absent concentration is accepted as undefined. */
  lemma EmptyConcentrationAccepted(row: Row, index: nat)
    requires Present(row, "gene_symbol") && Present(row, "clone_id") && !Present(row, "concentration")
    ensures CheckCloneRow(row, index).Accepted?
    ensures CheckCloneRow(row, index).value.concentration == None
  {
  }

  /** The clone row of the import scenario: concentration "abc" is rejected
      as row 1. */
  lemma InvalidConcentrationScenario()
    ensures var row := map["gene_symbol" := "BRCA1", "clone_id" := "BRCA1-001", "concentration" := "abc"];
      RejectedErrors(CloneOutcomes([row])) == [RowError(1, InvalidConcentration)]
  {
    ParseFloatOfWord();
    var row := map["gene_symbol" := "BRCA1", "clone_id" := "BRCA1-001", "concentration" := "abc"];
    assert CloneOutcomes([row]) == [CheckCloneRow(row, 0)];
    assert [row][..0] == [];
  }

  // ---------------------------------------------------------------------
  // The import gate and the dialog
  // ---------------------------------------------------------------------

  datatype ImportTab = GenesTab | ClonesTab

  /** The bulk import the dialog calls, with the rows it passes. */
  datatype BulkCall = ImportGenes(genes: seq<ParsedGene>) | ImportClones(clones: seq<ParsedClone>)

  /** What `handleImport` does after validating: stop with the errors, or call
      the bulk import with the valid rows. */
  datatype Gate = Blocked(errors: seq<RowError>) | Proceed(call: BulkCall)

  function ImportGate(tab: ImportTab, data: seq<Row>): (r: Gate)
    ensures r.Blocked? ==> r.errors != []
    ensures r.Proceed? ==> (r.call.ImportGenes? <==> tab == GenesTab)
  {
    match tab
    case GenesTab =>
      var errors := RejectedErrors(GeneOutcomes(data));
      if |errors| > 0 then Blocked(errors) else Proceed(ImportGenes(AcceptedValues(GeneOutcomes(data))))
    case ClonesTab =>
      var errors := RejectedErrors(CloneOutcomes(data));
      if |errors| > 0 then Blocked(errors) else Proceed(ImportClones(AcceptedValues(CloneOutcomes(data))))
  }

  predicate RowPasses(tab: ImportTab, row: Row, index: nat)
  {
    match tab
    case GenesTab => CheckGeneRow(row, index).Accepted?
    case ClonesTab => CheckCloneRow(row, index).Accepted?
  }

  /** All or nothing: the bulk import is called exactly when every row passes,
      and then with one object per row; otherwise nothing is imported. */
  lemma ImportAllOrNothing(tab: ImportTab, data: seq<Row>)
    ensures ImportGate(tab, data).Proceed? <==> forall i :: 0 <= i < |data| ==> RowPasses(tab, data[i], i)
    ensures ImportGate(tab, data).Proceed? ==>
      match ImportGate(tab, data).call
      case ImportGenes(genes) => |genes| == |data|
      case ImportClones(clones) => |clones| == |data|
  {
    match tab
    case GenesTab =>
      var outs := GeneOutcomes(data);
      PartitionSizes(outs);
      GeneOutcomesNumbered(data);
      NoRejections(outs);
      assert forall i :: 0 <= i < |data| ==> outs[i] == CheckGeneRow(data[i], i);
    case ClonesTab =>
      var outs := CloneOutcomes(data);
      PartitionSizes(outs);
      CloneOutcomesNumbered(data);
      NoRejections(outs);
      assert forall i :: 0 <= i < |data| ==> outs[i] == CheckCloneRow(data[i], i);
  }

  /** The error list is empty exactly when every row is accepted. */
  lemma {:induction false} NoRejections<T>(outs: seq<Outcome<T>>)
    ensures RejectedErrors(outs) == [] <==> forall i :: 0 <= i < |outs| ==> outs[i].Accepted?
  {
    if outs != [] {
      var init := outs[..|outs| - 1];
      NoRejections(init);
      assert forall i :: 0 <= i < |init| ==> init[i] == outs[i];
    }
  }

  /** The gene import scenario: the second row has no symbol, so row 2 is
      reported and nothing is imported. */
  lemma MissingSymbolScenario()
    ensures var data := [map["symbol" := "BRCA1", "name" := "BRCA1 DNA repair associated"],
                         map["symbol" := "", "name" := "Missing Symbol"]];
      ImportGate(GenesTab, data) == Blocked([RowError(2, SymbolRequired)])
  {
    var data := [map["symbol" := "BRCA1", "name" := "BRCA1 DNA repair associated"],
                 map["symbol" := "", "name" := "Missing Symbol"]];
    var outs := GeneOutcomes(data);
    assert outs[0].Accepted? && outs[1] == Rejected(RowError(2, SymbolRequired));
    assert outs[..1][..0] == [];
    assert RejectedErrors(outs[..1]) == [] by {
      assert RejectedErrors(outs[..1]) == RejectedErrors(outs[..1][..0]) + [];
    }
    assert RejectedErrors(outs) == RejectedErrors(outs[..1]) + [outs[1].error];
  }

  /** The import dialog's state. */
  class ImportDialog {
    var open: bool
    var activeTab: ImportTab
    var hasFile: bool
    var parsedData: seq<Row>
    var errors: seq<string>
    var importing: bool
    var progress: int

    constructor ()
      ensures !open && activeTab == GenesTab && !hasFile
      ensures parsedData == [] && errors == [] && !importing && progress == 0
    {
      open, activeTab, hasFile := false, GenesTab, false;
      parsedData, errors, importing, progress := [], [], false, 0;
    }

    /** The import button is disabled with no rows, with errors shown, or
        while importing. */
    predicate ImportDisabled()
      reads this
      ensures !ImportDisabled() ==> parsedData != [] && errors == [] && !importing
    {
      parsedData == [] || |errors| > 0 || importing
    }

    /** The completion callback of `parseCSV`: store the non-blank rows and
        the parser's own error messages. */
    method OnParsed(rows: seq<Row>, parseErrors: seq<string>)
      modifies this
      ensures parsedData == DropBlankRows(rows) && errors == parseErrors
      ensures open == old(open) && activeTab == old(activeTab) && hasFile == old(hasFile)
      ensures importing == old(importing) && progress == old(progress)
    {
      parsedData := DropBlankRows(rows);
      errors := parseErrors;
    }

    /** `resetState`. */
    method ResetState()
      modifies this
      ensures !hasFile && parsedData == [] && errors == [] && progress == 0
      ensures open == old(open) && activeTab == old(activeTab) && importing == old(importing)
    {
      hasFile, parsedData, errors, progress := false, [], [], 0;
    }

    /** `handleImport`. `bulkThrows` says whether the bulk import rejects;
        the result is the bulk import called, if any. With no rows nothing
        happens. Otherwise, when validation finds an error, the messages are
        shown and no bulk import is called; when it finds none, the bulk
        import is called with the valid rows and, if it succeeds, the dialog
        closes and resets. On every path that starts an import, `importing`
        is false and `progress` is 0 at the end. */
    method HandleImport(bulkThrows: bool) returns (call: Option<BulkCall>)
      modifies this
      ensures old(parsedData) == [] ==> call == None && unchanged(this)
      ensures old(parsedData) != [] ==> !importing && progress == 0 && activeTab == old(activeTab)
      ensures old(parsedData) != [] && ImportGate(old(activeTab), old(parsedData)).Blocked? ==>
        && call == None
        && errors == Messages(ImportGate(old(activeTab), old(parsedData)).errors)
        && parsedData == old(parsedData) && open == old(open) && hasFile == old(hasFile)
      ensures old(parsedData) != [] && ImportGate(old(activeTab), old(parsedData)).Proceed? ==>
        && call == Some(ImportGate(old(activeTab), old(parsedData)).call)
        && (if bulkThrows then parsedData == old(parsedData) && errors == old(errors)
                               && open == old(open) && hasFile == old(hasFile)
            else !open && !hasFile && parsedData == [] && errors == [])
    {
      if parsedData == [] {
        return None;
      }
      importing := true;
      progress := 0;
      if activeTab == GenesTab {
        var valid, rowErrors := ValidateGeneData(parsedData);
        if |rowErrors| > 0 {
          errors := Messages(rowErrors);
          importing := false;
          progress := 0;
          return None;
        }
        call := Some(ImportGenes(valid));
      } else {
        var valid, rowErrors := ValidateCloneData(parsedData);
        if |rowErrors| > 0 {
          errors := Messages(rowErrors);
          importing := false;
          progress := 0;
          return None;
        }
        call := Some(ImportClones(valid));
      }
      if !bulkThrows {
        open := false;
        ResetState();
      }
      importing := false;
      progress := 0;
    }
  }

  // ---------------------------------------------------------------------
  // Templates
  // ---------------------------------------------------------------------

  /** A template file: the header line and one example line, each ended
      by a line feed. */
  function TemplateText(header: seq<string>, example: seq<string>): string
  {
    Join(header, ",") + "\n" + Join(example, ",") + "\n"
  }

  const GeneTemplateExample: seq<string> :=
    ["BRCA1", "BRCA1 DNA repair associated", "672", "17q21.31", "17q21.31", "protein-coding",
     "BRCA1 encodes a 190 kD nuclear phosphoprotein..."]

  /** The gene template offered for download. */
  const GeneTemplate: string := TemplateText(GeneColumns, GeneTemplateExample)

  /** The columns of a clone file. */
  const CloneColumns: seq<string> :=
    ["gene_symbol", "clone_id", "vector", "bacterial_strain", "antibiotic_resistance", "concentration",
     "location", "notes", "priority", "status"]

  /** The example clone line, with the given bacterial strain. */
  function CloneExample(strain: string): (r: seq<string>)
    ensures |r| == |CloneColumns| && r[3] == strain
  {
    ["BRCA1", "BRCA1-001", "pET28a", strain, "Kanamycin", "100", "Freezer A1", "Test clone", "high", "active"]
  }

  /** The strain as the source spells it: the two characters U+00CE U+00B1. */
  const WrittenStrain: string := "DH5\U{00CE}\U{00B1}"

  /** The strain meant: DH5 followed by a Greek small alpha. */
  const IntendedStrain: string := "DH5\U{03B1}"

  /** The clone template as written. */
  const CloneTemplate: string := TemplateText(CloneColumns, CloneExample(WrittenStrain))

  /** The clone template with the strain spelt as intended. */
  const IntendedCloneTemplate: string := TemplateText(CloneColumns, CloneExample(IntendedStrain))

  /** The UTF-8 bytes of a character below U+0800. */
  function Utf8Bytes(c: char): (r: seq<int>)
    requires c < '\U{0800}'
    ensures |r| == (if c < '\U{0080}' then 1 else 2)
    ensures forall i :: 0 <= i < |r| ==> 0 <= r[i] < 256
  {
    var n := c as int;
    if n < 0x80 then [n] else [0xC0 + n / 64, 0x80 + n % 64]
  }

  predicate BelowU0800(s: string)
  {
    forall i :: 0 <= i < |s| ==> s[i] < '\U{0800}'
  }

  /** The UTF-8 encoding of a text whose characters are below U+0800. */
  function Utf8Text(s: string): (r: seq<int>)
    requires BelowU0800(s)
    ensures forall i :: 0 <= i < |r| ==> 0 <= r[i] < 256
  {
    if s == [] then [] else Utf8Bytes(s[0]) + Utf8Text(s[1..])
  }

  /** Bytes read as ISO 8859-1: each byte is the character with its code. */
  function Latin1Text(bytes: seq<int>): (r: string)
    requires forall i :: 0 <= i < |bytes| ==> 0 <= bytes[i] < 256
    ensures |r| == |bytes| && forall i :: 0 <= i < |r| ==> r[i] as int == bytes[i]
  {
    seq(|bytes|, i requires 0 <= i < |bytes| => bytes[i] as char)
  }

  /** The written strain is the intended one encoded as UTF-8 and read
      back as ISO 8859-1, and the two templates differ in that cell only. */
  lemma CloneTemplateMisencoded()
    ensures BelowU0800(IntendedStrain)
    ensures WrittenStrain == Latin1Text(Utf8Text(IntendedStrain))
    ensures WrittenStrain != IntendedStrain
    ensures CloneExample(WrittenStrain)[..3] == CloneExample(IntendedStrain)[..3]
    ensures CloneExample(WrittenStrain)[4..] == CloneExample(IntendedStrain)[4..]
  {
    var s := IntendedStrain;
    assert Utf8Bytes('\U{03B1}') == [0xCE, 0xB1];
    assert Utf8Text(s) == [68, 72, 53, 0xCE, 0xB1] by {
      assert s[1..][1..][1..][1..] == [];
      assert Utf8Text(s[1..][1..][1..]) == [0xCE, 0xB1] + Utf8Text([]);
    }
    assert |WrittenStrain| == 5 && |IntendedStrain| == 4;
  }

  /** The row the CSV library would build from a header line and a data line. */
  function ZipRow(header: seq<string>, cells: seq<string>): Row
    requires |header| == |cells|
  {
    if header == [] then map[]
    else
      var n := |header| - 1;
      ZipRow(header[..n], cells[..n])[header[n] := cells[n]]
  }

  /** A column named once in the header holds the cell below it. */
  lemma {:induction false} ZipRowLookup(header: seq<string>, cells: seq<string>, i: nat)
    requires |header| == |cells| && i < |header|
    requires header[i] !in header[i + 1..]
    ensures header[i] in ZipRow(header, cells) && ZipRow(header, cells)[header[i]] == cells[i]
  {
    var n := |header| - 1;
    if i < n {
      assert header[i + 1..] == header[..n][i + 1..] + [header[n]];
      ZipRowLookup(header[..n], cells[..n], i);
    }
  }

  /** The example line of the gene template passes gene validation. */
  lemma GeneTemplateValid()
    ensures CheckGeneRow(ZipRow(GeneColumns, GeneTemplateExample), 0).Accepted?
  {
    assert "symbol" !in GeneColumns[1..];
    ZipRowLookup(GeneColumns, GeneTemplateExample, 0);
  }

  /** The example line of the intended clone template passes clone
      validation with the strain it names and a concentration. */
  lemma IntendedCloneTemplateValid()
    ensures var row := ZipRow(CloneColumns, CloneExample(IntendedStrain));
      && CheckCloneRow(row, 0).Accepted?
      && CheckCloneRow(row, 0).value.bacterial_strain == Some(IntendedStrain)
      && CheckCloneRow(row, 0).value.concentration.Some?
  {
    var row := ZipRow(CloneColumns, CloneExample(IntendedStrain));
    CloneExampleCells(IntendedStrain);
    HundredIsNumber();
    CloneRowAccepted(row);
  }

  lemma CloneRowAccepted(row: Row)
    requires Present(row, "gene_symbol") && Present(row, "clone_id") && Present(row, "concentration")
    requires ParseFloat(row["concentration"]) != NaN
    ensures CheckCloneRow(row, 0).Accepted?
    ensures CheckCloneRow(row, 0).value.bacterial_strain == Cell(row, "bacterial_strain")
    ensures CheckCloneRow(row, 0).value.concentration.Some?
  {
  }

  lemma CloneExampleCells(strain: string)
    ensures var row := ZipRow(CloneColumns, CloneExample(strain));
      && "gene_symbol" in row && row["gene_symbol"] == "BRCA1"
      && "clone_id" in row && row["clone_id"] == "BRCA1-001"
      && "bacterial_strain" in row && row["bacterial_strain"] == strain
      && "concentration" in row && row["concentration"] == "100"
  {
    var cells := CloneExample(strain);
    assert "gene_symbol" !in CloneColumns[1..];
    assert "clone_id" !in CloneColumns[2..];
    assert "bacterial_strain" !in CloneColumns[4..];
    assert "concentration" !in CloneColumns[6..];
    ZipRowLookup(CloneColumns, cells, 0);
    ZipRowLookup(CloneColumns, cells, 1);
    ZipRowLookup(CloneColumns, cells, 3);
    ZipRowLookup(CloneColumns, cells, 5);
  }

  lemma HundredIsNumber()
    ensures ParseFloat("100") != NaN
  {
    var s := "100";
    assert !IsWhitespace(s[0]) && TrimStart(s) == s;
    assert ScanDecimal(s).Some? by {
      assert SignLength(s) == 0 && s[0..] == s;
      assert IsDigit(s[0]) && DigitRun(s) >= 1;
    }
    ParseFloatNaN(s);
  }
}
