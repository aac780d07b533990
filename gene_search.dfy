/** The gene search box: the symbol typed, the searching flag, and the
    submit that trims the input, refuses a blank one and hands the rest to
    the page's gene selection. */
module GeneSearch {
  import opened Strings
  import opened Options

  /** The toasts the box shows. */
  datatype Notice = SymbolRequired | SearchError

  /** A call to `onGeneSelect`, with the searching flag as it stood while
      the call ran. */
  datatype SelectCall = SelectCall(symbol: string, searching: bool)

  /** What a submit of `geneId` does, when `onGeneSelect` throws or not: the
      call made, if any, and the toast shown, if any. */
  function SearchOutcome(geneId: string, selectThrows: bool): (r: (Option<SelectCall>, Option<Notice>))
    ensures r.0.None? ==> r.1 == Some(SymbolRequired)
    ensures r.0.Some? ==> r.0.value.symbol != "" && r.1 != Some(SymbolRequired)
  {
    if Trim(geneId) == "" then (None, Some(SymbolRequired))
    else (Some(SelectCall(Trim(geneId), true)), if selectThrows then Some(SearchError) else None)
  }

  /** A blank or all-white-space input makes no call and asks for a symbol;
      any other input calls `onGeneSelect` once, with the input stripped of
      its surrounding white space and nothing else (non-empty, trimmed, and
      the input is it padded with white space), while searching, and reports
      an error exactly when that call throws. */
  lemma SearchOutcomeSpec(geneId: string, selectThrows: bool)
    ensures var (call, notice) := SearchOutcome(geneId, selectThrows);
      && (call.None? <==> forall i :: 0 <= i < |geneId| ==> IsWhitespace(geneId[i]))
      && (call.None? ==> notice == Some(SymbolRequired))
      && (call.Some? ==> call.value.symbol != "" && IsTrimmed(call.value.symbol) && call.value.searching)
      && (call.Some? ==> Padded(geneId, call.value.symbol))
      && (call.Some? ==> (notice == Some(SearchError) <==> selectThrows) && notice != Some(SymbolRequired))
  {
    TrimEmpty(geneId);
    TrimIsTrimmed(geneId);
    TrimCharacterised(geneId, Trim(geneId));
  }

  /** White space typed before a symbol does not change the symbol searched. */
  lemma LeadingSpaceIgnored(w: string, symbol: string, selectThrows: bool)
    requires forall i :: 0 <= i < |w| ==> IsWhitespace(w[i])
    requires symbol != "" && IsTrimmed(symbol)
    ensures SearchOutcome(w + symbol, selectThrows).0 == Some(SelectCall(symbol, true))
  {
    TrimAfterSpaces(w, symbol);
  }

  /** The search box's state. */
  class SearchBox {
    var geneId: string
    var isSearching: bool

    constructor ()
      ensures geneId == "" && !isSearching
    {
      geneId, isSearching := "", false;
    }

    /** The input is disabled while searching. */
    predicate InputDisabled()
      reads this
    {
      isSearching
    }

    /** The button is disabled while searching or when the trimmed input is
        empty. */
    predicate ButtonDisabled()
      reads this
      ensures !ButtonDisabled() ==> !isSearching && SearchOutcome(geneId, false).0.Some?
    {
      isSearching || Trim(geneId) == ""
    }

    /** Typing in the input. */
    method Type(input: string)
      modifies this
      ensures geneId == input && isSearching == old(isSearching)
    {
      geneId := input;
    }

    /** `handleSearch`. A blank input leaves the flag as it was; otherwise
        the flag is raised for the call and lowered after it, whether the
        call returns or throws. The input is kept. */
    method HandleSearch(selectThrows: bool) returns (call: Option<SelectCall>, notice: Option<Notice>)
      modifies this
      ensures (call, notice) == SearchOutcome(old(geneId), selectThrows)
      ensures geneId == old(geneId)
      ensures call.None? ==> isSearching == old(isSearching)
      ensures call.Some? ==> !isSearching
    {
      if Trim(geneId) == "" {
        return None, Some(SymbolRequired);
      }
      isSearching := true;
      call := Some(SelectCall(Trim(geneId), isSearching));
      notice := if selectThrows then Some(SearchError) else None;
      isSearching := false;
    }

    /** `handleKeyPress`: Enter submits as the button does; any other key
        does nothing. */
    method HandleKeyPress(key: string, selectThrows: bool) returns (call: Option<SelectCall>, notice: Option<Notice>)
      modifies this
      ensures key == "Enter" ==> (call, notice) == SearchOutcome(old(geneId), selectThrows)
      ensures key != "Enter" ==> call == None && notice == None && isSearching == old(isSearching)
      ensures geneId == old(geneId)
      ensures call.Some? ==> !isSearching
    {
      call, notice := None, None;
      if key == "Enter" {
        call, notice := HandleSearch(selectThrows);
      }
    }
  }

  /** An enabled button submits a call: whenever the button can be pressed,
      pressing it calls `onGeneSelect`, and every call ends with the box
      ready again. */
  method EnabledButtonSearches(input: string, selectThrows: bool) returns (called: bool, ready: bool)
    ensures called <==> Trim(input) != ""
    ensures ready
  {
    var box := new SearchBox();
    box.Type(input);
    var enabled := !box.ButtonDisabled();
    var call, notice := box.HandleSearch(selectThrows);
    called := call.Some?;
    ready := !box.InputDisabled() && (enabled <==> called);
  }
}
