/** The tags input of the gene details view: the text typed there is split
    on commas, each piece trimmed and the empty pieces dropped; the tags are
    shown joined with ", ". */
module TagParsing {
  import opened Strings
  import opened Sequences

  function TrimAll(parts: seq<string>): (r: seq<string>)
    ensures |r| == |parts|
  {
    if parts == [] then [] else [Trim(parts[0])] + TrimAll(parts[1..])
  }

  /** `filter(t => t)` on strings: drops the empty ones and keeps every
      other piece, in order. */
  function DropEmpty(parts: seq<string>): (r: seq<string>)
    ensures forall x :: x in r <==> x in parts && x != ""
    ensures IsSubsequence(r, parts)
  {
    if parts == [] then []
    else
      var rest := DropEmpty(parts[1..]);
      assert parts == [parts[0]] + parts[1..];
      if parts[0] != "" then
        assert ([parts[0]] + rest)[1..] == rest;
        [parts[0]] + rest
      else
        SubsequenceDropHead(rest, parts);
        rest
  }

  /** A non-empty string is truthy. */
  predicate NonEmpty(t: string)
  {
    t != ""
  }

  /** Dropping the empty pieces is filtering with `t => t`. */
  lemma {:induction false} DropEmptyIsFilter(parts: seq<string>)
    ensures DropEmpty(parts) == Filter(parts, NonEmpty)
  {
    if parts != [] {
      DropEmptyIsFilter(parts[1..]);
    }
  }

  /** `s.split(',').map(t => t.trim()).filter(t => t)`. */
  function ParseTags(s: string): (r: seq<string>)
    ensures forall x :: x in r ==> x != ""
  {
    DropEmpty(TrimAll(Split(s, ',')))
  }

  /** A tag that can be written in the input and read back unchanged. */
  predicate CleanTag(t: string)
  {
    t != "" && IsTrimmed(t) && ',' !in t
  }

  /** A trimmed piece has no surrounding white space and no comma the
      piece did not have. */
  lemma TrimClean(p: string)
    requires ',' !in p
    ensures IsTrimmed(Trim(p)) && ',' !in Trim(p)
  {
    TrimIsTrimmed(p);
    var t := TrimStart(p);
    assert forall c :: c in TrimEnd(t) ==> c in t;
    assert forall c :: c in t ==> c in p;
  }

  lemma {:induction false} TrimAllClean(parts: seq<string>)
    requires forall i :: 0 <= i < |parts| ==> ',' !in parts[i]
    ensures forall i :: 0 <= i < |TrimAll(parts)| ==> IsTrimmed(TrimAll(parts)[i]) && ',' !in TrimAll(parts)[i]
  {
    if parts != [] {
      TrimClean(parts[0]);
      TrimAllClean(parts[1..]);
      var r := TrimAll(parts);
      assert r == [Trim(parts[0])] + TrimAll(parts[1..]);
      forall i | 0 <= i < |r| ensures IsTrimmed(r[i]) && ',' !in r[i] {
        if i > 0 {
          assert r[i] == TrimAll(parts[1..])[i - 1];
        }
      }
    }
  }

  /** No parsed tag is empty, has surrounding white space or holds a comma. */
  lemma ParseTagsClean(s: string)
    ensures forall i :: 0 <= i < |ParseTags(s)| ==> CleanTag(ParseTags(s)[i])
  {
    var trimmed := TrimAll(Split(s, ','));
    TrimAllClean(Split(s, ','));
    forall i | 0 <= i < |ParseTags(s)| ensures CleanTag(ParseTags(s)[i]) {
      assert ParseTags(s)[i] in trimmed;
    }
  }

  lemma DropEmptyCons(x: string, rest: seq<string>)
    requires x != ""
    ensures DropEmpty([x] + rest) == [x] + DropEmpty(rest)
  {
    assert ([x] + rest)[0] == x && ([x] + rest)[1..] == rest;
  }

  lemma TrimAllCons(x: string, rest: seq<string>)
    ensures TrimAll([x] + rest) == [Trim(x)] + TrimAll(rest)
  {
    assert ([x] + rest)[0] == x && ([x] + rest)[1..] == rest;
  }

  /** The first piece of the joined text, after the leading white space. */
  lemma FirstPiece(w: string, t: string)
    requires AllWhitespace(w) && CleanTag(t)
    ensures ',' !in w + t && Trim(w + t) == t
  {
    TrimAfterSpaces(w, t);
    assert forall i :: 0 <= i < |w| ==> (w + t)[i] == w[i];
    assert forall i :: |w| <= i < |w + t| ==> (w + t)[i] == t[i - |w|];
  }

  lemma LastTag(w: string, t: string)
    requires AllWhitespace(w) && CleanTag(t)
    ensures DropEmpty(TrimAll(Split(w + t, ','))) == [t]
  {
    FirstPiece(w, t);
    SplitWithout(w + t, ',');
    TrimAllCons(w + t, []);
    DropEmptyCons(t, []);
  }

  lemma JoinFirst(t0: string, more: seq<string>)
    requires |more| >= 1
    ensures Join([t0] + more, ", ") == t0 + ", " + Join(more, ", ")
  {
    var tags := [t0] + more;
    assert tags[0] == t0 && tags[1..] == more;
  }

  lemma CommaSpace(a: string, b: string, j: string)
    ensures a + (b + ", " + j) == (a + b) + [','] + (" " + j)
  {
    assert ", " == [','] + " ";
  }

  /** Text joined from a first tag and further tags splits at the first
      comma. */
  lemma SplitFirstTag(w: string, t0: string, more: seq<string>)
    requires AllWhitespace(w) && CleanTag(t0) && |more| >= 1
    ensures Split(w + Join([t0] + more, ", "), ',') == [w + t0] + Split(" " + Join(more, ", "), ',')
  {
    FirstPiece(w, t0);
    var j := Join(more, ", ");
    JoinFirst(t0, more);
    CommaSpace(w, t0, j);
    SplitAt(w + t0, ',', " " + j);
  }

  lemma ConsStep(w: string, t0: string, more: seq<string>)
    requires AllWhitespace(w) && CleanTag(t0) && |more| >= 1
    requires DropEmpty(TrimAll(Split(" " + Join(more, ", "), ','))) == more
    ensures DropEmpty(TrimAll(Split(w + Join([t0] + more, ", "), ','))) == [t0] + more
  {
    FirstPiece(w, t0);
    SplitFirstTag(w, t0, more);
    var pieces := Split(" " + Join(more, ", "), ',');
    TrimAllCons(w + t0, pieces);
    DropEmptyCons(t0, TrimAll(pieces));
  }

  lemma {:induction false} JoinedTagsRoundTrip(w: string, tags: seq<string>)
    requires AllWhitespace(w)
    requires |tags| >= 1
    requires forall i :: 0 <= i < |tags| ==> CleanTag(tags[i])
    ensures DropEmpty(TrimAll(Split(w + Join(tags, ", "), ','))) == tags
    decreases |tags|
  {
    if |tags| == 1 {
      LastTag(w, tags[0]);
      assert w + Join(tags, ", ") == w + tags[0];
    } else {
      assert AllWhitespace(" ");
      JoinedTagsRoundTrip(" ", tags[1..]);
      ConsStep(w, tags[0], tags[1..]);
      assert tags == [tags[0]] + tags[1..];
    }
  }

  /** An empty input holds no tags. */
  lemma ParseEmpty()
    ensures ParseTags("") == []
  {
    assert Split("", ',') == [""];
    assert TrimAll([""]) == [""] by { assert [""][1..] == []; }
    assert DropEmpty([""]) == [] by { assert [""][1..] == []; }
  }

  /** The tags input shows the tags joined with ", " and reads them back by
      parsing: tags that are non-empty, trimmed and comma-free survive the
      round trip. */
  lemma TagsInputRoundTrip(tags: seq<string>)
    requires forall i :: 0 <= i < |tags| ==> CleanTag(tags[i])
    ensures ParseTags(Join(tags, ", ")) == tags
  {
    if tags == [] {
      ParseEmpty();
    } else {
      JoinedTagsRoundTrip("", tags);
      assert "" + Join(tags, ", ") == Join(tags, ", ");
    }
  }
}
