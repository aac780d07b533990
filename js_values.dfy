/** The optional value used throughout the model for JavaScript's `undefined`
    and `null` results. */
module Options {
  datatype Option<+T> = None | Some(value: T)
}

/** JavaScript values as the components see them: property values of records,
    truthiness, and the two string-to-number conversions `parseFloat` and
    `Number` on plain decimal text. */
module JsValues {
  import opened Strings
  import opened Options

  /** A JavaScript number, identified by the text `Number.prototype.toString`
      prints for it ("12.5", "-3", "0", "NaN", "Infinity"). */
  datatype Num = Num(printed: string)

  const NaN: Num := Num("NaN")
  const Zero: Num := Num("0")

  /** Zero and NaN are the falsy numbers (negative zero also prints "0"). */
  predicate NumTruthy(n: Num)
  {
    n != Zero && n != NaN
  }

  /** A property value of a record: undefined, a string, an array of strings
      (tags) or a number (prices, concentrations). */
  datatype Value = Undefined | Text(s: string) | TagList(items: seq<string>) | Number(n: Num)

  /** JavaScript truthiness, as used by `if (v)`, `!v` and `v || d`: the empty
      string, zero, NaN and undefined are falsy; every array is truthy. */
  predicate Truthy(v: Value)
  {
    match v
    case Undefined => false
    case Text(s) => s != ""
    case TagList(_) => true
    case Number(n) => NumTruthy(n)
  }

  /** Property access on a record: an absent key reads as undefined. */
  function Get(m: map<string, Value>, k: string): (v: Value)
    ensures k !in m ==> v == Undefined
  {
    if k in m then m[k] else Undefined
  }

  /** `a || b`. */
  function Or(a: Value, b: Value): (r: Value)
    ensures Truthy(a) ==> r == a
    ensures !Truthy(a) ==> r == b
  {
    if Truthy(a) then a else b
  }

  /** The string a string-typed property holds, or "" for anything falsy:
      the source's `record.key || ''`. */
  function TextOr(v: Value, default: string): (r: string)
    ensures Truthy(v) && v.Text? ==> r == v.s
    ensures !Truthy(v) ==> r == default
  {
    if Truthy(v) && v.Text? then v.s else default
  }

  /** `String(v)`: arrays print their items joined with commas. */
  function JsString(v: Value): string
  {
    match v
    case Undefined => "undefined"
    case Text(s) => s
    case TagList(items) => Join(items, ",")
    case Number(n) => n.printed
  }

  /** `String(v || '')`, and equally `v ? v.toString() : ''`: the text of a
      truthy value, the empty string for a falsy one. */
  function OrEmpty(v: Value): (r: string)
    ensures !Truthy(v) ==> r == ""
    ensures v.Text? ==> r == v.s
    ensures v.Number? && NumTruthy(v.n) ==> r == v.n.printed
  {
    if Truthy(v) then JsString(v) else ""
  }

  predicate IsDigit(c: char)
  {
    '0' <= c <= '9'
  }

  /** The length of the run of decimal digits at the start of `s`. */
  function DigitRun(s: string): (n: nat)
    ensures n <= |s|
    ensures forall i :: 0 <= i < n ==> IsDigit(s[i])
    ensures n == |s| || !IsDigit(s[n])
  {
    if s != [] && IsDigit(s[0]) then 1 + DigitRun(s[1..]) else 0
  }

  /** A decimal literal: its sign and the digits before and after the point. */
  datatype Decimal = Decimal(negative: bool, whole: string, fraction: string)

  function SignLength(s: string): (n: nat)
    ensures n <= |s|
  {
    if s != [] && (s[0] == '+' || s[0] == '-') then 1 else 0
  }

  /** Reads `[+|-] digits [. digits]` or `[+|-] . digits` at the start of `s`,
      with at least one digit; gives the literal and how many characters it
      takes. Exponents are not read. */
  function ScanDecimal(s: string): (r: Option<(Decimal, nat)>)
    ensures r.Some? ==> 0 < r.value.1 <= |s|
    ensures r.Some? ==> |r.value.0.whole| + |r.value.0.fraction| > 0
    ensures r.Some? ==> forall i :: 0 <= i < |r.value.0.whole| ==> IsDigit(r.value.0.whole[i])
    ensures r.Some? ==> forall i :: 0 <= i < |r.value.0.fraction| ==> IsDigit(r.value.0.fraction[i])
  {
    var k := SignLength(s);
    var t := s[k..];
    var w := DigitRun(t);
    var point := w < |t| && t[w] == '.';
    var f := if point then DigitRun(t[w + 1..]) else 0;
    if w + f == 0 then None
    else
      var fraction := if point then t[w + 1..w + 1 + f] else "";
      Some((Decimal(k == 1 && s[0] == '-', t[..w], fraction), k + w + (if point then 1 + f else 0)))
  }

  function StripLeadingZeros(s: string): (r: string)
    ensures |r| <= |s|
    ensures r == s[|s| - |r|..]
    ensures r == [] || r[0] != '0'
  {
    if s != [] && s[0] == '0' then StripLeadingZeros(s[1..]) else s
  }

  function StripTrailingZeros(s: string): (r: string)
    ensures |r| <= |s| && r == s[..|r|]
    ensures r == [] || r[|r| - 1] != '0'
  {
    if s != [] && s[|s| - 1] == '0' then StripTrailingZeros(s[..|s| - 1]) else s
  }

  /** How JavaScript prints the value of a decimal literal: no sign on zero,
      no leading zeros, no trailing fractional zeros, no bare point. */
  function PrintDecimal(d: Decimal): (r: string)
    requires AllDigits(d.whole)
    ensures r != [] && r[0] != 'N'
  {
    var w := StripLeadingZeros(d.whole);
    var f := StripTrailingZeros(d.fraction);
    if w == "" && f == "" then "0"
    else
      var head := if w == "" then "0" else w;
      assert IsDigit(head[0]) by {
        if w != "" { assert w[0] == d.whole[|d.whole| - |w|]; }
      }
      var magnitude := head + (if f == "" then "" else "." + f);
      assert magnitude[0] == head[0];
      (if d.negative then "-" else "") + magnitude
  }

  predicate AllDigits(s: string)
  {
    forall i :: 0 <= i < |s| ==> IsDigit(s[i])
  }

  /** The literal's value is zero exactly when it has no nonzero digit. */
  predicate AllZeros(s: string)
  {
    forall i :: 0 <= i < |s| ==> s[i] == '0'
  }

  /** The signed infinity spelled after an optional sign at the start of `s`,
      if any. */
  function ScanInfinity(s: string, whole: bool): Option<Num>
  {
    var k := SignLength(s);
    if (if whole then s[k..] == "Infinity" else "Infinity" <= s[k..]) then
      Some(Num(if k == 1 && s[0] == '-' then "-Infinity" else "Infinity"))
    else None
  }

  /** `parseFloat(s)`: skip leading white space, then read the longest numeric
      prefix; NaN when there is none. */
  function ParseFloat(s: string): (r: Num)
    ensures r == NaN || (r.printed != [] && r.printed[0] != 'N')
  {
    var t := TrimStart(s);
    match ScanInfinity(t, false)
    case Some(inf) => inf
    case None =>
      match ScanDecimal(t)
      case None => NaN
      case Some((d, _)) => Num(PrintDecimal(d))
  }

  /** `Number(s)`: the whole trimmed string must be a numeric literal; the
      empty or all-white-space string is 0; anything else is NaN. */
  function ToNumber(s: string): (r: Num)
    ensures Trim(s) == "" ==> r == Zero
    ensures r == NaN || (r.printed != [] && r.printed[0] != 'N')
  {
    var t := Trim(s);
    if t == "" then Zero
    else
      match ScanInfinity(t, true)
      case Some(inf) => inf
      case None =>
        match ScanDecimal(t)
        case Some((d, n)) => if n == |t| then Num(PrintDecimal(d)) else NaN
        case None => NaN
  }

  /** `isNaN(parseFloat(s))` holds exactly when, after leading white space,
      `s` starts neither with a decimal literal nor with a signed "Infinity". */
  lemma ParseFloatNaN(s: string)
    ensures ParseFloat(s) == NaN <==>
      ScanDecimal(TrimStart(s)).None? && ScanInfinity(TrimStart(s), false).None?
  {
    var t := TrimStart(s);
    if ScanInfinity(t, false).None? && ScanDecimal(t).Some? {
      var d := ScanDecimal(t).value.0;
      assert PrintDecimal(d)[0] != 'N';
    }
  }

  /** A decimal literal prints as a truthy number exactly when it has a
      nonzero digit. */
  lemma PrintDecimalTruthy(d: Decimal)
    requires AllDigits(d.whole)
    ensures NumTruthy(Num(PrintDecimal(d))) <==> !(AllZeros(d.whole) && AllZeros(d.fraction))
  {
    var w := StripLeadingZeros(d.whole);
    var f := StripTrailingZeros(d.fraction);
    if w == "" && f == "" {
      StrippedEmpty(d.whole, d.fraction);
    } else {
      var r := PrintDecimal(d);
      if w != "" {
        assert w[0] == d.whole[|d.whole| - |w|];
        assert w[0] != '0';
      } else {
        assert f[|f| - 1] == d.fraction[|f| - 1];
      }
      assert r != "0" by {
        if d.negative { assert r[0] == '-'; }
        else if w != "" { assert r[0] == w[0]; }
        else { assert |r| >= 3; }
      }
      assert r != "NaN" by { assert r[0] != 'N'; }
    }
  }

  lemma StrippedEmpty(whole: string, fraction: string)
    requires StripLeadingZeros(whole) == "" && StripTrailingZeros(fraction) == ""
    ensures AllZeros(whole) && AllZeros(fraction)
  {
    LeadingZerosEmpty(whole);
    TrailingZerosEmpty(fraction);
  }

  lemma {:induction false} LeadingZerosEmpty(s: string)
    ensures StripLeadingZeros(s) == "" <==> AllZeros(s)
  {
    if s != [] {
      LeadingZerosEmpty(s[1..]);
      assert forall i :: 1 <= i < |s| ==> s[i] == s[1..][i - 1];
    }
  }

  lemma {:induction false} TrailingZerosEmpty(s: string)
    ensures StripTrailingZeros(s) == "" <==> AllZeros(s)
  {
    if s != [] {
      TrailingZerosEmpty(s[..|s| - 1]);
      assert forall i :: 0 <= i < |s| - 1 ==> s[i] == s[..|s| - 1][i];
    }
  }

  /** `parseFloat` reads a numeric prefix and ignores what follows it. */
  lemma ParseFloatReadsPrefix()
    ensures ParseFloat("12abc") == Num("12")
  {
    var s := "12abc";
    TrimStartExample();
    ScanExample();
    assert ScanInfinity(s, false).None? by { assert s[0..] == s; }
    assert PrintDecimal(Decimal(false, "12", "")) == "12" by {
      assert StripLeadingZeros("12") == "12";
    }
  }

  lemma TrimStartExample()
    ensures TrimStart("12abc") == "12abc"
  {
    assert !IsWhitespace('1');
  }

  lemma ScanExample()
    ensures ScanDecimal("12abc") == Some((Decimal(false, "12", ""), 2))
  {
    var s := "12abc";
    assert s[1..] == "2abc" && s[1..][1..] == "abc";
    assert DigitRun(s) == 2;
    assert SignLength(s) == 0 && s[0..] == s;
    assert s[2] == 'a' && s[..2] == "12";
  }

  /** Text with no numeric prefix parses to NaN. */
  lemma ParseFloatOfWord()
    ensures ParseFloat("abc") == NaN
  {
    var s := "abc";
    assert !IsWhitespace(s[0]) && TrimStart(s) == s;
    assert ScanInfinity(s, false) == None by {
      assert SignLength(s) == 0 && s[0..] == s;
      assert |s| < |"Infinity"|;
    }
    assert ScanDecimal(s) == None by {
      assert SignLength(s) == 0 && s[0..] == s;
      assert !IsDigit(s[0]) && s[0] != '.';
      assert DigitRun(s) == 0;
    }
  }

  /** `Number("")` is 0, a falsy number. */
  lemma ToNumberOfEmpty()
    ensures ToNumber("") == Zero && !NumTruthy(ToNumber(""))
  {
  }
}
