/** A reader for comma-separated text in the style of section 2 of RFC 4180:
    records end at a line feed, fields end at a comma, a field that starts
    with a double quote runs to the matching closing quote and reads a
    doubled quote inside as one quote. It is the reference against which the
    table export's escaping is proved to lose nothing. */
module CsvReader {
  import opened Options

  predicate EndsField(c: char)
  {
    c == ',' || c == '\n'
  }

  /** Rest of the input after a field: empty, or starting with the
      separator that ended the field. */
  predicate AtFieldEnd(rest: string)
  {
    rest == [] || EndsField(rest[0])
  }

  /** An unquoted field: everything up to the next comma or line feed. */
  function ReadUnquoted(s: string): (r: (string, string))
    ensures r.0 + r.1 == s
    ensures AtFieldEnd(r.1)
  {
    if s == [] || EndsField(s[0]) then ([], s)
    else
      var (field, rest) := ReadUnquoted(s[1..]);
      assert ([s[0]] + field) + rest == [s[0]] + (field + rest) == s;
      ([s[0]] + field, rest)
  }

  /** The inside of a quoted field, read after its opening quote: up to a
      quote that is not doubled. None when the closing quote is missing. */
  function ReadQuoted(s: string): (r: Option<(string, string)>)
    ensures r.Some? ==> |r.value.1| < |s|
  {
    if s == [] then None
    else if s[0] == '"' then
      if |s| > 1 && s[1] == '"' then
        match ReadQuoted(s[2..])
        case None => None
        case Some((field, rest)) => Some(("\"" + field, rest))
      else Some(([], s[1..]))
    else
      match ReadQuoted(s[1..])
      case None => None
      case Some((field, rest)) => Some(([s[0]] + field, rest))
  }

  /** One field and the text after it. None for an unclosed quote or a
      closing quote followed by anything but a separator or the end. */
  function ReadField(s: string): (r: Option<(string, string)>)
    ensures r.Some? ==> |r.value.1| <= |s| && AtFieldEnd(r.value.1)
  {
    if s != [] && s[0] == '"' then
      match ReadQuoted(s[1..])
      case None => None
      case Some((field, rest)) => if AtFieldEnd(rest) then Some((field, rest)) else None
    else Some(ReadUnquoted(s))
  }

  /** One record: its fields, and the text after its line feed, or None for
      the text after it when the input ended inside the record. */
  function ReadRecord(s: string): (r: Option<(seq<string>, Option<string>)>)
    ensures r.Some? ==> |r.value.0| >= 1
    ensures r.Some? && r.value.1.Some? ==> |r.value.1.value| < |s|
    decreases |s|
  {
    match ReadField(s)
    case None => None
    case Some((field, rest)) =>
      if rest == [] then Some(([field], None))
      else if rest[0] == '\n' then Some(([field], Some(rest[1..])))
      else
        match ReadRecord(rest[1..])
        case None => None
        case Some((fields, after)) => Some(([field] + fields, after))
  }

  /** A field followed by a comma: the record goes on after the comma. */
  lemma ReadRecordAfterComma(s: string, field: string, tail: string)
    requires ReadField(s) == Some((field, "," + tail))
    ensures ReadRecord(s) ==
      match ReadRecord(tail)
      case None => None
      case Some((fields, after)) => Some(([field] + fields, after))
  {
    assert ("," + tail)[1..] == tail;
  }

  /** The records of a whole text; a text always holds at least one record. */
  function ReadCsv(s: string): (r: Option<seq<seq<string>>>)
    ensures r.Some? ==> |r.value| >= 1
    decreases |s|
  {
    match ReadRecord(s)
    case None => None
    case Some((fields, None)) => Some([fields])
    case Some((fields, Some(rest))) =>
      match ReadCsv(rest)
      case None => None
      case Some(records) => Some([fields] + records)
  }
}
