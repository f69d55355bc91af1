/**
 * The stored form of an entry's tag list: a JSON array of strings (sections 5 and 7
 * of RFC 8259), written the way Foundation's JSONEncoder writes it, and read back
 * with a JSON parser that falls back to comma splitting when the stored text is
 * not a JSON array of strings.
 */
module TagCodec {
  import opened Common
  import opened Text

  // ---------------------------------------------------------------------------
  // Encoding
  // ---------------------------------------------------------------------------

  function HexDigit(n: int): (c: char)
    requires 0 <= n < 16
  {
    if n < 10 then ('0' as int + n) as char else ('a' as int + n - 10) as char
  }

  /** The JSON text for one character inside a string literal. */
  function EscapeChar(c: char): string {
    if c == '"' then "\\\""
    else if c == '\\' then "\\\\"
    else if c == '/' then "\\/"
    else if c == '\n' then "\\n"
    else if c == '\r' then "\\r"
    else if c == '\t' then "\\t"
    else if c == '\U{0008}' then "\\b"
    else if c == '\U{000C}' then "\\f"
    else if (c as int) < 0x20 then "\\u00" + [HexDigit(c as int / 16), HexDigit(c as int % 16)]
    else [c]
  }

  function EscapeString(s: string): string {
    if |s| == 0 then "" else EscapeChar(s[0]) + EscapeString(s[1..])
  }

  function Quote(s: string): string {
    "\"" + EscapeString(s) + "\""
  }

  function Elements(tags: seq<string>): string {
    if |tags| == 0 then ""
    else if |tags| == 1 then Quote(tags[0])
    else Quote(tags[0]) + "," + Elements(tags[1..])
  }

  /** `encodeTags`: the compact JSON array of the tags. */
  function EncodeTags(tags: seq<string>): (r: string)
    ensures |r| >= 2 && r[0] == '[' && r[|r| - 1] == ']'
  {
    "[" + Elements(tags) + "]"
  }

  // ---------------------------------------------------------------------------
  // Decoding
  // ---------------------------------------------------------------------------

  /** JSON insignificant whitespace (RFC 8259, section 2). */
  predicate IsWs(c: char) {
    c == ' ' || c == '\t' || c == '\n' || c == '\r'
  }

  function SkipWs(s: string): (r: string)
    ensures |r| <= |s|
    ensures |r| > 0 ==> !IsWs(r[0])
  {
    if |s| > 0 && IsWs(s[0]) then SkipWs(s[1..]) else s
  }

  function HexValue(c: char): Option<int> {
    if '0' <= c <= '9' then Some(c as int - '0' as int)
    else if 'a' <= c <= 'f' then Some(c as int - 'a' as int + 10)
    else if 'A' <= c <= 'F' then Some(c as int - 'A' as int + 10)
    else None
  }

  /** The value of four hexadecimal digits at the start of `s`. */
  function Hex4(s: string): (r: Option<int>)
    ensures r.Some? ==> 0 <= r.value < 0x10000
  {
    if |s| < 4 then None
    else
      match (HexValue(s[0]), HexValue(s[1]), HexValue(s[2]), HexValue(s[3]))
      case (Some(a), Some(b), Some(c), Some(d)) =>
        if 0 <= a < 16 && 0 <= b < 16 && 0 <= c < 16 && 0 <= d < 16
        then Some(((a * 16 + b) * 16 + c) * 16 + d) else None
      case _ => None
  }

  predicate IsHighSurrogate(v: int) { 0xD800 <= v < 0xDC00 }
  predicate IsLowSurrogate(v: int) { 0xDC00 <= v < 0xE000 }

  /**
   * The character an escape sequence stands for, and how many characters of `s`
   * (which starts at the backslash) it takes; a `\u` escape naming a high surrogate
   * must be followed by one naming a low surrogate, and the pair stands for one character.
   */
  function DecodeEscape(s: string): (r: Option<(char, nat)>)
    requires |s| >= 1 && s[0] == '\\'
    ensures r.Some? ==> 2 <= r.value.1 <= |s|
  {
    if |s| < 2 then None
    else if s[1] == '"' then Some(('"', 2))
    else if s[1] == '\\' then Some(('\\', 2))
    else if s[1] == '/' then Some(('/', 2))
    else if s[1] == 'b' then Some(('\U{0008}', 2))
    else if s[1] == 'f' then Some(('\U{000C}', 2))
    else if s[1] == 'n' then Some(('\n', 2))
    else if s[1] == 'r' then Some(('\r', 2))
    else if s[1] == 't' then Some(('\t', 2))
    else if s[1] == 'u' then
      match Hex4(s[2..])
      case None => None
      case Some(v) =>
        if IsLowSurrogate(v) then None
        else if !IsHighSurrogate(v) then Some((v as char, 6))
        else if |s| < 8 || s[6] != '\\' || s[7] != 'u' then None
        else
          match Hex4(s[8..])
          case None => None
          case Some(w) =>
            if IsLowSurrogate(w)
            then Some(((0x10000 + (v - 0xD800) * 0x400 + (w - 0xDC00)) as char, 12))
            else None
    else None
  }

  /**
   * The contents of a string literal whose opening quote has been consumed, and the
   * text after its closing quote.
   */
  function ParseStringBody(s: string): (r: Option<(string, string)>)
    ensures r.Some? ==> |r.value.1| < |s|
    decreases |s|
  {
    if |s| == 0 then None
    else if s[0] == '"' then Some(("", s[1..]))
    else if s[0] == '\\' then
      match DecodeEscape(s)
      case None => None
      case Some((c, n)) =>
        match ParseStringBody(s[n..])
        case None => None
        case Some((t, rest)) => Some(([c] + t, rest))
    else if (s[0] as int) < 0x20 then None
    else
      match ParseStringBody(s[1..])
      case None => None
      case Some((t, rest)) => Some(([s[0]] + t, rest))
  }

  /** The elements of an array from the first element on, up to the end of the text. */
  function ParseItems(u: string): Option<seq<string>>
    decreases |u|
  {
    if |u| == 0 || u[0] != '"' then None
    else
      match ParseStringBody(u[1..])
      case None => None
      case Some((x, rest)) =>
        var v := SkipWs(rest);
        if |v| == 0 then None
        else if v[0] == ']' then (if SkipWs(v[1..]) == "" then Some([x]) else None)
        else if v[0] == ',' then
          match ParseItems(SkipWs(v[1..]))
          case None => None
          case Some(xs) => Some([x] + xs)
        else None
  }

  /** The whole text read as a JSON array of strings, or None when it is not one. */
  function ParseStringArray(s: string): Option<seq<string>> {
    var t := SkipWs(s);
    if |t| == 0 || t[0] != '[' then None
    else
      var u := SkipWs(t[1..]);
      if |u| > 0 && u[0] == ']' then (if SkipWs(u[1..]) == "" then Some([]) else None)
      else ParseItems(u)
  }

  /** `decodeTags`: the JSON array when the text is one, otherwise the non-empty comma-separated pieces. */
  function DecodeTags(value: string): (r: seq<string>)
    ensures ParseStringArray(value).Some? ==> r == ParseStringArray(value).value
    ensures ParseStringArray(value).None? ==> forall i :: 0 <= i < |r| ==> r[i] != "" && Avoids(r[i], ',')
  {
    match ParseStringArray(value)
    case Some(decoded) => decoded
    case None =>
      SplitPiecesAvoid(value, ',');
      NonEmptyKeepsAvoiding(SplitAll(value, ','), ',');
      SplitOmittingEmpty(value, ',')
  }

  // ---------------------------------------------------------------------------
  // Round trip
  // ---------------------------------------------------------------------------

  lemma HexDigitValue(n: int)
    requires 0 <= n < 16
    ensures HexValue(HexDigit(n)) == Some(n)
  {
  }

  /** The escape of a control character decodes to that character. */
  lemma {:induction false} ControlEscape(c: char, tail: string)
    requires (c as int) < 0x20
    ensures DecodeEscape("\\u00" + [HexDigit(c as int / 16), HexDigit(c as int % 16)] + tail) == Some((c, 6))
  {
    var hi, lo := c as int / 16, c as int % 16;
    var s := "\\u00" + [HexDigit(hi), HexDigit(lo)] + tail;
    HexDigitValue(hi);
    HexDigitValue(lo);
    assert s[2..][..4] == ['0', '0', HexDigit(hi), HexDigit(lo)];
    assert Hex4(s[2..]) == Some(hi * 16 + lo);
    assert (hi * 16 + lo) as char == c;
  }

  /** Parsing resumes after one escaped character with that character decoded. */
  lemma {:induction false} EscapeCharStep(c: char, tail: string)
    ensures ParseStringBody(EscapeChar(c) + tail) ==
      match ParseStringBody(tail)
      case None => None
      case Some((t, rest)) => Some(([c] + t, rest))
  {
    var s := EscapeChar(c) + tail;
    if c == '"' || c == '\\' || c == '/' || c == '\n' || c == '\r' || c == '\t'
      || c == '\U{0008}' || c == '\U{000C}' {
      assert s[0] == '\\' && s[2..] == tail;
      assert DecodeEscape(s) == Some((c, 2));
    } else if (c as int) < 0x20 {
      ControlEscape(c, tail);
      assert s[6..] == tail;
    } else {
      assert s[0] == c && s[1..] == tail;
    }
  }

  /** A quoted, escaped string parses back to itself, leaving the text after the closing quote. */
  lemma {:induction false} StringRoundTrip(t: string, rest: string)
    ensures ParseStringBody(EscapeString(t) + "\"" + rest) == Some((t, rest))
  {
    if |t| == 0 {
      assert EscapeString(t) + "\"" + rest == "\"" + rest;
    } else {
      StringRoundTrip(t[1..], rest);
      assert EscapeString(t) + "\"" + rest == EscapeChar(t[0]) + (EscapeString(t[1..]) + "\"" + rest);
      EscapeCharStep(t[0], EscapeString(t[1..]) + "\"" + rest);
      assert [t[0]] + t[1..] == t;
    }
  }

  /** Parsing an element that is followed by the closing bracket. */
  lemma ParseLastItem(u: string, x: string)
    requires |u| > 0 && u[0] == '"' && ParseStringBody(u[1..]) == Some((x, "]"))
    ensures ParseItems(u) == Some([x])
  {
    assert SkipWs("]") == "]";
    assert SkipWs("") == "";
  }

  /** Parsing an element that is followed by a comma and the next element. */
  lemma ParseItemThenMore(u: string, x: string, next: string)
    requires |next| > 0 && next[0] == '"'
    requires |u| > 0 && u[0] == '"' && ParseStringBody(u[1..]) == Some((x, "," + next))
    ensures ParseItems(u) ==
      match ParseItems(next)
      case None => None
      case Some(xs) => Some([x] + xs)
  {
    assert SkipWs("," + next) == "," + next;
    assert ("," + next)[1..] == next;
    assert SkipWs(next) == next;
  }

  /** The text after one quoted element, when that element is the last. */
  lemma ItemsLast(x: string)
    ensures ParseItems(Quote(x) + "]") == Some([x])
  {
    var u := Quote(x) + "]";
    assert u == "\"" + (EscapeString(x) + "\"" + "]");
    StringRoundTrip(x, "]");
    ParseLastItem(u, x);
  }

  /** The text after one quoted element, when more elements follow. */
  lemma ItemsCons(x: string, next: string)
    requires |next| > 0 && next[0] == '"'
    ensures ParseItems(Quote(x) + "," + next) ==
      match ParseItems(next)
      case None => None
      case Some(xs) => Some([x] + xs)
  {
    var u := Quote(x) + "," + next;
    assert u == "\"" + (EscapeString(x) + "\"" + ("," + next));
    StringRoundTrip(x, "," + next);
    ParseItemThenMore(u, x, next);
  }

  lemma ElementsStartWithQuote(tags: seq<string>, tail: string)
    requires |tags| >= 1
    ensures |Elements(tags) + tail| > 0 && (Elements(tags) + tail)[0] == '"'
  {
    if |tags| == 1 {
      assert Elements(tags) == Quote(tags[0]);
    } else {
      assert Elements(tags) == Quote(tags[0]) + "," + Elements(tags[1..]);
    }
  }

  lemma {:induction false} ItemsRoundTrip(tags: seq<string>)
    requires |tags| >= 1
    ensures ParseItems(Elements(tags) + "]") == Some(tags)
  {
    if |tags| == 1 {
      assert Elements(tags) + "]" == Quote(tags[0]) + "]";
      ItemsLast(tags[0]);
      assert tags == [tags[0]];
    } else {
      var next := Elements(tags[1..]) + "]";
      assert Elements(tags) + "]" == Quote(tags[0]) + "," + next;
      ElementsStartWithQuote(tags[1..], "]");
      ItemsCons(tags[0], next);
      ItemsRoundTrip(tags[1..]);
      assert [tags[0]] + tags[1..] == tags;
    }
  }

  /** decodeTags(encodeTags(t)) == t for every list of strings, commas and quotes included. */
  lemma {:induction false} TagsRoundTrip(tags: seq<string>)
    ensures DecodeTags(EncodeTags(tags)) == tags
  {
    var s := EncodeTags(tags);
    assert SkipWs(s) == s;
    assert s[1..] == Elements(tags) + "]";
    if |tags| == 0 {
      assert SkipWs(s[1..]) == "]";
    } else {
      var u := Elements(tags) + "]";
      ElementsStartWithQuote(tags, "]");
      assert SkipWs(u) == u;
      ItemsRoundTrip(tags);
    }
  }

  /**
   * Text written by an older comma-separated format still reads back as its tags, as
   * long as it does not happen to look like a JSON array.
   */
  lemma LegacyCommaText(tags: seq<string>)
    requires |tags| >= 1
    requires forall i :: 0 <= i < |tags| ==> tags[i] != "" && Avoids(tags[i], ',')
    requires !IsWs(tags[0][0]) && tags[0][0] != '['
    ensures DecodeTags(Join(tags, ',')) == tags
  {
    var s := Join(tags, ',');
    assert s[0] == tags[0][0] by {
      if |tags| > 1 { assert s == tags[0] + [','] + Join(tags[1..], ','); }
    }
    assert ParseStringArray(s).None?;
    SplitJoin(tags, ',');
    NonEmptyKeepsFull(tags);
  }

  /** A small instance of the fallback: empty pieces are dropped. */
  lemma DecodeCommaText()
    ensures DecodeTags("a,,b") == ["a", "b"]
  {
    assert ParseStringArray("a,,b").None?;
    assert "a,,b"[1..] == ",,b" && ",,b"[1..] == ",b" && ",b"[1..] == "b" && "b"[1..] == "";
    assert SplitAll("", ',') == [""];
    assert SplitAll("b", ',') == [['b'] + ""] + [];
    assert "b" == ['b'] && "a" == ['a'] && ['b'] + "" == "b" && ['a'] + "" == "a";
    assert ",b"[0] == ',' && ",,b"[0] == ',' && "a,,b"[0] == 'a';
    assert SplitAll(",b", ',') == [""] + ["b"];
    assert SplitAll(",,b", ',') == [""] + ["", "b"];
    assert SplitAll("a,,b", ',') == [['a'] + ""] + ["", "b"];
    assert NonEmpty(["b"]) == ["b"] + NonEmpty([]);
    assert NonEmpty(["", "b"]) == NonEmpty(["b"]);
    assert NonEmpty(["a", "", "b"]) == ["a"] + NonEmpty(["", "b"]);
  }

  /** The case of the unit test: tags that contain the fallback's own delimiter survive. */
  lemma CommaTagsExample()
    ensures DecodeTags(EncodeTags(["alpha,beta", "gamma"])) == ["alpha,beta", "gamma"]
    ensures DecodeTags(EncodeTags(["delta,epsilon", "zeta"])) == ["delta,epsilon", "zeta"]
  {
    TagsRoundTrip(["alpha,beta", "gamma"]);
    TagsRoundTrip(["delta,epsilon", "zeta"]);
  }
}
