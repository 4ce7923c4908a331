/** `JSON.stringify` of a string, as the CSV and JSON exports use it, and a
    reader for the quoted strings it produces. The reader is the reference
    against which the writer is proved: every string reads back unchanged. */
module JsonString {
  import opened Wrappers
  import opened Text

  /** A lower-case hexadecimal digit. */
  function HexDigit(d: nat): char
    requires d < 16
  {
    "0123456789abcdef"[d]
  }

  /** The value of a hexadecimal digit of either case. */
  function HexValue(c: char): Option<nat>
  {
    if '0' <= c <= '9' then Some(c as int - '0' as int)
    else if 'a' <= c <= 'f' then Some(c as int - 'a' as int + 10)
    else if 'A' <= c <= 'F' then Some(c as int - 'A' as int + 10)
    else None
  }

  lemma HexRoundTrip(d: nat)
    requires d < 16
    ensures HexValue(HexDigit(d)) == Some(d)
  {
  }

  /** How `JSON.stringify` writes one character inside a string literal. */
  function EscapeChar(c: char): (r: string)
    ensures |r| >= 1
    ensures forall i | 0 <= i < |r| :: r[i] >= ' '
    ensures r[0] != '"'
  {
    if c == '"' then "\\\""
    else if c == '\\' then "\\\\"
    else if c == '\U{8}' then "\\b"
    else if c == '\t' then "\\t"
    else if c == '\n' then "\\n"
    else if c == '\U{C}' then "\\f"
    else if c == '\r' then "\\r"
    else if c < ' ' then "\\u00" + [HexDigit(c as int / 16), HexDigit(c as int % 16)]
    else [c]
  }

  function EscapeBody(s: string): (r: string)
    ensures forall i | 0 <= i < |r| :: r[i] >= ' '
  {
    if s == [] then "" else EscapeChar(s[0]) + EscapeBody(s[1..])
  }

  /** `JSON.stringify(s)` for a string `s`. */
  function Quote(s: string): (r: string)
    ensures |r| >= 2 && r[0] == '"' && r[|r| - 1] == '"'
    ensures forall i | 0 <= i < |r| :: r[i] >= ' '
  {
    "\"" + EscapeBody(s) + "\""
  }

  /** The character an escape sequence stands for, read after its backslash,
      and how many characters after the backslash it takes. */
  function ReadEscape(t: string): (r: Option<(char, nat)>)
    ensures r.Some? ==> 1 <= r.value.1 <= |t|
  {
    if t == [] then None
    else if t[0] == '"' then Some(('"', 1))
    else if t[0] == '\\' then Some(('\\', 1))
    else if t[0] == '/' then Some(('/', 1))
    else if t[0] == 'b' then Some(('\U{8}', 1))
    else if t[0] == 't' then Some(('\t', 1))
    else if t[0] == 'n' then Some(('\n', 1))
    else if t[0] == 'f' then Some(('\U{C}', 1))
    else if t[0] == 'r' then Some(('\r', 1))
    else if t[0] == 'u' && |t| >= 5 then
      match (HexValue(t[1]), HexValue(t[2]), HexValue(t[3]), HexValue(t[4]))
      case (Some(a), Some(b), Some(c), Some(d)) =>
        var v := a * 4096 + b * 256 + c * 16 + d;
        if v < 0xD800 || 0xE000 <= v then Some((v as char, 5)) else None
      case _ => None
    else None
  }

  /** Puts `c` in front of the text a read produced. */
  function Prepend(c: char, r: Option<(string, string)>): Option<(string, string)>
  {
    match r
    case None => None
    case Some((d, rest)) => Some(([c] + d, rest))
  }

  /** Reads the inside of a string literal up to its closing quote; gives the
      text it denotes and what follows the quote. */
  function ReadBody(t: string): (r: Option<(string, string)>)
    ensures r.Some? ==> |r.value.1| < |t|
    decreases |t|
  {
    if t == [] then None
    else if t[0] == '"' then Some(("", t[1..]))
    else if t[0] == '\\' then
      match ReadEscape(t[1..])
      case None => None
      case Some((c, n)) => Prepend(c, ReadBody(t[1 + n..]))
    else if t[0] < ' ' then None
    else Prepend(t[0], ReadBody(t[1..]))
  }

  /** Reads one string literal from the front of `t`. */
  function ParseString(t: string): (r: Option<(string, string)>)
    ensures r.Some? ==> |r.value.1| < |t|
  {
    if t != [] && t[0] == '"' then ReadBody(t[1..]) else None
  }

  /** Reading one escaped character gives that character back. */
  lemma ReadEscapedChar(c: char, u: string)
    ensures ReadBody(EscapeChar(c) + u) == Prepend(c, ReadBody(u))
  {
    var t := EscapeChar(c) + u;
    if c < ' ' && c != '\U{8}' && c != '\t' && c != '\n' && c != '\U{C}' && c != '\r' {
      var hi, lo := c as int / 16, c as int % 16;
      HexRoundTrip(hi);
      HexRoundTrip(lo);
      assert t[1..] == ['u', '0', '0', HexDigit(hi), HexDigit(lo)] + u;
      assert ReadEscape(t[1..]) == Some((c, 5));
      assert t[6..] == u;
    } else if |EscapeChar(c)| == 2 {
      assert t[2..] == u;
    } else {
      assert t[1..] == u;
    }
  }

  /** Reading an escaped body followed by the closing quote gives the text back. */
  lemma {:induction false} ReadBodyRoundTrip(s: string, rest: string)
    ensures ReadBody(EscapeBody(s) + "\"" + rest) == Some((s, rest))
  {
    if s == [] {
      assert EscapeBody(s) + "\"" + rest == "\"" + rest;
      assert ("\"" + rest)[1..] == rest;
    } else {
      var u := EscapeBody(s[1..]) + "\"" + rest;
      assert EscapeBody(s) + "\"" + rest == EscapeChar(s[0]) + u;
      ReadEscapedChar(s[0], u);
      ReadBodyRoundTrip(s[1..], rest);
      assert [s[0]] + s[1..] == s;
    }
  }

  /** Every string reads back unchanged from its quoted form, whatever follows. */
  lemma QuoteRoundTrip(s: string, rest: string)
    ensures ParseString(Quote(s) + rest) == Some((s, rest))
  {
    var t := Quote(s) + rest;
    assert t[1..] == EscapeBody(s) + "\"" + rest;
    ReadBodyRoundTrip(s, rest);
  }

  /** Quoting is injective. */
  lemma QuoteInjective(a: string, b: string)
    requires Quote(a) == Quote(b)
    ensures a == b
  {
    QuoteRoundTrip(a, "");
    QuoteRoundTrip(b, "");
    assert Quote(a) + "" == Quote(b) + "";
  }
}
