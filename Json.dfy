/**
 * `JSON.stringify` applied to a string, as ECMAScript defines it
 * (QuoteJSONString), together with a decoder for JSON string literals.
 * The decoder is the partner of the encoder: decoding an encoded string
 * gives back the original and stops exactly after the closing quote.
 */
module Json {
  import opened Wrappers

  /** The lower-case hexadecimal digit for `d`. */
  function HexDigit(d: nat): char
    requires d < 16
  {
    if d < 10 then ('0' as int + d) as char else ('a' as int + d - 10) as char
  }

  /** The value of a hexadecimal digit of either case. */
  function HexValue(c: char): (r: Option<nat>)
    ensures r.Some? ==> r.value < 16
  {
    if '0' <= c <= '9' then Some(c as int - '0' as int)
    else if 'a' <= c <= 'f' then Some(c as int - 'a' as int + 10)
    else if 'A' <= c <= 'F' then Some(c as int - 'A' as int + 10)
    else None
  }

  lemma HexRoundTrip(d: nat)
    requires d < 16
    ensures HexValue(HexDigit(d)) == Some(d)
  {
  }

  /**
   * How one character appears inside a JSON string literal: the quote and
   * the backslash are escaped, the five control characters with a short
   * escape use it, the other control characters below U+0020 become
   * `\u00xx` in lower-case hexadecimal, and everything else is kept.
   */
  function EscapeChar(c: char): string
  {
    if c == '"' then ['\\', '"']
    else if c == '\\' then ['\\', '\\']
    else if c as int == 0x08 then ['\\', 'b']
    else if c as int == 0x09 then ['\\', 't']
    else if c as int == 0x0A then ['\\', 'n']
    else if c as int == 0x0C then ['\\', 'f']
    else if c as int == 0x0D then ['\\', 'r']
    else if c as int < 0x20 then ['\\', 'u', '0', '0', HexDigit(c as int / 16), HexDigit(c as int % 16)]
    else [c]
  }

  function Escape(s: string): string
  {
    if |s| == 0 then "" else EscapeChar(s[0]) + Escape(s[1..])
  }

  /** `JSON.stringify(s)` for a string `s`. */
  function Quote(s: string): (r: string)
    ensures |r| >= 2 && r[0] == '"' && r[|r| - 1] == '"'
  {
    ['"'] + Escape(s) + ['"']
  }

  /** The character a one-letter escape such as `\n` stands for. */
  function ShortEscape(e: char): Option<char>
  {
    if e == '"' then Some('"')
    else if e == '\\' then Some('\\')
    else if e == '/' then Some('/')
    else if e == 'b' then Some(0x08 as char)
    else if e == 't' then Some(0x09 as char)
    else if e == 'n' then Some(0x0A as char)
    else if e == 'f' then Some(0x0C as char)
    else if e == 'r' then Some(0x0D as char)
    else None
  }

  /** The code unit written by four hexadecimal digits. */
  function HexQuad(a: char, b: char, c: char, d: char): Option<nat>
  {
    match (HexValue(a), HexValue(b), HexValue(c), HexValue(d))
    case (Some(x), Some(y), Some(z), Some(w)) => Some(((x * 16 + y) * 16 + z) * 16 + w)
    case _ => None
  }

  /**
   * Reads the body of a JSON string literal whose opening quote has been
   * consumed: the decoded characters up to the closing quote, and what
   * follows that quote. `None` when the literal is malformed or
   * unterminated, or when a `\u` escape names a surrogate code unit.
   */
  function DecodeBody(t: string): Option<(string, string)>
    decreases |t|
  {
    if |t| == 0 then None
    else if t[0] == '"' then Some(([], t[1..]))
    else if t[0] == '\\' then
      if |t| >= 2 && ShortEscape(t[1]).Some? then
        Prepend(ShortEscape(t[1]).value, DecodeBody(t[2..]))
      else if |t| >= 6 && t[1] == 'u' then
        match HexQuad(t[2], t[3], t[4], t[5])
        case Some(v) =>
          if v < 0xD800 || 0xE000 <= v then Prepend(v as char, DecodeBody(t[6..])) else None
        case None => None
      else None
    else if t[0] as int < 0x20 then None
    else Prepend(t[0], DecodeBody(t[1..]))
  }

  function Prepend(c: char, r: Option<(string, string)>): Option<(string, string)>
  {
    match r
    case None => None
    case Some((v, rest)) => Some(([c] + v, rest))
  }

  /** Reads one JSON string literal at the start of `t`, and what follows it. */
  function DecodeString(t: string): Option<(string, string)>
  {
    if |t| > 0 && t[0] == '"' then DecodeBody(t[1..]) else None
  }

  lemma EscapeCharDecodes(c: char, tail: string)
    ensures DecodeBody(EscapeChar(c) + tail) == Prepend(c, DecodeBody(tail))
  {
    var e := EscapeChar(c);
    var t := e + tail;
    if c == '"' || c == '\\' || c as int in {0x08, 0x09, 0x0A, 0x0C, 0x0D} {
      assert t[2..] == tail;
    } else if c as int < 0x20 {
      var hi, lo := c as int / 16, c as int % 16;
      HexRoundTrip(hi);
      HexRoundTrip(lo);
      HexRoundTrip(0);
      assert HexDigit(0) == '0';
      assert t[1] == 'u' && t[2] == '0' && t[3] == '0' && t[4] == HexDigit(hi) && t[5] == HexDigit(lo);
      assert HexQuad(t[2], t[3], t[4], t[5]) == Some(c as int);
      assert t[6..] == tail;
    } else {
      assert t[1..] == tail;
    }
  }

  /** Decoding the escaped form of `s` followed by a quote gives `s` and the rest. */
  lemma {:induction false} EscapeRoundTrip(s: string, rest: string)
    ensures DecodeBody(Escape(s) + ['"'] + rest) == Some((s, rest))
  {
    if |s| == 0 {
      assert Escape(s) + ['"'] + rest == ['"'] + rest;
      assert (['"'] + rest)[1..] == rest;
    } else {
      var tail := Escape(s[1..]) + ['"'] + rest;
      assert Escape(s) + ['"'] + rest == EscapeChar(s[0]) + tail;
      EscapeCharDecodes(s[0], tail);
      EscapeRoundTrip(s[1..], rest);
      assert [s[0]] + s[1..] == s;
    }
  }

  /** A stringified string reads back as itself, and reading stops right after it. */
  lemma QuoteRoundTrip(s: string, rest: string)
    ensures DecodeString(Quote(s) + rest) == Some((s, rest))
  {
    var t := Quote(s) + rest;
    assert t[1..] == Escape(s) + ['"'] + rest;
    EscapeRoundTrip(s, rest);
  }

  /** Different strings stringify differently. */
  lemma QuoteInjective(s: string, u: string)
    requires Quote(s) == Quote(u)
    ensures s == u
  {
    QuoteRoundTrip(s, "");
    QuoteRoundTrip(u, "");
    assert Quote(s) + "" == Quote(s);
    assert Quote(u) + "" == Quote(u);
  }
}
