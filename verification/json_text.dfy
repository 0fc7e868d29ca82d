/**
 * The JSON that crosses the relay boundary.
 *
 * JSON.parse is not modelled: both the relay and the page receive it as a
 * parameter `parse: Parser` and use only the three fields they read from the
 * parsed value. JSON.stringify of `{ content: text }` IS written out, because
 * the page's line splitting depends on its shape: the string escaping of
 * ECMAScript's QuoteJSONString (section 25.5.2.3 of ECMA-262) turns every
 * control character, including the newline, into an escape sequence, so a
 * content frame is always a single line. A decoder for exactly that output is
 * the partner that proves the encoding injective.
 */
module JsonText {
  import opened Wrappers
  import opened Lines

  /**
   * The fields of a parsed JSON value that the two consumers look at: the
   * upstream event's `type`, its `delta.text`, and the relay frame's
   * `content`. The empty string stands for a field that is absent or falsy,
   * which is all either consumer distinguishes.
   */
  datatype Payload = Payload(eventType: string, deltaText: string, content: string)

  /** JSON.parse: `None` when the text does not parse (the `catch` branch). */
  type Parser = string -> Option<Payload>

  /** The value JSON.parse must give for a relay content frame. */
  function ContentPayload(text: string): Payload
  {
    Payload("", "", text)
  }

  /** JSON.parse reads back what JSON.stringify wrote for `{ content }`. */
  ghost predicate ReadsContentFrames(parse: Parser)
  {
    forall text :: parse(EncodeContent(text)) == Some(ContentPayload(text))
  }

  function HexDigit(n: nat): (c: char)
    requires n < 16
  {
    if n < 10 then ('0' as int + n) as char else ('a' as int + n - 10) as char
  }

  function HexValue(c: char): (v: Option<nat>)
    ensures v.Some? ==> v.value < 16
  {
    if '0' <= c <= '9' then Some(c as int - '0' as int)
    else if 'a' <= c <= 'f' then Some(c as int - 'a' as int + 10)
    else None
  }

  /** QuoteJSONString for one code point. */
  function EscapeChar(c: char): string
  {
    if c == '"' then "\\\""
    else if c == '\\' then "\\\\"
    else if c as int == 0x08 then "\\b"
    else if c == '\t' then "\\t"
    else if c == '\n' then "\\n"
    else if c as int == 0x0C then "\\f"
    else if c == '\r' then "\\r"
    else if c as int < 0x20 then "\\u00" + [HexDigit(c as int / 16), HexDigit(c as int % 16)]
    else [c]
  }

  /** The body of a JSON string literal, without the surrounding quotes. */
  function Escape(s: string): string
  {
    if s == [] then "" else EscapeChar(s[0]) + Escape(s[1..])
  }

  /** JSON.stringify({ content: text }). */
  function EncodeContent(text: string): (r: string)
    ensures |r| >= 14 && r[0] == '{'
  {
    "{\"content\":\"" + Escape(text) + "\"}"
  }

  function Prepend(c: char, rest: Option<string>): Option<string>
  {
    match rest
    case None => None
    case Some(t) => Some([c] + t)
  }

  /** The character an escape `\x` stands for, for the one-letter escapes. */
  function SimpleEscape(x: char): Option<char>
  {
    if x == '"' then Some('"')
    else if x == '\\' then Some('\\')
    else if x == 'b' then Some(0x08 as char)
    else if x == 't' then Some('\t')
    else if x == 'n' then Some('\n')
    else if x == 'f' then Some(0x0C as char)
    else if x == 'r' then Some('\r')
    else None
  }

  /**
   * Reads a string-literal body back: the escapes above, `\u00XX` for the
   * other control characters, and any other character except `"`, `\` and
   * the control characters, which must be escaped.
   */
  function Unescape(s: string): Option<string>
    decreases |s|
  {
    if s == [] then Some("")
    else if s[0] == '\\' then
      if |s| >= 2 && SimpleEscape(s[1]).Some? then
        Prepend(SimpleEscape(s[1]).value, Unescape(s[2..]))
      else if |s| >= 6 && s[1] == 'u' && s[2] == '0' && s[3] == '0'
              && HexValue(s[4]).Some? && HexValue(s[4]).value < 2 && HexValue(s[5]).Some? then
        Prepend((16 * HexValue(s[4]).value + HexValue(s[5]).value) as char, Unescape(s[6..]))
      else None
    else if s[0] == '"' || s[0] as int < 0x20 then None
    else Prepend(s[0], Unescape(s[1..]))
  }

  /** Reads back a `{"content":"..."}` object as JSON.stringify lays it out. */
  function DecodeContent(s: string): Option<string>
  {
    if |s| >= 14 && s[..12] == "{\"content\":\"" && s[|s| - 2..] == "\"}" then
      Unescape(s[12..|s| - 2])
    else None
  }

  lemma HexRoundTrip(n: nat)
    requires n < 16
    ensures HexValue(HexDigit(n)) == Some(n)
  {
  }

  lemma UnescapePlain(c: char, t: string)
    requires c != '"' && c != '\\' && c as int >= 0x20
    ensures Unescape([c] + t) == Prepend(c, Unescape(t))
  {
    assert ([c] + t)[1..] == t;
  }

  lemma UnescapeSimple(x: char, c: char, t: string)
    requires SimpleEscape(x) == Some(c)
    ensures Unescape(['\\', x] + t) == Prepend(c, Unescape(t))
  {
    assert (['\\', x] + t)[2..] == t;
  }

  lemma UnescapeUnicode(c: char, t: string)
    requires c as int < 0x20
    ensures Unescape("\\u00" + [HexDigit(c as int / 16), HexDigit(c as int % 16)] + t)
         == Prepend(c, Unescape(t))
  {
    var hi, lo := c as int / 16, c as int % 16;
    var s := "\\u00" + [HexDigit(hi), HexDigit(lo)] + t;
    HexRoundTrip(hi);
    HexRoundTrip(lo);
    assert s[6..] == t;
    assert s[4] == HexDigit(hi) && s[5] == HexDigit(lo);
    assert SimpleEscape(s[1]) == None;
    assert (16 * hi + lo) as char == c;
  }

  lemma UnescapeChar(c: char, t: string)
    ensures Unescape(EscapeChar(c) + t) == Prepend(c, Unescape(t))
  {
    if c == '"' {
      UnescapeSimple('"', c, t);
    } else if c == '\\' {
      UnescapeSimple('\\', c, t);
    } else if c as int == 0x08 {
      UnescapeSimple('b', c, t);
    } else if c == '\t' {
      UnescapeSimple('t', c, t);
    } else if c == '\n' {
      UnescapeSimple('n', c, t);
    } else if c as int == 0x0C {
      UnescapeSimple('f', c, t);
    } else if c == '\r' {
      UnescapeSimple('r', c, t);
    } else if c as int < 0x20 {
      UnescapeUnicode(c, t);
    } else {
      UnescapePlain(c, t);
    }
  }

  /** Reading an escaped body back gives the original text. */
  lemma {:induction false} UnescapeEscape(s: string)
    ensures Unescape(Escape(s)) == Some(s)
  {
    if s != [] {
      UnescapeChar(s[0], Escape(s[1..]));
      UnescapeEscape(s[1..]);
      assert [s[0]] + s[1..] == s;
    }
  }

  /** The decoder inverts JSON.stringify of a content object. */
  lemma DecodeEncodeContent(text: string)
    ensures DecodeContent(EncodeContent(text)) == Some(text)
  {
    var r := EncodeContent(text);
    assert r[..12] == "{\"content\":\"";
    assert r[|r| - 2..] == "\"}";
    assert r[12..|r| - 2] == Escape(text);
    UnescapeEscape(text);
  }

  /** Distinct fragments are encoded as distinct JSON texts. */
  lemma EncodeContentInjective(a: string, b: string)
    requires EncodeContent(a) == EncodeContent(b)
    ensures a == b
  {
    DecodeEncodeContent(a);
    DecodeEncodeContent(b);
  }

  lemma {:induction false} EscapeNoNewline(s: string)
    ensures NoNewline(Escape(s))
  {
    if s != [] {
      EscapeNoNewline(s[1..]);
      assert NoNewline(EscapeChar(s[0]));
    }
  }

  /** The encoded content object is one line, whatever the fragment holds. */
  lemma EncodeContentNoNewline(text: string)
    ensures NoNewline(EncodeContent(text))
  {
    EscapeNoNewline(text);
  }
}
