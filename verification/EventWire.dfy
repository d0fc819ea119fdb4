/** The dev channel's events on the wire: JSON escaping and the stream's frames
    (`escape_json`, `event_json`, `swap_event_json`, `sse_frame`, crates/vilan-cli/src/hmr.rs), and a
    reader of each: section 7 of RFC 8259 for the strings. */
module EventWire {
  import opened Basics

  // ----- escaping -----

  function HexDigit(v: nat): char
    requires v < 16
  {
    if v < 10 then ('0' as int + v) as char else ('a' as int + v - 10) as char
  }

  function HexValue(c: char): (r: Option<nat>)
    ensures r.Some? ==> r.value < 16
  {
    if '0' <= c <= '9' then Some(c as int - 48)
    else if 'a' <= c <= 'f' then Some(c as int - 87)
    else if 'A' <= c <= 'F' then Some(c as int - 55)
    else None
  }

  function EscapeChar(c: char): string {
    if c == '"' then "\\\""
    else if c == '\\' then "\\\\"
    else if c == '\n' then "\\n"
    else if c == '\r' then "\\r"
    else if c == '\t' then "\\t"
    else if c < ' ' then ['\\', 'u', '0', '0', HexDigit(c as int / 16), HexDigit(c as int % 16)]
    else [c]
  }

  function Escape(text: string): string {
    if text == "" then "" else EscapeChar(text[0]) + Escape(text[1..])
  }

  method EscapeJson(text: string) returns (out: string)
    ensures out == Escape(text)
  {
    out := "";
    for i := 0 to |text|
      invariant out + Escape(text[i..]) == Escape(text)
    {
      assert text[i..][1..] == text[i + 1..];
      assert out + (EscapeChar(text[i]) + Escape(text[i + 1..])) == (out + EscapeChar(text[i])) + Escape(text[i + 1..]);
      out := out + EscapeChar(text[i]);
    }
    assert text[|text|..] == "" && out + "" == out;
  }

  // ----- reading a string back -----

  /** The four hex digits of a `\u` escape. */
  function CodeUnit(s: string): Option<nat> {
    if |s| < 4 then None
    else
      match (HexValue(s[0]), HexValue(s[1]), HexValue(s[2]), HexValue(s[3]))
      case (Some(a), Some(b), Some(c), Some(d)) => Some(a * 0x1000 + b * 0x100 + c * 0x10 + d)
      case _ => None
  }

  function ShortEscape(c: char): Option<char> {
    if c == '"' then Some('"')
    else if c == '\\' then Some('\\')
    else if c == '/' then Some('/')
    else if c == 'b' then Some(8 as char)
    else if c == 'f' then Some(12 as char)
    else if c == 'n' then Some('\n')
    else if c == 'r' then Some('\r')
    else if c == 't' then Some('\t')
    else None
  }

  /** The character a string body starts with, and how long it is written; a pair of surrogate escapes
      is one character, and a quote, a control character or a lone surrogate is no part of a body. */
  function ReadChar(s: string): (r: Option<(char, nat)>)
    requires s != ""
    ensures r.Some? ==> 0 < r.value.1 <= |s|
  {
    if s[0] == '"' || s[0] < ' ' then None
    else if s[0] != '\\' then Some((s[0], 1))
    else if |s| < 2 then None
    else if s[1] != 'u' then
      match ShortEscape(s[1]) case Some(c) => Some((c, 2)) case None => None
    else
      match CodeUnit(s[2..])
      case None => None
      case Some(u) =>
        if u < 0xD800 || 0xE000 <= u then Some((u as char, 6))
        else if u < 0xDC00 && |s| >= 12 && s[6] == '\\' && s[7] == 'u' then
          match CodeUnit(s[8..])
          case Some(low) =>
            if 0xDC00 <= low < 0xE000 then Some(((0x10000 + (u - 0xD800) * 0x400 + (low - 0xDC00)) as char, 12))
            else None
          case None => None
        else None
  }

  function Unescape(s: string): Option<string>
    decreases |s|
  {
    if s == "" then Some("")
    else
      match ReadChar(s)
      case None => None
      case Some((c, n)) => match Unescape(s[n..]) case Some(rest) => Some([c] + rest) case None => None
  }

  /** Nothing a stream's line reader stops at, nor a raw quote's kin: every character is a space or past it. */
  predicate Printable(s: string) {
    forall c :: c in s ==> c >= ' '
  }

  lemma HexRoundTrip(v: nat)
    requires v < 16
    ensures HexValue(HexDigit(v)) == Some(v) && HexDigit(v) > ' ' && HexDigit(v) != '"' && HexDigit(v) != '\\'
  {
  }

  lemma EscapedReads(c: char, rest: string)
    ensures ReadChar(EscapeChar(c) + rest) == Some((c, |EscapeChar(c)|))
    ensures (EscapeChar(c) + rest)[|EscapeChar(c)|..] == rest
    ensures Printable(EscapeChar(c))
  {
    if c < ' ' && c !in "\n\r\t" {
      var v := c as int;
      HexRoundTrip(v / 16);
      HexRoundTrip(v % 16);
      HexRoundTrip(0);
      var s := EscapeChar(c) + rest;
      assert s[2..][0] == '0' && s[2..][1] == '0' && s[2..][2] == HexDigit(v / 16) && s[2..][3] == HexDigit(v % 16);
      assert CodeUnit(s[2..]) == Some(v);
    }
  }

  /** Un-escaping inverts escaping, and what is escaped reads as a string body to its end: it has no raw
      control character and no quote outside an escape. */
  lemma {:induction false} UnescapesBack(text: string)
    ensures Unescape(Escape(text)) == Some(text) && Printable(Escape(text))
  {
    if text != "" {
      UnescapesBack(text[1..]);
      EscapedReads(text[0], Escape(text[1..]));
      assert text == [text[0]] + text[1..];
    }
  }

  /** In a body that reads, every quote is an escape's. */
  lemma {:induction false} QuotesAreEscaped(s: string, i: nat)
    requires Unescape(s).Some? && i < |s| && s[i] == '"'
    ensures i > 0 && s[i - 1] == '\\'
    decreases |s|
  {
    var n := ReadChar(s).value.1;
    if i >= n {
      QuotesAreEscaped(s[n..], i - n);
    } else if s[0] == '\\' && s[1] == 'u' {
      HexOnly(s[2..], i - 2);
      if n == 12 { HexOnly(s[8..], i - 8); }
    }
  }

  lemma HexOnly(s: string, i: int)
    requires CodeUnit(s).Some?
    ensures 0 <= i < 4 ==> s[i] != '"'
  {
  }

  // ----- events -----

  function Digits(n: nat): (r: string)
    ensures Printable(r) && '\n' !in r
  {
    if n < 10 then [('0' as int + n) as char] else Digits(n / 10) + [('0' as int + n % 10) as char]
  }

  function EventHead(kind: string, version: nat): string {
    "{\"kind\":\"" + kind + "\",\"version\":" + Digits(version)
  }

  /** One more field, its text escaped, when there is one. */
  function TextField(name: string, text: Option<string>): string {
    if text.Some? then ",\"" + name + "\":\"" + Escape(text.value) + "\"" else ""
  }

  function EventJson(kind: string, version: nat, message: Option<string>, asset: Option<string>): string {
    EventHead(kind, version) + TextField("message", message) + TextField("asset", asset) + "}"
  }

  function SheetList(sheets: seq<string>): string {
    if sheets == [] then ""
    else (if |sheets| > 1 then SheetList(sheets[..|sheets| - 1]) + "," else "")
         + "\"" + Escape(sheets[|sheets| - 1]) + "\""
  }

  function SwapEventJson(version: nat, sheets: seq<string>): string {
    "{\"kind\":\"swap\",\"version\":" + Digits(version) + ",\"sheets\":[" + SheetList(sheets) + "]}"
  }

  lemma PrintableJoin(a: string, b: string)
    requires Printable(a) && Printable(b)
    ensures Printable(a + b)
  {
  }

  lemma HeadIsPrintable(kind: string, version: nat)
    requires Printable(kind)
    ensures Printable(EventHead(kind, version))
  {
    PrintableJoin("{\"kind\":\"", kind);
    PrintableJoin("{\"kind\":\"" + kind, "\",\"version\":");
  }

  lemma FieldIsPrintable(name: string, text: Option<string>)
    requires Printable(name)
    ensures Printable(TextField(name, text))
  {
    if text.Some? {
      UnescapesBack(text.value);
      PrintableJoin(",\"", name);
      PrintableJoin(",\"" + name, "\":\"");
      PrintableJoin(",\"" + name + "\":\"", Escape(text.value));
    }
  }

  /** Whatever its message and names hold, an event is one line. */
  lemma EventIsPrintable(kind: string, version: nat, message: Option<string>, asset: Option<string>)
    requires Printable(kind)
    ensures Printable(EventJson(kind, version, message, asset))
  {
    HeadIsPrintable(kind, version);
    FieldIsPrintable("message", message);
    FieldIsPrintable("asset", asset);
    var head, m, a := EventHead(kind, version), TextField("message", message), TextField("asset", asset);
    PrintableJoin(head, m);
    PrintableJoin(head + m, a);
    PrintableJoin(head + m + a, "}");
  }

  lemma {:induction false} SheetsArePrintable(sheets: seq<string>)
    ensures Printable(SheetList(sheets))
  {
    if sheets != [] {
      SheetsArePrintable(sheets[..|sheets| - 1]);
      UnescapesBack(sheets[|sheets| - 1]);
    }
  }

  lemma SwapIsPrintable(version: nat, sheets: seq<string>)
    ensures Printable(SwapEventJson(version, sheets))
  {
    SheetsArePrintable(sheets);
  }

  // ----- frames -----

  function SseFrame(payload: string): string {
    "data: " + payload + "\n\n"
  }

  function Stream(payloads: seq<string>): string {
    if payloads == [] then "" else SseFrame(payloads[0]) + Stream(payloads[1..])
  }

  /** Where the first blank line starts. */
  function BlankLine(s: string): (r: Option<nat>)
    ensures r.Some? ==> r.value + 2 <= |s|
  {
    if |s| < 2 then None
    else if s[0] == '\n' && s[1] == '\n' then Some(0)
    else match BlankLine(s[1..]) case Some(i) => Some(i + 1) case None => None
  }

  /** The payloads of a stream, an event ending at each blank line. */
  function Split(s: string): Option<seq<string>>
    decreases |s|
  {
    if s == "" then Some([])
    else
      match BlankLine(s)
      case None => None
      case Some(i) =>
        if i < 6 || s[..6] != "data: " then None
        else match Split(s[i + 2..]) case Some(rest) => Some([s[6..i]] + rest) case None => None
  }

  lemma {:induction false} BlankAfter(line: string, rest: string)
    requires '\n' !in line
    ensures BlankLine(line + ("\n\n" + rest)) == Some(|line|)
  {
    var s := line + ("\n\n" + rest);
    if line == "" {
      assert s[0] == '\n' && s[1] == '\n';
    } else {
      BlankAfter(line[1..], rest);
      assert s[1..] == line[1..] + ("\n\n" + rest) && s[0] == line[0] && line[0] in line;
    }
  }

  lemma FrameReads(payload: string, rest: string)
    requires Printable(payload)
    ensures var s, n := SseFrame(payload) + rest, 6 + |payload|;
            && s != "" && BlankLine(s) == Some(n) && s[..6] == "data: " && s[6..n] == payload && s[n + 2..] == rest
  {
    var line := "data: " + payload;
    var s := SseFrame(payload) + rest;
    assert s == line + ("\n\n" + rest);
    assert '\n' !in payload;
    BlankAfter(line, rest);
  }

  /** A stream of frames of one-line payloads splits at its blank lines into exactly those payloads. */
  lemma {:induction false} StreamSplits(payloads: seq<string>)
    requires forall p :: p in payloads ==> Printable(p)
    ensures Split(Stream(payloads)) == Some(payloads)
  {
    if payloads != [] {
      StreamSplits(payloads[1..]);
      FrameReads(payloads[0], Stream(payloads[1..]));
      assert payloads == [payloads[0]] + payloads[1..];
    }
  }
}
