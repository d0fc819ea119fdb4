/** The dev channel's events read back, as the page's `JSON.parse` reads them: an object of named fields,
    each a string, a number or a list of strings (RFC 8259, sections 4 to 7), and what
    `event_json` and `swap_event_json` (crates/vilan-cli/src/hmr.rs) put there. */
module EventReader {
  import opened Basics
  import opened EventWire

  datatype Json = Text(text: string) | Number(number: nat) | List(items: seq<string>)

  type Fields = seq<(string, Json)>

  // ----- the reader -----

  /** A string past its opening quote, and what follows its closing one. */
  function ReadText(s: string): (r: Option<(string, string)>)
    ensures r.Some? ==> |r.value.1| < |s|
    decreases |s|
  {
    if s == "" then None
    else if s[0] == '"' then Some(("", s[1..]))
    else
      match ReadChar(s)
      case None => None
      case Some((c, n)) =>
        match ReadText(s[n..]) case Some((text, rest)) => Some(([c] + text, rest)) case None => None
  }

  predicate IsDigit(c: char) {
    '0' <= c <= '9'
  }

  /** The digits a number starts with. */
  function Span(s: string): (n: nat)
    ensures n <= |s| && (forall i :: 0 <= i < n ==> IsDigit(s[i])) && (n < |s| ==> !IsDigit(s[n]))
  {
    if s == "" || !IsDigit(s[0]) then 0 else 1 + Span(s[1..])
  }

  function DigitValue(c: char): nat {
    if IsDigit(c) then c as int - 48 else 0
  }

  function ValueOf(digits: string): nat {
    if digits == "" then 0 else 10 * ValueOf(digits[..|digits| - 1]) + DigitValue(digits[|digits| - 1])
  }

  /** The strings of a list past its `[` or a `,`, and what follows the `]`. */
  function ReadItems(s: string): (r: Option<(seq<string>, string)>)
    ensures r.Some? ==> |r.value.1| < |s|
    decreases |s|
  {
    if s == "" || s[0] != '"' then None
    else
      match ReadText(s[1..])
      case None => None
      case Some((item, rest)) =>
        if rest == "" then None
        else if rest[0] == ']' then Some(([item], rest[1..]))
        else if rest[0] != ',' then None
        else match ReadItems(rest[1..]) case Some((items, after)) => Some(([item] + items, after)) case None => None
  }

  function ReadValue(s: string): (r: Option<(Json, string)>)
    ensures r.Some? ==> |r.value.1| < |s|
  {
    if s == "" then None
    else if s[0] == '"' then
      match ReadText(s[1..]) case Some((text, rest)) => Some((Text(text), rest)) case None => None
    else if s[0] == '[' then
      if |s| > 1 && s[1] == ']' then Some((List([]), s[2..]))
      else match ReadItems(s[1..]) case Some((items, rest)) => Some((List(items), rest)) case None => None
    else
      var n := Span(s);
      if n == 0 || (s[0] == '0' && n > 1) then None else Some((Number(ValueOf(s[..n])), s[n..]))
  }

  /** A field, `"name":value`. */
  function ReadField(s: string): (r: Option<((string, Json), string)>)
    ensures r.Some? ==> |r.value.1| < |s|
  {
    if s == "" || s[0] != '"' then None
    else
      match ReadText(s[1..])
      case None => None
      case Some((name, rest)) =>
        if rest == "" || rest[0] != ':' then None
        else match ReadValue(rest[1..]) case Some((value, after)) => Some(((name, value), after)) case None => None
  }

  /** The fields past a `{` or a `,`, to the object's end. */
  function ReadFields(s: string): Option<Fields>
    decreases |s|
  {
    match ReadField(s)
    case None => None
    case Some((field, rest)) =>
      if rest == "}" then Some([field])
      else if rest == "" || rest[0] != ',' then None
      else match ReadFields(rest[1..]) case Some(fields) => Some([field] + fields) case None => None
  }

  function ReadObject(s: string): Option<Fields> {
    if s == "" || s[0] != '{' then None else ReadFields(s[1..])
  }

  // ----- strings and numbers -----

  lemma Led(c: char, rest: string)
    ensures var s := [c] + rest; s != "" && s[0] == c && s[1..] == rest
  {
  }

  lemma Regroup(a: string, b: string, c: string)
    ensures a + b + c == a + (b + c)
  {
  }

  lemma OneChar(s: string, c: char, n: nat, text: string, rest: string)
    requires s != "" && s[0] != '"' && ReadChar(s) == Some((c, n)) && ReadText(s[n..]) == Some((text, rest))
    ensures ReadText(s) == Some(([c] + text, rest))
  {
  }

  lemma NoQuote(s: string)
    requires s != "" && ReadChar(s).Some?
    ensures s[0] != '"'
  {
  }

  lemma Closing(rest: string)
    ensures ReadText(['"'] + rest) == Some(("", rest))
  {
    Led('"', rest);
  }

  lemma {:induction false} TextReads(text: string, rest: string)
    ensures ReadText(Escape(text) + (['"'] + rest)) == Some((text, rest))
  {
    var close := ['"'] + rest;
    if text == "" {
      Closing(rest);
      assert "" + close == close;
    } else {
      var c, more := text[0], Escape(text[1..]) + close;
      TextReads(text[1..], rest);
      EscapedReads(c, more);
      Regroup(EscapeChar(c), Escape(text[1..]), close);
      NoQuote(EscapeChar(c) + more);
      OneChar(EscapeChar(c) + more, c, |EscapeChar(c)|, text[1..], rest);
      assert text == [c] + text[1..];
    }
  }

  lemma {:induction false} DigitsAre(n: nat)
    ensures |Digits(n)| > 0 && (forall c :: c in Digits(n) ==> IsDigit(c)) && ValueOf(Digits(n)) == n
    ensures Digits(n)[0] == '0' ==> |Digits(n)| == 1
    ensures n > 0 ==> Digits(n)[0] != '0'
  {
    if n >= 10 {
      DigitsAre(n / 10);
      var before := Digits(n / 10);
      assert Digits(n)[..|before|] == before;
    }
  }

  lemma {:induction false} SpanOf(digits: string, rest: string)
    requires (forall c :: c in digits ==> IsDigit(c)) && (rest != "" ==> !IsDigit(rest[0]))
    ensures Span(digits + rest) == |digits|
  {
    if digits == "" {
      assert digits + rest == rest;
    } else {
      SpanOf(digits[1..], rest);
      assert (digits + rest)[1..] == digits[1..] + rest;
    }
  }

  lemma NumberReads(n: nat, rest: string)
    requires rest != "" ==> !IsDigit(rest[0])
    ensures ReadValue(Digits(n) + rest) == Some((Number(n), rest))
  {
    DigitsAre(n);
    SpanOf(Digits(n), rest);
    var s := Digits(n) + rest;
    assert s[..|Digits(n)|] == Digits(n) && s[|Digits(n)|..] == rest;
    assert Digits(n)[0] in Digits(n);
  }

  // ----- lists -----

  function Quoted(text: string): string {
    ['"'] + (Escape(text) + ['"'])
  }

  lemma QuotedThen(text: string, rest: string)
    ensures var s := Quoted(text) + rest; s != "" && s[0] == '"' && ReadText(s[1..]) == Some((text, rest))
  {
    TextReads(text, rest);
    Regroup(Escape(text), ['"'], rest);
    Regroup(['"'], Escape(text) + ['"'], rest);
    Led('"', Escape(text) + ['"'] + rest);
  }

  /** The items as the source joins them, the first first. */
  function Joined(items: seq<string>): string
    requires items != []
  {
    Quoted(items[0]) + if |items| == 1 then "" else [','] + Joined(items[1..])
  }

  lemma QuotedIs(text: string)
    ensures "\"" + Escape(text) + "\"" == Quoted(text)
  {
  }

  lemma ListMore(items: seq<string>, last: string)
    ensures SheetList(items + [last]) == (if items == [] then "" else SheetList(items) + [',']) + Quoted(last)
  {
    assert (items + [last])[..|items|] == items;
    var before := if items == [] then "" else SheetList(items) + ",";
    QuotedIs(last);
    Regroup(before, "\"", Escape(last));
    Regroup(before, "\"" + Escape(last), "\"");
  }

  lemma {:induction false} ListIsJoined(items: seq<string>)
    requires items != []
    ensures SheetList(items) == Joined(items)
    decreases |items|
  {
    var before, last := items[..|items| - 1], items[|items| - 1];
    assert items == before + [last];
    ListMore(before, last);
    if |items| > 1 {
      ListIsJoined(before);
      JoinedMore(before, last);
    }
  }

  lemma {:induction false} JoinedMore(items: seq<string>, last: string)
    requires items != []
    ensures Joined(items + [last]) == Joined(items) + [','] + Quoted(last)
  {
    var all := items + [last];
    if |items| == 1 {
      assert all[1..] == [last];
    } else {
      JoinedMore(items[1..], last);
      assert all[1..] == items[1..] + [last];
    }
  }

  lemma OneItem(s: string, item: string, rest: string)
    requires s != "" && s[0] == '"' && ReadText(s[1..]) == Some((item, [']'] + rest))
    ensures ReadItems(s) == Some(([item], rest))
  {
    Led(']', rest);
  }

  lemma MoreItems(s: string, item: string, more: string, items: seq<string>, rest: string)
    requires s != "" && s[0] == '"' && ReadText(s[1..]) == Some((item, [','] + more))
    requires ReadItems(more) == Some((items, rest))
    ensures ReadItems(s) == Some(([item] + items, rest))
  {
    Led(',', more);
  }

  lemma {:induction false} ItemsRead(items: seq<string>, rest: string)
    requires items != []
    ensures ReadItems(Joined(items) + ([']'] + rest)) == Some((items, rest))
    decreases |items|
  {
    var close := [']'] + rest;
    if |items| == 1 {
      QuotedThen(items[0], close);
      assert Quoted(items[0]) + "" == Quoted(items[0]);
      OneItem(Quoted(items[0]) + close, items[0], rest);
      assert items == [items[0]];
    } else {
      var more := Joined(items[1..]) + close;
      ItemsRead(items[1..], rest);
      QuotedThen(items[0], [','] + more);
      Regroup([','], Joined(items[1..]), close);
      Regroup(Quoted(items[0]), [','] + Joined(items[1..]), close);
      MoreItems(Quoted(items[0]) + ([','] + more), items[0], more, items[1..], rest);
      assert items == [items[0]] + items[1..];
    }
  }

  lemma EmptyList(rest: string)
    ensures ReadValue(['['] + ([']'] + rest)) == Some((List([]), rest))
  {
    Led('[', [']'] + rest);
    Led(']', rest);
    assert (['['] + ([']'] + rest))[2..] == rest;
  }

  lemma FullList(s: string, items: seq<string>, rest: string)
    requires s != "" && s[0] == '"' && ReadItems(s) == Some((items, rest))
    ensures ReadValue(['['] + s) == Some((List(items), rest))
  {
    Led('[', s);
  }

  /** A list of texts, in its brackets. */
  function Bracketed(items: seq<string>): string {
    ['['] + (SheetList(items) + [']'])
  }

  lemma ListReads(items: seq<string>, rest: string)
    ensures ReadValue(Bracketed(items) + rest) == Some((List(items), rest))
  {
    Regroup(SheetList(items), [']'], rest);
    Regroup(['['], SheetList(items) + [']'], rest);
    if items == [] {
      assert SheetList(items) + ([']'] + rest) == [']'] + rest;
      EmptyList(rest);
    } else {
      ListIsJoined(items);
      ItemsRead(items, rest);
      FullList(Joined(items) + ([']'] + rest), items, rest);
    }
  }

  // ----- fields -----

  /** A text that is written as it is: the kinds and the field names are such. */
  predicate Plain(text: string) {
    forall c :: c in text ==> c >= ' ' && c != '"' && c != '\\'
  }

  lemma {:induction false} PlainEscapes(text: string)
    requires Plain(text)
    ensures Escape(text) == text
  {
    if text != "" {
      assert text[0] in text && text == [text[0]] + text[1..];
      forall c | c in text[1..] ensures c in text {
      }
      PlainEscapes(text[1..]);
    }
  }

  /** A field as it is written. */
  function Field(name: string, value: string): string {
    Quoted(name) + ([':'] + value)
  }

  lemma OneField(s: string, name: string, after: string, v: Json, rest: string)
    requires s != "" && s[0] == '"' && ReadText(s[1..]) == Some((name, [':'] + after))
    requires ReadValue(after) == Some((v, rest))
    ensures ReadField(s) == Some(((name, v), rest))
  {
    Led(':', after);
  }

  lemma FieldReads(name: string, value: string, v: Json, rest: string)
    requires ReadValue(value + rest) == Some((v, rest))
    ensures ReadField(Field(name, value) + rest) == Some(((name, v), rest))
  {
    QuotedThen(name, [':'] + (value + rest));
    Regroup([':'], value, rest);
    Regroup(Quoted(name), [':'] + value, rest);
    OneField(Quoted(name) + ([':'] + (value + rest)), name, value + rest, v, rest);
  }

  lemma TextFieldReads(name: string, text: string, rest: string)
    ensures ReadField(Field(name, Quoted(text)) + rest) == Some(((name, Text(text)), rest))
  {
    QuotedThen(text, rest);
    FieldReads(name, Quoted(text), Text(text), rest);
  }

  /** The fields as the source writes them, each after a comma, to the object's end. */
  function Rest(fields: seq<(string, string)>): string {
    if fields == [] then ['}'] else [','] + (Field(fields[0].0, fields[0].1) + Rest(fields[1..]))
  }

  lemma RestStarts(fields: seq<(string, string)>)
    ensures Rest(fields) != "" && Rest(fields)[0] in {',', '}'} && (Rest(fields) == "}" <==> fields == [])
    ensures fields != [] ==> Rest(fields)[1..] == Field(fields[0].0, fields[0].1) + Rest(fields[1..])
  {
    if fields != [] { Led(',', Field(fields[0].0, fields[0].1) + Rest(fields[1..])); }
  }

  /** `value` reads as `v` whatever follows it, up to a comma or the object's end. */
  ghost predicate Reads(value: string, v: Json) {
    forall rest :: Ends(rest) ==> ReadValue(value + rest) == Some((v, rest))
  }

  predicate Ends(rest: string) {
    rest != "" && rest[0] in {',', '}'}
  }

  ghost predicate AllRead(fields: seq<(string, string)>, values: Fields) {
    && |fields| == |values|
    && forall i :: 0 <= i < |fields| ==> fields[i].0 == values[i].0 && Reads(fields[i].1, values[i].1)
  }

  lemma LastReads(name: string, value: string, v: Json)
    requires Reads(value, v)
    ensures ReadFields(Field(name, value) + ['}']) == Some([(name, v)])
  {
    var rest := ['}'];
    assert Ends(rest);
    FieldReads(name, value, v, rest);
  }

  lemma MoreReads(name: string, value: string, v: Json, more: string, values: Fields)
    requires Reads(value, v) && more != "" && more[0] == ',' && ReadFields(more[1..]) == Some(values)
    ensures ReadFields(Field(name, value) + more) == Some([(name, v)] + values)
  {
    assert Ends(more);
    FieldReads(name, value, v, more);
    assert more != "}";
  }

  lemma AllReadTail(fields: seq<(string, string)>, values: Fields)
    requires fields != [] && AllRead(fields, values)
    ensures Reads(fields[0].1, values[0].1) && fields[0].0 == values[0].0
    ensures AllRead(fields[1..], values[1..]) && values == [(fields[0].0, values[0].1)] + values[1..]
  {
    assert Reads(fields[0].1, values[0].1);
    forall i | 0 <= i < |fields| - 1
      ensures fields[1..][i].0 == values[1..][i].0 && Reads(fields[1..][i].1, values[1..][i].1)
    {
      assert Reads(fields[i + 1].1, values[i + 1].1);
    }
  }

  lemma {:induction false} RestReads(fields: seq<(string, string)>, values: Fields)
    requires fields != [] && AllRead(fields, values)
    ensures ReadFields(Rest(fields)[1..]) == Some(values)
    decreases |fields|
  {
    RestStarts(fields);
    AllReadTail(fields, values);
    if |fields| == 1 {
      LastReads(fields[0].0, fields[0].1, values[0].1);
      assert Rest(fields[1..]) == ['}'] && values == [(fields[0].0, values[0].1)];
    } else {
      RestReads(fields[1..], values[1..]);
      RestStarts(fields[1..]);
      MoreReads(fields[0].0, fields[0].1, values[0].1, Rest(fields[1..]), values[1..]);
    }
  }

  /** An object of fields that each read reads as those fields. */
  lemma ObjectReads(fields: seq<(string, string)>, values: Fields)
    requires fields != [] && AllRead(fields, values)
    ensures ReadObject(['{'] + Rest(fields)[1..]) == Some(values)
  {
    RestReads(fields, values);
    Led('{', Rest(fields)[1..]);
  }

  // ----- events -----

  lemma TextIsRead(text: string)
    ensures Reads(Quoted(text), Text(text))
  {
    forall rest | Ends(rest) ensures ReadValue(Quoted(text) + rest) == Some((Text(text), rest)) {
      QuotedThen(text, rest);
    }
  }

  lemma NumberIsRead(n: nat)
    ensures Reads(Digits(n), Number(n))
  {
    forall rest | Ends(rest) ensures ReadValue(Digits(n) + rest) == Some((Number(n), rest)) {
      NumberReads(n, rest);
    }
  }

  lemma ListIsRead(items: seq<string>)
    ensures Reads(Bracketed(items), List(items))
  {
    forall rest | Ends(rest) ensures ReadValue(Bracketed(items) + rest) == Some((List(items), rest)) {
      ListReads(items, rest);
    }
  }

  function Optional(name: string, text: Option<string>): Fields {
    if text.Some? then [(name, Text(text.value))] else []
  }

  function OptionalField(name: string, text: Option<string>): seq<(string, string)> {
    if text.Some? then [(name, Quoted(text.value))] else []
  }

  function EventFields(kind: string, version: nat, more: seq<(string, string)>): seq<(string, string)> {
    [("kind", Quoted(kind)), ("version", Digits(version))] + more
  }

  function EventValues(kind: string, version: nat, more: Fields): Fields {
    [("kind", Text(kind)), ("version", Number(version))] + more
  }

  lemma FieldsRead(kind: string, version: nat, more: seq<(string, string)>, values: Fields)
    requires AllRead(more, values)
    ensures AllRead(EventFields(kind, version, more), EventValues(kind, version, values))
  {
    TextIsRead(kind);
    NumberIsRead(version);
    var fs, vs := EventFields(kind, version, more), EventValues(kind, version, values);
    forall i | 0 <= i < |fs| ensures fs[i].0 == vs[i].0 && Reads(fs[i].1, vs[i].1) {
      if i >= 2 { assert fs[i] == more[i - 2] && vs[i] == values[i - 2]; }
    }
  }

  lemma OptionalReads(message: Option<string>, asset: Option<string>)
    ensures AllRead(OptionalField("message", message) + OptionalField("asset", asset),
                    Optional("message", message) + Optional("asset", asset))
  {
    if message.Some? { TextIsRead(message.value); }
    if asset.Some? { TextIsRead(asset.value); }
  }

  // ----- the fields are what the source writes -----

  lemma Arranged(a: string, k: string, c: string, q: string, text: string, e: string, v: string, n: string)
    ensures a + ((k + (c + (q + (text + q)))) + (e + (v + (c + n))))
         == ((a + (k + (c + q))) + text) + (q + (e + (v + c))) + n
  {
  }

  lemma WrittenHead(kind: string, version: nat)
    requires Plain(kind)
    ensures EventHead(kind, version)
         == ['{'] + (Field("kind", Quoted(kind)) + ([','] + Field("version", Digits(version))))
  {
    PlainEscapes(kind);
    KindLiteral();
    VersionLiteral();
    Arranged(['{'], Quoted("kind"), [':'], ['"'], kind, [','], Quoted("version"), Digits(version));
  }

  lemma QuotedPlain(text: string)
    requires Plain(text)
    ensures Quoted(text) == ['"'] + (text + ['"'])
  {
    PlainEscapes(text);
  }

  lemma KindLiteral()
    ensures "{\"kind\":\"" == ['{'] + (Quoted("kind") + ([':'] + ['"']))
  {
    QuotedPlain("kind");
    assert "kind" + ['"'] == "kind\"";
    assert ['"'] + "kind\"" == "\"kind\"";
    assert "\"kind\"" + ([':'] + ['"']) == "\"kind\":\"";
  }

  lemma VersionQuoted()
    ensures Quoted("version") == "\"version\""
  {
    QuotedPlain("version");
    assert "version" + ['"'] == "version\"";
  }

  lemma VersionColon()
    ensures "\"version\"" + [':'] == "\"version\":"
  {
  }

  lemma VersionAfterComma()
    ensures [','] + "\"version\":" == ",\"version\":"
  {
  }

  lemma VersionAfterQuote()
    ensures ['"'] + ",\"version\":" == "\",\"version\":"
  {
  }

  lemma VersionLiteral()
    ensures "\",\"version\":" == ['"'] + ([','] + (Quoted("version") + [':']))
  {
    VersionQuoted();
    VersionColon();
    VersionAfterComma();
    VersionAfterQuote();
  }

  /** The names the source writes. */
  lemma PlainNames()
    ensures Plain("message") && Plain("asset") && Plain("swap")
  {
  }

  lemma WrittenField(name: string, text: string)
    requires Plain(name)
    ensures TextField(name, Some(text)) == [','] + Field(name, Quoted(text))
  {
    PlainEscapes(name);
  }

  lemma RestMore(name: string, value: string, more: seq<(string, string)>)
    ensures Rest([(name, value)] + more) == [','] + (Field(name, value) + Rest(more))
  {
    assert ([(name, value)] + more)[1..] == more;
  }

  lemma OptionalRest(name: string, text: Option<string>, more: seq<(string, string)>)
    requires Plain(name)
    ensures Rest(OptionalField(name, text) + more) == TextField(name, text) + Rest(more)
  {
    if text.Some? {
      WrittenField(name, text.value);
      RestMore(name, Quoted(text.value), more);
      Regroup([','], Field(name, Quoted(text.value)), Rest(more));
    } else {
      assert [] + more == more && "" + Rest(more) == Rest(more);
    }
  }

  lemma RestOfEvent(kind: string, version: nat, more: seq<(string, string)>)
    ensures Rest(EventFields(kind, version, more))[1..]
         == Field("kind", Quoted(kind)) + ([','] + (Field("version", Digits(version)) + Rest(more)))
  {
    var fs := EventFields(kind, version, more);
    RestStarts(fs);
    assert fs[1..] == [("version", Digits(version))] + more && fs[1..][1..] == more;
  }

  lemma WrittenEvent(kind: string, version: nat, more: seq<(string, string)>)
    requires Plain(kind)
    ensures EventHead(kind, version) + Rest(more) == ['{'] + Rest(EventFields(kind, version, more))[1..]
  {
    WrittenHead(kind, version);
    RestOfEvent(kind, version, more);
    var k, v, rest := Field("kind", Quoted(kind)), Field("version", Digits(version)), Rest(more);
    Regroup(['{'], k + ([','] + v), rest);
    Regroup(k, [','] + v, rest);
    Regroup([','], v, rest);
  }

  /** An event reads back as its kind, its version, and the message and the asset it carries, each under
      its own name. */
  lemma EventReads(kind: string, version: nat, message: Option<string>, asset: Option<string>)
    requires Plain(kind)
    ensures ReadObject(EventJson(kind, version, message, asset))
         == Some(EventValues(kind, version, Optional("message", message) + Optional("asset", asset)))
  {
    var more := OptionalField("message", message) + OptionalField("asset", asset);
    OptionalReads(message, asset);
    FieldsRead(kind, version, more, Optional("message", message) + Optional("asset", asset));
    ObjectReads(EventFields(kind, version, more),
                EventValues(kind, version, Optional("message", message) + Optional("asset", asset)));
    WrittenEvent(kind, version, more);
    WrittenTail(message, asset);
    Regroup(EventHead(kind, version), TextField("message", message), TextField("asset", asset));
    Regroup(EventHead(kind, version), TextField("message", message) + TextField("asset", asset), ['}']);
    assert "}" == ['}'];
  }

  lemma RestOfOne(name: string, text: Option<string>)
    requires Plain(name)
    ensures Rest(OptionalField(name, text)) == TextField(name, text) + ['}']
  {
    OptionalRest(name, text, []);
    assert OptionalField(name, text) + [] == OptionalField(name, text);
  }

  lemma WrittenTail(message: Option<string>, asset: Option<string>)
    ensures Rest(OptionalField("message", message) + OptionalField("asset", asset))
         == TextField("message", message) + TextField("asset", asset) + ['}']
  {
    PlainNames();
    OptionalRest("message", message, OptionalField("asset", asset));
    RestOfOne("asset", asset);
    Regroup(TextField("message", message), TextField("asset", asset), ['}']);
  }

  lemma SheetsLiterals()
    ensures ",\"sheets\":[" == [','] + (Quoted("sheets") + ([':'] + ['[']))
    ensures "]}" == [']'] + ['}']
  {
    PlainEscapes("sheets");
  }

  lemma ArrangedList(e: string, name: string, c: string, open: string, items: string, close: string, end: string)
    ensures e + ((name + (c + (open + (items + close)))) + end) == (e + (name + (c + open))) + items + (close + end)
  {
  }

  lemma WrittenSheets(sheets: seq<string>)
    ensures Rest([("sheets", Bracketed(sheets))]) == ",\"sheets\":[" + SheetList(sheets) + "]}"
  {
    SheetsLiterals();
    var fs := [("sheets", Bracketed(sheets))];
    assert fs[1..] == [] && Rest(fs) == [','] + (Field("sheets", Bracketed(sheets)) + ['}']);
    ArrangedList([','], Quoted("sheets"), [':'], ['['], SheetList(sheets), [']'], ['}']);
  }

  lemma WrittenSwap(version: nat, sheets: seq<string>)
    ensures SwapEventJson(version, sheets) == EventHead("swap", version) + (",\"sheets\":[" + SheetList(sheets) + "]}")
  {
    var head, items := "{\"kind\":\"swap\",\"version\":" + Digits(version), SheetList(sheets);
    SwapHead(version);
    Regroup(head, ",\"sheets\":[", items);
    Regroup(head, ",\"sheets\":[" + items, "]}");
  }

  lemma SwapHead(version: nat)
    ensures EventHead("swap", version) == "{\"kind\":\"swap\",\"version\":" + Digits(version)
  {
    assert "{\"kind\":\"" + "swap" + "\",\"version\":" == "{\"kind\":\"swap\",\"version\":";
  }

  lemma SwapIsFields(version: nat, sheets: seq<string>)
    ensures SwapEventJson(version, sheets)
         == ['{'] + Rest(EventFields("swap", version, [("sheets", Bracketed(sheets))]))[1..]
  {
    PlainNames();
    WrittenEvent("swap", version, [("sheets", Bracketed(sheets))]);
    WrittenSheets(sheets);
    WrittenSwap(version, sheets);
  }

  /** A swap event reads back as its version and its sheets, in order, the empty set included. */
  lemma SwapReads(version: nat, sheets: seq<string>)
    ensures ReadObject(SwapEventJson(version, sheets)) == Some(EventValues("swap", version, [("sheets", List(sheets))]))
  {
    var more, values := [("sheets", Bracketed(sheets))], [("sheets", List(sheets))];
    ListIsRead(sheets);
    FieldsRead("swap", version, more, values);
    ObjectReads(EventFields("swap", version, more), EventValues("swap", version, values));
    SwapIsFields(version, sheets);
  }
}
