/** Frames as text: the bounds on the raw text before any parsing (frames.cpp: decoded_key, raw_bounds, preflight),
    over a model of the JSON library's writer.  A string is a quoted token whose escapes hide quotes; a token followed
    by a colon is a member name, and the one long value a frame may have is that of its only body_b64 member. */
module FrameText {
  import opened Wrappers
  import opened Escapes
  import opened Limits
  import opened Preflight
  import Base64
  import Decimal
  import FrameRecords
  import Sequences
  import Utf8

  const MAX_ENCODED_METADATA_BYTES: nat := 524288
  const MAX_NAME_TOKEN: nat := 128
  const BODY_NAME: string := "body_b64"

  /** The length of a body value, once it was found within the limit. */
  type Length = n: nat | n <= Base64.MAX_BODY64

  // ----- the scan -----

  predicate Blank(c: char) {
    c == ' ' || c == '\n' || c == '\r' || c == '\t'
  }

  /** How many blanks a text starts with. */
  function Blanks(t: string): (n: nat)
    ensures n <= |t| && (forall i :: 0 <= i < n ==> Blank(t[i])) && (n < |t| ==> !Blank(t[n]))
  {
    if t != "" && Blank(t[0]) then 1 + Blanks(t[1..]) else 0
  }

  /** Where the string ends that a text continues: its first quote that no backslash hides. */
  function StringEnd(t: string): (end: Option<nat>)
    ensures end.Some? ==> end.value < |t| && t[end.value] == '"'
  {
    if t == "" then None
    else if t[0] == '"' then Some(0)
    else
      var skip := if t[0] == '\\' then 2 else 1;
      if |t| < skip then None
      else
        var rest := StringEnd(t[skip..]);
        if rest.None? then None else Some(skip + rest.value)
  }

  /** The same for a string that may have no escapes. */
  function PlainEnd(t: string): (end: Option<nat>)
    ensures end.Some? ==> end.value < |t| && t[end.value] == '"'
  {
    if t == "" || t[0] == '\\' then None
    else if t[0] == '"' then Some(0)
    else
      var rest := PlainEnd(t[1..]);
      if rest.None? then None else Some(1 + rest.value)
  }

  /** The first character a token spells, if it is ASCII, and how much of the token spells it. */
  function NameStep(t: string): (r: Option<(char, nat)>)
    requires t != ""
    ensures r.Some? ==> 0 < r.value.1 <= |t|
  {
    if t[0] != '\\' then if t[0] as int < 32 || t[0] as int > 127 then None else Some((t[0], 1))
    else if |t| < 2 then None
    else if t[1] == 'u' then
      if |t| < 6 || HexNumber(t[2..6]).None? || HexNumber(t[2..6]).value > 127 then None
      else Some((HexNumber(t[2..6]).value as char, 6))
    else if ShortEscape(t[1]).None? then None
    else Some((ShortEscape(t[1]).value, 2))
  }

  /** The member name a token spells. */
  function DecodeName(t: string): Option<string> {
    if t == "" then Some("")
    else
      var c := NameStep(t);
      if c.None? then None
      else
        var rest := DecodeName(t[c.value.1..]);
        if rest.None? then None else Some([c.value.0] + rest.value)
  }

  /** One quoted token, with the body's value if it names the body: how far the scan gets and what it then knows of the
      body, of which `body` is what it knew. */
  function Token(t: string, body: Option<Length>): (r: Result<(nat, Option<Length>), CodecError>)
    requires t != "" && t[0] == '"'
    ensures r.Ok? ==> 0 < r.value.0 <= |t|
  {
    var end := StringEnd(t[1..]);
    if end.None? then Err(Invalid)
    else
      var e := end.value + 1;
      var n := e + 1 + Blanks(t[e + 1..]);
      if n == |t| || t[n] != ':' then Ok((e + 1, body))
      else if e > MAX_NAME_TOKEN then Err(Invalid)
      else
        var name := DecodeName(t[1..e]);
        if name.None? then Err(Invalid)
        else if name.value != BODY_NAME then Ok((e + 1, body))
        else if body.Some? then Err(Invalid)
        else BodyToken(t, n + 1)
  }

  /** The body's value, after the colon. */
  function BodyToken(t: string, from: nat): (r: Result<(nat, Option<Length>), CodecError>)
    requires from <= |t|
    ensures r.Ok? ==> from < r.value.0 <= |t|
  {
    var n := from + Blanks(t[from..]);
    if n == |t| || t[n] != '"' then Err(Invalid)
    else
      var end := PlainEnd(t[n + 1..]);
      if end.None? then Err(Invalid)
      else if end.value > Base64.MAX_BODY64 then Err(TooLarge)
      else Ok((n + end.value + 2, Some(end.value)))
  }

  /** The text from here on: in the end, the length of the body's value if there is one. */
  function Scan(t: string, body: Option<Length>): Result<Option<Length>, CodecError> {
    if t == "" then Ok(body)
    else if t[0] != '"' then Scan(t[1..], body)
    else
      var token := Token(t, body);
      if token.Err? then Err(token.error) else Scan(t[token.value.0..], token.value.1)
  }

  function RawBounds(raw: string): Result<(), CodecError> {
    if raw == "" then Err(Invalid)
    else if |raw| > MAX_WIRE_BYTES then Err(TooLarge)
    else if !Utf8.Valid(raw) then Err(Invalid)
    else
      var body := Scan(raw, None);
      if body.Err? then Err(body.error)
      else if |raw| - BodyBytes(body.value) > MAX_ENCODED_METADATA_BYTES then Err(TooLarge)
      else Ok(())
  }

  function BodyBytes(body: Option<Length>): nat {
    if body.Some? then body.value else 0
  }

  // ----- the loops -----

  method SkipBlanks(raw: string, from: nat) returns (next: nat)
    requires from <= |raw|
    ensures next == from + Blanks(raw[from..]) <= |raw|
  {
    next := from;
    while next < |raw| && Blank(raw[next])
      invariant from <= next <= |raw| && next + Blanks(raw[next..]) == from + Blanks(raw[from..])
    {
      assert raw[next..][1..] == raw[next + 1..];
      next := next + 1;
    }
  }

  lemma EndStep(t: string)
    requires t != "" && t[0] != '"'
    ensures var skip := if t[0] == '\\' then 2 else 1;
            StringEnd(t) == if |t| < skip || StringEnd(t[skip..]).None? then None
                            else Some(skip + StringEnd(t[skip..]).value)
  {
  }

  lemma EndHere(t: string)
    requires t == "" || t[0] == '"'
    ensures StringEnd(t) == if t == "" then None else Some(0)
  {
  }

  /** The end of the string whose contents start at `from`. */
  method FindStringEnd(raw: string, from: nat) returns (end: Option<nat>)
    requires from <= |raw|
    ensures end == var e := StringEnd(raw[from..]); if e.None? then None else Some(from + e.value)
  {
    hide StringEnd;
    var i := from;
    ghost var all := StringEnd(raw[from..]);
    while i < |raw| && raw[i] != '"'
      invariant from <= i <= |raw|
      invariant all.None? <==> StringEnd(raw[i..]).None?
      invariant all.Some? ==> from + all.value == i + StringEnd(raw[i..]).value
    {
      ghost var t := raw[i..];
      EndStep(t);
      if raw[i] == '\\' {
        i := i + 1;
        if i == |raw| {
          return None;
        }
        assert t[2..] == raw[i + 1..];
      } else {
        assert t[1..] == raw[i + 1..];
      }
      i := i + 1;
    }
    EndHere(raw[i..]);
    end := if i == |raw| then None else Some(i);
  }

  method FindPlainEnd(raw: string, from: nat) returns (end: Option<nat>)
    requires from <= |raw|
    ensures end == var e := PlainEnd(raw[from..]); if e.None? then None else Some(from + e.value)
  {
    var i := from;
    ghost var all := PlainEnd(raw[from..]);
    while i < |raw| && raw[i] != '"'
      invariant from <= i <= |raw|
      invariant all.None? <==> PlainEnd(raw[i..]).None?
      invariant all.Some? ==> from + all.value == i + PlainEnd(raw[i..]).value
    {
      if raw[i] == '\\' {
        return None;
      }
      assert raw[i..][1..] == raw[i + 1..];
      i := i + 1;
    }
    end := if i == |raw| then None else Some(i);
  }

  method DecodedChar(token: string, i: nat) returns (r: Option<(char, nat)>)
    requires i < |token|
    ensures r == NameStep(token[i..])
  {
    ghost var t := token[i..];
    var c := token[i];
    if c != '\\' {
      return if c as int < 32 || c as int > 127 then None else Some((c, 1));
    }
    if i + 1 == |token| {
      return None;
    }
    assert t[1] == token[i + 1];
    if token[i + 1] != 'u' {
      var simple := ShortEscape(token[i + 1]);
      return if simple.None? then None else Some((simple.value, 2));
    }
    if i + 6 > |token| {
      return None;
    }
    assert t[2..6] == token[i + 2..i + 6];
    var value := HexNumber(token[i + 2..i + 6]);
    r := if value.None? || value.value > 127 then None else Some((value.value as char, 6));
  }

  /** The member name, character by character. */
  method DecodedKey(token: string) returns (key: Option<string>)
    ensures key == DecodeName(token)
  {
    hide NameStep;
    var i, name := 0, "";
    ghost var all := DecodeName(token);
    assert token[0..] == token && all.Some? ==> name + all.value == all.value;
    while i < |token|
      invariant i <= |token|
      invariant all.None? <==> DecodeName(token[i..]).None?
      invariant all.Some? ==> all.value == name + DecodeName(token[i..]).value
    {
      var c := DecodedChar(token, i);
      if c.None? {
        return None;
      }
      assert token[i..][c.value.1..] == token[i + c.value.1..];
      name := name + [c.value.0];
      i := i + c.value.1;
    }
    assert token[i..] == "" && name + "" == name;
    key := Some(name);
  }

  lemma OpenToken(t: string, body: Option<Length>)
    requires t != "" && t[0] == '"' && StringEnd(t[1..]).None?
    ensures Token(t, body) == Err(Invalid)
  {
  }

  /** The token, from where its string ends and what follows. */
  lemma TokenIs(t: string, end: nat, next: nat, body: Option<Length>)
    requires t != "" && t[0] == '"' && 0 < end < |t| && StringEnd(t[1..]) == Some(end - 1)
    requires next == end + 1 + Blanks(t[end + 1..])
    ensures Token(t, body) ==
            if next == |t| || t[next] != ':' then Ok((end + 1, body))
            else if end > MAX_NAME_TOKEN || DecodeName(t[1..end]).None? then Err(Invalid)
            else if DecodeName(t[1..end]).value != BODY_NAME then Ok((end + 1, body))
            else if body.Some? then Err(Invalid)
            else BodyToken(t, next + 1)
  {
    hide StringEnd, DecodeName, BodyToken;
  }

  /** The token at `i` of a text, in the positions of the text. */
  lemma TokenAt(raw: string, i: nat, e: nat, next: nat, body: Option<Length>)
    requires i < e < |raw| && raw[i] == '"' && StringEnd(raw[i + 1..]) == Some(e - i - 1)
    requires next == e + 1 + Blanks(raw[e + 1..])
    ensures Token(raw[i..], body) ==
            if next == |raw| || raw[next] != ':' then Ok((e - i + 1, body))
            else if e - i > MAX_NAME_TOKEN || DecodeName(raw[i + 1..e]).None? then Err(Invalid)
            else if DecodeName(raw[i + 1..e]).value != BODY_NAME then Ok((e - i + 1, body))
            else if body.Some? then Err(Invalid)
            else BodyToken(raw[i..], next + 1 - i)
  {
    hide StringEnd, Blanks, DecodeName, BodyToken, Token;
    Sequences.DropDrop(raw, i, 1);
    Sequences.DropDrop(raw, i, e - i + 1);
    Sequences.DropSlice(raw, i, 1, e - i);
    TokenIs(raw[i..], e - i, next - i, body);
  }

  method ScanToken(raw: string, i: nat, body: Option<Length>) returns (r: Result<(nat, Option<Length>), CodecError>)
    requires i < |raw| && raw[i] == '"'
    ensures r == var token := Token(raw[i..], body);
                 if token.Err? then Err(token.error) else Ok((i + token.value.0, token.value.1))
  {
    hide StringEnd, Blanks, DecodeName, BodyToken, Token;
    var end := FindStringEnd(raw, i + 1);
    if end.None? {
      Sequences.DropDrop(raw, i, 1);
      OpenToken(raw[i..], body);
      return Err(Invalid);
    }
    var e := end.value;
    var next := SkipBlanks(raw, e + 1);
    TokenAt(raw, i, e, next, body);
    if next == |raw| || raw[next] != ':' {
      return Ok((e + 1, body));
    }
    if e - i > MAX_NAME_TOKEN {
      return Err(Invalid);
    }
    var name := DecodedKey(raw[i + 1..e]);
    if name.None? {
      return Err(Invalid);
    }
    if name.value != BODY_NAME {
      return Ok((e + 1, body));
    }
    if body.Some? {
      return Err(Invalid);
    }
    r := ScanBody(raw, i, next + 1);
  }

  method ScanBody(raw: string, i: nat, from: nat) returns (r: Result<(nat, Option<Length>), CodecError>)
    requires i <= from <= |raw|
    ensures r == var token := BodyToken(raw[i..], from - i);
                 if token.Err? then Err(token.error) else Ok((i + token.value.0, token.value.1))
  {
    hide PlainEnd, Blanks;
    Sequences.DropDrop(raw, i, from - i);
    var start := SkipBlanks(raw, from);
    if start == |raw| || raw[start] != '"' {
      return Err(Invalid);
    }
    Sequences.DropDrop(raw, i, start - i + 1);
    var stop := FindPlainEnd(raw, start + 1);
    if stop.None? {
      return Err(Invalid);
    }
    var length := stop.value - start - 1;
    if length > Base64.MAX_BODY64 {
      return Err(TooLarge);
    }
    r := Ok((stop.value + 1, Some(length)));
  }

  lemma EmptyScan(body: Option<Length>)
    ensures Scan("", body) == Ok(body)
  {
  }

  lemma ScanStep(t: string, body: Option<Length>)
    requires t != ""
    ensures t[0] != '"' ==> Scan(t, body) == Scan(t[1..], body)
    ensures t[0] == '"' ==> var token := Token(t, body);
                            Scan(t, body) == if token.Err? then Err(token.error)
                                             else Scan(t[token.value.0..], token.value.1)
  {
    hide Token;
  }

  method CheckRawBounds(raw: string) returns (r: Result<(), CodecError>)
    ensures r == RawBounds(raw)
  {
    hide Scan, Token, Utf8.Valid, Utf8.WellFormed;
    if raw == "" {
      return Err(Invalid);
    }
    if |raw| > MAX_WIRE_BYTES {
      return Err(TooLarge);
    }
    var valid := Utf8.ValidUtf8(raw);
    Utf8.ValidIsWellFormed(raw);
    if !valid {
      return Err(Invalid);
    }
    var body: Option<Length> := None;
    var i := 0;
    ghost var all := Scan(raw, None);
    assert raw[0..] == raw;
    while i < |raw|
      invariant i <= |raw| && all == Scan(raw[i..], body)
    {
      ScanStep(raw[i..], body);
      if raw[i] != '"' {
        assert raw[i..][1..] == raw[i + 1..];
        i := i + 1;
      } else {
        var seen := ScanToken(raw, i, body);
        if seen.Err? {
          return Err(seen.error);
        }
        assert raw[i..][seen.value.0 - i..] == raw[seen.value.0..];
        i, body := seen.value.0, seen.value.1;
      }
    }
    assert raw[i..] == "";
    EmptyScan(body);
    if |raw| - BodyBytes(body) > MAX_ENCODED_METADATA_BYTES {
      return Err(TooLarge);
    }
    r := Ok(());
  }

  // ----- the writer -----

  /** One byte of a string. */
  function Escape(c: char): (r: string)
    ensures 1 <= |r| <= 6
  {
    if ShortFor(c).Some? then ['\\', ShortFor(c).value]
    else if c as int < 32 then "\\u00" + [HexDigit(c as int / 16), HexDigit(c as int % 16)]
    else [c]
  }

  function EscapeAll(text: string): string {
    if text == "" then "" else Escape(text[0]) + EscapeAll(text[1..])
  }

  function Quote(text: string): string {
    "\"" + EscapeAll(text) + "\""
  }

  function KeyName(key: Key): string {
    match key
    case SchemaKey => "schema"
    case TypeKey => "type"
    case OwnerEpochKey => "owner_epoch"
    case AdapterEpochKey => "adapter_epoch"
    case ClockDomainKey => "clock_domain_id"
    case ExtensionKey => "extension"
    case DispatchKey => "dispatch_id"
    case ReceiptKey => "generation_receipt_id"
    case RequestKey => "request"
    case ContextKey => "context"
    case EnteredAtKey => "entered_at_ns"
    case OutcomeKey => "outcome"
    case ReasonKey => "reason"
    case SettlementKey => "settlement"
    case RequestIdKey => "request_id"
    case MethodKey => "method"
    case PathKey => "path"
    case OriginalPathKey => "original_path"
    case QueryKey => "query"
    case HeadersKey => "headers"
    case BodyKey => "body_b64"
    case StatusKey => "status"
    case AdmittedAtKey => "admitted_at_ns"
    case CutoffKey => "execution_cutoff_ns"
    case PrefixKey => "matched_prefix"
    case PrincipalKey => "principal"
    case KindKey => "kind"
    case UserIdKey => "user_id"
    case PatIdKey => "pat_id"
    case PackageIdKey => "package_id"
    case NameKey => "name"
    case VersionKey => "version"
    case ArtifactKey => "artifact_sha256"
    case ResponseKey => "response"
    case CodeKey => "code"
    case EntryStateKey => "entry_state"
    case OtherKey(text) => text
  }

  /** The writer's text; floating-point numbers do not occur in frames and stand here for any number text. */
  function Dump(j: Json): string
    decreases j
  {
    match j
    case Null => "null"
    case Bool(b) => if b then "true" else "false"
    case Int(n) => if n < 0 then "-" + Decimal.Print(-n) else Decimal.Print(n)
    case Float => "0.0"
    case Str(text) => Quote(text)
    case Arr(_) => "[" + DumpItems(j, 0)
    case Obj(_) => "{" + DumpFields(j, 0)
  }

  function DumpItems(j: Json, i: nat): string
    requires j.Arr? && i <= |j.items|
    decreases j, |j.items| - i + 1
  {
    if i == |j.items| then "]" else (if i > 0 then "," else "") + (Dump(j.items[i]) + DumpItems(j, i + 1))
  }

  function DumpFields(j: Json, i: nat): string
    requires j.Obj? && i <= |j.fields|
    decreases j, |j.fields| - i + 1
  {
    if i == |j.fields| then "}"
    else (if i > 0 then "," else "")
         + (Quote(KeyName(j.fields[i].key)) + (":" + (Dump(j.fields[i].value) + DumpFields(j, i + 1))))
  }

  // ----- what the scan makes of written text -----

  /** A text in which nothing is escaped. */
  predicate Plain(text: string) {
    forall i :: 0 <= i < |text| ==> PlainChar(text[i])
  }

  predicate PlainChar(c: char) {
    c != '"' && c != '\\' && c as int >= 32
  }

  lemma {:induction false} PlainEscapes(text: string)
    requires Plain(text)
    ensures EscapeAll(text) == text
  {
    if text != "" {
      PlainEscapes(text[1..]);
      assert text == [text[0]] + text[1..];
    }
  }

  lemma EscapeFirst(text: string, rest: string)
    requires text != ""
    ensures |EscapeAll(text)| == |Escape(text[0])| + |EscapeAll(text[1..])|
    ensures EscapeAll(text) + "\"" + rest == Escape(text[0]) + (EscapeAll(text[1..]) + "\"" + rest)
  {
    hide Escape;
    var first, more := Escape(text[0]), EscapeAll(text[1..]);
    Sequences.Regroup(first, more, "\"");
    Sequences.Regroup(first, more + "\"", rest);
  }

  lemma {:induction false} EscapedEnd(text: string, rest: string)
    ensures StringEnd(EscapeAll(text) + "\"" + rest) == Some(|EscapeAll(text)|)
  {
    if text == "" {
      EndHere(EscapeAll(text) + "\"" + rest);
    } else {
      hide Escape, EscapeAll, StringEnd;
      EscapeFirst(text, rest);
      EscapedEnd(text[1..], rest);
      EscapeHidden(text[0], EscapeAll(text[1..]) + "\"" + rest);
    }
  }

  /** A plain character, or a backslash, one character whatever it is, and plain ones. */
  lemma EscapeShape(c: char)
    ensures var e := Escape(c);
            if PlainChar(c) then e == [c]
            else |e| >= 2 && e[0] == '\\' && forall i :: 2 <= i < |e| ==> e[i] != '"' && e[i] != '\\'
  {
  }

  /** The quote of an escape is hidden, and what it ends is what follows. */
  lemma EscapeHidden(c: char, more: string)
    requires StringEnd(more).Some?
    ensures StringEnd(Escape(c) + more) == Some(|Escape(c)| + StringEnd(more).value)
  {
    hide Escape, StringEnd;
    EscapeShape(c);
    var e, all := Escape(c), Escape(c) + more;
    EndStep(all);
    if PlainChar(c) {
      assert all[1..] == more;
    } else {
      assert all[2..] == e[2..] + more;
      NoQuote(e[2..], more);
    }
  }

  lemma {:induction false} NoQuote(a: string, b: string)
    requires forall i :: 0 <= i < |a| ==> a[i] != '"' && a[i] != '\\'
    requires StringEnd(b).Some?
    ensures StringEnd(a + b) == Some(|a| + StringEnd(b).value)
  {
    if a == "" {
      assert a + b == b;
    } else {
      NoQuote(a[1..], b);
      assert (a + b)[1..] == a[1..] + b;
    }
  }

  lemma {:induction false} PlainValueEnd(text: string, rest: string)
    ensures PlainEnd(EscapeAll(text) + "\"" + rest) == if Plain(text) then Some(|text|) else None
  {
    hide Escape;
    var all := EscapeAll(text) + "\"" + rest;
    if text == "" {
      assert all[0] == '"';
    } else {
      var more := EscapeAll(text[1..]) + "\"" + rest;
      PlainValueEnd(text[1..], rest);
      EscapeFirst(text, rest);
      assert Plain(text) <==> PlainChar(text[0]) && Plain(text[1..]) by {
        assert text == [text[0]] + text[1..];
      }
      EscapeShape(text[0]);
      if |Escape(text[0])| == 1 {
        assert all[1..] == more;
      }
    }
  }

  lemma {:induction false} NoQuoteScan(a: string, b: string, body: Option<Length>)
    requires forall i :: 0 <= i < |a| ==> a[i] != '"'
    ensures Scan(a + b, body) == Scan(b, body)
  {
    hide Token;
    if a == "" {
      assert a + b == b;
    } else {
      NoQuoteScan(a[1..], b, body);
      assert (a + b)[1..] == a[1..] + b;
    }
  }

  /** What may follow a value. */
  predicate Ends(rest: string) {
    rest == "" || rest[0] == ',' || rest[0] == ']' || rest[0] == '}'
  }

  /** The token at the start of a text that starts with a quoted string. */
  lemma QuoteToken(text: string, rest: string)
    ensures var t := Quote(text) + rest;
            && t != "" && t[0] == '"' && |Quote(text)| == |EscapeAll(text)| + 2
            && StringEnd(t[1..]) == Some(|EscapeAll(text)|)
            && t[|Quote(text)|..] == rest && t[1..|Quote(text)| - 1] == EscapeAll(text)
  {
    hide StringEnd;
    var t := Quote(text) + rest;
    EscapedEnd(text, rest);
    assert t[1..] == EscapeAll(text) + "\"" + rest;
  }

  lemma ValueScan(text: string, rest: string, body: Option<Length>)
    requires Ends(rest)
    ensures Scan(Quote(text) + rest, body) == Scan(rest, body)
  {
    hide StringEnd, DecodeName, Quote, BodyToken;
    QuoteToken(text, rest);
    var t := Quote(text) + rest;
    assert Blanks(rest) == 0;
    assert Token(t, body) == Ok((|Quote(text)|, body));
  }

  predicate NameChars(text: string) {
    forall i :: 0 <= i < |text| ==> 'a' <= text[i] <= 'z' || '0' <= text[i] <= '9' || text[i] == '_'
  }

  lemma NamePlain(text: string)
    requires NameChars(text)
    ensures Plain(text)
  {
  }

  lemma NameStepPlain(text: string)
    requires NameChars(text) && text != ""
    ensures NameStep(text) == Some((text[0], 1))
  {
    hide HexNumber;
    assert 'a' <= text[0] <= 'z' || '0' <= text[0] <= '9' || text[0] == '_';
  }

  lemma {:induction false} NameReads(text: string)
    requires NameChars(text)
    ensures EscapeAll(text) == text && DecodeName(text) == Some(text)
  {
    hide NameStep, EscapeAll, Plain;
    NamePlain(text);
    PlainEscapes(text);
    if text != "" {
      NameReads(text[1..]);
      assert text == [text[0]] + text[1..];
      NameStepPlain(text);
    }
  }

  /** A member name of the schema: short, plain, and the body's only for the body. */
  predicate GoodName(key: Key) {
    NameChars(KeyName(key)) && 1 <= |KeyName(key)| <= 21 && (KeyName(key) == BODY_NAME <==> key == BodyKey)
  }

  lemma EnvelopeNames()
    ensures GoodName(SchemaKey) && GoodName(TypeKey) && GoodName(OwnerEpochKey)
  {
  }

  lemma EpochNames()
    ensures GoodName(AdapterEpochKey) && GoodName(ClockDomainKey) && GoodName(ExtensionKey)
  {
  }

  lemma IdentityNames()
    ensures GoodName(DispatchKey) && GoodName(ReceiptKey) && GoodName(RequestKey)
  {
  }

  lemma EntryNames()
    ensures GoodName(ContextKey) && GoodName(EnteredAtKey) && GoodName(OutcomeKey)
  {
  }

  lemma SettlementNames()
    ensures GoodName(ReasonKey) && GoodName(SettlementKey) && GoodName(RequestIdKey)
  {
  }

  lemma TargetNames()
    ensures GoodName(MethodKey) && GoodName(PathKey) && GoodName(OriginalPathKey)
  {
  }

  lemma ContentNames()
    ensures GoodName(QueryKey) && GoodName(HeadersKey) && GoodName(BodyKey)
  {
  }

  lemma TimeNames()
    ensures GoodName(StatusKey) && GoodName(AdmittedAtKey) && GoodName(CutoffKey)
  {
  }

  lemma CallerNames()
    ensures GoodName(PrefixKey) && GoodName(PrincipalKey) && GoodName(KindKey)
  {
  }

  lemma UserNames()
    ensures GoodName(UserIdKey) && GoodName(PatIdKey) && GoodName(PackageIdKey)
  {
  }

  lemma PackageNames()
    ensures GoodName(NameKey) && GoodName(VersionKey)
  {
  }

  lemma ArtifactNames()
    ensures GoodName(ArtifactKey) && GoodName(EntryStateKey)
  {
  }

  lemma AnswerNames()
    ensures GoodName(ResponseKey) && GoodName(CodeKey)
  {
  }

  lemma KeyFacts(key: Key)
    requires !key.OtherKey?
    ensures GoodName(key)
  {
    hide GoodName, KeyName;
    EnvelopeNames();
    EpochNames();
    IdentityNames();
    EntryNames();
    SettlementNames();
    TargetNames();
    ContentNames();
    TimeNames();
    CallerNames();
    UserNames();
    PackageNames();
    ArtifactNames();
    AnswerNames();
  }

  // ----- documents -----

  /** Every member name is one of the schema's. */
  predicate Known(j: Json)
    decreases j
  {
    match j
    case Arr(items) => forall i :: 0 <= i < |items| ==> Known(items[i])
    case Obj(fields) => forall i :: 0 <= i < |fields| ==> !fields[i].key.OtherKey? && Known(fields[i].value)
    case _ => true
  }

  /** What the scan should learn from a document: the length of the value of its one body member, a plain string. */
  function Body(j: Json, body: Option<Length>): Result<Option<Length>, CodecError>
    decreases j
  {
    match j
    case Arr(_) => ItemsBody(j, 0, body)
    case Obj(_) => FieldsBody(j, 0, body)
    case _ => Ok(body)
  }

  function ItemsBody(j: Json, i: nat, body: Option<Length>): Result<Option<Length>, CodecError>
    requires j.Arr? && i <= |j.items|
    decreases j, |j.items| - i + 1
  {
    if i == |j.items| then Ok(body)
    else
      var r := Body(j.items[i], body);
      if r.Err? then r else ItemsBody(j, i + 1, r.value)
  }

  function FieldsBody(j: Json, i: nat, body: Option<Length>): Result<Option<Length>, CodecError>
    requires j.Obj? && i <= |j.fields|
    decreases j, |j.fields| - i + 1
  {
    if i == |j.fields| then Ok(body)
    else
      var f := j.fields[i];
      var r := if f.key == BodyKey then BodyValue(f.value, body) else Body(f.value, body);
      if r.Err? then r else FieldsBody(j, i + 1, r.value)
  }

  function BodyValue(v: Json, body: Option<Length>): Result<Option<Length>, CodecError> {
    if body.Some? || !v.Str? || !Plain(v.text) then Err(Invalid)
    else if |v.text| > Base64.MAX_BODY64 then Err(TooLarge)
    else Ok(Some(|v.text|))
  }

  function Follow(r: Result<Option<Length>, CodecError>, rest: string): Result<Option<Length>, CodecError> {
    if r.Err? then Err(r.error) else Scan(rest, r.value)
  }

  lemma DumpStarts(v: Json)
    ensures Dump(v) != "" && !Blank(Dump(v)[0]) && (Dump(v)[0] == '"' <==> v.Str?)
    ensures !v.Str? && !v.Arr? && !v.Obj? ==> forall i :: 0 <= i < |Dump(v)| ==> Dump(v)[i] != '"'
  {
    hide DumpItems, DumpFields, EscapeAll, Decimal.Print;
    match v
    case Int(n) => NumberStarts(n);
    case _ =>
  }

  lemma NumberStarts(n: int)
    ensures Dump(Int(n)) != "" && !Blank(Dump(Int(n))[0])
    ensures forall i :: 0 <= i < |Dump(Int(n))| ==> Dump(Int(n))[i] != '"'
  {
    hide Decimal.Print;
    var digits := Decimal.Print(if n < 0 then -n else n);
    assert digits != "" && forall i :: 0 <= i < |digits| ==> '0' <= digits[i] <= '9' by {
      Decimal.PrintPlain(if n < 0 then -n else n);
    }
    assert Dump(Int(n)) == (if n < 0 then "-" else "") + digits;
  }

  lemma NameScan(key: Key, rest: string, body: Option<Length>)
    requires !key.OtherKey? && key != BodyKey
    ensures Scan(Quote(KeyName(key)) + (":" + rest), body) == Scan(rest, body)
  {
    hide StringEnd, DecodeName, Quote, BodyToken, KeyName, EscapeAll;
    KeyFacts(key);
    NameReads(KeyName(key));
    QuoteToken(KeyName(key), ":" + rest);
    var t := Quote(KeyName(key)) + (":" + rest);
    assert Blanks(":" + rest) == 0;
    assert Token(t, body) == Ok((|Quote(KeyName(key))|, body));
    NoQuoteScan(":", rest, body);
  }

  lemma BodyTokenIs(t: string, from: nat, v: Json, rest: string)
    requires from <= |t| && t[from..] == Dump(v) + rest
    ensures BodyToken(t, from) == var r := BodyValue(v, None);
                                  if r.Err? then Err(r.error) else Ok((from + |Dump(v)|, r.value))
  {
    hide Dump, PlainEnd, EscapeAll;
    DumpStarts(v);
    var more := Dump(v) + rest;
    assert Blanks(more) == 0;
    assert t[from] == more[0];
    if v.Str? {
      PlainValueEnd(v.text, rest);
      assert Dump(v) == Quote(v.text) by { StrDump(v); }
      assert t[from + 1..] == more[1..] == EscapeAll(v.text) + "\"" + rest;
      if Plain(v.text) {
        PlainEscapes(v.text);
      }
    }
  }

  lemma StrDump(v: Json)
    requires v.Str?
    ensures Dump(v) == Quote(v.text)
  {
  }

  lemma BodyNameToken(more: string, body: Option<Length>)
    ensures var q := Quote(KeyName(BodyKey));
            var t := q + (":" + more);
            && t != "" && t[0] == '"' && |q| + 1 <= |t| && t[|q| + 1..] == more
            && Token(t, body) == if body.Some? then Err(Invalid) else BodyToken(t, |q| + 1)
  {
    hide StringEnd, DecodeName, Quote, KeyName, EscapeAll, BodyToken;
    KeyFacts(BodyKey);
    NameReads(KeyName(BodyKey));
    QuoteToken(KeyName(BodyKey), ":" + more);
    assert Blanks(":" + more) == 0;
  }

  lemma BodyScan(v: Json, rest: string, body: Option<Length>)
    ensures Scan(Quote(KeyName(BodyKey)) + (":" + (Dump(v) + rest)), body) == Follow(BodyValue(v, body), rest)
  {
    hide Quote, KeyName, Dump, Token, BodyToken;
    var q, more := Quote(KeyName(BodyKey)), Dump(v) + rest;
    var t := q + (":" + more);
    BodyNameToken(more, body);
    BodyTokenIs(t, |q| + 1, v, rest);
    assert t[|q| + 1 + |Dump(v)|..] == rest;
  }

  /** The scan of a written document learns exactly what it should, and goes on after it. */
  lemma {:induction false} DumpScan(j: Json, rest: string, body: Option<Length>)
    requires Known(j) && Ends(rest)
    ensures Scan(Dump(j) + rest, body) == Follow(Body(j, body), rest)
    decreases j
  {
    hide Scan, Quote, DumpItems, DumpFields, ItemsBody, FieldsBody, Ends;
    match j
    case Str(text) => ValueScan(text, rest, body);
    case Arr(_) =>
      assert Dump(j) + rest == "[" + (DumpItems(j, 0) + rest);
      NoQuoteScan("[", DumpItems(j, 0) + rest, body);
      ItemsScan(j, 0, rest, body);
    case Obj(_) =>
      assert Dump(j) + rest == "{" + (DumpFields(j, 0) + rest);
      NoQuoteScan("{", DumpFields(j, 0) + rest, body);
      FieldsScan(j, 0, rest, body);
    case _ =>
      DumpStarts(j);
      NoQuoteScan(Dump(j), rest, body);
  }

  lemma {:induction false} ItemsScan(j: Json, i: nat, rest: string, body: Option<Length>)
    requires j.Arr? && i <= |j.items| && Known(j) && Ends(rest)
    ensures Scan(DumpItems(j, i) + rest, body) == Follow(ItemsBody(j, i, body), rest)
    decreases j, |j.items| - i + 1
  {
    hide Scan, Dump, Body;
    if i == |j.items| {
      NoQuoteScan("]", rest, body);
    } else {
      var comma, more := if i > 0 then "," else "", DumpItems(j, i + 1) + rest;
      assert DumpItems(j, i) + rest == comma + (Dump(j.items[i]) + more);
      NoQuoteScan(comma, Dump(j.items[i]) + more, body);
      assert Ends(more);
      DumpScan(j.items[i], more, body);
      var r := Body(j.items[i], body);
      if r.Ok? {
        ItemsScan(j, i + 1, rest, r.value);
      }
    }
  }

  lemma {:induction false} FieldsScan(j: Json, i: nat, rest: string, body: Option<Length>)
    requires j.Obj? && i <= |j.fields| && Known(j) && Ends(rest)
    ensures Scan(DumpFields(j, i) + rest, body) == Follow(FieldsBody(j, i, body), rest)
    decreases j, |j.fields| - i + 1
  {
    hide Scan, Dump, Body, Quote, KeyName, BodyValue;
    if i == |j.fields| {
      NoQuoteScan("}", rest, body);
    } else {
      var comma, more := if i > 0 then "," else "", DumpFields(j, i + 1) + rest;
      var f := j.fields[i];
      var member := Quote(KeyName(f.key)) + (":" + (Dump(f.value) + more));
      assert DumpFields(j, i) + rest == comma + member;
      NoQuoteScan(comma, member, body);
      assert Ends(more);
      if f.key == BodyKey {
        BodyScan(f.value, more, body);
      } else {
        NameScan(f.key, Dump(f.value) + more, body);
        DumpScan(f.value, more, body);
      }
      var r := if f.key == BodyKey then BodyValue(f.value, body) else Body(f.value, body);
      if r.Ok? {
        FieldsScan(j, i + 1, rest, r.value);
      }
    }
  }

  // ----- every document of the schema is short enough -----

  lemma {:induction false} EscapedSize(text: string)
    ensures |EscapeAll(text)| <= 6 * |text|
  {
    hide Escape;
    if text != "" {
      EscapedSize(text[1..]);
    }
  }

  /** Text of a value besides its body: six bytes for each byte of its strings, and a constant for each node. */
  lemma {:induction false} DumpSize(role: Role, key: Option<Key>, j: Json, body: Option<Length>)
    requires Fits(role, key, j) && !IsBody(role, key) && Body(j, body).Ok?
    ensures |Dump(j)| + BodyBytes(body) + 28 <= 6 * Weight(role, key, j) + 40 * Nodes(j)
              + BodyBytes(Body(j, body).value)
    decreases j
  {
    hide DumpItems, DumpFields, EscapeAll, ItemWeight, FieldWeight, ItemNodes, FieldNodes, ItemsFit, FieldsFit, Closed;
    match j
    case Str(text) => EscapedSize(text);
    case Arr(_) => ItemsSize(ItemRole(role, key), j, 0, body);
    case Obj(_) => FieldsSize(SubRole(role, key).value, j, 0, body);
    case Int(n) => ShortNumber(n);
    case Null =>
  }

  lemma ShortNumber(n: int)
    requires n == 1 || 200 <= n <= 599
    ensures |Decimal.Print(n)| <= 3
  {
    if n > 1 {
      assert |Decimal.Print(n / 10 / 10)| == 1;
      assert |Decimal.Print(n / 10)| == 2;
    }
  }

  lemma {:induction false} ItemsSize(role: Role, j: Json, i: nat, body: Option<Length>)
    requires j.Arr? && i <= |j.items| && ItemsFit(role, j, i) && (role == HeadersRole || role == PairRole)
    requires ItemsBody(j, i, body).Ok?
    ensures |DumpItems(j, i)| + BodyBytes(body)
         <= 6 * ItemWeight(role, j, i) + 40 * ItemNodes(j, i) + 1 + BodyBytes(ItemsBody(j, i, body).value)
    decreases j, |j.items| - i + 1
  {
    hide Dump, Body, Weight, Nodes, Fits;
    if i < |j.items| {
      DumpSize(role, None, j.items[i], body);
      ItemsSize(role, j, i + 1, Body(j.items[i], body).value);
    }
  }

  lemma MemberText(j: Json, i: nat)
    requires j.Obj? && i <= |j.fields|
    ensures i == |j.fields| ==> |DumpFields(j, i)| == 1
    ensures i < |j.fields| ==>
              |DumpFields(j, i)| <= 2 + |Quote(KeyName(j.fields[i].key))| + |Dump(j.fields[i].value)|
                                    + |DumpFields(j, i + 1)|
  {
    hide Dump, Quote, KeyName;
  }

  lemma {:induction false} FieldsSize(role: Role, j: Json, i: nat, body: Option<Length>)
    requires j.Obj? && i <= |j.fields| && FieldsFit(role, j, i) && FieldsBody(j, i, body).Ok?
    ensures |DumpFields(j, i)| + BodyBytes(body)
         <= 6 * FieldWeight(role, j, i) + 40 * FieldNodes(j, i) + 1 + BodyBytes(FieldsBody(j, i, body).value)
    decreases j, |j.fields| - i + 1
  {
    hide Dump, Body, Weight, Nodes, Fits, Quote, KeyName, BodyValue, Allowed, DumpFields;
    MemberText(j, i);
    if i < |j.fields| {
      var f := j.fields[i];
      var r := if f.key == BodyKey then BodyValue(f.value, body) else Body(f.value, body);
      NameSize(role, f.key);
      if f.key == BodyKey {
        BodySize(role, f.value, body);
      } else {
        DumpSize(role, Some(f.key), f.value, body);
      }
      FieldsSize(role, j, i + 1, r.value);
    }
  }

  lemma AllowedKnown(role: Role, key: Key)
    requires Allowed(role, key)
    ensures !key.OtherKey? && (key == BodyKey <==> IsBody(role, Some(key)))
  {
  }

  lemma NameSize(role: Role, key: Key)
    requires Allowed(role, key)
    ensures !key.OtherKey? && |Quote(KeyName(key))| <= 23 && (key == BodyKey <==> IsBody(role, Some(key)))
  {
    hide KeyName, EscapeAll, Allowed, DecodeName, NameChars;
    AllowedKnown(role, key);
    KeyFacts(key);
    NameReads(KeyName(key));
  }

  lemma BodySize(role: Role, v: Json, body: Option<Length>)
    requires BodyValue(v, body).Ok?
    ensures |Dump(v)| + BodyBytes(body) == 2 + BodyBytes(BodyValue(v, body).value) && Nodes(v) == 1
  {
    hide EscapeAll;
    PlainEscapes(v.text);
  }

  lemma {:induction false} ItemFits(role: Role, j: Json, i: nat, k: nat)
    requires j.Arr? && i <= k < |j.items| && ItemsFit(role, j, i)
    ensures Fits(role, None, j.items[k])
    decreases k - i
  {
    hide Fits;
    if i < k {
      ItemFits(role, j, i + 1, k);
    }
  }

  lemma {:induction false} FitsKnown(role: Role, key: Option<Key>, j: Json)
    requires Fits(role, key, j)
    ensures Known(j)
    decreases j
  {
    hide ItemsFit, FieldsFit, Closed;
    match j
    case Arr(items) =>
      forall k | 0 <= k < |items|
        ensures Known(items[k])
      {
        var r := if IsHeaders(role, key) then HeadersRole else PairRole;
        ItemFits(r, j, 0, k);
        FitsKnown(r, None, items[k]);
      }
    case Obj(_) => RecordKnown(SubRole(role, key).value, j);
    case _ =>
  }

  lemma {:induction false} RecordKnown(role: Role, j: Json)
    requires j.Obj? && RecordFits(role, j)
    ensures Known(j)
    decreases j, 0
  {
    hide FieldsFit, Closed;
    forall k | 0 <= k < |j.fields|
      ensures !j.fields[k].key.OtherKey? && Known(j.fields[k].value)
    {
      FrameRecords.FieldFits(role, j, 0, k);
      FitsKnown(role, Some(j.fields[k].key), j.fields[k].value);
    }
  }

  /** For every record of the schema within the node and metadata limits the text bounds come down to two things: the
      text is UTF-8, and the value of its body member, if it has one, is a plain string within the body limit. */
  lemma RecordText(role: Role, j: Json)
    requires j.Obj? && RecordFits(role, j) && Nodes(j) <= MAX_NODES && FieldWeight(role, j, 0) <= MAX_METADATA_BYTES
    ensures RawBounds(Dump(j)).Ok? <==> Utf8.Valid(Dump(j)) && Body(j, None).Ok?
  {
    hide FieldsFit, Closed, Scan, FieldsBody, DumpFields, FieldWeight, FieldNodes;
    RecordKnown(role, j);
    DumpScan(j, "", None);
    assert Dump(j) + "" == Dump(j);
    if Body(j, None).Ok? {
      FieldsSize(role, j, 0, None);
      EmptyScan(Body(j, None).value);
    }
  }

  /** The same for whole documents: the two size limits refuse none of them. */
  lemma SchemaText(j: Json)
    requires Schema(j)
    ensures RawBounds(Dump(j)).Ok? <==> Utf8.Valid(Dump(j)) && Body(j, None).Ok?
  {
    hide RecordFits, RawBounds, Body;
    RecordText(RootRole, j);
  }

  // ----- written text is UTF-8 -----

  lemma EncodeFirst(xs: seq<Utf8.Scalar>, ys: seq<Utf8.Scalar>)
    requires xs != []
    ensures Utf8.EncodeAll(xs) == Utf8.Encode(xs[0]) + Utf8.EncodeAll(xs[1..])
    ensures Utf8.EncodeAll(xs + ys) == Utf8.Encode(xs[0]) + Utf8.EncodeAll(xs[1..] + ys)
  {
    hide Utf8.Encode;
    assert (xs + ys)[1..] == xs[1..] + ys && (xs + ys)[0] == xs[0];
  }

  lemma {:induction false} EncodeAllAppend(xs: seq<Utf8.Scalar>, ys: seq<Utf8.Scalar>)
    ensures Utf8.EncodeAll(xs + ys) == Utf8.EncodeAll(xs) + Utf8.EncodeAll(ys)
  {
    if xs == [] {
      assert xs + ys == ys;
    } else {
      hide Utf8.Encode, Utf8.EncodeAll;
      EncodeFirst(xs, ys);
      EncodeAllAppend(xs[1..], ys);
      Sequences.Regroup(Utf8.Encode(xs[0]), Utf8.EncodeAll(xs[1..]), Utf8.EncodeAll(ys));
    }
  }

  lemma ConcatUtf8(a: string, b: string)
    requires Utf8.WellFormed(a) && Utf8.WellFormed(b)
    ensures Utf8.WellFormed(a + b)
  {
    hide Utf8.EncodeAll;
    var xs :| Utf8.EncodeAll(xs) == a;
    var ys :| Utf8.EncodeAll(ys) == b;
    EncodeAllAppend(xs, ys);
    assert Utf8.EncodeAll(xs + ys) == a + b;
  }

  predicate Ascii(text: string) {
    forall i :: 0 <= i < |text| ==> text[i] as int < 128
  }

  lemma {:induction false} AsciiUtf8(text: string)
    requires Ascii(text)
    ensures Utf8.WellFormed(text)
  {
    if text == "" {
      assert Utf8.EncodeAll([]) == text;
    } else {
      AsciiUtf8(text[1..]);
      CharUtf8(text[0]);
      ConcatUtf8([text[0]], text[1..]);
      assert [text[0]] + text[1..] == text;
    }
  }

  lemma CharUtf8(c: char)
    requires c as int < 128
    ensures Utf8.WellFormed([c])
  {
    var x: Utf8.Scalar := c as int;
    assert Utf8.EncodeAll([x]) == [c];
  }

  lemma {:induction false} EscapeAllConcat(a: string, b: string)
    ensures EscapeAll(a + b) == EscapeAll(a) + EscapeAll(b)
  {
    hide Escape;
    if a == "" {
      assert a + b == b;
    } else {
      EscapeAllConcat(a[1..], b);
      assert (a + b)[1..] == a[1..] + b;
    }
  }

  /** A character above ASCII is written as it is, byte by byte, and one of ASCII as ASCII. */
  lemma EscapedScalar(x: Utf8.Scalar)
    ensures Utf8.WellFormed(EscapeAll(Utf8.Encode(x)))
  {
    var e := Utf8.Encode(x);
    if x < 128 {
      AsciiEscape(x as char);
      assert EscapeAll(e) == Escape(x as char) by {
        assert e == [x as char] && e[1..] == "" && EscapeAll("") == "";
      }
      AsciiUtf8(Escape(x as char));
    } else {
      assert Plain(e);
      PlainEscapes(e);
      assert Utf8.EncodeAll([x]) == e by { OneScalar(x); }
    }
  }

  lemma OneScalar(x: Utf8.Scalar)
    ensures Utf8.EncodeAll([x]) == Utf8.Encode(x)
  {
    hide Utf8.Encode;
    assert [x][1..] == [] && Utf8.EncodeAll([]) == "";
    assert Utf8.Encode(x) + "" == Utf8.Encode(x);
  }

  lemma AsciiEscape(c: char)
    requires c as int < 128
    ensures Ascii(Escape(c))
  {
  }

  lemma {:induction false} EscapedUtf8(xs: seq<Utf8.Scalar>)
    ensures Utf8.WellFormed(EscapeAll(Utf8.EncodeAll(xs)))
  {
    hide Escape, Utf8.Encode, Utf8.WellFormed;
    if xs == [] {
      AsciiUtf8("");
    } else {
      EscapedUtf8(xs[1..]);
      EscapedScalar(xs[0]);
      EscapeAllConcat(Utf8.Encode(xs[0]), Utf8.EncodeAll(xs[1..]));
      ConcatUtf8(EscapeAll(Utf8.Encode(xs[0])), EscapeAll(Utf8.EncodeAll(xs[1..])));
    }
  }

  lemma QuoteUtf8(text: string)
    requires Utf8.WellFormed(text)
    ensures Utf8.WellFormed(Quote(text))
  {
    hide EscapeAll, Utf8.EncodeAll;
    var xs :| Utf8.EncodeAll(xs) == text;
    EscapedUtf8(xs);
    AsciiUtf8("\"");
    ConcatUtf8("\"", EscapeAll(text));
    ConcatUtf8("\"" + EscapeAll(text), "\"");
  }

  /** Every string of the document is UTF-8. */
  ghost predicate Utf8Strings(j: Json)
    decreases j
  {
    match j
    case Str(text) => Utf8.WellFormed(text)
    case Arr(items) => forall i :: 0 <= i < |items| ==> Utf8Strings(items[i])
    case Obj(fields) => forall i :: 0 <= i < |fields| ==> Utf8Strings(fields[i].value)
    case _ => true
  }

  lemma {:induction false} DumpUtf8(j: Json)
    requires Known(j) && Utf8Strings(j)
    ensures Utf8.WellFormed(Dump(j))
    decreases j
  {
    hide Utf8.WellFormed, Quote, DumpItems, DumpFields;
    match j
    case Str(text) => QuoteUtf8(text);
    case Arr(_) =>
      ItemsUtf8(j, 0);
      MarkUtf8("[", DumpItems(j, 0));
    case Obj(_) =>
      FieldsUtf8(j, 0);
      MarkUtf8("{", DumpFields(j, 0));
    case _ => ScalarUtf8(j);
  }

  lemma MarkUtf8(mark: string, rest: string)
    requires |mark| == 1 && mark[0] as int < 128 && Utf8.WellFormed(rest)
    ensures Utf8.WellFormed(mark + rest)
  {
    hide Utf8.WellFormed;
    AsciiUtf8(mark);
    ConcatUtf8(mark, rest);
  }

  lemma ScalarUtf8(j: Json)
    requires !j.Str? && !j.Arr? && !j.Obj?
    ensures Utf8.WellFormed(Dump(j))
  {
    hide Utf8.WellFormed;
    if j.Int? {
      Decimal.PrintPlain(if j.number < 0 then -j.number else j.number);
    }
    AsciiUtf8(Dump(j));
  }

  lemma CommaUtf8(i: nat, text: string)
    requires Utf8.WellFormed(text)
    ensures Utf8.WellFormed((if i > 0 then "," else "") + text)
  {
    hide Utf8.WellFormed;
    AsciiUtf8(if i > 0 then "," else "");
    ConcatUtf8(if i > 0 then "," else "", text);
  }

  lemma {:induction false} ItemsUtf8(j: Json, i: nat)
    requires j.Arr? && i <= |j.items| && Known(j) && Utf8Strings(j)
    ensures Utf8.WellFormed(DumpItems(j, i))
    decreases j, |j.items| - i + 1
  {
    hide Utf8.WellFormed, Dump;
    if i == |j.items| {
      AsciiUtf8("]");
    } else {
      DumpUtf8(j.items[i]);
      ItemsUtf8(j, i + 1);
      ConcatUtf8(Dump(j.items[i]), DumpItems(j, i + 1));
      CommaUtf8(i, Dump(j.items[i]) + DumpItems(j, i + 1));
    }
  }

  lemma {:induction false} FieldsUtf8(j: Json, i: nat)
    requires j.Obj? && i <= |j.fields| && Known(j) && Utf8Strings(j)
    ensures Utf8.WellFormed(DumpFields(j, i))
    decreases j, |j.fields| - i + 1
  {
    hide Utf8.WellFormed, Dump, Quote, KeyName;
    if i == |j.fields| {
      AsciiUtf8("}");
    } else {
      var f := j.fields[i];
      DumpUtf8(f.value);
      FieldsUtf8(j, i + 1);
      var rest := Dump(f.value) + DumpFields(j, i + 1);
      ConcatUtf8(Dump(f.value), DumpFields(j, i + 1));
      AsciiUtf8(":");
      ConcatUtf8(":", rest);
      KeyFacts(f.key);
      AsciiUtf8(KeyName(f.key));
      QuoteUtf8(KeyName(f.key));
      ConcatUtf8(Quote(KeyName(f.key)), ":" + rest);
      CommaUtf8(i, Quote(KeyName(f.key)) + (":" + rest));
    }
  }
}
