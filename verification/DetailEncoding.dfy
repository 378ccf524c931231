/** Storing audit details with NUL characters (audit/detail_encoding.hpp: encode_detail, decode_detail), over a model of
    the JSON writer it uses and of the reader restricted to that writer's output. */
module DetailEncoding {
  import opened Wrappers
  import opened Escapes
  import Decimal

  /** Reading refuses values nested deeper than this. */
  const STACK_LIMIT: nat := 1000

  const NUL: char := '\0'

  datatype Member = Member(name: string, value: Value)
  datatype Value =
    | Null
    | Bool(truth: bool)
    | Number(number: int)
    | Text(text: string)
    | List(items: seq<Value>)
    | Record(members: seq<Member>)

  // ----- the writer -----

  function Hex4(n: int): string
    requires 0 <= n < 0x1_0000
  {
    [HexDigit(n / 0x1000), HexDigit(n / 0x100 % 16), HexDigit(n / 16 % 16), HexDigit(n % 16)]
  }

  function Unicode(n: int): string
    requires 0 <= n < 0x1_0000
  {
    "\\u" + Hex4(n)
  }

  /** One character inside a quoted string. */
  function Escape(c: char): string {
    if ShortFor(c).Some? then ['\\', ShortFor(c).value]
    else if ' ' <= c < '\U{80}' then [c]
    else if c as int < 0x1_0000 then Unicode(c as int)
    else
      var n := c as int - 0x1_0000;
      Unicode(0xD800 + n / 0x400) + Unicode(0xDC00 + n % 0x400)
  }

  function EscapeAll(text: string): string {
    if text == "" then "" else Escape(text[0]) + EscapeAll(text[1..])
  }

  function Quote(text: string): string {
    "\"" + EscapeAll(text) + "\""
  }

  function WriteNumber(n: int): string {
    if n < 0 then "-" + Decimal.Print(-n) else Decimal.Print(n)
  }

  function Write(v: Value): string
    decreases v
  {
    match v
    case Null => "null"
    case Bool(b) => if b then "true" else "false"
    case Number(n) => WriteNumber(n)
    case Text(text) => Quote(text)
    case List(items) => if items == [] then "[]" else "[" + WriteItems(v, 0)
    case Record(members) => if members == [] then "{}" else "{" + WriteMembers(v, 0)
  }

  /** The items from `i` on, up to and with the closing bracket. */
  function WriteItems(v: Value, i: nat): string
    requires v.List? && i < |v.items|
    decreases v, |v.items| - i
  {
    Write(v.items[i]) + if i + 1 == |v.items| then "]" else "," + WriteItems(v, i + 1)
  }

  function WriteMembers(v: Value, i: nat): string
    requires v.Record? && i < |v.members|
    decreases v, |v.members| - i
  {
    Quote(v.members[i].name) + ":" + Write(v.members[i].value)
    + if i + 1 == |v.members| then "}" else "," + WriteMembers(v, i + 1)
  }

  /** The writer ends every document with a newline. */
  function Document(v: Value): string {
    Write(v) + "\n"
  }

  // ----- NUL characters, and NUL escapes that stand where an escape can start -----

  predicate HasNul(v: Value)
    decreases v
  {
    match v
    case Text(text) => NUL in text
    case List(items) => exists i :: 0 <= i < |items| && HasNul(items[i])
    case Record(members) => exists i :: 0 <= i < |members| && (NUL in members[i].name || HasNul(members[i].value))
    case _ => false
  }

  /** Walking escape pairs from the left, some pair is a NUL escape. */
  predicate NulEscape(s: string) {
    if s == "" then false
    else if s[0] != '\\' then NulEscape(s[1..])
    else if |s| >= 6 && s[1..6] == "u0000" then true
    else if |s| == 1 then false
    else NulEscape(s[2..])
  }

  lemma {:induction false} PlainScan(a: string, b: string)
    requires forall i :: 0 <= i < |a| ==> a[i] != '\\'
    ensures NulEscape(a + b) <==> NulEscape(b)
  {
    if a == "" {
      assert a + b == b;
    } else {
      assert (a + b)[1..] == a[1..] + b;
      PlainScan(a[1..], b);
    }
  }

  lemma HexIsPlain(n: int)
    requires 0 <= n < 0x1_0000
    ensures |Hex4(n)| == 4 && (forall i :: 0 <= i < 4 ==> Hex4(n)[i] != '\\' && Hex4(n)[i] != '"' && Hex4(n)[i] >= ' ')
    ensures Hex4(n) == "0000" <==> n == 0
  {
    assert HexDigit(n / 0x1000) == '0' <==> n / 0x1000 == 0;
    assert n / 0x1000 == 0 && n / 0x100 % 16 == 0 && n / 16 % 16 == 0 && n % 16 == 0 ==> n == 0;
  }

  lemma UnicodeScan(n: int, rest: string)
    requires 0 <= n < 0x1_0000
    ensures NulEscape(Unicode(n) + rest) <==> n == 0 || NulEscape(rest)
  {
    hide Hex4;
    HexIsPlain(n);
    var s := Unicode(n) + rest;
    assert s[2..] == Hex4(n) + rest;
    assert s[1..6] == "u" + Hex4(n);
    assert Hex4(n) == "0000" <==> s[1..6] == "u0000" by {
      assert ("u" + Hex4(n))[1..] == Hex4(n) && "u0000"[1..] == "0000";
    }
    PlainScan(Hex4(n), rest);
  }

  lemma EscapeScan(c: char, rest: string)
    ensures NulEscape(Escape(c) + rest) <==> c == NUL || NulEscape(rest)
  {
    hide Unicode;
    var s := Escape(c) + rest;
    if c in {'"', '\\', '\U{8}', '\U{c}', '\n', '\r', '\t'} {
      assert s[2..] == rest && s[1] != 'u' && (|s| >= 6 ==> s[1..6][0] == s[1]);
    } else if ' ' <= c < '\U{80}' {
      assert s[1..] == rest;
    } else if c as int < 0x1_0000 {
      UnicodeScan(c as int, rest);
    } else {
      var n := c as int - 0x1_0000;
      assert s == Unicode(0xD800 + n / 0x400) + (Unicode(0xDC00 + n % 0x400) + rest);
      UnicodeScan(0xD800 + n / 0x400, Unicode(0xDC00 + n % 0x400) + rest);
      UnicodeScan(0xDC00 + n % 0x400, rest);
    }
  }

  lemma {:induction false} TextScan(text: string, rest: string)
    ensures NulEscape(EscapeAll(text) + rest) <==> NUL in text || NulEscape(rest)
  {
    hide Escape, NulEscape;
    if text == "" {
      assert EscapeAll(text) + rest == rest;
    } else {
      var tail := EscapeAll(text[1..]);
      assert EscapeAll(text) + rest == Escape(text[0]) + (tail + rest);
      EscapeScan(text[0], tail + rest);
      TextScan(text[1..], rest);
      assert text == [text[0]] + text[1..];
    }
  }

  lemma QuoteScan(text: string, rest: string)
    ensures NulEscape(Quote(text) + rest) <==> NUL in text || NulEscape(rest)
  {
    hide EscapeAll, NulEscape;
    assert Quote(text) + rest == "\"" + (EscapeAll(text) + ("\"" + rest));
    PlainScan("\"", EscapeAll(text) + ("\"" + rest));
    TextScan(text, "\"" + rest);
    PlainScan("\"", rest);
  }

  lemma NumberPlain(n: int)
    ensures WriteNumber(n) != "" && forall i :: 0 <= i < |WriteNumber(n)| ==>
              WriteNumber(n)[i] != '\\' && WriteNumber(n)[i] >= ' ' && WriteNumber(n)[i] < '\U{80}'
  {
    Decimal.PrintPlain(if n < 0 then -n else n);
  }

  /** The scan finds exactly the NUL characters of the value, wherever they are. */
  lemma {:induction false} WriteScan(v: Value, rest: string)
    ensures NulEscape(Write(v) + rest) <==> HasNul(v) || NulEscape(rest)
    decreases v
  {
    hide NulEscape, Quote, WriteNumber;
    match v
    case Number(n) =>
      NumberPlain(n);
      PlainScan(Write(v), rest);
    case Text(text) => QuoteScan(text, rest);
    case List(items) =>
      if items == [] {
        PlainScan("[]", rest);
      } else {
        assert Write(v) + rest == "[" + (WriteItems(v, 0) + rest);
        PlainScan("[", WriteItems(v, 0) + rest);
        ItemsScan(v, 0, rest);
      }
    case Record(members) =>
      if members == [] {
        PlainScan("{}", rest);
      } else {
        assert Write(v) + rest == "{" + (WriteMembers(v, 0) + rest);
        PlainScan("{", WriteMembers(v, 0) + rest);
        MembersScan(v, 0, rest);
      }
    case _ => PlainScan(Write(v), rest);
  }

  lemma {:induction false} ItemsScan(v: Value, i: nat, rest: string)
    requires v.List? && i < |v.items|
    ensures NulEscape(WriteItems(v, i) + rest) <==>
            (exists k :: i <= k < |v.items| && HasNul(v.items[k])) || NulEscape(rest)
    decreases v, |v.items| - i
  {
    hide NulEscape;
    var item := v.items[i];
    if i + 1 == |v.items| {
      assert WriteItems(v, i) + rest == Write(item) + ("]" + rest);
      WriteScan(item, "]" + rest);
      PlainScan("]", rest);
    } else {
      var more := WriteItems(v, i + 1);
      assert WriteItems(v, i) + rest == Write(item) + ("," + (more + rest));
      WriteScan(item, "," + (more + rest));
      PlainScan(",", more + rest);
      ItemsScan(v, i + 1, rest);
    }
  }

  lemma {:induction false} MembersScan(v: Value, i: nat, rest: string)
    requires v.Record? && i < |v.members|
    ensures NulEscape(WriteMembers(v, i) + rest) <==>
            (exists k :: i <= k < |v.members| && (NUL in v.members[k].name || HasNul(v.members[k].value)))
                || NulEscape(rest)
    decreases v, |v.members| - i
  {
    hide NulEscape, Quote;
    var m := v.members[i];
    var tail := if i + 1 == |v.members| then "}" + rest else "," + (WriteMembers(v, i + 1) + rest);
    assert WriteMembers(v, i) + rest == Quote(m.name) + (":" + (Write(m.value) + tail));
    QuoteScan(m.name, ":" + (Write(m.value) + tail));
    PlainScan(":", Write(m.value) + tail);
    WriteScan(m.value, tail);
    if i + 1 == |v.members| {
      PlainScan("}", rest);
    } else {
      PlainScan(",", WriteMembers(v, i + 1) + rest);
      MembersScan(v, i + 1, rest);
    }
  }

  /** Nothing the writer emits is a control character, so a document quoted once more contains no NUL. */
  predicate Printable(s: string) {
    forall i :: 0 <= i < |s| ==> s[i] >= ' '
  }

  lemma EscapePrintable(c: char)
    ensures Printable(Escape(c)) && Escape(c) != ""
  {
    hide Hex4;
    if c as int < 0x1_0000 {
      HexIsPlain(c as int);
    } else {
      var n := c as int - 0x1_0000;
      HexIsPlain(0xD800 + n / 0x400);
      HexIsPlain(0xDC00 + n % 0x400);
    }
  }

  lemma {:induction false} TextPrintable(text: string)
    ensures Printable(EscapeAll(text))
  {
    hide Escape;
    if text != "" {
      EscapePrintable(text[0]);
      TextPrintable(text[1..]);
    }
  }

  lemma {:induction false} WritePrintable(v: Value)
    ensures Printable(Write(v))
    decreases v
  {
    hide EscapeAll, WriteNumber;
    match v
    case Number(n) => NumberPlain(n);
    case Text(text) => TextPrintable(text);
    case List(items) => if items != [] { ItemsPrintable(v, 0); }
    case Record(members) => if members != [] { MembersPrintable(v, 0); }
    case _ =>
  }

  lemma {:induction false} ItemsPrintable(v: Value, i: nat)
    requires v.List? && i < |v.items|
    ensures Printable(WriteItems(v, i))
    decreases v, |v.items| - i
  {
    WritePrintable(v.items[i]);
    if i + 1 < |v.items| {
      ItemsPrintable(v, i + 1);
    }
  }

  lemma {:induction false} MembersPrintable(v: Value, i: nat)
    requires v.Record? && i < |v.members|
    ensures Printable(WriteMembers(v, i))
    decreases v, |v.members| - i
  {
    hide EscapeAll;
    TextPrintable(v.members[i].name);
    WritePrintable(v.members[i].value);
    if i + 1 < |v.members| {
      MembersPrintable(v, i + 1);
    }
  }

  // ----- the reader -----

  /** The character at the front of a string's inside, and how many characters spell it. */
  function Unescape(s: string): (r: Option<(char, nat)>)
    requires s != ""
    ensures r.Some? ==> 0 < r.value.1 <= |s|
  {
    if s[0] != '\\' then if s[0] < ' ' then None else Some((s[0], 1))
    else if |s| < 2 then None
    else if s[1] != 'u' then
      if ShortEscape(s[1]).Some? then Some((ShortEscape(s[1]).value, 2)) else None
    else if |s| < 6 then None
    else
      var high := HexNumber(s[2..6]);
      if high.None? || 0xDC00 <= high.value < 0xE000 then None
      else if 0xD800 <= high.value < 0xDC00 then
        if |s| < 12 || s[6..8] != "\\u" then None
        else
          var low := HexNumber(s[8..12]);
          if low.None? || !(0xDC00 <= low.value < 0xE000) then None
          else Some(((0x1_0000 + (high.value - 0xD800) * 0x400 + (low.value - 0xDC00)) as char, 12))
      else Some((high.value as char, 6))
  }

  function ReadText(s: string): (r: Option<(string, string)>)
    ensures r.Some? ==> |r.value.1| < |s|
    decreases |s|
  {
    if s == "" then None
    else if s[0] == '"' then Some(("", s[1..]))
    else
      var c := Unescape(s);
      if c.None? then None
      else
        var more := ReadText(s[c.value.1..]);
        if more.None? then None else Some(([c.value.0] + more.value.0, more.value.1))
  }

  function DigitsEnd(s: string, i: nat): (end: nat)
    requires i <= |s|
    ensures i <= end <= |s| && (forall k :: i <= k < end ==> Decimal.IsDigit(s[k]))
              && (end < |s| ==> !Decimal.IsDigit(s[end]))
    decreases |s| - i
  {
    if i < |s| && Decimal.IsDigit(s[i]) then DigitsEnd(s, i + 1) else i
  }

  function ReadNumber(s: string): (r: Option<(int, string)>)
    ensures r.Some? ==> |r.value.1| < |s|
  {
    var start := if s != "" && s[0] == '-' then 1 else 0;
    var end := DigitsEnd(s, start);
    if end == start then None
    else
      var n := Decimal.Number(s[start..end]);
      Some((if start == 1 then -n else n, s[end..]))
  }

  /** A value at the front of the text, nested at most `depth` deep, and what follows it. */
  function Read(s: string, depth: nat): (r: Option<(Value, string)>)
    ensures r.Some? ==> |r.value.1| < |s|
    decreases |s|, 1
  {
    if s == "" || depth == 0 then None
    else if "null" <= s then Some((Null, s[4..]))
    else if "true" <= s then Some((Bool(true), s[4..]))
    else if "false" <= s then Some((Bool(false), s[5..]))
    else if s[0] == '"' then
      var t := ReadText(s[1..]);
      if t.None? then None else Some((Text(t.value.0), t.value.1))
    else if s[0] == '[' then
      if "[]" <= s then Some((List([]), s[2..]))
      else
        var items := ReadItems(s[1..], depth - 1);
        if items.None? then None else Some((List(items.value.0), items.value.1))
    else if s[0] == '{' then
      if "{}" <= s then Some((Record([]), s[2..]))
      else
        var members := ReadMembers(s[1..], depth - 1);
        if members.None? then None else Some((Record(members.value.0), members.value.1))
    else
      var n := ReadNumber(s);
      if n.None? then None else Some((Number(n.value.0), n.value.1))
  }

  function ReadItems(s: string, depth: nat): (r: Option<(seq<Value>, string)>)
    ensures r.Some? ==> |r.value.1| < |s|
    decreases |s|, 2
  {
    var item := Read(s, depth);
    if item.None? || item.value.1 == "" then None
    else if item.value.1[0] == ']' then Some(([item.value.0], item.value.1[1..]))
    else if item.value.1[0] != ',' then None
    else
      var more := ReadItems(item.value.1[1..], depth);
      if more.None? then None else Some(([item.value.0] + more.value.0, more.value.1))
  }

  function ReadMembers(s: string, depth: nat): (r: Option<(seq<Member>, string)>)
    ensures r.Some? ==> |r.value.1| < |s|
    decreases |s|, 2
  {
    if s == "" || s[0] != '"' then None
    else
      var name := ReadText(s[1..]);
      if name.None? || name.value.1 == "" || name.value.1[0] != ':' then None
      else
        var item := Read(name.value.1[1..], depth);
        if item.None? || item.value.1 == "" then None
        else if item.value.1[0] == '}' then Some(([Member(name.value.0, item.value.0)], item.value.1[1..]))
        else if item.value.1[0] != ',' then None
        else
          var more := ReadMembers(item.value.1[1..], depth);
          if more.None? then None else Some(([Member(name.value.0, item.value.0)] + more.value.0, more.value.1))
  }

  /** A whole document: one value and the writer's newline. */
  function Parse(stored: string): Option<Value> {
    var r := Read(stored, STACK_LIMIT);
    if r.Some? && r.value.1 == "\n" then Some(r.value.0) else None
  }

  function Decode(stored: string, encoding: int): Option<Value> {
    if encoding != 0 && encoding != 1 then None
    else
      var detail := Parse(stored);
      if detail.None? || encoding == 0 then detail
      else if !detail.value.Text? then None
      else Parse(detail.value.text)
  }

  // ----- what was written reads back -----

  lemma DigitReads(d: int)
    requires 0 <= d < 16
    ensures HexValue(HexDigit(d)) == Some(d)
  {
  }

  lemma HexReads(n: int)
    requires 0 <= n < 0x1_0000
    ensures HexNumber(Hex4(n)) == Some(n)
  {
    hide HexValue, HexDigit;
    var a, b, c := n / 16, n / 16 / 16, n / 16 / 16 / 16;
    DigitReads(c);
    DigitReads(b % 16);
    DigitReads(a % 16);
    DigitReads(n % 16);
    assert n / 0x1000 == c && n / 0x100 == b;
    assert n == ((c * 16 + b % 16) * 16 + a % 16) * 16 + n % 16;
  }

  lemma UnicodeAt(n: int, rest: string)
    requires 0 <= n < 0x1_0000
    ensures var s := Unicode(n) + rest; |s| >= 6 && s[..2] == "\\u" && s[2..6] == Hex4(n) && s[6..] == rest
  {
    hide Hex4;
    HexIsPlain(n);
  }

  lemma PairReads(n: int, rest: string)
    requires 0 <= n < 0x10_0000
    ensures Unescape(Unicode(0xD800 + n / 0x400) + Unicode(0xDC00 + n % 0x400) + rest)
              == Some(((0x1_0000 + n) as char, 12))
  {
    hide Unicode, HexNumber, Hex4;
    var high, low := 0xD800 + n / 0x400, 0xDC00 + n % 0x400;
    var s := Unicode(high) + Unicode(low) + rest;
    assert s == Unicode(high) + (Unicode(low) + rest);
    UnicodeAt(high, Unicode(low) + rest);
    UnicodeAt(low, rest);
    HexReads(high);
    HexReads(low);
    assert s[0] == s[..2][0] && s[1] == s[..2][1];
    assert s[6..8] == s[6..][..2] && s[8..12] == s[6..][2..6];
  }

  lemma EscapeReads(c: char, rest: string)
    ensures Unescape(Escape(c) + rest) == Some((c, |Escape(c)|)) && Escape(c)[0] != '"'
  {
    hide Unicode, HexNumber, Hex4;
    var s := Escape(c) + rest;
    if c in {'"', '\\', '\U{8}', '\U{c}', '\n', '\r', '\t'} || ' ' <= c < '\U{80}' {
    } else if c as int < 0x1_0000 {
      UnicodeAt(c as int, rest);
      HexReads(c as int);
      HexIsPlain(c as int);
      assert s[0] == s[..2][0] && s[1] == s[..2][1];
      UnicodeSize(c as int);
    } else {
      var n := c as int - 0x1_0000;
      PairReads(n, rest);
      UnicodeSize(0xD800 + n / 0x400);
      UnicodeSize(0xDC00 + n % 0x400);
    }
  }

  lemma UnicodeSize(n: int)
    requires 0 <= n < 0x1_0000
    ensures |Unicode(n)| == 6 && Unicode(n)[0] == '\\'
  {
    hide Hex4;
    HexIsPlain(n);
  }

  lemma {:induction false} TextReads(text: string, rest: string)
    ensures ReadText(EscapeAll(text) + "\"" + rest) == Some((text, rest))
  {
    hide Escape, Unescape;
    var s := EscapeAll(text) + "\"" + rest;
    if text == "" {
      assert s == "\"" + rest && s[1..] == rest;
    } else {
      var tail := EscapeAll(text[1..]) + "\"" + rest;
      assert s == Escape(text[0]) + tail;
      EscapePrintable(text[0]);
      EscapeReads(text[0], tail);
      TextReads(text[1..], rest);
      assert s[|Escape(text[0])|..] == tail;
      assert text == [text[0]] + text[1..];
    }
  }

  lemma QuoteReads(text: string, rest: string)
    ensures var s := Quote(text) + rest; s != "" && s[0] == '"' && ReadText(s[1..]) == Some((text, rest))
  {
    hide EscapeAll, ReadText;
    TextReads(text, rest);
    assert (Quote(text) + rest)[1..] == EscapeAll(text) + "\"" + rest;
  }

  /** What may follow a value without being taken for part of it. */
  predicate Delimited(rest: string) {
    rest == "" || !Decimal.IsDigit(rest[0])
  }

  lemma NumberReads(n: int, rest: string)
    requires Delimited(rest)
    ensures ReadNumber(WriteNumber(n) + rest) == Some((n, rest))
    ensures var c := (WriteNumber(n) + rest)[0]; c == '-' || Decimal.IsDigit(c)
  {
    hide Decimal.Print, Decimal.Number;
    var digits := Decimal.Print(if n < 0 then -n else n);
    Decimal.PrintPlain(if n < 0 then -n else n);
    var start := if n < 0 then 1 else 0;
    var s := WriteNumber(n) + rest;
    assert s[start..start + |digits|] == digits && s[start + |digits|..] == rest;
    assert forall k :: start <= k < start + |digits| ==> s[k] == digits[k - start] && Decimal.IsDigit(s[k]);
    assert DigitsEnd(s, start) == start + |digits|;
  }

  function Height(v: Value): nat
    decreases v
  {
    match v
    case List(items) => if items == [] then 1 else 1 + ItemsHeight(v, 0)
    case Record(members) => if members == [] then 1 else 1 + MembersHeight(v, 0)
    case _ => 1
  }

  function Max(a: nat, b: nat): nat {
    if a < b then b else a
  }

  function ItemsHeight(v: Value, i: nat): nat
    requires v.List? && i < |v.items|
    decreases v, |v.items| - i
  {
    if i + 1 == |v.items| then Height(v.items[i]) else Max(Height(v.items[i]), ItemsHeight(v, i + 1))
  }

  function MembersHeight(v: Value, i: nat): nat
    requires v.Record? && i < |v.members|
    decreases v, |v.members| - i
  {
    if i + 1 == |v.members| then Height(v.members[i].value)
    else Max(Height(v.members[i].value), MembersHeight(v, i + 1))
  }

  lemma Starts(s: string)
    ensures "null" <= s ==> s[0] == 'n'
    ensures "true" <= s ==> s[0] == 't'
    ensures "false" <= s ==> s[0] == 'f'
    ensures "[]" <= s ==> s[1] == ']'
    ensures "{}" <= s ==> s[1] == '}'
  {
  }

  lemma ScalarReads(v: Value, rest: string, depth: nat)
    requires Delimited(rest) && depth > 0 && (v.Null? || v.Bool? || v.Number? || v.Text?)
    ensures Read(Write(v) + rest, depth) == Some((v, rest))
  {
    hide ReadNumber, WriteNumber, ReadText, Quote, ReadItems, ReadMembers;
    var s := Write(v) + rest;
    Starts(s);
    match v
    case Null => assert s[4..] == rest && "null" <= s;
    case Bool(b) =>
      if b {
        assert s[0] == 't' && s[4..] == rest && "true" <= s;
      } else {
        assert s[0] == 'f' && s[5..] == rest && "false" <= s;
      }
    case Number(n) => NumberReads(n, rest);
    case Text(text) => QuoteReads(text, rest);
  }

  /** Reading what was written gives it back exactly when it is not nested too deep. */
  lemma {:induction false} ValueReads(v: Value, rest: string, depth: nat)
    requires Delimited(rest)
    ensures Read(Write(v) + rest, depth) == if Height(v) <= depth then Some((v, rest)) else None
    decreases v
  {
    hide Read, ReadItems, ReadMembers, WriteItems, WriteMembers;
    if depth == 0 {
      NothingReads(Write(v) + rest);
    } else {
      match v
      case List(items) => ListReads(v, rest, depth);
      case Record(members) => RecordReads(v, rest, depth);
      case _ => ScalarReads(v, rest, depth);
    }
  }

  lemma NothingReads(s: string)
    ensures Read(s, 0) == None
  {
  }

  lemma {:induction false} ListReads(v: Value, rest: string, depth: nat)
    requires v.List? && depth > 0
    ensures Read(Write(v) + rest, depth) == if Height(v) <= depth then Some((v, rest)) else None
    decreases v, |v.items| + 1
  {
    hide ReadItems, WriteItems, ReadMembers, ReadNumber, ReadText;
    var s := Write(v) + rest;
    Starts(s);
    if v.items == [] {
      assert "[]" <= s && s[2..] == rest;
    } else {
      assert s[1..] == WriteItems(v, 0) + rest;
      FirstItem(v);
      assert s[0] == '[' && s[1] == WriteItems(v, 0)[0];
      ItemsRead(v, 0, rest, depth - 1);
      assert v.items[0..] == v.items;
    }
  }

  /** No value starts with a closing bracket. */
  lemma FirstChar(v: Value)
    ensures Write(v) != "" && Write(v)[0] != ']' && Write(v)[0] != '}'
  {
    if v.Number? {
      NumberReads(v.number, "");
    }
  }

  lemma FirstItem(v: Value)
    requires v.List? && v.items != []
    ensures WriteItems(v, 0) != "" && WriteItems(v, 0)[0] != ']'
  {
    FirstChar(v.items[0]);
  }

  lemma {:induction false} ItemsRead(v: Value, i: nat, rest: string, depth: nat)
    requires v.List? && i < |v.items|
    ensures ReadItems(WriteItems(v, i) + rest, depth)
         == if ItemsHeight(v, i) <= depth then Some((v.items[i..], rest)) else None
    decreases v, |v.items| - i
  {
    hide Read, Height;
    var item := v.items[i];
    var s := WriteItems(v, i) + rest;
    if i + 1 == |v.items| {
      assert s == Write(item) + ("]" + rest);
      ValueReads(item, "]" + rest, depth);
      assert ("]" + rest)[1..] == rest && v.items[i..] == [item];
    } else {
      var tail := "," + (WriteItems(v, i + 1) + rest);
      assert s == Write(item) + tail;
      ValueReads(item, tail, depth);
      ItemsRead(v, i + 1, rest, depth);
      assert tail[1..] == WriteItems(v, i + 1) + rest && v.items[i..] == [item] + v.items[i + 1..];
    }
  }

  lemma {:induction false} RecordReads(v: Value, rest: string, depth: nat)
    requires v.Record? && depth > 0
    ensures Read(Write(v) + rest, depth) == if Height(v) <= depth then Some((v, rest)) else None
    decreases v, |v.members| + 1
  {
    hide ReadItems, WriteMembers, ReadMembers, ReadNumber, ReadText;
    var s := Write(v) + rest;
    Starts(s);
    if v.members == [] {
      assert "{}" <= s && s[2..] == rest;
    } else {
      assert s[1..] == WriteMembers(v, 0) + rest;
      FirstMember(v);
      assert s[0] == '{' && s[1] == '"';
      MembersRead(v, 0, rest, depth - 1);
      assert v.members[0..] == v.members;
    }
  }

  lemma FirstMember(v: Value)
    requires v.Record? && v.members != []
    ensures WriteMembers(v, 0) != "" && WriteMembers(v, 0)[0] == '"'
  {
  }

  lemma {:induction false} MembersRead(v: Value, i: nat, rest: string, depth: nat)
    requires v.Record? && i < |v.members|
    ensures ReadMembers(WriteMembers(v, i) + rest, depth)
         == if MembersHeight(v, i) <= depth then Some((v.members[i..], rest)) else None
    decreases v, |v.members| - i
  {
    hide Read, Height, Quote, ReadText;
    var m := v.members[i];
    var s := WriteMembers(v, i) + rest;
    var last := i + 1 == |v.members|;
    var tail := if last then "}" + rest else "," + (WriteMembers(v, i + 1) + rest);
    var after := ":" + (Write(m.value) + tail);
    assert s == Quote(m.name) + after;
    QuoteReads(m.name, after);
    assert after[1..] == Write(m.value) + tail;
    ValueReads(m.value, tail, depth);
    if last {
      assert tail[1..] == rest && v.members[i..] == [m];
    } else {
      MembersRead(v, i + 1, rest, depth);
      assert tail[1..] == WriteMembers(v, i + 1) + rest && v.members[i..] == [m] + v.members[i + 1..];
    }
  }

  // ----- storing and reading details -----

  /** What encode_detail stores: the document, or the document as a string when the scan finds a NUL escape in it. */
  function Encoded(v: Value): (string, int) {
    if NulEscape(Document(v)) then (Document(Text(Document(v))), 1) else (Document(v), 0)
  }

  /** The text walked pair by pair. */
  method EncodeDetail(v: Value) returns (stored: string, encoding: int)
    ensures (stored, encoding) == Encoded(v)
    ensures encoding == if HasNul(v) then 1 else 0
    ensures !NulEscape(stored)
  {
    hide Write;
    var json := Document(v);
    MarkedIffNul(v);
    StoredHasNoNulEscape(v);
    var index := 0;
    while index < |json|
      invariant index <= |json|
      invariant NulEscape(json) <==> NulEscape(json[index..])
    {
      if json[index] != '\\' {
        assert json[index..][1..] == json[index + 1..];
        index := index + 1;
      } else {
        assert index + 6 <= |json| ==> json[index..][1..6] == json[index + 1..index + 6];
        if index + 6 <= |json| && json[index + 1..index + 6] == "u0000" {
          return Document(Text(json)), 1;
        }
        if index + 2 <= |json| {
          assert json[index..][2..] == json[index + 2..];
          index := index + 2;
        } else {
          index := index + 1;
        }
      }
    }
    return json, 0;
  }

  /** The mark says exactly whether some string or name of the detail contains NUL. */
  lemma MarkedIffNul(v: Value)
    ensures Encoded(v).1 == if HasNul(v) then 1 else 0
  {
    hide NulEscape, Write;
    WriteScan(v, "\n");
    PlainScan("\n", "");
    EmptyScan();
    assert "\n" + "" == "\n";
  }

  lemma EmptyScan()
    ensures !NulEscape("")
  {
  }

  /** In either encoding the stored text has no NUL escape where an escape can start. */
  lemma StoredHasNoNulEscape(v: Value)
    ensures !NulEscape(Encoded(v).0)
  {
    hide NulEscape, Write, Printable;
    MarkedIffNul(v);
    if HasNul(v) {
      var d := Document(v);
      WritePrintable(v);
      DocumentHasNoNul(v);
      MarkedIffNul(Text(d));
    }
  }

  lemma DocumentHasNoNul(v: Value)
    requires Printable(Write(v))
    ensures NUL !in Document(v) && !HasNul(Text(Document(v)))
  {
    hide Write;
  }

  lemma ParseDocument(v: Value)
    ensures Parse(Document(v)) == if Height(v) <= STACK_LIMIT then Some(v) else None
  {
    hide Read, Write, Height;
    ValueReads(v, "\n", STACK_LIMIT);
  }

  lemma TextHeight(text: string)
    ensures Height(Text(text)) == 1
  {
  }

  /** Decoding what was stored gives the detail back exactly when it is within the reader's depth limit. */
  lemma DecodeInvertsEncode(v: Value)
    ensures Decode(Encoded(v).0, Encoded(v).1) == if Height(v) <= STACK_LIMIT then Some(v) else None
  {
    hide Parse, Document, Height, NulEscape;
    ParseDocument(v);
    ParseDocument(Text(Document(v)));
    TextHeight(Document(v));
  }

  /** `n` lists, one in the other. */
  function Nested(n: nat): Value {
    if n == 0 then Null else List([Nested(n - 1)])
  }

  lemma {:induction false} NestedHeight(n: nat)
    ensures Height(Nested(n)) == n + 1
  {
    if n > 0 {
      NestedHeight(n - 1);
      assert Nested(n).items[0] == Nested(n - 1);
    }
  }

  /** A detail that is stored and does not come back: one level deeper than the reader allows. */
  lemma TooDeepIsLost()
    ensures var v := Nested(STACK_LIMIT);
            Height(v) == STACK_LIMIT + 1 && Decode(Encoded(v).0, Encoded(v).1) == None
  {
    hide Height, Nested, Decode, Encoded;
    NestedHeight(STACK_LIMIT);
    DecodeInvertsEncode(Nested(STACK_LIMIT));
  }
}
