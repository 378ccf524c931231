/** Body encoding (codec.cpp: encode_body64, decode_body64; sections 4 and 3.5 of RFC 4648). */
module Base64 {
  import opened Arithmetic
  import opened Wrappers
  import Sequences

  const MAX_BODY_BYTES: nat := 8 * 1024 * 1024
  const MAX_BODY64: nat := (MAX_BODY_BYTES + 2) / 3 * 4

  type Sextet = x: int | 0 <= x < 64

  /** The standard alphabet, A-Z a-z 0-9 + /. */
  function Symbol(v: Sextet): char {
    if v < 26 then ('A' as int + v) as char
    else if v < 52 then ('a' as int + (v - 26)) as char
    else if v < 62 then ('0' as int + (v - 52)) as char
    else if v == 62 then '+' else '/'
  }

  /** The position of a character in the alphabet. */
  function Value(c: char): Option<Sextet> {
    if 'A' <= c <= 'Z' then Some(c as int - 'A' as int)
    else if 'a' <= c <= 'z' then Some(c as int - 'a' as int + 26)
    else if '0' <= c <= '9' then Some(c as int - '0' as int + 52)
    else if c == '+' then Some(62) else if c == '/' then Some(63) else None
  }

  lemma SymbolValue(v: Sextet)
    ensures Value(Symbol(v)) == Some(v) && Symbol(v) != '='
  {
  }

  lemma ValueSymbol(c: char)
    ensures Value(c).Some? ==> Symbol(Value(c).value) == c
  {
  }

  // ----- the standard: 24-bit groups, the last one padded -----

  function Quad(a: Byte, b: Byte, c: Byte): (Sextet, Sextet, Sextet, Sextet) {
    var group := a * 65536 + b * 256 + c;
    (group / 262144, group / 4096 % 64, group / 64 % 64, group % 64)
  }

  function Group(body: seq<Byte>): (text: string)
    requires 1 <= |body| <= 3
    ensures |text| == 4
  {
    var q := Quad(body[0], if |body| > 1 then body[1] else 0, if |body| > 2 then body[2] else 0);
    [Symbol(q.0), Symbol(q.1), if |body| > 1 then Symbol(q.2) else '=', if |body| > 2 then Symbol(q.3) else '=']
  }

  function Encode(body: seq<Byte>): string {
    if |body| == 0 then ""
    else if |body| <= 3 then Group(body)
    else Group(body[..3]) + Encode(body[3..])
  }

  /** The bytes of group k. */
  function Slice(body: seq<Byte>, k: nat): seq<Byte>
    requires 3 * k < |body|
  {
    if 3 * k + 3 <= |body| then body[3 * k..3 * k + 3] else body[3 * k..]
  }

  /** A body of 3k + 1 to 3k + 3 bytes takes k + 1 quads. */
  lemma {:induction false} EncodeLength(body: seq<Byte>, k: nat)
    requires 3 * k < |body| <= 3 * k + 3
    ensures |Encode(body)| == 4 * k + 4
  {
    if k > 0 {
      EncodeLength(body[3..], k - 1);
    }
  }

  lemma Shifted(head: string, tail: string, m: nat)
    requires |head| == 4 && m + 4 <= |tail|
    ensures (head + tail)[m + 4..m + 8] == tail[m..m + 4]
  {
  }

  lemma FirstGroup(body: seq<Byte>)
    requires |body| > 3
    ensures Encode(body) == Group(body[..3]) + Encode(body[3..])
  {
    hide Group;
  }

  lemma SliceShifts(body: seq<Byte>, k: nat)
    requires k > 0 && 3 * k < |body|
    ensures Slice(body, k) == Slice(body[3..], k - 1)
  {
    var m := 3 * k;
    if m + 3 <= |body| {
      Sequences.DropSlice(body, 3, m - 3, m);
    } else {
      Sequences.DropDrop(body, 3, m - 3);
    }
  }

  lemma {:induction false} EncodeGroup(body: seq<Byte>, k: nat)
    requires 3 * k < |body|
    ensures 4 * k + 4 <= |Encode(body)| && Encode(body)[4 * k..4 * k + 4] == Group(Slice(body, k))
  {
    hide Group, Encode;
    if k > 0 {
      FirstGroup(body);
      EncodeGroup(body[3..], k - 1);
      SliceShifts(body, k);
      Shifted(Group(body[..3]), Encode(body[3..]), 4 * (k - 1));
    } else if |body| > 3 {
      FirstGroup(body);
      assert Encode(body)[..4] == Group(body[..3]);
    } else {
      OnlyGroup(body);
      assert Encode(body)[..4] == Group(body) && Slice(body, 0) == body;
    }
  }

  lemma OnlyGroup(body: seq<Byte>)
    requires 0 < |body| <= 3
    ensures Encode(body) == Group(body)
  {
    hide Group;
  }

  lemma {:induction false} EncodeAppend(body: seq<Byte>, last: seq<Byte>)
    requires |body| % 3 == 0 && 1 <= |last| <= 3
    ensures Encode(body + last) == Encode(body) + Group(last)
  {
    if |body| == 0 {
      assert body + last == last;
    } else {
      assert (body + last)[..3] == body[..3] && (body + last)[3..] == body[3..] + last;
      EncodeAppend(body[3..], last);
      if |body| == 3 {
        assert body[..3] == body && body[3..] == [];
      }
    }
  }

  lemma SymbolIsNotPad(v: Sextet)
    ensures Symbol(v) != '='
  {
  }

  /** The sextets of a group, padded with zeros. */
  function Sextets(g: seq<Byte>): (Sextet, Sextet, Sextet, Sextet)
    requires 1 <= |g| <= 3
  {
    Quad(g[0], if |g| > 1 then g[1] else 0, if |g| > 2 then g[2] else 0)
  }

  lemma GroupSextets(g: seq<Byte>)
    requires 1 <= |g| <= 3
    ensures var q, t := Sextets(g), Group(g);
            && Value(t[0]) == Some(q.0) && Value(t[1]) == Some(q.1)
            && (t[2] == '=' <==> |g| == 1) && (|g| > 1 ==> Value(t[2]) == Some(q.2))
            && (t[3] == '=' <==> |g| <= 2) && (|g| > 2 ==> Value(t[3]) == Some(q.3))
  {
    hide Symbol, Value, Quad;
    var q := Sextets(g);
    SymbolValue(q.0); SymbolValue(q.1); SymbolValue(q.2); SymbolValue(q.3);
    SymbolIsNotPad(q.2);
    SymbolIsNotPad(q.3);
  }

  lemma GroupInjective(x: seq<Byte>, y: seq<Byte>)
    requires 1 <= |x| <= 3 && 1 <= |y| <= 3 && Group(x) == Group(y)
    ensures x == y
  {
    hide Group, Value, Quad;
    GroupSextets(x);
    GroupSextets(y);
    assert |x| == |y|;
    QuadValue(x[0], if |x| > 1 then x[1] else 0, if |x| > 2 then x[2] else 0);
    QuadValue(y[0], if |y| > 1 then y[1] else 0, if |y| > 2 then y[2] else 0);
  }

  /** The sextets of a group as the encoder computes them, with shifts and masks, and the bytes as the decoder does. */
  lemma QuadValue(a: Byte, b: Byte, c: Byte)
    ensures Quad(a, b, c) == (a / 4, a % 4 * 16 + b / 16, b % 16 * 4 + c / 64, c % 64)
    ensures var q := Quad(a, b, c);
            a == q.0 * 4 + q.1 / 16 && b == q.1 % 16 * 16 + q.2 / 4 && c == q.2 % 4 * 64 + q.3
  {
    var group := a * 65536 + b * 256 + c;
    Divided(group, 262144, a / 4, a % 4 * 65536 + b * 256 + c);
    Divided(group, 4096, a * 16 + b / 16, b % 16 * 256 + c);
    Divided(a * 16 + b / 16, 64, a / 4, a % 4 * 16 + b / 16);
    Divided(group, 64, a * 1024 + b * 4 + c / 64, c % 64);
    Divided(a * 1024 + b * 4 + c / 64, 64, a * 16 + b / 16, b % 16 * 4 + c / 64);
    Divided(a % 4 * 16 + b / 16, 16, a % 4, b / 16);
    Divided(b % 16 * 4 + c / 64, 4, b % 16, c / 64);
  }

  /** Four sextets are the group of the three bytes the decoder assembles from them. */
  lemma SextetBytes(q0: Sextet, q1: Sextet, q2: Sextet, q3: Sextet)
    ensures Quad(q0 * 4 + q1 / 16, q1 % 16 * 16 + q2 / 4, q2 % 4 * 64 + q3) == (q0, q1, q2, q3)
  {
    QuadValue(q0 * 4 + q1 / 16, q1 % 16 * 16 + q2 / 4, q2 % 4 * 64 + q3);
    Divided(q0 * 4 + q1 / 16, 4, q0, q1 / 16);
    Divided(q1 % 16 * 16 + q2 / 4, 16, q1 % 16, q2 / 4);
    Divided(q2 % 4 * 64 + q3, 64, q2 % 4, q3);
  }

  // ----- what any encoding looks like, group by group -----

  /** The number of padding characters the decoder assumes. */
  function Padding(text: string): nat {
    if |text| >= 2 && text[|text| - 2..] == "==" then 2
    else if |text| >= 1 && text[|text| - 1] == '=' then 1 else 0
  }

  /** A quad a group of 3 - pad bytes can produce: alphabet characters, then the padding, the unused bits zero. */
  predicate WellFormedQuad(quad: string, pad: nat) {
    && |quad| == 4 && pad <= 2
    && Value(quad[0]).Some? && Value(quad[1]).Some?
    && (if pad == 2 then quad[2] == '=' && Value(quad[1]).value % 16 == 0 else Value(quad[2]).Some?)
    && (if pad >= 1 then quad[3] == '=' else Value(quad[3]).Some?)
    && (pad == 1 ==> Value(quad[2]).value % 4 == 0)
  }

  lemma GroupWellFormed(g: seq<Byte>)
    requires 1 <= |g| <= 3
    ensures WellFormedQuad(Group(g), 3 - |g|)
  {
    var b, c := if |g| > 1 then g[1] else 0, if |g| > 2 then g[2] else 0;
    var q := Quad(g[0], b, c);
    QuadValue(g[0], b, c);
    SymbolValue(q.0); SymbolValue(q.1); SymbolValue(q.2); SymbolValue(q.3);
    if |g| == 1 {
      Divided(q.1, 16, g[0] % 4, 0);
    } else if |g| == 2 {
      Divided(q.2, 4, b % 16, 0);
    }
  }

  /** The bytes of a well-formed quad. */
  function QuadBytes(quad: string, pad: nat): (g: seq<Byte>)
    requires WellFormedQuad(quad, pad)
    ensures |g| == 3 - pad
  {
    var q0, q1 := Value(quad[0]).value, Value(quad[1]).value;
    var q2 := if pad < 2 then Value(quad[2]).value else 0;
    var q3 := if pad < 1 then Value(quad[3]).value else 0;
    [q0 * 4 + q1 / 16, q1 % 16 * 16 + q2 / 4, q2 % 4 * 64 + q3][..3 - pad]
  }

  lemma QuadBytesGroup(quad: string, pad: nat)
    requires WellFormedQuad(quad, pad)
    ensures Group(QuadBytes(quad, pad)) == quad
  {
    hide Symbol, Quad;
    var q0: int, q1: int := Value(quad[0]).value, Value(quad[1]).value;
    var q2: int := if pad < 2 then Value(quad[2]).value else 0;
    var q3: int := if pad < 1 then Value(quad[3]).value else 0;
    var a: int, b: int, c: int := q0 * 4 + q1 / 16, q1 % 16 * 16 + q2 / 4, q2 % 4 * 64 + q3;
    SextetBytes(q0, q1, q2, q3);
    assert pad == 2 ==> b == 0;
    assert pad >= 1 ==> c == 0;
    assert QuadBytes(quad, pad) == [a, b, c][..3 - pad];
    ValueSymbol(quad[0]); ValueSymbol(quad[1]); ValueSymbol(quad[2]); ValueSymbol(quad[3]);
  }

  /** Any body whose encoding is `text` has the length the decoder announces. */
  lemma EncodingLength(body: seq<Byte>, text: string)
    requires Encode(body) == text
    ensures |text| % 4 == 0 && |body| == |text| / 4 * 3 - Padding(text)
  {
    if |body| > 0 {
      hide Encode, Group, Padding, Slice;
      var k := (|body| - 1) / 3;
      LastGroup(body, k);
      Divided(|text|, 4, k + 1, 0);
    }
  }

  /** The padding of the quad at i. */
  function PadAt(text: string, i: nat): nat {
    if i + 4 == |text| then Padding(text) else 0
  }

  lemma EncodingShape(body: seq<Byte>, text: string, i: nat)
    requires Encode(body) == text && i < |text| && i % 4 == 0
    ensures i + 4 <= |text| && WellFormedQuad(text[i..i + 4], PadAt(text, i))
  {
    hide Encode, Group, WellFormedQuad, Padding, Slice;
    assert |body| > 0 by {
      if |body| == 0 {
        EncodeEmpty(body);
      }
    }
    var k, last := i / 4, (|body| - 1) / 3;
    assert i == 4 * k && 3 * last < |body| <= 3 * last + 3;
    LastGroup(body, last);
    assert k <= last;
    SliceSize(body, k);
    EncodeGroup(body, k);
    GroupWellFormed(Slice(body, k));
  }

  lemma SliceSize(body: seq<Byte>, k: nat)
    requires 3 * k < |body|
    ensures 1 <= |Slice(body, k)| <= 3 && (3 * k + 3 < |body| ==> |Slice(body, k)| == 3)
  {
  }

  lemma LastGroup(body: seq<Byte>, k: nat)
    requires |body| > 0 && k == (|body| - 1) / 3
    ensures |Encode(body)| == 4 * k + 4 && Padding(Encode(body)) == 3 - |Slice(body, k)|
    ensures |body| == 3 * k + |Slice(body, k)|
  {
    hide Group;
    var text, g := Encode(body), Slice(body, k);
    EncodeLength(body, k);
    EncodeGroup(body, k);
    GroupWellFormed(g);
    assert text[4 * k..][2..] == Group(g)[2..] == text[4 * k + 2..];
    assert text[4 * k + 2] == Group(g)[2] && text[4 * k + 3] == Group(g)[3];
  }

  lemma {:induction false} EncodeInjective(x: seq<Byte>, y: seq<Byte>)
    requires Encode(x) == Encode(y)
    ensures x == y
  {
    hide Group;
    EncodingLength(x, Encode(x));
    EncodingLength(y, Encode(x));
    if 0 < |x| <= 3 {
      GroupInjective(x, y);
    } else if |x| > 3 {
      assert Encode(x)[..4] == Group(x[..3]) && Encode(y)[..4] == Group(y[..3]);
      assert Encode(x)[4..] == Encode(x[3..]) && Encode(y)[4..] == Encode(y[3..]);
      GroupInjective(x[..3], y[..3]);
      EncodeInjective(x[3..], y[3..]);
      assert x == x[..3] + x[3..] && y == y[..3] + y[3..];
    }
  }

  // ----- the loops -----

  /** The quad of one group, by shifts and masks. */
  method QuadAt(body: seq<Byte>, i: nat, ghost k: nat) returns (quad: string)
    requires i == 3 * k < |body|
    ensures quad == Group(Slice(body, k))
  {
    hide Group, Symbol;
    var remaining := |body| - i;
    var a := body[i];
    var b := if remaining > 1 then body[i + 1] else 0;
    var c := if remaining > 2 then body[i + 2] else 0;
    GroupSymbols(Slice(body, k), a, b, c);
    quad := [Symbol(a / 4), Symbol(a % 4 * 16 + b / 16),
             if remaining > 1 then Symbol(b % 16 * 4 + c / 64) else '=',
             if remaining > 2 then Symbol(c % 64) else '='];
  }

  method EncodeBody64(body: seq<Byte>) returns (r: Result<string, CodecError>)
    ensures r == if |body| > MAX_BODY_BYTES then Err(TooLarge) else Ok(Encode(body))
  {
    hide Encode, Group;
    if |body| > MAX_BODY_BYTES {
      return Err(TooLarge);
    }
    var out: string := "";
    var i := 0;
    assert Encode([]) == "" by { EncodeEmpty([]); }
    ghost var k := 0;
    while i < |body|
      invariant i == 3 * k && i <= |body| + 2
      invariant out == Encode(body[..if i < |body| then i else |body|])
      decreases |body| - i
    {
      var quad := QuadAt(body, i, k);
      EncodeAppend(body[..i], Slice(body, k));
      assert body[..i] + Slice(body, k) == body[..if i + 3 < |body| then i + 3 else |body|];
      out := out + quad;
      i, k := i + 3, k + 1;
    }
    assert body[..|body|] == body;
    return Ok(out);
  }

  /** A group in the encoder's own terms. */
  lemma GroupSymbols(g: seq<Byte>, a: Byte, b: Byte, c: Byte)
    requires 1 <= |g| <= 3
    requires a == g[0] && b == (if |g| > 1 then g[1] else 0) && c == (if |g| > 2 then g[2] else 0)
    ensures Group(g) == [Symbol(a / 4), Symbol(a % 4 * 16 + b / 16),
                         if |g| > 1 then Symbol(b % 16 * 4 + c / 64) else '=',
                         if |g| > 2 then Symbol(c % 64) else '=']
  {
    QuadValue(a, b, c);
  }

  lemma EncodeEmpty(body: seq<Byte>)
    requires |body| == 0
    ensures Encode(body) == ""
  {
  }

  /** Entry j of the decoder's array for one quad: zero for padding, else the alphabet position. */
  predicate QuadEntry(quad: string, pad: nat, j: nat, value: int)
    requires |quad| == 4 && j < 4
  {
    if j >= 4 - pad then value == 0 && quad[j] == '=' else Value(quad[j]) == Some(value)
  }

  /** The decoder's inner loop over one quad, padding skipped where it is allowed, and the checks after it. */
  method ReadQuad(text: string, i: nat, padding: nat) returns (quad: Option<seq<int>>)
    requires i + 4 <= |text| && padding == Padding(text)
    ensures quad.Some? <==> WellFormedQuad(text[i..i + 4], PadAt(text, i))
    ensures quad.Some? ==> |quad.value| == 4
    ensures quad.Some? ==> forall j :: 0 <= j < 4 ==> QuadEntry(text[i..i + 4], PadAt(text, i), j, quad.value[j])
  {
    ghost var t, pad := text[i..i + 4], PadAt(text, i);
    var q: seq<int> := [0, 0, 0, 0];
    for j := 0 to 4
      invariant |q| == 4
      invariant forall n :: j <= n < 4 ==> q[n] == 0
      invariant forall n :: 0 <= n < j ==> QuadEntry(t, pad, n, q[n])
    {
      assert t[j] == text[i + j];
      if !(text[i + j] == '=' && i + 4 == |text| && j >= 4 - padding) {
        var pos := Value(text[i + j]);
        if pos.None? {
          return None;
        }
        q := q[j := pos.value];
      }
    }
    assert QuadEntry(t, pad, 0, q[0]) && QuadEntry(t, pad, 1, q[1]) && QuadEntry(t, pad, 2, q[2])
        && QuadEntry(t, pad, 3, q[3]);
    if (padding == 2 && i + 4 == |text| && q[1] % 16 != 0) || (padding == 1 && i + 4 == |text| && q[2] % 4 != 0) {
      return None;
    }
    return Some(q);
  }

  lemma PadAtMostTwo(text: string, i: nat)
    ensures Padding(text) <= 2 && PadAt(text, i) <= 2
  {
  }

  lemma EntriesAreSextets(quad: string, pad: nat, q: seq<int>)
    requires |quad| == 4 && |q| == 4 && forall j :: 0 <= j < 4 ==> QuadEntry(quad, pad, j, q[j])
    ensures 0 <= q[0] < 64 && 0 <= q[1] < 64 && 0 <= q[2] < 64 && 0 <= q[3] < 64
  {
  }

  /** The three push_backs for a quad, the last two only while bytes are still wanted. */
  method PushBytes(length: nat, size: nat, quad: seq<int>) returns (out: seq<Byte>)
    requires |quad| == 4 && 0 <= quad[0] < 64 && 0 <= quad[1] < 64 && 0 <= quad[2] < 64 && 0 <= quad[3] < 64
    requires length < size
    ensures |out| == if size - length < 3 then size - length else 3
    ensures out[0] == quad[0] * 4 + quad[1] / 16
    ensures |out| > 1 ==> out[1] == quad[1] % 16 * 16 + quad[2] / 4
    ensures |out| > 2 ==> out[2] == quad[2] % 4 * 64 + quad[3]
  {
    out := [quad[0] * 4 + quad[1] / 16];
    if length + |out| < size {
      out := out + [quad[1] % 16 * 16 + quad[2] / 4];
    }
    if length + |out| < size {
      out := out + [quad[2] % 4 * 64 + quad[3]];
    }
  }

  lemma BytesOfQuad(quad: string, pad: nat, q: seq<int>, out: seq<Byte>)
    requires WellFormedQuad(quad, pad) && |q| == 4 && |out| == 3 - pad
    requires forall j :: 0 <= j < 4 ==> QuadEntry(quad, pad, j, q[j])
    requires out[0] == q[0] * 4 + q[1] / 16
    requires |out| > 1 ==> out[1] == q[1] % 16 * 16 + q[2] / 4
    requires |out| > 2 ==> out[2] == q[2] % 4 * 64 + q[3]
    ensures Group(out) == quad
  {
    hide Value, Group;
    assert QuadEntry(quad, pad, 0, q[0]) && QuadEntry(quad, pad, 1, q[1]);
    assert QuadEntry(quad, pad, 2, q[2]) && QuadEntry(quad, pad, 3, q[3]);
    QuadBytesGroup(quad, pad);
    assert QuadBytes(quad, pad) == out;
  }

  lemma LimitFits(body: seq<Byte>)
    requires |body| <= MAX_BODY_BYTES
    ensures |Encode(body)| <= MAX_BODY64
  {
    if |body| > 0 {
      EncodeLength(body, (|body| - 1) / 3);
    }
  }

  /** One quad: the bytes it stands for, when as many are still wanted as it has. */
  method DecodeQuad(text: string, i: nat, padding: nat, done: nat, size: nat) returns (last: Option<seq<Byte>>)
    requires i + 4 <= |text| && padding == Padding(text) && PadAt(text, i) <= 2
    requires size - done >= 3 - PadAt(text, i) && (PadAt(text, i) > 0 ==> size - done == 3 - PadAt(text, i))
    ensures last.Some? <==> WellFormedQuad(text[i..i + 4], PadAt(text, i))
    ensures last.Some? ==> |last.value| == 3 - PadAt(text, i) && Group(last.value) == text[i..i + 4]
  {
    hide Group, WellFormedQuad, Padding, Value, QuadEntry, PadAt;
    var quad := ReadQuad(text, i, padding);
    if quad.None? {
      return None;
    }
    EntriesAreSextets(text[i..i + 4], PadAt(text, i), quad.value);
    var bytes := PushBytes(done, size, quad.value);
    BytesOfQuad(text[i..i + 4], PadAt(text, i), quad.value, bytes);
    last := Some(bytes);
  }

  lemma PadAtIs(text: string, i: nat)
    ensures PadAt(text, i) == if i + 4 == |text| then Padding(text) else 0
  {
  }

  /** No body within the limit is encoded as this text. */
  ghost predicate IsNoEncoding(text: string) {
    forall body: seq<Byte> :: |body| <= MAX_BODY_BYTES ==> Encode(body) != text
  }

  lemma NoEncodingMeans(text: string)
    ensures IsNoEncoding(text) <==> forall body: seq<Byte> :: |body| <= MAX_BODY_BYTES ==> Encode(body) != text
  {
    hide Encode;
  }

  lemma WrongSize(text: string)
    ensures |text| > MAX_BODY64 || |text| % 4 != 0 || |text| / 4 * 3 - Padding(text) > MAX_BODY_BYTES ==>
              IsNoEncoding(text)
  {
    hide Encode, Padding;
    forall body: seq<Byte> | |body| <= MAX_BODY_BYTES && Encode(body) == text
      ensures |text| <= MAX_BODY64 && |text| % 4 == 0 && |text| / 4 * 3 - Padding(text) <= MAX_BODY_BYTES
    {
      LimitFits(body);
      EncodingLength(body, text);
    }
  }

  lemma WrongShape(text: string, i: nat)
    requires i % 4 == 0 && i + 4 <= |text| && !WellFormedQuad(text[i..i + 4], PadAt(text, i))
    ensures IsNoEncoding(text)
  {
    hide Encode, WellFormedQuad, PadAt;
    forall body: seq<Byte> | |body| <= MAX_BODY_BYTES
      ensures Encode(body) != text
    {
      if Encode(body) == text {
        EncodingShape(body, text, i);
      }
    }
  }

  lemma NoPadding()
    ensures Padding("") == 0
  {
  }

  lemma SizeIsNatural(text: string)
    requires |text| % 4 == 0
    ensures |text| / 4 * 3 - Padding(text) >= 0
  {
  }

  /** Quad after quad, up to the first that is not well formed. */
  method DecodeQuads(text: string, ghost groups: nat, size: nat) returns (r: Option<seq<Byte>>)
    requires |text| == 4 * groups && size == 3 * groups - Padding(text)
    ensures r.Some? ==> |r.value| == size && Encode(r.value) == text
    ensures r.None? ==> IsNoEncoding(text)
  {
    hide Encode, Group, WellFormedQuad, Padding, PadAt, IsNoEncoding;
    NoPadding();
    var out: seq<Byte> := [];
    var i := 0;
    assert Encode(out) == text[..0] by { EncodeEmpty(out); }
    ghost var k := 0;
    while i < |text|
      invariant i == 4 * k && k <= groups
      invariant |out| == if k < groups then 3 * k else size
      invariant Encode(out) == text[..i]
    {
      assert i + 4 <= |text| && |out| == 3 * k && (i + 4 == |text| <==> k + 1 == groups);
      Divided(i, 4, k, 0);
      Divided(|out|, 3, k, 0);
      PadAtIs(text, i);
      PadAtMostTwo(text, i);
      var last := DecodeQuad(text, i, Padding(text), |out|, size);
      if last.None? {
        WrongShape(text, i);
        return None;
      }
      EncodeAppend(out, last.value);
      out := out + last.value;
      assert text[..i + 4] == text[..i] + text[i..i + 4];
      i, k := i + 4, k + 1;
    }
    assert text[..i] == text;
    r := Some(out);
  }

  /** Decoding is the exact inverse of Encode: it succeeds with `body` precisely on Encode(body), for bodies up to
      the limit, so non-canonical trailing bits, misplaced padding and foreign characters are all refused. */
  method DecodeBody64(text: string) returns (r: Result<seq<Byte>, CodecError>)
    ensures r.Ok? ==> |r.value| <= MAX_BODY_BYTES && Encode(r.value) == text
    ensures r.Err? ==> forall body: seq<Byte> :: |body| <= MAX_BODY_BYTES ==> Encode(body) != text
    ensures r == Err(TooLarge) <==>
            |text| > MAX_BODY64 || (|text| % 4 == 0 && |text| / 4 * 3 - Padding(text) > MAX_BODY_BYTES)
  {
    hide Encode, Padding, IsNoEncoding;
    WrongSize(text);
    NoEncodingMeans(text);
    if |text| > MAX_BODY64 {
      return Err(TooLarge);
    }
    if |text| % 4 != 0 {
      return Err(Invalid);
    }
    var size := |text| / 4 * 3 - Padding(text);
    if size > MAX_BODY_BYTES {
      return Err(TooLarge);
    }
    SizeIsNatural(text);
    var out := DecodeQuads(text, |text| / 4, size);
    r := if out.Some? then Ok(out.value) else Err(Invalid);
  }
}
