/** UTF-8 validation (codec.cpp: valid_utf8; sections 3 and 4 of RFC 3629).
    A C++ string is a Dafny string whose characters are the byte values; any wider character is refused as well. */
module Utf8 {
  import opened Arithmetic
  import opened Wrappers

  /** Unicode scalar values: no surrogates, nothing above 10FFFF. */
  type Scalar = x: int | 0 <= x <= 0x10FFFF && !(0xD800 <= x <= 0xDFFF)

  function Continuation(bits: int): char
    requires 0 <= bits < 64
  {
    (0x80 + bits) as char
  }

  /** The standard encoding of one scalar value. */
  function Encode(c: Scalar): string {
    if c < 0x80 then [c as char]
    else if c < 0x800 then [(0xC0 + c / 64) as char, Continuation(c % 64)]
    else if c < 0x10000 then [(0xE0 + c / 4096) as char, Continuation(c / 64 % 64), Continuation(c % 64)]
    else [(0xF0 + c / 262144) as char, Continuation(c / 4096 % 64), Continuation(c / 64 % 64), Continuation(c % 64)]
  }

  function EncodeAll(cs: seq<Scalar>): string {
    if |cs| == 0 then "" else Encode(cs[0]) + EncodeAll(cs[1..])
  }

  /** A concatenation of standard encodings. */
  ghost predicate WellFormed(text: string) {
    exists cs: seq<Scalar> :: EncodeAll(cs) == text
  }

  // ----- the first character of a text -----

  /** Length of the sequence a lead byte announces, 0 when it cannot lead. */
  function LeadLength(first: char): nat {
    var b := first as int;
    if b < 0x80 then 1
    else if 0xC2 <= b <= 0xDF then 2
    else if 0xE0 <= b <= 0xEF then 3
    else if 0xF0 <= b <= 0xF4 then 4 else 0
  }

  function LeadBits(first: char): int {
    var b := first as int;
    if b < 0x80 then b else if b <= 0xDF then b - 0xC0 else if b <= 0xEF then b - 0xE0 else b - 0xF0
  }

  function Minimum(count: nat): int {
    if count <= 1 then 0 else if count == 2 then 0x80 else if count == 3 then 0x800 else 0x10000
  }

  predicate IsContinuation(c: char) {
    0x80 <= c as int < 0xC0
  }

  /** The bits gathered from the lead and the first j continuation bytes. */
  function Gathered(text: string, j: nat): int
    requires j < |text|
  {
    if j == 0 then LeadBits(text[0]) else Gathered(text, j - 1) * 64 + (text[j] as int - 0x80)
  }

  predicate ScalarRange(code: int) {
    0 <= code <= 0x10FFFF && !(0xD800 <= code <= 0xDFFF)
  }

  /** What the loop body demands of the text at its cursor. */
  predicate Head(text: string)
    requires |text| > 0
  {
    var n := LeadLength(text[0]);
    && 0 < n <= |text|
    && (forall j :: 1 <= j < n ==> IsContinuation(text[j]))
    && Minimum(n) <= Gathered(text, n - 1)
    && ScalarRange(Gathered(text, n - 1))
  }

  function Bits(c: char): int {
    c as int - 0x80
  }

  lemma GatheredUnfolded(text: string)
    ensures |text| > 1 ==> Gathered(text, 1) == LeadBits(text[0]) * 64 + Bits(text[1])
    ensures |text| > 2 ==> Gathered(text, 2) == (LeadBits(text[0]) * 64 + Bits(text[1])) * 64 + Bits(text[2])
    ensures |text| > 3 ==>
              Gathered(text, 3) == ((LeadBits(text[0]) * 64 + Bits(text[1])) * 64 + Bits(text[2])) * 64 + Bits(text[3])
  {
    if |text| > 1 {
      assert Gathered(text, 1) == Gathered(text, 0) * 64 + Bits(text[1]);
    }
    if |text| > 2 {
      assert Gathered(text, 2) == Gathered(text, 1) * 64 + Bits(text[2]);
    }
    if |text| > 3 {
      assert Gathered(text, 3) == Gathered(text, 2) * 64 + Bits(text[3]);
    }
  }

  lemma LeadAtMostFour(first: char)
    ensures LeadLength(first) <= 4
  {
  }

  lemma SoundOne(text: string)
    requires |text| > 0 && LeadLength(text[0]) == 1
    ensures ScalarRange(LeadBits(text[0])) && text[..1] == Encode(LeadBits(text[0]))
  {
  }

  lemma SoundTwo(text: string)
    requires |text| > 1 && LeadLength(text[0]) == 2 && IsContinuation(text[1])
    ensures var c := LeadBits(text[0]) * 64 + Bits(text[1]);
            0x80 <= c < 0x800 && text[..2] == Encode(c)
  {
    Digits64(LeadBits(text[0]) * 64 + Bits(text[1]), 0, 0, LeadBits(text[0]), Bits(text[1]));
  }

  lemma SoundThree(text: string)
    requires |text| > 2 && LeadLength(text[0]) == 3 && IsContinuation(text[1]) && IsContinuation(text[2])
    requires var c := (LeadBits(text[0]) * 64 + Bits(text[1])) * 64 + Bits(text[2]); 0x800 <= c && ScalarRange(c)
    ensures text[..3] == Encode((LeadBits(text[0]) * 64 + Bits(text[1])) * 64 + Bits(text[2]))
  {
    var c := (LeadBits(text[0]) * 64 + Bits(text[1])) * 64 + Bits(text[2]);
    Digits64(c, 0, LeadBits(text[0]), Bits(text[1]), Bits(text[2]));
  }

  lemma SoundFour(text: string)
    requires |text| > 3 && LeadLength(text[0]) == 4
    requires IsContinuation(text[1]) && IsContinuation(text[2]) && IsContinuation(text[3])
    requires var c := ((LeadBits(text[0]) * 64 + Bits(text[1])) * 64 + Bits(text[2])) * 64 + Bits(text[3]);
             0x10000 <= c && ScalarRange(c)
    ensures text[..4] == Encode(((LeadBits(text[0]) * 64 + Bits(text[1])) * 64 + Bits(text[2])) * 64 + Bits(text[3]))
  {
    var c := ((LeadBits(text[0]) * 64 + Bits(text[1])) * 64 + Bits(text[2])) * 64 + Bits(text[3]);
    Digits64(c, LeadBits(text[0]), Bits(text[1]), Bits(text[2]), Bits(text[3]));
  }

  /** A text the loop body accepts starts with the standard encoding of the value it gathered. */
  lemma HeadSound(text: string)
    requires |text| > 0 && Head(text)
    ensures 0 < LeadLength(text[0]) <= |text|
    ensures ScalarRange(Gathered(text, LeadLength(text[0]) - 1))
    ensures text[..LeadLength(text[0])] == Encode(Gathered(text, LeadLength(text[0]) - 1))
  {
    hide Encode, Gathered, LeadBits, LeadLength, IsContinuation;
    var n := LeadLength(text[0]);
    GatheredUnfolded(text);
    FirstGathered(text);
    LeadAtMostFour(text[0]);
    if n == 1 {
      SoundOne(text);
    } else if n == 2 {
      SoundTwo(text);
    } else if n == 3 {
      SoundThree(text);
    } else {
      SoundFour(text);
    }
  }

  lemma FirstGathered(text: string)
    requires |text| > 0
    ensures Gathered(text, 0) == LeadBits(text[0])
  {
  }

  /** The lead byte of an encoding, its length and its bits. */
  lemma EncodedLead(c: Scalar)
    ensures LeadLength(Encode(c)[0]) == |Encode(c)|
    ensures LeadBits(Encode(c)[0]) ==
            if c < 0x80 then c else if c < 0x800 then c / 64 else if c < 0x10000 then c / 4096 else c / 262144
    ensures forall j :: 1 <= j < |Encode(c)| ==> IsContinuation(Encode(c)[j])
    ensures Minimum(|Encode(c)|) <= c
  {
  }

  lemma EncodedTail(c: Scalar)
    ensures var e := Encode(c);
            && |e| == (if c < 0x80 then 1 else if c < 0x800 then 2 else if c < 0x10000 then 3 else 4)
            && (|e| > 1 ==> Bits(e[|e| - 1]) == c % 64)
            && (|e| > 2 ==> Bits(e[|e| - 2]) == c / 64 % 64)
            && (|e| > 3 ==> Bits(e[|e| - 3]) == c / 4096 % 64)
  {
  }

  /** The bits of an encoding recompose the value. */
  lemma EncodedBits(c: Scalar)
    ensures Gathered(Encode(c), |Encode(c)| - 1) == c
  {
    hide Encode, Gathered, LeadBits, LeadLength;
    EncodedTail(c);
    GatheredUnfolded(Encode(c));
    FirstGathered(Encode(c));
    EncodedLead(c);
    Digits64Exist(c);
  }

  lemma {:induction false} GatheredPrefix(text: string, e: string, j: nat)
    requires j < |e| <= |text| && text[..|e|] == e
    ensures Gathered(text, j) == Gathered(e, j)
  {
    assert text[j] == text[..|e|][j];
    if j > 0 {
      GatheredPrefix(text, e, j - 1);
    } else {
      assert text[0] == e[0];
    }
  }

  /** A text that starts with a standard encoding is accepted, and the value gathered is the encoded one. */
  lemma HeadComplete(text: string, c: Scalar)
    requires |Encode(c)| <= |text| && text[..|Encode(c)|] == Encode(c)
    ensures |text| > 0 && Head(text)
    ensures LeadLength(text[0]) == |Encode(c)| && Gathered(text, |Encode(c)| - 1) == c
  {
    var e := Encode(c);
    assert |e| > 0;
    hide Encode, Gathered, LeadBits, LeadLength;
    assert forall j :: 0 <= j < |e| ==> text[j] == e[j];
    EncodedLead(c);
    EncodedBits(c);
    GatheredPrefix(text, e, |e| - 1);
  }

  /** Well-formedness, one character at a time. */
  lemma WellFormedStep(text: string)
    requires |text| > 0
    ensures WellFormed(text) <==> Head(text) && WellFormed(text[LeadLength(text[0])..])
  {
    hide Head, Gathered, Encode, LeadLength;
    if WellFormed(text) {
      var cs: seq<Scalar> :| EncodeAll(cs) == text;
      assert text[..|Encode(cs[0])|] == Encode(cs[0]);
      HeadComplete(text, cs[0]);
      assert text[|Encode(cs[0])|..] == EncodeAll(cs[1..]);
    }
    if Head(text) {
      HeadSound(text);
      var n := LeadLength(text[0]);
      if WellFormed(text[n..]) {
        var cs: seq<Scalar> :| EncodeAll(cs) == text[n..];
        var c := Gathered(text, n - 1);
        assert ([c] + cs)[1..] == cs;
        assert EncodeAll([c] + cs) == text[..n] + text[n..];
      }
    }
  }

  /** The same verdict as an executable predicate, for use inside other validators. */
  predicate Valid(text: string) {
    |text| == 0 || (Head(text) && Valid(text[LeadLength(text[0])..]))
  }

  lemma {:induction false} ValidIsWellFormed(text: string)
    ensures Valid(text) <==> WellFormed(text)
  {
    hide WellFormed, Head;
    if |text| == 0 {
      EmptyWellFormed();
    } else {
      WellFormedStep(text);
      if Head(text) {
        HeadSound(text);
        ValidIsWellFormed(text[LeadLength(text[0])..]);
      }
    }
  }

  /** The continuation bytes after the lead at `lead`: None when one of them is not a continuation. */
  method Gather(text: string, lead: nat, bits: int, count: nat) returns (code: Option<int>)
    requires lead + count < |text| && bits == Gathered(text[lead..], 0)
    ensures code.Some? <==> forall k :: 1 <= k <= count ==> IsContinuation(text[lead..][k])
    ensures code.Some? ==> code.value == Gathered(text[lead..], count)
  {
    ghost var rest := text[lead..];
    var value := bits;
    for j := 0 to count
      invariant value == Gathered(rest, j)
      invariant forall k :: 1 <= k <= j ==> IsContinuation(rest[k])
    {
      var c := text[lead + 1 + j] as int;
      assert rest[j + 1] == text[lead + 1 + j];
      if !(0x80 <= c < 0xC0) {
        return None;
      }
      value := value * 64 + c % 0x40;
    }
    code := Some(value);
  }

  /** The validator accepts exactly the concatenations of standard encodings of Unicode scalar values. */
  method ValidUtf8(text: string) returns (ok: bool)
    ensures ok <==> WellFormed(text)
  {
    hide WellFormed;
    var i := 0;
    while i < |text|
      invariant 0 <= i <= |text|
      invariant WellFormed(text) <==> WellFormed(text[i..])
    {
      ghost var rest := text[i..];
      WellFormedStep(rest);
      var first := text[i] as int;
      i := i + 1;
      if first < 0x80 {
        assert Gathered(rest, 0) == first;
        assert rest[1..] == text[i..];
        continue;
      }
      var code, count, minimum;
      if 0xC2 <= first <= 0xDF {
        code, count, minimum := first % 0x20, 1, 0x80;
      } else if 0xE0 <= first <= 0xEF {
        code, count, minimum := first % 0x10, 2, 0x800;
      } else if 0xF0 <= first <= 0xF4 {
        code, count, minimum := first % 0x08, 3, 0x10000;
      } else {
        return false;
      }
      if count > |text| - i {
        return false;
      }
      var gathered := Gather(text, i - 1, code, count);
      if gathered.None? {
        return false;
      }
      code, i := gathered.value, i + count;
      if code < minimum || code > 0x10FFFF || 0xD800 <= code <= 0xDFFF {
        return false;
      }
      assert rest[count + 1..] == text[i..];
    }
    assert text[i..] == "";
    EmptyWellFormed();
    return true;
  }

  lemma EmptyWellFormed()
    ensures WellFormed("")
  {
    assert EncodeAll([]) == "";
  }
}
