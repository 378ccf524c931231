/** Nanosecond counts as text (codec.cpp: parse_ns; std::to_string). */
module Decimal {
  import opened Wrappers

  function DigitChar(d: int): char
    requires 0 <= d < 10
  {
    ('0' as int + d) as char
  }

  predicate IsDigit(c: char) {
    '0' <= c <= '9'
  }

  function DigitValue(c: char): int {
    c as int - '0' as int
  }

  /** std::to_string. */
  function Print(n: nat): string {
    if n < 10 then [DigitChar(n)] else Print(n / 10) + [DigitChar(n % 10)]
  }

  /** The value of a run of digits. */
  function Number(text: string): int {
    if |text| == 0 then 0 else Number(text[..|text| - 1]) * 10 + DigitValue(text[|text| - 1])
  }

  predicate Digits(text: string) {
    forall i :: 0 <= i < |text| ==> IsDigit(text[i])
  }

  /** No sign, no leading zero. */
  predicate Plain(text: string) {
    |text| > 0 && Digits(text) && (|text| > 1 ==> text[0] != '0')
  }

  lemma {:induction false} PrintPlain(n: nat)
    ensures Plain(Print(n)) && Number(Print(n)) == n && (n > 0 ==> Print(n)[0] != '0')
  {
    var s := Print(n);
    assert s[..|s| - 1] == if n < 10 then "" else Print(n / 10);
    if n >= 10 {
      PrintPlain(n / 10);
      assert s[0] == Print(n / 10)[0];
    }
  }

  lemma {:induction false} NumberPrint(text: string)
    requires Plain(text)
    ensures Number(text) >= 0 && (text[0] != '0' ==> Number(text) > 0) && Print(Number(text)) == text
  {
    if |text| > 1 {
      var front := text[..|text| - 1];
      assert front[0] == text[0];
      NumberPrint(front);
      var d := DigitValue(text[|text| - 1]);
      assert IsDigit(text[|text| - 1]) && 0 <= d < 10;
      var n := Number(text);
      assert n == Number(front) * 10 + d && n / 10 == Number(front) && n % 10 == d;
      assert text == front + [text[|text| - 1]];
    } else {
      assert IsDigit(text[0]) && text[..0] == "";
      assert Number(text[..0]) == 0;
    }
  }

  lemma {:induction false} NumberGrows(text: string, i: nat)
    requires Digits(text) && i <= |text|
    ensures 0 <= Number(text[..i]) <= Number(text)
    decreases |text| - i
  {
    if i == |text| {
      assert text[..i] == text;
    } else {
      NumberGrows(text, i + 1);
      assert text[..i + 1][..i] == text[..i] && IsDigit(text[i]);
      NumberAtLeastZero(text[..i]);
    }
    NumberAtLeastZero(text);
    NumberAtLeastZero(text[..i]);
  }

  lemma {:induction false} NumberAtLeastZero(text: string)
    requires Digits(text)
    ensures Number(text) >= 0
  {
    if |text| > 0 {
      NumberAtLeastZero(text[..|text| - 1]);
      assert IsDigit(text[|text| - 1]);
    }
  }

  /** A plain number of more than twenty digits is out of range. */
  lemma {:induction false} NumberLarge(text: string, floor: int)
    requires |text| > 0 && Digits(text) && text[0] != '0' && floor == Power10(|text| - 1)
    ensures Number(text) >= floor
  {
    assert IsDigit(text[|text| - 1]);
    if |text| > 1 {
      NumberLarge(text[..|text| - 1], Power10(|text| - 2));
    } else {
      assert Number(text[..0]) == 0;
    }
  }

  function Power10(n: nat): (p: nat)
    ensures p >= 1
  {
    if n == 0 then 1 else Power10(n - 1) * 10
  }

  lemma {:induction false} Power10Monotone(m: nat, n: nat)
    requires m <= n
    ensures Power10(m) <= Power10(n)
  {
    if m < n {
      Power10Monotone(m, n - 1);
    }
  }

  lemma LongIsLarge(text: string)
    requires Plain(text) && |text| > 20
    ensures Number(text) > U64_MAX
  {
    NumberLarge(text, Power10(|text| - 1));
    Power10Monotone(20, |text| - 1);
    assert Power10(20) > U64_MAX by {
      assert Power10(4) == 10_000;
      assert Power10(8) == 100_000_000;
      assert Power10(12) == 1_000_000_000_000;
      assert Power10(16) == 10_000_000_000_000_000;
      assert Power10(20) == 100_000_000_000_000_000_000;
    }
  }

  /** Parsing is the exact inverse of printing on 64-bit counts. */
  method ParseNs(text: string) returns (r: Result<U64, CodecError>)
    ensures r.Ok? ==> text == Print(r.value)
    ensures r.Err? ==> r.error == Invalid && forall n: U64 :: Print(n) != text
  {
    hide Print, Number;
    forall n: U64
      ensures Plain(Print(n)) && Number(Print(n)) == n
    {
      PrintPlain(n);
    }
    var plain := |text| > 0 && !(|text| > 1 && text[0] == '0');
    var i := 0;
    while plain && i < |text|
      invariant 0 <= i <= |text|
      invariant plain ==> |text| > 0 && (|text| > 1 ==> text[0] != '0') && forall k :: 0 <= k < i ==> IsDigit(text[k])
      invariant !plain ==> !Plain(text)
      decreases plain, |text| - i
    {
      plain, i := IsDigit(text[i]), i + 1;
    }
    if !plain {
      return Err(Invalid);
    }
    if |text| > 20 {
      LongIsLarge(text);
      return Err(Invalid);
    }
    var value := FromChars(text);
    NumberPrint(text);
    return if value.Some? then Ok(value.value) else Err(Invalid);
  }

  /** std::from_chars for an unsigned 64-bit value over a run of digits: the value, or out of range. */
  method FromChars(text: string) returns (value: Option<U64>)
    requires Digits(text)
    ensures value == if Number(text) > U64_MAX then None else Some(Number(text))
  {
    NumberAtLeastZero(text);
    var v: int := 0;
    for i := 0 to |text|
      invariant v == Number(text[..i]) && 0 <= v <= U64_MAX
    {
      assert text[..i + 1][..i] == text[..i] && IsDigit(text[i]);
      v := v * 10 + DigitValue(text[i]);
      if v > U64_MAX {
        NumberGrows(text, i + 1);
        return None;
      }
    }
    assert text[..|text|] == text;
    return Some(v);
  }
}
