/** The four-byte big-endian length in front of every frame (frames.cpp: decode_frame_length, parse_framed_buffer,
    encode_frame). */
module FrameLength {
  import opened Wrappers
  import opened Arithmetic
  import opened Limits

  /** The four bytes of a length, most significant first. */
  function Header(n: int): seq<Byte>
    requires 0 <= n < 0x1_0000_0000
  {
    [n / 0x100_0000, n / 0x1_0000 % 0x100, n / 0x100 % 0x100, n % 0x100]
  }

  function Length(h: seq<Byte>): int
    requires |h| == 4
  {
    var a: int, b: int, c: int, d: int := h[0], h[1], h[2], h[3];
    ((a * 0x100 + b) * 0x100 + c) * 0x100 + d
  }

  /** The header's bytes are the digits of the length, so each determines the other. */
  lemma LengthOfHeader(h: seq<Byte>)
    requires |h| == 4
    ensures 0 <= Length(h) < 0x1_0000_0000 && Header(Length(h)) == h
  {
    var a: int, b: int, c: int, d: int := h[0], h[1], h[2], h[3];
    var n := Length(h);
    Divided(n, 0x100, (a * 0x100 + b) * 0x100 + c, d);
    Divided(n, 0x1_0000, a * 0x100 + b, c * 0x100 + d);
    Divided(n, 0x100_0000, a, (b * 0x100 + c) * 0x100 + d);
    Divided((a * 0x100 + b) * 0x100 + c, 0x100, a * 0x100 + b, c);
    Divided(a * 0x100 + b, 0x100, a, b);
  }

  lemma HeaderOfLength(n: int)
    requires 0 <= n < 0x1_0000_0000
    ensures Length(Header(n)) == n
  {
    var a, b, c := n / 0x100, n / 0x100 / 0x100, n / 0x100 / 0x100 / 0x100;
    var h: seq<Byte> := [c, b % 0x100, a % 0x100, n % 0x100];
    assert n == ((c * 0x100 + b % 0x100) * 0x100 + a % 0x100) * 0x100 + n % 0x100;
    assert Length(h) == n;
    LengthOfHeader(h);
  }

  /** A whole frame on the wire. */
  ghost predicate Framed(raw: seq<Byte>, payload: seq<Byte>) {
    0 < |payload| <= MAX_WIRE_BYTES && raw == Header(|payload|) + payload
  }

  method DecodeFrameLength(h: seq<Byte>) returns (r: Result<int, CodecError>)
    requires |h| == 4
    ensures r.Ok? <==> 0 < Length(h) <= MAX_WIRE_BYTES
    ensures r.Ok? ==> r.value == Length(h)
    ensures r == Err(TooLarge) <==> Length(h) > MAX_WIRE_BYTES
  {
    LengthOfHeader(h);
    var a: int, b: int, c: int, d: int := h[0], h[1], h[2], h[3];
    var n := a * 0x100_0000 + b * 0x1_0000 + c * 0x100 + d;
    if n == 0 {
      return Err(Invalid);
    }
    if n > MAX_WIRE_BYTES {
      return Err(TooLarge);
    }
    r := Ok(n);
  }

  /** The payload of exactly one frame; a missing or trailing byte, an empty or oversized payload is refused. */
  method ParseFramedBuffer(raw: seq<Byte>) returns (r: Result<seq<Byte>, CodecError>)
    ensures r.Ok? ==> Framed(raw, r.value)
    ensures r.Err? ==> forall payload :: !Framed(raw, payload)
    ensures r == Err(TooLarge) <==> |raw| >= 4 && Length(raw[..4]) > MAX_WIRE_BYTES
  {
    hide Header;
    forall payload | Framed(raw, payload)
      ensures |raw| == 4 + |payload| && Length(raw[..4]) == |payload|
    {
      HeaderOfLength(|payload|);
      HeaderSize(|payload|);
      assert raw[..4] == Header(|payload|);
    }
    if |raw| < 4 {
      return Err(Invalid);
    }
    LengthOfHeader(raw[..4]);
    var n := DecodeFrameLength(raw[..4]);
    if n.Err? {
      return Err(n.error);
    }
    if |raw| - 4 != n.value {
      return Err(Invalid);
    }
    assert raw == raw[..4] + raw[4..];
    r := Ok(raw[4..]);
  }

  lemma HeaderSize(n: int)
    requires 0 <= n < 0x1_0000_0000
    ensures |Header(n)| == 4
  {
  }

  method EncodeFramed(payload: seq<Byte>) returns (raw: seq<Byte>)
    requires 0 < |payload| <= MAX_WIRE_BYTES
    ensures Framed(raw, payload)
  {
    var n := |payload|;
    raw := [n / 0x100_0000, n / 0x1_0000 % 0x100, n / 0x100 % 0x100, n % 0x100] + payload;
  }

  /** A buffer holds at most one frame. */
  lemma FramedIsUnique(raw: seq<Byte>, p: seq<Byte>, q: seq<Byte>)
    requires Framed(raw, p) && Framed(raw, q)
    ensures p == q
  {
    assert raw[4..] == p && raw[4..] == q;
  }
}
