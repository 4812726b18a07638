/** The UTF-8 encoding of Unicode text (RFC 3629), with the strict decoder: overlong forms,
    surrogates and values above U+10FFFF are errors. */
module Utf8 {
  import opened Wrappers

  type Byte = x: nat | x < 0x100

  /** A Unicode scalar value. */
  type Scalar = x: nat | x < 0xD800 || 0xE000 <= x < 0x110000

  type Text = seq<Scalar>

  function Tail(c: nat): Byte {
    0x80 + c % 0x40
  }

  function EncodeScalar(c: Scalar): (r: seq<Byte>)
    ensures 1 <= |r| <= 4
  {
    if c < 0x80 then [c]
    else if c < 0x800 then [0xC0 + c / 0x40, Tail(c)]
    else if c < 0x10000 then [0xE0 + c / 0x40 / 0x40, Tail(c / 0x40), Tail(c)]
    else [0xF0 + c / 0x40 / 0x40 / 0x40, Tail(c / 0x40 / 0x40), Tail(c / 0x40), Tail(c)]
  }

  function Encode(t: Text): seq<Byte> {
    if t == [] then [] else EncodeScalar(t[0]) + Encode(t[1..])
  }

  predicate IsTail(bs: seq<Byte>, i: nat) {
    i < |bs| && 0x80 <= bs[i] < 0xC0
  }

  /** A value followed by the six bits of a tail byte. */
  function Shifted(c: nat, tail: Byte): nat
    requires tail >= 0x80
  {
    c * 0x40 + (tail as int - 0x80)
  }

  /** The scalar value at the head of the bytes and the number of bytes it takes. */
  function DecodeScalar(bs: seq<Byte>): (r: Option<(Scalar, nat)>)
    requires bs != []
    ensures r.Some? ==> 1 <= r.value.1 <= 4 && r.value.1 <= |bs|
  {
    var b: nat := bs[0];
    if b < 0x80 then Some((b, 1))
    else if 0xC0 <= b < 0xE0 && IsTail(bs, 1) then
      var c: nat := Shifted(b - 0xC0, bs[1]);
      if c < 0x80 then None else Some((c, 2))
    else if 0xE0 <= b < 0xF0 && IsTail(bs, 1) && IsTail(bs, 2) then
      var c: nat := Shifted(Shifted(b - 0xE0, bs[1]), bs[2]);
      if c < 0x800 || 0xD800 <= c < 0xE000 then None else Some((c, 3))
    else if 0xF0 <= b < 0xF8 && IsTail(bs, 1) && IsTail(bs, 2) && IsTail(bs, 3) then
      var c: nat := Shifted(Shifted(Shifted(b - 0xF0, bs[1]), bs[2]), bs[3]);
      if c < 0x10000 || c >= 0x110000 then None else Some((c, 4))
    else None
  }

  function Decode(bs: seq<Byte>): Option<Text> {
    if bs == [] then Some([])
    else
      var head := DecodeScalar(bs);
      if head.None? then None
      else
        var tail := Decode(bs[head.value.1..]);
        if tail.None? then None else Some([head.value.0] + tail.value)
  }

  lemma {:induction false} SplitTail(c: nat)
    ensures Shifted(c / 0x40, Tail(c)) == c
  {
  }

  lemma {:induction false} JoinTail(c: nat, tail: Byte)
    requires 0x80 <= tail < 0xC0
    ensures Shifted(c, tail) / 0x40 == c && Tail(Shifted(c, tail)) == tail
  {
  }

  lemma {:induction false} DecodeEncodeScalar(c: Scalar, rest: seq<Byte>)
    ensures DecodeScalar(EncodeScalar(c) + rest) == Some((c, |EncodeScalar(c)|))
  {
    SplitTail(c);
    SplitTail(c / 0x40);
    SplitTail(c / 0x40 / 0x40);
    var bs := EncodeScalar(c) + rest;
    assert forall i :: 0 <= i < |EncodeScalar(c)| ==> bs[i] == EncodeScalar(c)[i];
  }

  lemma {:induction false} EncodeDecodeScalar(bs: seq<Byte>)
    requires bs != [] && DecodeScalar(bs).Some?
    ensures EncodeScalar(DecodeScalar(bs).value.0) == bs[..DecodeScalar(bs).value.1]
  {
    var (c, n) := DecodeScalar(bs).value;
    var b: nat := bs[0];
    if n == 1 {
      assert bs[..1] == [bs[0]];
    } else if n == 2 {
      JoinTail(b - 0xC0, bs[1]);
      assert bs[..2] == [bs[0], bs[1]];
    } else if n == 3 {
      JoinTail(b - 0xE0, bs[1]);
      JoinTail(Shifted(b - 0xE0, bs[1]), bs[2]);
      assert bs[..3] == [bs[0], bs[1], bs[2]];
    } else {
      JoinTail(b - 0xF0, bs[1]);
      JoinTail(Shifted(b - 0xF0, bs[1]), bs[2]);
      JoinTail(Shifted(Shifted(b - 0xF0, bs[1]), bs[2]), bs[3]);
      assert bs[..4] == [bs[0], bs[1], bs[2], bs[3]];
    }
  }

  lemma {:induction false} EncodeCons(c: Scalar, t: Text)
    ensures Encode([c] + t) == EncodeScalar(c) + Encode(t)
  {
    assert ([c] + t)[1..] == t;
  }

  lemma {:induction false} DecodeCons(bs: seq<Byte>, c: Scalar, n: nat, t: Text)
    requires bs != [] && DecodeScalar(bs) == Some((c, n)) && Decode(bs[n..]) == Some(t)
    ensures Decode(bs) == Some([c] + t)
  {
  }

  lemma {:induction false} DecodeEncode(t: Text)
    ensures Decode(Encode(t)) == Some(t)
  {
    if t != [] {
      var head, tail := EncodeScalar(t[0]), Encode(t[1..]);
      DecodeEncodeScalar(t[0], tail);
      assert (head + tail)[|head|..] == tail;
      DecodeEncode(t[1..]);
      DecodeCons(head + tail, t[0], |head|, t[1..]);
      assert [t[0]] + t[1..] == t;
    }
  }

  /** The decoder accepts nothing but encodings. */
  lemma {:induction false} EncodeDecode(bs: seq<Byte>)
    requires Decode(bs).Some?
    ensures Encode(Decode(bs).value) == bs
  {
    if bs != [] {
      var (c, n) := DecodeScalar(bs).value;
      EncodeDecodeScalar(bs);
      EncodeDecode(bs[n..]);
      var t := Decode(bs[n..]).value;
      DecodeCons(bs, c, n, t);
      EncodeCons(c, t);
      assert bs == bs[..n] + bs[n..];
    }
  }

  /** Every character takes between one and four bytes. */
  lemma {:induction false} EncodedLength(t: Text)
    ensures |t| <= |Encode(t)| <= 4 * |t|
  {
    if t != [] {
      EncodedLength(t[1..]);
    }
  }
}
