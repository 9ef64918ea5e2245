/**
 The MessagePack formats the codecs use: the int, str, bin and array families.
 Encoders choose the shortest form; decoders take every form of the family.
 */
module MsgPack {
  import opened Basics

  /** What a decoder makes of a byte stream: a value and the bytes not consumed, or an error code. */
  datatype Parsed<+T> = Good(value: T, rest: Bytes) | Bad(code: int)

  function BigEndian(x: nat, n: nat): (r: Bytes)
    ensures |r| == n
  {
    if n == 0 then [] else BigEndian(x / 256, n - 1) + [x % 256]
  }

  function FromBigEndian(s: Bytes): (x: nat)
  {
    if s == [] then 0 else FromBigEndian(Front(s)) * 256 + Back(s)
  }

  lemma {:induction false} BigEndianRoundTrip(x: nat, n: nat)
    requires x < Pow256(n)
    ensures FromBigEndian(BigEndian(x, n)) == x
  {
    if n > 0 {
      BigEndianRoundTrip(x / 256, n - 1);
      FrontBack(BigEndian(x / 256, n - 1), x % 256);
    }
  }

  /** The next `n` bytes as an unsigned number. */
  function Take(s: Bytes, n: nat): Parsed<nat> {
    if |s| < n then Bad(-EMSGSIZE) else Good(FromBigEndian(s[..n]), s[n..])
  }

  lemma TakeRoundTrip(x: nat, n: nat, rest: Bytes)
    requires x < Pow256(n)
    ensures Take(BigEndian(x, n) + rest, n) == Good(x, rest)
  {
    BigEndianRoundTrip(x, n);
    assert (BigEndian(x, n) + rest)[..n] == BigEndian(x, n);
    assert (BigEndian(x, n) + rest)[n..] == rest;
  }

  lemma {:induction false} FromBigEndianBound(s: Bytes)
    ensures FromBigEndian(s) < Pow256(|s|)
  {
    if s != [] { FromBigEndianBound(Front(s)); }
  }

  lemma Widths()
    ensures Pow256(1) == 0x100 && Pow256(2) == 0x1_0000 && Pow256(4) == 0x1_0000_0000
    ensures Pow256(8) == 0x1_0000_0000 * 0x1_0000_0000
  {
  }

  // ---- int ----

  function EncodeUint(v: nat): (r: Bytes)
    requires v < WRAP32
  {
    if v < 0x80 then [v]
    else if v < 0x100 then [0xcc] + BigEndian(v, 1)
    else if v < 0x1_0000 then [0xcd] + BigEndian(v, 2)
    else [0xce] + BigEndian(v, 4)
  }

  /** How many bytes follow an int tag, and whether they are a two's complement number. */
  datatype Shape = Shape(width: nat, signed: bool)

  function IntShape(tag: byte): Option<Shape> {
    match tag
    case 0xcc => Some(Shape(1, false))
    case 0xcd => Some(Shape(2, false))
    case 0xce => Some(Shape(4, false))
    case 0xcf => Some(Shape(8, false))
    case 0xd0 => Some(Shape(1, true))
    case 0xd1 => Some(Shape(2, true))
    case 0xd2 => Some(Shape(4, true))
    case 0xd3 => Some(Shape(8, true))
    case _ => None
  }

  function Signed(x: nat, width: nat): int {
    if 2 * x < Pow256(width) then x else x - Pow256(width)
  }

  function DecodeInt(s: Bytes): (r: Parsed<int>)
    ensures r.Bad? ==> r.code != 0
  {
    if s == [] then Bad(-EMSGSIZE)
    else if s[0] < 0x80 then Good(s[0], s[1..])
    else if s[0] >= 0xe0 then Good((s[0] as int) - 256, s[1..])
    else if s[0] == 0xc1 then Bad(-EPROTO)
    else if IntShape(s[0]).None? then Bad(-ENOMSG)
    else
      var shape := IntShape(s[0]).value;
      match Take(s[1..], shape.width)
      case Bad(code) => Bad(code)
      case Good(x, rest) => Good(if shape.signed then Signed(x, shape.width) else x, rest)
  }

  /** An int of the stream that must lie in 0..max. */
  function DecodeUint(s: Bytes, max: nat): (r: Parsed<nat>)
    ensures r.Good? ==> r.value <= max
    ensures r.Bad? ==> r.code != 0
  {
    match DecodeInt(s)
    case Bad(code) => Bad(code)
    case Good(v, rest) => if 0 <= v <= max then Good(v, rest) else Bad(-ENOMSG)
  }

  lemma UintRoundTrip(v: nat, max: nat, rest: Bytes)
    requires v <= max && v < WRAP32
    ensures DecodeUint(EncodeUint(v) + rest, max) == Good(v, rest)
  {
    Widths();
    var s := EncodeUint(v) + rest;
    var n := if v < 0x80 then 0 else if v < 0x100 then 1 else if v < 0x1_0000 then 2 else 4;
    if n == 0 {
      assert s[1..] == rest;
    } else {
      assert s[1..] == BigEndian(v, n) + rest;
      TakeRoundTrip(v, n, rest);
    }
  }

  /** `rest` is what is left of `s` after at least `n` bytes. */
  ghost predicate Consumed(s: Bytes, rest: Bytes, n: nat) {
    |rest| + n <= |s| && s[|s| - |rest|..] == rest
  }

  /** No accepted form of a number is shorter than the one the encoder writes. */
  lemma EncodeUintShortest(s: Bytes, max: nat)
    requires max < WRAP32 && DecodeUint(s, max).Good?
    ensures var r := DecodeUint(s, max);
            Consumed(s, r.rest, |EncodeUint(r.value)|)
  {
    Widths();
    if 0x80 <= s[0] < 0xe0 {
      var shape := IntShape(s[0]).value;
      FromBigEndianBound(s[1..][..shape.width]);
    }
  }

  type int32 = x: int | -0x8000_0000 <= x < 0x8000_0000

  function EncodeInt(v: int32): Bytes {
    if v >= 0 then EncodeUint(v)
    else if v >= -0x20 then [0x100 + v]
    else if v >= -0x80 then [0xd0] + BigEndian(0x100 + v, 1)
    else if v >= -0x8000 then [0xd1] + BigEndian(0x1_0000 + v, 2)
    else [0xd2] + BigEndian(0x1_0000_0000 + v, 4)
  }

  lemma SignedTag(tag: byte, x: nat, width: nat, rest: Bytes)
    requires IntShape(tag) == Some(Shape(width, true)) && x < Pow256(width)
    ensures DecodeInt([tag] + BigEndian(x, width) + rest) == Good(Signed(x, width), rest)
  {
    var s := [tag] + BigEndian(x, width) + rest;
    assert s[1..] == BigEndian(x, width) + rest;
    TakeRoundTrip(x, width, rest);
  }

  lemma IntRoundTrip(v: int32, rest: Bytes)
    ensures DecodeInt(EncodeInt(v) + rest) == Good(v, rest)
  {
    Widths();
    if v >= 0 {
      UintRoundTrip(v, v, rest);
    } else if v >= -0x20 {
      assert (EncodeInt(v) + rest)[1..] == rest;
    } else if v >= -0x80 {
      SignedTag(0xd0, 0x100 + v, 1, rest);
    } else if v >= -0x8000 {
      SignedTag(0xd1, 0x1_0000 + v, 2, rest);
    } else {
      SignedTag(0xd2, 0x1_0000_0000 + v, 4, rest);
    }
  }

  // ---- bin ----

  function EncodeBin(b: Bytes): Bytes
    requires |b| < WRAP32
  {
    if |b| < 0x100 then [0xc4] + BigEndian(|b|, 1) + b
    else if |b| < 0x1_0000 then [0xc5] + BigEndian(|b|, 2) + b
    else [0xc6] + BigEndian(|b|, 4) + b
  }

  /** A counted byte string whose length takes `width` bytes. */
  function DecodeCounted(s: Bytes, width: nat): Parsed<Bytes> {
    match Take(s, width)
    case Bad(code) => Bad(code)
    case Good(n, rest) => if |rest| < n then Bad(-EMSGSIZE) else Good(rest[..n], rest[n..])
  }

  function DecodeBin(s: Bytes): Parsed<Bytes> {
    if s == [] then Bad(-EMSGSIZE)
    else if s[0] == 0xc4 then DecodeCounted(s[1..], 1)
    else if s[0] == 0xc5 then DecodeCounted(s[1..], 2)
    else if s[0] == 0xc6 then DecodeCounted(s[1..], 4)
    else if s[0] == 0xc1 then Bad(-EPROTO)
    else Bad(-ENOMSG)
  }

  /** A bin of exactly `n` bytes. */
  function DecodeBinOf(s: Bytes, n: nat): (r: Parsed<Bytes>)
    ensures r.Good? ==> |r.value| == n
    ensures r.Bad? ==> r.code != 0
  {
    match DecodeBin(s)
    case Bad(code) => Bad(code)
    case Good(b, rest) => if |b| == n then Good(b, rest) else Bad(-ENOMSG)
  }

  lemma CountedRoundTrip(b: Bytes, width: nat, rest: Bytes)
    requires |b| < Pow256(width)
    ensures DecodeCounted(BigEndian(|b|, width) + b + rest, width) == Good(b, rest)
  {
    assert BigEndian(|b|, width) + b + rest == BigEndian(|b|, width) + (b + rest);
    TakeRoundTrip(|b|, width, b + rest);
    assert (b + rest)[..|b|] == b && (b + rest)[|b|..] == rest;
  }

  lemma BinTag(tag: byte, b: Bytes, width: nat, rest: Bytes)
    requires |b| < Pow256(width)
    requires (tag == 0xc4 && width == 1) || (tag == 0xc5 && width == 2) || (tag == 0xc6 && width == 4)
    ensures DecodeBin([tag] + BigEndian(|b|, width) + b + rest) == Good(b, rest)
  {
    var tail := BigEndian(|b|, width) + b + rest;
    assert [tag] + BigEndian(|b|, width) + b + rest == [tag] + tail;
    CountedRoundTrip(b, width, rest);
    BinByTag(tag, width, tail);
  }

  lemma BinByTag(tag: byte, width: nat, tail: Bytes)
    requires (tag == 0xc4 && width == 1) || (tag == 0xc5 && width == 2) || (tag == 0xc6 && width == 4)
    ensures DecodeBin([tag] + tail) == DecodeCounted(tail, width)
  {
    assert ([tag] + tail)[1..] == tail;
  }

  lemma BinRoundTrip(b: Bytes, rest: Bytes)
    requires |b| < WRAP32
    ensures DecodeBinOf(EncodeBin(b) + rest, |b|) == Good(b, rest)
  {
    Widths();
    if |b| < 0x100 {
      BinTag(0xc4, b, 1, rest);
    } else if |b| < 0x1_0000 {
      BinTag(0xc5, b, 2, rest);
    } else {
      BinTag(0xc6, b, 4, rest);
    }
  }

  lemma EncodeBinShortest(s: Bytes, n: nat)
    requires n < 0x100 && DecodeBinOf(s, n).Good?
    ensures Consumed(s, DecodeBinOf(s, n).rest, n + 2)
    ensures |EncodeBin(DecodeBinOf(s, n).value)| == n + 2
  {
  }

  // ---- str ----

  function EncodeStr(b: Bytes): Bytes
    requires |b| < 0x100
  {
    if |b| < 32 then [0xa0 + |b|] + b else [0xd9] + BigEndian(|b|, 1) + b
  }

  function DecodeStr(s: Bytes): Parsed<Bytes> {
    if s == [] then Bad(-EMSGSIZE)
    else if 0xa0 <= s[0] < 0xc0 then
      var n := s[0] - 0xa0;
      if |s| - 1 < n then Bad(-EMSGSIZE) else Good(s[1..n + 1], s[n + 1..])
    else if s[0] == 0xd9 then DecodeCounted(s[1..], 1)
    else if s[0] == 0xda then DecodeCounted(s[1..], 2)
    else if s[0] == 0xdb then DecodeCounted(s[1..], 4)
    else if s[0] == 0xc1 then Bad(-EPROTO)
    else Bad(-ENOMSG)
  }

  lemma StrByTag(tail: Bytes)
    ensures DecodeStr([0xd9] + tail) == DecodeCounted(tail, 1)
  {
    assert ([0xd9] + tail)[1..] == tail;
  }

  lemma LongStr(b: Bytes, width: nat, rest: Bytes)
    requires |b| < Pow256(width) && width == 1
    ensures DecodeStr([0xd9] + BigEndian(|b|, width) + b + rest) == Good(b, rest)
  {
    var tail := BigEndian(|b|, width) + b + rest;
    assert [0xd9] + BigEndian(|b|, width) + b + rest == [0xd9] + tail;
    CountedRoundTrip(b, width, rest);
    StrByTag(tail);
  }

  lemma StrRoundTrip(b: Bytes, rest: Bytes)
    requires |b| < 0x100
    ensures DecodeStr(EncodeStr(b) + rest) == Good(b, rest)
  {
    if |b| < 32 {
      var s := EncodeStr(b) + rest;
      assert s[1..|b| + 1] == b && s[|b| + 1..] == rest;
    } else {
      Widths();
      LongStr(b, 1, rest);
    }
  }

  // ---- array ----

  function EncodeArray(n: nat): Bytes
    requires n < 16
  {
    [0x90 + n]
  }

  function DecodeArray(s: Bytes): Parsed<nat> {
    if s == [] then Bad(-EMSGSIZE)
    else if 0x90 <= s[0] < 0xa0 then Good(s[0] - 0x90, s[1..])
    else if s[0] == 0xdc then Take(s[1..], 2)
    else if s[0] == 0xdd then Take(s[1..], 4)
    else if s[0] == 0xc1 then Bad(-EPROTO)
    else Bad(-ENOMSG)
  }

  /** An array header that must announce `n` items; the value read is of no use. */
  function DecodeArrayOf(s: Bytes, n: nat): (r: Parsed<nat>)
    ensures r.Good? ==> r.value == n
    ensures r.Bad? ==> r.code != 0
  {
    match DecodeArray(s)
    case Bad(code) => Bad(code)
    case Good(k, rest) => if k == n then Good(k, rest) else Bad(-ENOMSG)
  }
}
