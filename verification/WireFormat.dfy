/**
 The formats on the wire, byte by byte as the MessagePack specification tables give them,
 and the proof that the decoders take exactly these and the encoders write the shortest.
 */
module WireFormat {
  import opened Basics
  import opened MsgPack
  import opened InetCodec
  import BaseCodec

  // ---- Numbers of several bytes, most significant first ----

  function Pair(a: int, b: int): int { a * 0x100 + b }

  function Quad(a: int, b: int, c: int, d: int): int {
    a * 0x100_0000 + b * 0x1_0000 + c * 0x100 + d
  }

  /** A number of `m` values, the upper half of them negative. */
  function Minus(x: int, m: int): int {
    if 2 * x < m then x else x - m
  }

  lemma BigTwo(s: Bytes)
    requires |s| >= 2
    ensures FromBigEndian(s) == Pair(FromBigEndian(s[..|s| - 1]), s[|s| - 1])
    ensures FromBigEndian(s) == 0x1_0000 * FromBigEndian(s[..|s| - 2]) + Pair(s[|s| - 2], s[|s| - 1])
  {
    assert Front(s) == s[..|s| - 1] && Front(Front(s)) == s[..|s| - 2];
  }

  lemma BigOne(s: Bytes)
    requires |s| == 1
    ensures FromBigEndian(s) == s[0]
  {
    assert Front(s) == [];
  }

  lemma BigFour(s: Bytes)
    requires |s| >= 4
    ensures var n := |s|;
            FromBigEndian(s) == 0x1_0000_0000 * FromBigEndian(s[..n - 4]) + Quad(s[n - 4], s[n - 3], s[n - 2], s[n - 1])
  {
    BigTwo(s);
    BigTwo(s[..|s| - 2]);
    assert s[..|s| - 2][..|s| - 4] == s[..|s| - 4];
  }

  /** The number in the first `n` bytes. */
  function Lead(s: Bytes, n: nat): int
    requires n <= |s| && n in {1, 2, 4, 8}
  {
    if n == 1 then s[0]
    else if n == 2 then Pair(s[0], s[1])
    else if n == 4 then Quad(s[0], s[1], s[2], s[3])
    else 0x1_0000_0000 * Quad(s[0], s[1], s[2], s[3]) + Quad(s[4], s[5], s[6], s[7])
  }

  lemma LeadIs(s: Bytes, n: nat)
    requires n in {1, 2, 4, 8}
    ensures Take(s, n) == if |s| < n then Bad(-EMSGSIZE) else Good(Lead(s, n), s[n..])
  {
    if n <= |s| {
      var t := s[..n];
      if n == 1 {
        BigOne(t);
      } else if n == 2 {
        BigTwo(t);
        assert t[..0] == [];
      } else if n == 4 {
        BigFour(t);
        assert t[..0] == [];
      } else {
        LeadEight(t);
      }
    }
  }

  lemma LeadEight(t: Bytes)
    requires |t| == 8
    ensures FromBigEndian(t) == Lead(t, 8)
  {
    BigFour(t);
    BigFour(t[..4]);
    assert t[..4][..0] == [];
  }

  // ---- The int family ----

  /** The unsigned and signed forms of `n` bytes begin with these. */
  function UintTag(n: nat): int { if n == 1 then 0xcc else if n == 2 then 0xcd else if n == 4 then 0xce else 0xcf }

  function IntTag(n: nat): int { if n == 1 then 0xd0 else if n == 2 then 0xd1 else if n == 4 then 0xd2 else 0xd3 }

  function Range(n: nat): int {
    if n == 1 then 0x100 else if n == 2 then 0x1_0000 else if n == 4 then 0x1_0000_0000
    else 0x1_0000_0000 * 0x1_0000_0000
  }

  ghost predicate WideForm(s: Bytes, n: nat, v: int, rest: Bytes)
    requires n in {1, 2, 4, 8}
  {
    && |s| > n && rest == s[n + 1..]
    && ((s[0] == UintTag(n) && v == Lead(s[1..], n)) || (s[0] == IntTag(n) && v == Minus(Lead(s[1..], n), Range(n))))
  }

  /** `s` is a form of the number `v`, followed by `rest`. */
  ghost predicate IntForm(s: Bytes, v: int, rest: Bytes) {
    || (s != [] && rest == s[1..] && s[0] < 0x80 && v == s[0])
    || (s != [] && rest == s[1..] && s[0] >= 0xe0 && v == Minus(s[0], 0x100))
    || WideForm(s, 1, v, rest) || WideForm(s, 2, v, rest) || WideForm(s, 4, v, rest) || WideForm(s, 8, v, rest)
  }

  lemma TagShape(tag: byte, n: nat)
    requires n in {1, 2, 4, 8} && (tag == UintTag(n) || tag == IntTag(n))
    ensures 0x80 <= tag < 0xe0 && tag != 0xc1 && IntShape(tag) == Some(Shape(n, tag == IntTag(n)))
  {
  }

  lemma SignedIs(x: int, n: nat)
    requires n in {1, 2, 4, 8} && x >= 0
    ensures Signed(x, n) == Minus(x, Range(n))
  {
    Widths();
  }

  lemma LeadPositive(s: Bytes, n: nat)
    requires n <= |s| && n in {1, 2, 4, 8}
    ensures Lead(s, n) >= 0
  {
  }

  lemma Wide(s: Bytes, n: nat, v: int, rest: Bytes)
    requires n in {1, 2, 4, 8} && s != [] && (s[0] == UintTag(n) || s[0] == IntTag(n))
    ensures DecodeInt(s) == Good(v, rest) <==> WideForm(s, n, v, rest)
  {
    TagShape(s[0], n);
    LeadIs(s[1..], n);
    if |s| > n {
      LeadPositive(s[1..], n);
      SignedIs(Lead(s[1..], n), n);
      assert s[1..][n..] == s[n + 1..];
    }
  }

  /** The decoder takes exactly these forms. */
  lemma IntFormIs(s: Bytes, v: int, rest: Bytes)
    ensures DecodeInt(s) == Good(v, rest) <==> IntForm(s, v, rest)
  {
    if s != [] && (s[0] == 0xcc || s[0] == 0xd0) {
      Wide(s, 1, v, rest);
    } else if s != [] && (s[0] == 0xcd || s[0] == 0xd1) {
      Wide(s, 2, v, rest);
    } else if s != [] && (s[0] == 0xce || s[0] == 0xd2) {
      Wide(s, 4, v, rest);
    } else if s != [] && (s[0] == 0xcf || s[0] == 0xd3) {
      Wide(s, 8, v, rest);
    }
  }

  lemma BigEndianTwo(x: nat)
    requires x < 0x1_0000
    ensures BigEndian(x, 2) == [x / 0x100, x % 0x100]
  {
  }

  lemma BigEndianOne(x: nat)
    requires x < 0x100
    ensures BigEndian(x, 1) == [x]
  {
  }

  lemma BigEndianFour(x: nat)
    requires x < 0x1_0000_0000
    ensures var b := BigEndian(x, 4); |b| == 4 && x == Quad(b[0], b[1], b[2], b[3])
  {
    assert Pow256(4) == 0x1_0000_0000;
    BigEndianRoundTrip(x, 4);
    var b := BigEndian(x, 4);
    BigFour(b);
    assert b[..0] == [];
  }

  /** The encoder writes the first of these forms that is wide enough. */
  lemma UintWritten(v: nat)
    requires v < 0x1_0000_0000
    ensures var e := EncodeUint(v);
            if v < 0x80 then e == [v]
            else if v < 0x100 then e == [0xcc, v]
            else if v < 0x1_0000 then e == [0xcd, v / 0x100, v % 0x100]
            else |e| == 5 && e[0] == 0xce && v == Quad(e[1], e[2], e[3], e[4])
  {
    if 0x80 <= v < 0x100 {
      BigEndianOne(v);
    } else if 0x100 <= v < 0x1_0000 {
      BigEndianTwo(v);
    } else if v >= 0x1_0000 {
      BigEndianFour(v);
      assert EncodeUint(v)[1..] == BigEndian(v, 4);
    }
  }

  /** A signed number is written in the fewest bytes that hold it. */
  lemma IntWritten(v: int32, rest: Bytes)
    ensures IntForm(EncodeInt(v) + rest, v, rest)
    ensures |EncodeInt(v)| == if -0x20 <= v < 0x80 then 1
                              else if -0x80 <= v < 0x100 then 2
                              else if -0x8000 <= v < 0x1_0000 then 3
                              else 5
  {
    IntRoundTrip(v, rest);
    IntFormIs(EncodeInt(v) + rest, v, rest);
  }

  // ---- The bin, str and array families ----

  /** The count that follows a tag, and what it counts. */
  ghost predicate CountedForm(s: Bytes, n: nat, b: Bytes, rest: Bytes)
    requires n in {1, 2, 4}
  {
    |s| > n && Lead(s[1..], n) == |b| && s[n + 1..] == b + rest
  }

  ghost predicate BinForm(s: Bytes, b: Bytes, rest: Bytes) {
    s != [] && ((s[0] == 0xc4 && CountedForm(s, 1, b, rest))
                || (s[0] == 0xc5 && CountedForm(s, 2, b, rest))
                || (s[0] == 0xc6 && CountedForm(s, 4, b, rest)))
  }

  ghost predicate StrForm(s: Bytes, b: Bytes, rest: Bytes) {
    s != [] && ((0xa0 <= s[0] <= 0xbf && s[0] == 0xa0 + |b| && s[1..] == b + rest)
                || (s[0] == 0xd9 && CountedForm(s, 1, b, rest))
                || (s[0] == 0xda && CountedForm(s, 2, b, rest))
                || (s[0] == 0xdb && CountedForm(s, 4, b, rest)))
  }

  ghost predicate ArrayForm(s: Bytes, n: nat, rest: Bytes) {
    s != [] && ((0x90 <= s[0] <= 0x9f && s[0] == 0x90 + n && rest == s[1..])
                || (s[0] == 0xdc && |s| > 2 && n == Pair(s[1], s[2]) && rest == s[3..])
                || (s[0] == 0xdd && |s| > 4 && n == Quad(s[1], s[2], s[3], s[4]) && rest == s[5..]))
  }

  lemma SplitAt(t: Bytes, n: int, b: Bytes, rest: Bytes)
    ensures (0 <= n <= |t| && t[..n] == b && t[n..] == rest) <==> (n == |b| && t == b + rest)
  {
    if 0 <= n <= |t| { assert t == t[..n] + t[n..]; }
    if n == |b| && t == b + rest { assert t[..n] == b && t[n..] == rest; }
  }

  lemma Counted(s: Bytes, n: nat, b: Bytes, rest: Bytes)
    requires n in {1, 2, 4} && s != []
    ensures DecodeCounted(s[1..], n) == Good(b, rest) <==> CountedForm(s, n, b, rest)
  {
    LeadIs(s[1..], n);
    if |s| > n {
      assert s[1..][n..] == s[n + 1..];
      SplitAt(s[n + 1..], Lead(s[1..], n), b, rest);
    }
  }

  lemma BinFormIs(s: Bytes, b: Bytes, rest: Bytes)
    ensures DecodeBin(s) == Good(b, rest) <==> BinForm(s, b, rest)
  {
    if s != [] {
      Counted(s, 1, b, rest);
      Counted(s, 2, b, rest);
      Counted(s, 4, b, rest);
    }
  }

  lemma StrFormIs(s: Bytes, b: Bytes, rest: Bytes)
    ensures DecodeStr(s) == Good(b, rest) <==> StrForm(s, b, rest)
  {
    if s != [] {
      if 0xa0 <= s[0] < 0xc0 {
        ShortStr(s, b, rest);
      } else if s[0] == 0xd9 {
        Counted(s, 1, b, rest);
      } else if s[0] == 0xda {
        Counted(s, 2, b, rest);
      } else if s[0] == 0xdb {
        Counted(s, 4, b, rest);
      }
    }
  }

  lemma ShortStr(s: Bytes, b: Bytes, rest: Bytes)
    requires s != [] && 0xa0 <= s[0] < 0xc0
    ensures DecodeStr(s) == Good(b, rest) <==> s[0] == 0xa0 + |b| && s[1..] == b + rest
  {
    var n := s[0] as int - 0xa0;
    SplitAt(s[1..], n, b, rest);
    if n < |s| { assert s[1..][..n] == s[1..n + 1] && s[1..][n..] == s[n + 1..]; }
  }

  lemma ArrayFormIs(s: Bytes, n: nat, rest: Bytes)
    ensures DecodeArray(s) == Good(n, rest) <==> ArrayForm(s, n, rest)
  {
    if s != [] {
      LeadIs(s[1..], 2);
      LeadIs(s[1..], 4);
      if |s| > 2 { assert s[1..][2..] == s[3..]; }
      if |s| > 4 { assert s[1..][4..] == s[5..]; }
    }
  }

  /** What the encoder writes for a byte string. */
  lemma BinWritten(b: Bytes)
    requires |b| < 0x100
    ensures EncodeBin(b) == [0xc4, |b|] + b
  {
    BigEndianOne(|b|);
  }

  /** A string of up to 31 bytes has its length in its tag. */
  lemma StrWritten(b: Bytes, rest: Bytes)
    requires |b| < 0x100
    ensures StrForm(EncodeStr(b) + rest, b, rest)
    ensures |EncodeStr(b)| == |b| + if |b| < 32 then 1 else 2
  {
    StrRoundTrip(b, rest);
    StrFormIs(EncodeStr(b) + rest, b, rest);
  }

  // ---- The structures ----

  ghost predicate FirstForm(s: Bytes, v: Item, rest: Bytes) {
    match v
    case Svc(a, _) => IntForm(s, a, rest)
    case Svc6(a, _) => BinForm(s, a, rest)
    case Net(a, _) => IntForm(s, a, rest)
    case Net6(a, _) => BinForm(s, a, rest)
  }

  ghost predicate SecondForm(s: Bytes, v: Item, rest: Bytes) {
    match v
    case Svc(_, port) => IntForm(s, port, rest)
    case Svc6(_, port) => IntForm(s, port, rest)
    case Net(_, p) => IntForm(s, p, rest)
    case Net6(_, p) => IntForm(s, p, rest)
  }

  /** An array of two: the address, then the port or the prefix. */
  ghost predicate StructForm(s: Bytes, v: Item, rest: Bytes) {
    exists s1, s2 :: ArrayForm(s, 2, s1) && FirstForm(s1, v, s2) && SecondForm(s2, v, rest)
  }

  lemma FirstFormIs(s: Bytes, v: Item, rest: Bytes)
    ensures DecFirst(v.Kind(), s) == Good(AddressOf(v), rest) <==> FirstForm(s, v, rest)
  {
    match v
    case Svc(a, _) => IntFormIs(s, a, rest);
    case Svc6(a, _) => BinFormIs(s, a, rest);
    case Net(a, _) => IntFormIs(s, a, rest);
    case Net6(a, _) => BinFormIs(s, a, rest);
  }

  lemma SecondFormIs(s: Bytes, v: Item, rest: Bytes)
    ensures DecSecond(v.Kind(), AddressOf(v), s) == Good(v, rest) <==> SecondForm(s, v, rest) && FieldsInRange(v)
  {
    match v
    case Svc(_, port) => IntFormIs(s, port, rest);
    case Svc6(_, port) => IntFormIs(s, port, rest);
    case Net(_, p) => IntFormIs(s, p, rest);
    case Net6(_, p) => IntFormIs(s, p, rest);
  }

  /** Decoding without the structure's own check takes exactly these streams with fields in range. */
  lemma FieldsFormIs(v: Item, s: Bytes, rest: Bytes)
    ensures DecFields(v.Kind(), s) == Good(v, rest) <==> StructForm(s, v, rest) && FieldsInRange(v)
  {
    if DecFields(v.Kind(), s) == Good(v, rest) {
      FieldsHaveForm(v, s, rest);
    }
    if StructForm(s, v, rest) && FieldsInRange(v) {
      var s1, s2 :| ArrayForm(s, 2, s1) && FirstForm(s1, v, s2) && SecondForm(s2, v, rest);
      ArrayFormIs(s, 2, s1);
      FirstFormIs(s1, v, s2);
      SecondFormIs(s2, v, rest);
    }
  }

  lemma FieldsHaveForm(v: Item, s: Bytes, rest: Bytes)
    requires DecFields(v.Kind(), s) == Good(v, rest)
    ensures StructForm(s, v, rest) && FieldsInRange(v)
  {
    var s1 := DecodeArrayOf(s, 2).rest;
    var first := DecFirst(v.Kind(), s1);
    SecondSound(v.Kind(), first.value, first.rest);
    ArrayFormIs(s, 2, s1);
    FirstFormIs(s1, v, first.rest);
    SecondFormIs(first.rest, v, rest);
  }

  /** A structure decoder takes exactly the valid structures in these forms. */
  lemma StructFormIs(v: Item, s: Bytes, rest: Bytes)
    ensures Dec(v.Kind(), s) == Good(v, rest) <==> StructForm(s, v, rest) && Valid(v)
  {
    FieldsFormIs(v, s, rest);
    ChkIsValid(v);
    ValidInRange(v);
  }

  lemma ValidInRange(v: Item)
    ensures Valid(v) ==> FieldsInRange(v)
  {
  }

  /** And the encoders write them. */
  lemma Written(v: Item, rest: Bytes)
    requires FieldsInRange(v)
    ensures StructForm(Enc(v) + rest, v, rest) && Enc(v)[0] == 0x92
  {
    FieldsRoundTrip(v, rest);
    FieldsFormIs(v, Enc(v) + rest, rest);
  }

  /** The codes for fields out of range: a number too wide is the stream's fault, a port of 0 or a
      prefix too long the caller's. */
  lemma RangeCodes(s: Bytes, v: int, rest: Bytes)
    requires IntForm(s, v, rest)
    ensures !(0 <= v <= 0xffff) ==> DecPort(s) == Bad(-ENOMSG)
    ensures v == 0 ==> DecPort(s) == Bad(-EINVAL)
    ensures !(0 <= v <= 0xff) ==> DecPfx(s, false) == Bad(-ENOMSG) && DecPfx(s, true) == Bad(-ENOMSG)
    ensures 32 <= v <= 0xff ==> DecPfx(s, false) == Bad(-EINVAL)
    ensures 128 <= v <= 0xff ==> DecPfx(s, true) == Bad(-EINVAL)
  {
    IntFormIs(s, v, rest);
  }

  // ---- Enumerations and names ----

  /** What an enumeration decoder makes of any form of a number: the numbers of its table, and no
      others. */
  lemma EnumFormIs(t: seq<BaseCodec.Entry>, s: Bytes, v: int, rest: Bytes)
    requires IntForm(s, v, rest)
    ensures BaseCodec.DecEnum(t, s) ==
            if v < -0x8000_0000 || v > 0x7fff_ffff then Bad(-ENOMSG)
            else if exists i | 0 <= i < |t| :: t[i].value == v then Good(v, rest)
            else Bad(-EINVAL)
  {
    IntFormIs(s, v, rest);
    if -0x8000_0000 <= v <= 0x7fff_ffff { BaseCodec.StrOfIs(t, v); }
  }

  /** What the name decoder makes of any form of a string: it takes up to 40 bytes of anything. */
  lemma NameFormIs(s: Bytes, b: Bytes, rest: Bytes)
    requires StrForm(s, b, rest)
    ensures BaseCodec.DecName(s) == if |b| <= 40 then Good(b, rest) else Bad(-ENOMSG)
  {
    StrFormIs(s, b, rest);
    BaseCodec.AnchoredMatch(true, true, b);
  }
}
