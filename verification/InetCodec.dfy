/**
 The internet structures of `lib/inet.c`: their checks, their MessagePack
 encodings and the decoders that undo them.
 */
module InetCodec {
  import opened Basics
  import opened MsgPack
  import opened PrefixCheck

  type u16 = x: int | 0 <= x < 0x1_0000

  datatype Kind = KSvc | KSvc6 | KNet | KNet6

  /** The four structures, each with the field types its header declares. */
  datatype Item =
    | Svc(addr: u32, port: u16)
    | Svc6(addr6: In6Addr, port6: u16)
    | Net(net: u32, prefix: byte)
    | Net6(net6: In6Addr, prefix6: byte)
  {
    function Kind(): Kind {
      match this
      case Svc(_, _) => KSvc
      case Svc6(_, _) => KSvc6
      case Net(_, _) => KNet
      case Net6(_, _) => KNet6
    }
  }

  // ---- Checks ----

  function ChkPort(v: u16): int { if v < 1 then -EINVAL else 0 }

  function ChkInPfx(v: byte): int { if v >= 32 then -EINVAL else 0 }

  function ChkIn6Pfx(v: byte): int { if v >= 128 then -EINVAL else 0 }

  /** `hed_chk_in_svc`, `hed_chk_in6_svc`, `hed_chk_in_net` and `hed_chk_in6_net` */
  function Chk(v: Item): int {
    match v
    case Svc(_, port) => if ChkPort(port) != 0 then 1 else 0
    case Svc6(_, port) => if ChkPort(port) != 0 then 1 else 0
    case Net(a, p) => if ChkInPfx(p) != 0 then 1 else CheckIn(a, p)
    case Net6(a, p) => if ChkIn6Pfx(p) != 0 then 1 else if In6Clear(a, p) then 0 else 1
  }

  /** What a structure must satisfy, in terms of its fields. */
  ghost predicate Valid(v: Item) {
    match v
    case Svc(_, port) => port != 0
    case Svc6(_, port) => port != 0
    case Net(a, p) => p < 32 && a % Pow2(p) == 0
    case Net6(a, p) => p < 128 && MaskedBitsZero(a, p)
  }

  lemma ChkIsValid(v: Item)
    ensures Chk(v) == 0 <==> Valid(v)
    ensures Chk(v) == 0 || Chk(v) == 1
  {
    match v
    case Net(a, p) => if p < 32 { CheckInIsDivisibility(a, p); }
    case Net6(a, p) => In6ClearBits(a, p);
    case _ =>
  }

  // ---- Encoding ----

  /** The two fields of a structure, encoded. */
  function EncFirst(v: Item): Bytes {
    match v
    case Svc(a, _) => EncodeUint(a)
    case Svc6(a, _) => EncodeBin(a)
    case Net(a, _) => EncodeUint(a)
    case Net6(a, _) => EncodeBin(a)
  }

  function EncSecond(v: Item): Bytes {
    match v
    case Svc(_, port) => EncodeUint(port)
    case Svc6(_, port) => EncodeUint(port)
    case Net(_, p) => EncodeUint(p)
    case Net6(_, p) => EncodeUint(p)
  }

  function Enc(v: Item): Bytes {
    EncodeArray(2) + EncFirst(v) + EncSecond(v)
  }

  // ---- Decoding ----

  function DecodeIn6Addr(s: Bytes): Parsed<In6Addr> {
    match DecodeBinOf(s, 16)
    case Bad(code) => Bad(code)
    case Good(b, rest) => Good(b, rest)
  }

  function DecodeInAddr(s: Bytes): Parsed<u32> {
    match DecodeUint(s, WRAP32 - 1)
    case Bad(code) => Bad(code)
    case Good(v, rest) => Good(v, rest)
  }

  function DecPort(s: Bytes): Parsed<u16> {
    match DecodeUint(s, 0xffff)
    case Bad(code) => Bad(code)
    case Good(v, rest) => if ChkPort(v) != 0 then Bad(ChkPort(v)) else Good(v, rest)
  }

  /** `hed_dec_in_pfx` and `hed_dec_in6_pfx`, which differ in the bound. */
  function DecPfx(s: Bytes, six: bool): Parsed<byte> {
    match DecodeUint(s, 0xff)
    case Bad(code) => Bad(code)
    case Good(v, rest) =>
      var chk := if six then ChkIn6Pfx(v) else ChkInPfx(v);
      if chk != 0 then Bad(chk) else Good(v, rest)
  }

  datatype Address = Four(a4: u32) | Six(a6: In6Addr)

  function DecFirst(k: Kind, s: Bytes): (r: Parsed<Address>)
    ensures r.Good? ==> (r.value.Four? <==> k == KSvc || k == KNet)
  {
    if k == KSvc || k == KNet then
      match DecodeInAddr(s)
      case Bad(code) => Bad(code)
      case Good(a, rest) => Good(Four(a), rest)
    else
      match DecodeIn6Addr(s)
      case Bad(code) => Bad(code)
      case Good(a, rest) => Good(Six(a), rest)
  }

  function DecSecond(k: Kind, first: Address, s: Bytes): Parsed<Item>
    requires first.Four? <==> k == KSvc || k == KNet
  {
    if k == KSvc || k == KSvc6 then
      match DecPort(s)
      case Bad(code) => Bad(code)
      case Good(port, rest) => Good(if k == KSvc then Svc(first.a4, port) else Svc6(first.a6, port), rest)
    else
      match DecPfx(s, k == KNet6)
      case Bad(code) => Bad(code)
      case Good(p, rest) => Good(if k == KNet then Net(first.a4, p) else Net6(first.a6, p), rest)
  }

  /** The structure with its fields decoded, before its own check. */
  function DecFields(k: Kind, s: Bytes): Parsed<Item> {
    match DecodeArrayOf(s, 2)
    case Bad(code) => Bad(code)
    case Good(_, s1) =>
      match DecFirst(k, s1)
      case Bad(code) => Bad(code)
      case Good(first, s2) => DecSecond(k, first, s2)
  }

  /** `hed_dec_in_svc`, `hed_dec_in6_svc`, `hed_dec_in_net` and `hed_dec_in6_net` */
  function Dec(k: Kind, s: Bytes): Parsed<Item> {
    match DecFields(k, s)
    case Bad(code) => Bad(code)
    case Good(v, rest) => if Chk(v) != 0 then Bad(Chk(v)) else Good(v, rest)
  }

  // ---- Decoding undoes encoding ----

  lemma InAddrRoundTrip(a: u32, rest: Bytes)
    ensures DecodeInAddr(EncodeUint(a) + rest) == Good(a, rest)
  {
    UintRoundTrip(a, WRAP32 - 1, rest);
  }

  lemma In6AddrRoundTrip(a: In6Addr, rest: Bytes)
    ensures DecodeIn6Addr(EncodeBin(a) + rest) == Good(a, rest)
  {
    BinRoundTrip(a, rest);
  }

  lemma PortRoundTrip(port: u16, rest: Bytes)
    requires port != 0
    ensures DecPort(EncodeUint(port) + rest) == Good(port, rest)
  {
    UintRoundTrip(port, 0xffff, rest);
  }

  lemma PfxRoundTrip(p: byte, six: bool, rest: Bytes)
    requires p < if six then 128 else 32
    ensures DecPfx(EncodeUint(p) + rest, six) == Good(p, rest)
  {
    UintRoundTrip(p, 0xff, rest);
  }

  lemma HeaderRoundTrip(s: Bytes)
    ensures DecodeArrayOf([0x92] + s, 2) == Good(2, s)
  {
    assert ([0x92] + s)[1..] == s;
  }

  /** The fields are in range, whatever the address check says. */
  predicate FieldsInRange(v: Item) {
    match v
    case Svc(_, port) => port != 0
    case Svc6(_, port) => port != 0
    case Net(_, p) => p < 32
    case Net6(_, p) => p < 128
  }

  function AddressOf(v: Item): Address {
    match v
    case Svc(a, _) => Four(a)
    case Svc6(a, _) => Six(a)
    case Net(a, _) => Four(a)
    case Net6(a, _) => Six(a)
  }

  lemma FirstRoundTrip(v: Item, rest: Bytes)
    ensures DecFirst(v.Kind(), EncFirst(v) + rest) == Good(AddressOf(v), rest)
  {
    match AddressOf(v)
    case Four(a) => InAddrRoundTrip(a, rest);
    case Six(a) => In6AddrRoundTrip(a, rest);
  }

  lemma SecondRoundTrip(v: Item, rest: Bytes)
    requires FieldsInRange(v)
    ensures DecSecond(v.Kind(), AddressOf(v), EncSecond(v) + rest) == Good(v, rest)
  {
    match v
    case Svc(_, port) => PortRoundTrip(port, rest);
    case Svc6(_, port) => PortRoundTrip(port, rest);
    case Net(_, p) => PfxRoundTrip(p, false, rest);
    case Net6(_, p) => PfxRoundTrip(p, true, rest);
  }

  lemma FieldsRoundTrip(v: Item, rest: Bytes)
    requires FieldsInRange(v)
    ensures DecFields(v.Kind(), Enc(v) + rest) == Good(v, rest)
  {
    var s2 := EncSecond(v) + rest;
    var s1 := EncFirst(v) + s2;
    assert Enc(v) + rest == [0x92] + s1;
    HeaderRoundTrip(s1);
    FirstRoundTrip(v, s2);
    SecondRoundTrip(v, rest);
  }

  lemma RoundTrip(v: Item, rest: Bytes)
    requires Chk(v) == 0
    ensures Dec(v.Kind(), Enc(v) + rest) == Good(v, rest)
  {
    FieldsRoundTrip(v, rest);
  }

  function EncAll(vs: seq<Item>): Bytes {
    if vs == [] then [] else Enc(vs[0]) + EncAll(vs[1..])
  }

  function DecAll(ks: seq<Kind>, s: Bytes): Parsed<seq<Item>> {
    if ks == [] then Good([], s)
    else
      match Dec(ks[0], s)
      case Bad(code) => Bad(code)
      case Good(v, rest) =>
        match DecAll(ks[1..], rest)
        case Bad(code) => Bad(code)
        case Good(vs, rest') => Good([v] + vs, rest')
  }

  function Kinds(vs: seq<Item>): seq<Kind> {
    if vs == [] then [] else [vs[0].Kind()] + Kinds(vs[1..])
  }

  lemma DecAllCons(k: Kind, ks: seq<Kind>, s: Bytes, v: Item, s1: Bytes, vs: seq<Item>, rest: Bytes)
    requires Dec(k, s) == Good(v, s1) && DecAll(ks, s1) == Good(vs, rest)
    ensures DecAll([k] + ks, s) == Good([v] + vs, rest)
  {
    assert ([k] + ks)[1..] == ks;
  }

  lemma Associate(a: Bytes, b: Bytes, c: Bytes)
    ensures (a + b) + c == a + (b + c)
  {
  }

  /** Any list of valid structures, encoded one after the other and followed by anything, decodes
      to the same list and leaves what followed. */
  lemma {:induction false} StreamRoundTrip(vs: seq<Item>, rest: Bytes)
    requires forall v <- vs :: Chk(v) == 0
    ensures DecAll(Kinds(vs), EncAll(vs) + rest) == Good(vs, rest)
  {
    if vs == [] {
      assert EncAll(vs) + rest == rest;
    } else {
      var v, tail := vs[0], EncAll(vs[1..]) + rest;
      Associate(Enc(v), EncAll(vs[1..]), rest);
      RoundTrip(v, tail);
      StreamRoundTrip(vs[1..], rest);
      DecAllCons(v.Kind(), Kinds(vs[1..]), Enc(v) + tail, v, tail, vs[1..], rest);
      assert vs == [v] + vs[1..];
    }
  }

  // ---- What a successful decode means ----

  lemma ConsumedTrans(s: Bytes, s1: Bytes, s2: Bytes, m: nat, n: nat)
    requires Consumed(s, s1, m) && Consumed(s1, s2, n)
    ensures Consumed(s, s2, m + n)
  {
    assert s[|s| - |s2|..] == s[|s| - |s1|..][|s1| - |s2|..];
  }

  lemma FirstSound(k: Kind, s: Bytes)
    requires DecFirst(k, s).Good?
    ensures var r := DecFirst(k, s);
            Consumed(s, r.rest, match r.value case Four(a) => |EncodeUint(a)| case Six(a) => |EncodeBin(a)|)
  {
    if k == KSvc || k == KNet { EncodeUintShortest(s, WRAP32 - 1); } else { EncodeBinShortest(s, 16); }
  }

  lemma SecondSound(k: Kind, first: Address, s: Bytes)
    requires first.Four? <==> k == KSvc || k == KNet
    requires DecSecond(k, first, s).Good?
    ensures var r := DecSecond(k, first, s);
            r.value.Kind() == k && AddressOf(r.value) == first && Consumed(s, r.rest, |EncSecond(r.value)|)
  {
    EncodeUintShortest(s, if k == KSvc || k == KSvc6 then 0xffff else 0xff);
  }

  lemma HeaderSound(s: Bytes)
    requires DecodeArrayOf(s, 2).Good?
    ensures Consumed(s, DecodeArrayOf(s, 2).rest, 1)
  {
  }

  lemma FieldsSound(k: Kind, s: Bytes)
    requires DecFields(k, s).Good?
    ensures var r := DecFields(k, s);
            r.value.Kind() == k && Consumed(s, r.rest, |Enc(r.value)|)
  {
    var s1 := DecodeArrayOf(s, 2).rest;
    HeaderSound(s);
    FirstSound(k, s1);
    var first := DecFirst(k, s1);
    SecondSound(k, first.value, first.rest);
    var r := DecSecond(k, first.value, first.rest);
    ConsumedTrans(s1, first.rest, r.rest, |EncFirst(r.value)|, |EncSecond(r.value)|);
    ConsumedTrans(s, s1, r.rest, 1, |EncFirst(r.value)| + |EncSecond(r.value)|);
  }

  /** A value a decoder accepts passes its check, encodes in no more bytes than were read, and
      decodes from that encoding to itself. */
  lemma DecoderSound(k: Kind, s: Bytes)
    requires Dec(k, s).Good?
    ensures var r := Dec(k, s);
            && r.value.Kind() == k && Valid(r.value)
            && Consumed(s, r.rest, |Enc(r.value)|)
            && Dec(k, Enc(r.value) + r.rest) == r
  {
    var r := Dec(k, s);
    FieldsSound(k, s);
    ChkIsValid(r.value);
    RoundTrip(r.value, r.rest);
  }

  // ---- Sizes ----

  const UINT_SIZE_MAX := 5
  const UINT16_SIZE_MAX := 3
  const UINT8_SIZE_MAX := 2
  const IN6_SIZE := 18

  /** `HED_*_PACKED_SIZE_MIN` and `HED_*_PACKED_SIZE_MAX` */
  function PackedMin(k: Kind): nat {
    match k
    case KSvc => 1 + 1
    case KSvc6 => IN6_SIZE + 1
    case KNet => 1 + 1
    case KNet6 => IN6_SIZE + 1
  }

  function PackedMax(k: Kind): nat {
    match k
    case KSvc => UINT_SIZE_MAX + UINT16_SIZE_MAX
    case KSvc6 => IN6_SIZE + UINT16_SIZE_MAX
    case KNet => UINT_SIZE_MAX + UINT8_SIZE_MAX
    case KNet6 => IN6_SIZE + UINT8_SIZE_MAX
  }

  /** The macros leave out the array header: one byte more on both sides is right, and the maximum
      alone is too small for a service whose fields both need their widest form. */
  lemma EncodedSize(v: Item)
    requires Chk(v) == 0
    ensures PackedMin(v.Kind()) + 1 <= |Enc(v)| <= PackedMax(v.Kind()) + 1
    ensures |Enc(v)| > PackedMax(v.Kind()) <==>
            (v.Svc? && v.addr >= 0x1_0000 && v.port >= 0x100) || (v.Svc6? && v.port6 >= 0x100)
  {
    match v {
      case Svc(a, port) => assert |EncFirst(v)| <= 5 && |EncSecond(v)| <= 3;
      case Svc6(a, port) => assert |EncFirst(v)| == 18;
      case Net(a, p) => assert |EncFirst(v)| <= 5 && |EncSecond(v)| == 1;
      case Net6(a, p) => assert |EncFirst(v)| == 18 && |EncSecond(v)| == 1;
    }
  }
}
