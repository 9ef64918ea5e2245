/**
 The JSON side of `lib/inet-json.c`: structures as JSON objects, encoded to and
 decoded from the same stream as the structures themselves.

 Address text is the C library's business and enters as a pair of functions.
 */
module InetJson {
  import opened Basics
  import opened MsgPack
  import opened PrefixCheck
  import opened InetCodec
  import opened InetStream

  datatype Json =
    | JNull
    | JBool(b: bool)
    | JInt(n: int)
    | JStr(s: string)
    | JArr(items: seq<Json>)
    | JObj(fields: map<string, Json>)

  /** What `inet_pton`, `inet_ntop` and json-c's reading of a number out of a string compute, and
      the `errno` that `json_object_get_int` leaves for a value, 0 for none. */
  datatype Text = Text(
    pton4: string -> Option<u32>, ntop4: u32 -> string,
    pton6: string -> Option<In6Addr>, ntop6: In6Addr -> string,
    number: string -> int, errno: Json -> int)

  /** Printing an address and parsing the text gives the address back, and an integer that fits
      is no error. */
  ghost predicate Lawful(x: Text) {
    && (forall a: u32 :: x.pton4(x.ntop4(a)) == Some(a))
    && (forall a: In6Addr :: x.pton6(x.ntop6(a)) == Some(a))
    && (forall n: int | -0x8000_0000 <= n <= 0x7fff_ffff :: x.errno(JInt(n)) == 0)
  }

  /** `json_object_get_int`: values beyond 32 bits are clamped to the nearest int. */
  function GetInt(x: Text, j: Json): int {
    var n := match j
      case JInt(n) => n
      case JBool(b) => if b then 1 else 0
      case JStr(s) => x.number(s)
      case _ => 0;
    if n < -0x8000_0000 then -0x8000_0000 else if n > 0x7fff_ffff then 0x7fff_ffff else n
  }

  /** `json_object_object_get`; a null member reads as no member. */
  function Member(j: Json, name: string): Option<Json> {
    if j.JObj? && name in j.fields && j.fields[name] != JNull then Some(j.fields[name]) else None
  }

  function SecondName(k: Kind): string {
    if k == KSvc || k == KSvc6 then "port" else "prefix"
  }

  function ToJson(x: Text, v: Item): Json {
    match v
    case Svc(a, p) => JObj(map["addr" := JStr(x.ntop4(a)), "port" := JInt(p)])
    case Svc6(a, p) => JObj(map["addr" := JStr(x.ntop6(a)), "port" := JInt(p)])
    case Net(a, p) => JObj(map["addr" := JStr(x.ntop4(a)), "prefix" := JInt(p)])
    case Net6(a, p) => JObj(map["addr" := JStr(x.ntop6(a)), "prefix" := JInt(p)])
  }

  // ---- From JSON to the stream ----

  /** A return code and the bytes emitted before it. */
  datatype Emitted = Emitted(ret: int, bytes: Bytes)

  function EncAddrFromJson(x: Text, k: Kind, j: Json): Emitted {
    if !j.JStr? then Emitted(-EINVAL, [])
    else if k == KSvc || k == KNet then
      match x.pton4(j.s)
      case None => Emitted(-EINVAL, [])
      case Some(a) => Emitted(0, EncodeUint(a))
    else
      match x.pton6(j.s)
      case None => Emitted(-EINVAL, [])
      case Some(a) => Emitted(0, EncodeBin(a))
  }

  /** `hed_enc_port_from_json`, `hed_enc_in_pfx_from_json` and `hed_enc_in6_pfx_from_json`: the
      number is cast to the field's width before it is checked, unless json-c reports an error. */
  function EncSecondFromJson(x: Text, k: Kind, j: Json): Emitted {
    if x.errno(j) != 0 then Emitted(-x.errno(j), []) else EncNumber(k, GetInt(x, j))
  }

  function EncNumber(k: Kind, n: int): Emitted {
    if k == KSvc || k == KSvc6 then
      var v := n % 0x1_0000;
      if ChkPort(v) != 0 then Emitted(ChkPort(v), []) else Emitted(0, EncodeUint(v))
    else
      var v := n % 0x100;
      var chk := if k == KNet6 then ChkIn6Pfx(v) else ChkInPfx(v);
      if chk != 0 then Emitted(chk, []) else Emitted(0, EncodeUint(v))
  }

  /** `hed_enc_in_svc_from_json`, `hed_enc_in6_svc_from_json`, `hed_enc_in_net_from_json` and
      `hed_enc_in6_net_from_json` */
  function EncFromJson(x: Text, k: Kind, j: Json): Emitted {
    var head := EncodeArray(2);
    if Member(j, "addr").None? then Emitted(-EINVAL, head)
    else
      var first := EncAddrFromJson(x, k, Member(j, "addr").value);
      if first.ret != 0 then Emitted(first.ret, head)
      else if Member(j, SecondName(k)).None? then Emitted(-EINVAL, head + first.bytes)
      else
        var second := EncSecondFromJson(x, k, Member(j, SecondName(k)).value);
        Emitted(second.ret, head + first.bytes + second.bytes)
  }

  /** One field on an encoder: a full buffer is one more way to fail. */
  method EncodeAddr(x: Text, encoder: Encoder, k: Kind, j: Json) returns (ret: int)
    modifies encoder`data
    ensures var e := EncAddrFromJson(x, k, j);
            ret == if e.ret != 0 then e.ret else if |old(encoder.data)| + |e.bytes| <= encoder.cap then 0 else -EMSGSIZE
    ensures encoder.data == old(encoder.data) + if ret == 0 then EncAddrFromJson(x, k, j).bytes else []
  {
    var e := EncAddrFromJson(x, k, j);
    assert encoder.data + [] == encoder.data;
    if e.ret != 0 { return e.ret; }
    ret := encoder.Put(e.bytes);
  }

  method EncodeSecond(x: Text, encoder: Encoder, k: Kind, j: Json) returns (ret: int)
    modifies encoder`data
    ensures var e := EncSecondFromJson(x, k, j);
            ret == if e.ret != 0 then e.ret else if |old(encoder.data)| + |e.bytes| <= encoder.cap then 0 else -EMSGSIZE
    ensures encoder.data == old(encoder.data) + if ret == 0 then EncSecondFromJson(x, k, j).bytes else []
  {
    var e := EncSecondFromJson(x, k, j);
    assert encoder.data + [] == encoder.data;
    if e.ret != 0 { return e.ret; }
    ret := encoder.Put(e.bytes);
  }

  /** What a failed field leaves behind it. */
  lemma NothingEmitted(x: Text, k: Kind, j: Json)
    ensures EncAddrFromJson(x, k, j).ret != 0 ==> EncAddrFromJson(x, k, j).bytes == []
    ensures EncSecondFromJson(x, k, j).ret != 0 ==> EncSecondFromJson(x, k, j).bytes == []
  {
  }

  lemma Prefixes(was: Bytes, a: Bytes, b: Bytes, c: Bytes)
    ensures was + a + b + c == was + (a + b + c)
    ensures was <= was + a <= was + (a + b) <= was + (a + b + c)
    ensures was + a + b == was + (a + b)
  {
  }

  /** The whole structure on an encoder. */
  method EncodeFromJson(x: Text, encoder: Encoder, k: Kind, j: Json) returns (ret: int)
    modifies encoder`data
    ensures var e := EncFromJson(x, k, j);
            && (ret == 0 <==> e.ret == 0 && |old(encoder.data)| + |e.bytes| <= encoder.cap)
            && (ret == 0 ==> encoder.data == old(encoder.data) + e.bytes)
            && (|old(encoder.data)| + |e.bytes| <= encoder.cap ==> ret == e.ret)
            && old(encoder.data) <= encoder.data <= old(encoder.data) + e.bytes
  {
    ghost var was := encoder.data;
    var head := EncodeArray(2);
    Prefixes(was, head, [], []);
    ret := encoder.Put(head);
    if ret != 0 {
      assert head <= EncFromJson(x, k, j).bytes;
      return;
    }
    var member := Member(j, "addr");
    if member.None? { return -EINVAL; }
    ghost var first := EncAddrFromJson(x, k, member.value);
    NothingEmitted(x, k, member.value);
    ret := EncodeAddr(x, encoder, k, member.value);
    if ret != 0 { return; }
    var number := Member(j, SecondName(k));
    Prefixes(was, head, first.bytes, []);
    if number.None? { return -EINVAL; }
    ghost var second := EncSecondFromJson(x, k, number.value);
    NothingEmitted(x, k, number.value);
    Prefixes(was, head, first.bytes, second.bytes);
    ret := EncodeSecond(x, encoder, k, number.value);
  }

  // ---- From the stream to JSON ----

  /** `hed_dec_in_svc_to_json`, `hed_dec_in6_svc_to_json`, `hed_dec_in_net_to_json` and
      `hed_dec_in6_net_to_json`: the object is built field by field as the stream is read. `room`
      says which of json-c's five allocations succeed. */
  method DecodeToJson(x: Text, decoder: Decoder, k: Kind, room: nat -> bool) returns (obj: Option<Json>)
    modifies decoder
    ensures match DecFields(k, old(decoder.left))
            case Good(v, rest) =>
              if room(0) && room(1) && room(2) && room(3) && room(4) then
                obj == Some(ToJson(x, v)) && decoder.left == rest
              else obj == None
            case Bad(_) => obj == None
  {
    if !room(0) { return None; }
    var fields: map<string, Json> := map[];
    var ret := decoder.ArrayOf(2);
    if ret != 0 { return None; }
    if k == KSvc || k == KNet {
      var addr;
      ret, addr := decoder.InAddr();
      if ret != 0 { return None; }
      fields := fields["addr" := JStr(x.ntop4(addr))];
    } else {
      var addr;
      ret, addr := decoder.In6Address();
      if ret != 0 { return None; }
      fields := fields["addr" := JStr(x.ntop6(addr))];
    }
    if !room(1) || !room(2) { return None; }
    if k == KSvc || k == KSvc6 {
      var port;
      ret, port := decoder.Port();
      if ret != 0 { return None; }
      fields := fields["port" := JInt(port)];
    } else {
      var prefix;
      ret, prefix := decoder.Prefix(k == KNet6);
      if ret != 0 { return None; }
      fields := fields["prefix" := JInt(prefix)];
    }
    if !room(3) || !room(4) { return None; }
    obj := Some(JObj(fields));
  }

  // ---- The two paths compared ----

  lemma SecondAgrees(x: Text, v: Item)
    requires Lawful(x) && FieldsInRange(v)
    ensures var j := ToJson(x, v);
            && Member(j, SecondName(v.Kind())).Some?
            && EncSecondFromJson(x, v.Kind(), Member(j, SecondName(v.Kind())).value) == Emitted(0, EncSecond(v))
  {
    match v
    case Svc(_, port) => assert GetInt(x, JInt(port)) == port;
    case Svc6(_, port) => assert GetInt(x, JInt(port)) == port;
    case Net(_, p) => assert GetInt(x, JInt(p)) == p;
    case Net6(_, p) => assert GetInt(x, JInt(p)) == p;
  }

  lemma FirstAgrees(x: Text, v: Item)
    requires Lawful(x)
    ensures var j := ToJson(x, v);
            && Member(j, "addr").Some?
            && EncAddrFromJson(x, v.Kind(), Member(j, "addr").value) == Emitted(0, EncFirst(v))
  {
  }

  /** A structure written as JSON is encoded to the bytes of the structure, and those bytes decode
      to the same JSON and leave what follows. */
  lemma PathsAgree(x: Text, v: Item, rest: Bytes)
    requires Lawful(x) && FieldsInRange(v)
    ensures EncFromJson(x, v.Kind(), ToJson(x, v)) == Emitted(0, Enc(v))
    ensures DecFields(v.Kind(), Enc(v) + rest) == Good(v, rest)
  {
    FirstAgrees(x, v);
    SecondAgrees(x, v);
    FieldsRoundTrip(v, rest);
  }

  /** The structure a JSON value stands for: its second number reduced to the field's width. */
  function FromJson(x: Text, k: Kind, j: Json): Option<Item> {
    if Member(j, "addr").None? || !Member(j, "addr").value.JStr? || Member(j, SecondName(k)).None? then None
    else
      var text, n := Member(j, "addr").value.s, GetInt(x, Member(j, SecondName(k)).value);
      if k == KSvc || k == KNet then
        match x.pton4(text)
        case None => None
        case Some(a) => Some(if k == KSvc then Svc(a, n % 0x1_0000) else Net(a, n % 0x100))
      else
        match x.pton6(text)
        case None => None
        case Some(a) => Some(if k == KSvc6 then Svc6(a, n % 0x1_0000) else Net6(a, n % 0x100))
  }

  /** json-c reports no error for the second number. */
  predicate Readable(x: Text, k: Kind, j: Json) {
    Member(j, SecondName(k)).Some? && x.errno(Member(j, SecondName(k)).value) == 0
  }

  /** Exactly which JSON is accepted, and as what: the fields must be in range after the cast, and
      for a network nothing relates its address to its prefix. */
  lemma JsonAccepted(x: Text, k: Kind, j: Json)
    ensures EncFromJson(x, k, j).ret == 0 <==>
            FromJson(x, k, j).Some? && Readable(x, k, j) && FieldsInRange(FromJson(x, k, j).value)
    ensures EncFromJson(x, k, j).ret == 0 ==> EncFromJson(x, k, j).bytes == Enc(FromJson(x, k, j).value)
  {
  }

  /** What JSON put on the stream, the JSON decoder always reads back; the structure decoder does
      exactly when the structure passes its check, which for services it always does. */
  lemma JsonThenStruct(x: Text, k: Kind, j: Json, rest: Bytes)
    requires EncFromJson(x, k, j).ret == 0
    ensures var v := FromJson(x, k, j).value;
            var s := EncFromJson(x, k, j).bytes + rest;
            && DecFields(k, s) == Good(v, rest)
            && Dec(k, s) == (if Valid(v) then Good(v, rest) else Bad(1))
            && (k == KSvc || k == KSvc6 ==> Valid(v))
  {
    JsonAccepted(x, k, j);
    var v := FromJson(x, k, j).value;
    FieldsRoundTrip(v, rest);
    ChkIsValid(v);
  }

  /** The JSON path accepts strictly more: for every prefix but 0 there is a network that only it
      lets through. */
  lemma JsonAcceptsMore(x: Text, p: byte)
    requires Lawful(x) && 0 < p < 32
    ensures var v := Net(1, p);
            && EncFromJson(x, KNet, ToJson(x, v)) == Emitted(0, Enc(v))
            && Chk(v) == 1
            && Dec(KNet, Enc(v)) == Bad(1)
  {
    var v := Net(1, p);
    PathsAgree(x, v, []);
    assert Enc(v) + [] == Enc(v);
    CheckInIsDivisibility(1, p);
    Pow2Monotonic(1, p);
    assert Pow2(1) == 2;
    ModUnique(1, 0, Pow2(p), 1);
  }

  /** And for every IPv6 prefix there is one too. */
  lemma Json6AcceptsMore(x: Text, p: byte)
    requires Lawful(x) && p < 128
    ensures var v := Net6(OneByte(15, 1), p);
            && EncFromJson(x, KNet6, ToJson(x, v)) == Emitted(0, Enc(v))
            && Chk(v) == 1
            && Dec(KNet6, Enc(v)) == Bad(1)
  {
    var a := OneByte(15, 1);
    var v := Net6(a, p);
    PathsAgree(x, v, []);
    assert Enc(v) + [] == Enc(v);
    var width := MaskWidth(p, 15);
    assert width >= 1;
    Pow2Monotonic(1, width);
    assert Pow2(1) == 2;
    ModUnique(1, 0, Pow2(width), 1);
    assert a[15] % Pow2(width) != 0;
    assert !In6Clear(a, p);
  }

  /** Prefixes that differ by a multiple of 256 are the same prefix to the JSON path. */
  lemma PrefixNarrowed(x: Text, k: Kind, text: string, n: int, m: int)
    requires Lawful(x) && (k == KNet || k == KNet6)
    requires -0x8000_0000 <= n <= 0x7fff_ffff && -0x8000_0000 <= n + 256 * m <= 0x7fff_ffff
    ensures EncFromJson(x, k, JObj(map["addr" := JStr(text), "prefix" := JInt(n + 256 * m)])) ==
            EncFromJson(x, k, JObj(map["addr" := JStr(text), "prefix" := JInt(n)]))
  {
    assert (n + 256 * m) % 256 == n % 256;
  }

  /** Of a JSON number only the value held to 32 bits, cut to the field's width, reaches the stream: a
      number past the largest int is port 65535, and past the smallest is port 0, which is refused. */
  lemma PortNarrowed(x: Text, k: Kind, text: string, n: int)
    requires (k == KSvc || k == KSvc6) && x.errno(JInt(n)) == 0
    requires EncAddrFromJson(x, k, JStr(text)).ret == 0
    ensures var held := if n < -0x8000_0000 then -0x8000_0000 else if n > 0x7fff_ffff then 0x7fff_ffff else n;
            var e := EncFromJson(x, k, JObj(map["addr" := JStr(text), "port" := JInt(n)]));
            && (e.ret == 0 <==> held % 0x1_0000 != 0)
            && (e.ret != 0 ==> e.ret == -EINVAL)
            && (n > 0x7fff_ffff ==> held % 0x1_0000 == 65535)
            && (n < -0x8000_0000 ==> held % 0x1_0000 == 0)
            && (e.ret == 0 ==>
                  e.bytes == EncodeArray(2) + EncAddrFromJson(x, k, JStr(text)).bytes + EncodeUint(held % 0x1_0000))
  {
    var j := JObj(map["addr" := JStr(text), "port" := JInt(n)]);
    assert Member(j, "addr") == Some(JStr(text)) && Member(j, "port") == Some(JInt(n));
  }

  /** An error that json-c reports for the number is returned as it is. */
  lemma NumberError(x: Text, k: Kind, j: Json)
    requires Member(j, "addr").Some? && EncAddrFromJson(x, k, Member(j, "addr").value).ret == 0
    requires Member(j, SecondName(k)).Some? && x.errno(Member(j, SecondName(k)).value) != 0
    ensures EncFromJson(x, k, j).ret == -x.errno(Member(j, SecondName(k)).value)
  {
  }

  /** What is missing or no address is an invalid argument. */
  lemma JsonInvalid(x: Text, k: Kind, j: Json)
    requires FromJson(x, k, j).None?
    ensures EncFromJson(x, k, j).ret == -EINVAL
  {
  }

  /** What json-c makes of values that are no numbers: `true` is 1, and a list, an object or `false`
      is 0, so that as a port the one is accepted and the others are refused. */
  lemma OddPorts(x: Text, k: Kind, j: Json)
    requires (k == KSvc || k == KSvc6) && x.errno(j) == 0 && (j.JBool? || j.JArr? || j.JObj?)
    ensures EncSecondFromJson(x, k, j) == if j == JBool(true) then Emitted(0, [1]) else Emitted(-EINVAL, [])
  {
  }

  /** A member that is null is as good as none. */
  lemma NullIsMissing(x: Text, k: Kind, name: string, fields: map<string, Json>)
    requires name == "addr" || name == SecondName(k)
    requires name in fields && fields[name] == JNull
    ensures FromJson(x, k, JObj(fields)).None? && EncFromJson(x, k, JObj(fields)).ret == -EINVAL
  {
    JsonInvalid(x, k, JObj(fields));
  }
}
