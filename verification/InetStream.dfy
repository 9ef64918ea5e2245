/**
 The encoder and decoder objects of `lib/inet.c`: a buffer of fixed capacity that
 the `hed_enc_*` functions fill, and a stream that the `hed_dec_*` functions eat.
 */
module InetStream {
  import opened Basics
  import opened MsgPack
  import opened PrefixCheck
  import opened InetCodec

  class Encoder {
    const cap: nat
    var data: Bytes

    constructor (cap: nat)
      ensures this.cap == cap && data == []
    {
      this.cap, data := cap, [];
    }

    /** Appends what fits, and nothing otherwise. */
    method Put(b: Bytes) returns (ret: int)
      modifies this`data
      ensures ret == (if |old(data)| + |b| <= cap then 0 else -EMSGSIZE)
      ensures data == if ret == 0 then old(data) + b else old(data)
    {
      if |data| + |b| > cap { return -EMSGSIZE; }
      data := data + b;
      ret := 0;
    }

    /** Header and both fields; a buffer that runs full keeps the fields that fitted. */
    method PutStruct(first: Bytes, second: Bytes) returns (ret: int)
      modifies this`data
      ensures ret == (if |old(data)| + 1 + |first| + |second| <= cap then 0 else -EMSGSIZE)
      ensures ret == 0 ==> data == old(data) + (EncodeArray(2) + first + second)
      ensures old(data) <= data <= old(data) + (EncodeArray(2) + first + second)
    {
      ghost var was := data;
      ret := Put(EncodeArray(2));
      if ret != 0 { return; }
      ret := Put(first);
      if ret != 0 { return; }
      ret := Put(second);
      assert was + (EncodeArray(2) + first + second) == was + EncodeArray(2) + first + second;
    }

    /** `hed_enc_in_svc`, `hed_enc_in6_svc`, `hed_enc_in_net` and `hed_enc_in6_net` */
    method Encode(v: Item) returns (ret: int)
      requires Chk(v) == 0
      modifies this`data
      ensures ret == (if |old(data)| + |Enc(v)| <= cap then 0 else -EMSGSIZE)
      ensures ret == 0 ==> data == old(data) + Enc(v)
      ensures old(data) <= data <= old(data) + Enc(v)
    {
      match v {
        case Svc(addr, port) => ret := PutStruct(EncodeUint(addr), EncodeUint(port));
        case Svc6(addr, port) => ret := PutStruct(EncodeBin(addr), EncodeUint(port));
        case Net(addr, prefix) => ret := PutStruct(EncodeUint(addr), EncodeUint(prefix));
        case Net6(addr, prefix) => ret := PutStruct(EncodeBin(addr), EncodeUint(prefix));
      }
    }
  }

  class Decoder {
    var left: Bytes

    constructor (s: Bytes)
      ensures left == s
    {
      left := s;
    }

    method ArrayOf(n: nat) returns (ret: int)
      modifies this
      ensures match DecodeArrayOf(old(left), n)
              case Good(_, rest) => ret == 0 && left == rest
              case Bad(code) => ret == code && ret != 0
    {
      var r := DecodeArrayOf(left, n);
      if r.Bad? { return r.code; }
      left, ret := r.rest, 0;
    }

    method InAddr() returns (ret: int, addr: u32)
      modifies this
      ensures match DecodeInAddr(old(left))
              case Good(v, rest) => ret == 0 && addr == v && left == rest
              case Bad(code) => ret == code && ret != 0
    {
      var r := DecodeInAddr(left);
      if r.Bad? { return r.code, 0; }
      left, addr, ret := r.rest, r.value, 0;
    }

    method In6Address() returns (ret: int, addr: In6Addr)
      modifies this
      ensures match DecodeIn6Addr(old(left))
              case Good(v, rest) => ret == 0 && addr == v && left == rest
              case Bad(code) => ret == code && ret != 0
    {
      var r := DecodeIn6Addr(left);
      if r.Bad? { return r.code, seq(16, _ => 0); }
      left, addr, ret := r.rest, r.value, 0;
    }

    /** `hed_dec_port`: the number is consumed before its check. */
    method Port() returns (ret: int, port: u16)
      modifies this
      ensures match DecPort(old(left))
              case Good(v, rest) => ret == 0 && port == v && left == rest
              case Bad(code) => ret == code && ret != 0
    {
      var r := DecodeUint(left, 0xffff);
      if r.Bad? { return r.code, 0; }
      left, port := r.rest, r.value;
      ret := ChkPort(port);
    }

    /** `hed_dec_in_pfx` and `hed_dec_in6_pfx` */
    method Prefix(six: bool) returns (ret: int, prefix: byte)
      modifies this
      ensures match DecPfx(old(left), six)
              case Good(v, rest) => ret == 0 && prefix == v && left == rest
              case Bad(code) => ret == code && ret != 0
    {
      var r := DecodeUint(left, 0xff);
      if r.Bad? { return r.code, 0; }
      left, prefix := r.rest, r.value;
      ret := if six then ChkIn6Pfx(prefix) else ChkInPfx(prefix);
    }

    /** Header and fields of a structure, without its own check. */
    method Fields(k: Kind) returns (ret: int, v: Item)
      modifies this
      ensures match DecFields(k, old(left))
              case Good(w, rest) => ret == 0 && v == w && left == rest
              case Bad(code) => ret == code && ret != 0
    {
      v := Svc(0, 0);
      ret := ArrayOf(2);
      if ret != 0 { return; }
      if k == KSvc || k == KNet {
        var addr;
        ret, addr := InAddr();
        if ret != 0 { return; }
        if k == KSvc {
          var port;
          ret, port := Port();
          v := Svc(addr, port);
        } else {
          var prefix;
          ret, prefix := Prefix(false);
          v := Net(addr, prefix);
        }
      } else {
        var addr;
        ret, addr := In6Address();
        if ret != 0 { return; }
        if k == KSvc6 {
          var port;
          ret, port := Port();
          v := Svc6(addr, port);
        } else {
          var prefix;
          ret, prefix := Prefix(true);
          v := Net6(addr, prefix);
        }
      }
    }

    /** `hed_dec_in_svc`, `hed_dec_in6_svc`, `hed_dec_in_net` and `hed_dec_in6_net` */
    method Decode(k: Kind) returns (ret: int, v: Item)
      modifies this
      ensures match Dec(k, old(left))
              case Good(w, rest) => ret == 0 && v == w && left == rest
              case Bad(code) => ret == code && ret != 0
    {
      ret, v := Fields(k);
      if ret != 0 { return; }
      match v {
        case Net6(addr, prefix) =>
          // The address check is a loop over the bytes.
          ret := CheckIn6(addr, prefix);
          In6ClearBits(addr, prefix);
        case _ => ret := Chk(v);
      }
    }
  }
}
