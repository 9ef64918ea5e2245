/** Bytes, options and the few sequence helpers that every other module uses. */
module Basics {

  type byte = b: int | 0 <= b < 256
  type Bytes = seq<byte>

  datatype Option<+T> = None | Some(value: T)

  const WRAP32: int := 0x1_0000_0000

  type u32 = x: int | 0 <= x < WRAP32

  // errno values of Linux
  const EPERM: int := 1
  const ENOENT: int := 2
  const EAGAIN: int := 11
  const ENOMEM: int := 12
  const EINVAL: int := 22
  const ENOMSG: int := 42
  const EPROTO: int := 71
  const EMSGSIZE: int := 90

  function Front<T>(s: seq<T>): seq<T>
    requires s != []
  {
    s[..|s| - 1]
  }

  function Back<T>(s: seq<T>): T
    requires s != []
  {
    s[|s| - 1]
  }

  /** The `n` low-order bytes of `x`, least significant first: how the host stores an integer. */
  function LittleEndian(x: nat, n: nat): (r: Bytes)
    ensures |r| == n
  {
    if n == 0 then [] else [x % 256] + LittleEndian(x / 256, n - 1)
  }

  function FromLittleEndian(s: Bytes): (x: nat)
  {
    if s == [] then 0 else s[0] + 256 * FromLittleEndian(s[1..])
  }

  function Pow2(n: nat): (r: nat)
    ensures r >= 1
  {
    if n == 0 then 1 else 2 * Pow2(n - 1)
  }

  function Pow256(n: nat): (r: nat)
    ensures r >= 1
  {
    if n == 0 then 1 else 256 * Pow256(n - 1)
  }

  lemma {:induction false} LittleEndianRoundTrip(x: nat, n: nat)
    requires x < Pow256(n)
    ensures FromLittleEndian(LittleEndian(x, n)) == x
  {
    if n > 0 {
      LittleEndianRoundTrip(x / 256, n - 1);
      assert LittleEndian(x, n)[1..] == LittleEndian(x / 256, n - 1);
    }
  }

  lemma {:induction false} FromLittleEndianBound(s: Bytes)
    ensures FromLittleEndian(s) < Pow256(|s|)
    ensures LittleEndian(FromLittleEndian(s), |s|) == s
  {
    if s != [] {
      FromLittleEndianBound(s[1..]);
      var x := FromLittleEndian(s);
      assert x % 256 == s[0] && x / 256 == FromLittleEndian(s[1..]);
      assert s == [s[0]] + s[1..];
    }
  }

  lemma TwoBytes(s: Bytes)
    requires |s| >= 2
    ensures FromLittleEndian(s) == s[0] + 0x100 * s[1] + 0x1_0000 * FromLittleEndian(s[2..])
  {
    assert s[1..][0] == s[1] && s[1..][1..] == s[2..];
  }

  /** Least significant first: each byte weighs 256 times the one before it. */
  lemma FourBytesWeigh(s: Bytes)
    requires |s| >= 4
    ensures FromLittleEndian(s) ==
            s[0] + 0x100 * s[1] + 0x1_0000 * s[2] + 0x100_0000 * s[3] + 0x1_0000_0000 * FromLittleEndian(s[4..])
  {
    TwoBytes(s);
    TwoBytes(s[2..]);
    assert s[2..][2..] == s[4..];
  }

  lemma FrontBack<T>(s: seq<T>, x: T)
    ensures Front(s + [x]) == s && Back(s + [x]) == x
  {
  }
}
