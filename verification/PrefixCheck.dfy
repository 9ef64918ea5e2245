/**
 The address/prefix checks of `lib/inet-impl.c`: what they accept, bit by bit,
 and how that compares with the rule that host bits are zero.
 */
module PrefixCheck {
  import opened Basics

  // ---- C's bitwise operators on unsigned values ----

  function And(a: nat, b: nat): nat {
    if a == 0 || b == 0 then 0
    else (if a % 2 == 1 && b % 2 == 1 then 1 else 0) + 2 * And(a / 2, b / 2)
  }

  function Or(a: nat, b: nat): (r: nat)
    ensures r == 0 <==> a == 0 && b == 0
    decreases a + b
  {
    if a == 0 && b == 0 then 0
    else (if a % 2 == 1 || b % 2 == 1 then 1 else 0) + 2 * Or(a / 2, b / 2)
  }

  lemma ModUnique(x: nat, q: nat, d: nat, r: nat)
    requires d > 0 && x == q * d + r && r < d
    ensures x % d == r && x / d == q
  {
    var q', r' := x / d, x % d;
    assert x == q' * d + r';
    if q' < q {
      assert q * d == q' * d + (q - q') * d;
      MulAtLeast(q - q', d);
    } else if q' > q {
      assert q' * d == q * d + (q' - q) * d;
      MulAtLeast(q' - q, d);
    }
  }

  lemma MulAtLeast(k: nat, d: nat)
    requires k >= 1
    ensures k * d >= d
  {
    assert k * d == (k - 1) * d + d;
  }

  lemma ModDouble(a: nat, p: nat)
    requires p > 0
    ensures a % (2 * p) == a % 2 + 2 * ((a / 2) % p)
  {
    var h := a / 2;
    var q, r := h / p, h % p;
    assert h == q * p + r;
    assert a == q * (2 * p) + (a % 2 + 2 * r) by {
      assert q * (2 * p) == 2 * (q * p);
    }
    ModUnique(a, q, 2 * p, a % 2 + 2 * r);
  }

  /** Masking with the low `n` bits set is the remainder by 2^n. */
  lemma {:induction false} AndMask(a: nat, n: nat)
    ensures And(a, Pow2(n) - 1) == a % Pow2(n)
  {
    if n > 0 {
      AndMask(a / 2, n - 1);
      assert (Pow2(n) - 1) / 2 == Pow2(n - 1) - 1 && (Pow2(n) - 1) % 2 == 1;
      ModDouble(a, Pow2(n - 1));
    }
  }

  /** Bit `j` of `x`, from the least significant. */
  function BitAt(x: nat, j: nat): nat {
    x / Pow2(j) % 2
  }

  lemma {:induction false} LowBitZero(x: nat, n: nat, j: nat)
    requires x % Pow2(n) == 0 && j < n
    ensures BitAt(x, j) == 0
  {
    ModDouble(x, Pow2(n - 1));
    if j > 0 {
      LowBitZero(x / 2, n - 1, j - 1);
      DivDiv(x, Pow2(j - 1));
    } else {
      assert Pow2(0) == 1;
    }
  }

  lemma {:induction false} LowBitsAllZero(x: nat, n: nat)
    requires forall j: nat | j < n :: BitAt(x, j) == 0
    ensures x % Pow2(n) == 0
  {
    if n > 0 {
      assert Pow2(0) == 1 && BitAt(x, 0) == x % 2;
      forall j: nat | j < n - 1 ensures BitAt(x / 2, j) == 0 {
        DivDiv(x, Pow2(j));
        assert BitAt(x, j + 1) == 0;
      }
      LowBitsAllZero(x / 2, n - 1);
      ModDouble(x, Pow2(n - 1));
    }
  }

  /** 2^n divides `x` exactly when its low `n` bits are zero. */
  lemma LowBits(x: nat, n: nat)
    ensures x % Pow2(n) == 0 <==> forall j: nat | j < n :: BitAt(x, j) == 0
  {
    if x % Pow2(n) == 0 {
      forall j: nat | j < n { LowBitZero(x, n, j); }
    }
    if forall j: nat | j < n :: BitAt(x, j) == 0 { LowBitsAllZero(x, n); }
  }

  lemma DivDiv(x: nat, p: nat)
    requires p > 0
    ensures x / 2 / p == x / (2 * p)
  {
    var h := x / 2;
    assert h == h / p * p + h % p;
    assert x == h / p * (2 * p) + (x % 2 + 2 * (h % p)) by {
      assert h / p * (2 * p) == 2 * (h / p * p);
    }
    ModUnique(x, h / p, 2 * p, x % 2 + 2 * (h % p));
  }

  // ---- IPv6 ----

  type In6Addr = a: Bytes | |a| == 16 witness [0, 0, 0, 0, 0, 0, 0, 0, 0, 0, 0, 0, 0, 0, 0, 0]

  /** How many low bits of byte `i` the loop looks at. */
  function MaskWidth(prefix: byte, i: nat): nat {
    if i < prefix / 8 then 0
    else if i == prefix / 8 && prefix % 8 != 0 then prefix % 8
    else 8
  }

  predicate In6Clear(addr: In6Addr, prefix: byte) {
    forall i | 0 <= i < 16 :: addr[i] % Pow2(MaskWidth(prefix, i)) == 0
  }

  /** `hed_in6_net_check_addr_prefix` */
  method CheckIn6(addr: In6Addr, prefix: byte) returns (r: int)
    ensures r == if MaskedBitsZero(addr, prefix) then 0 else 1
  {
    var left: nat := prefix;
    var ret: nat := 0;
    for i := 0 to 16
      invariant left == if 8 * i <= prefix then prefix - 8 * i else 0
      invariant ret == 0 <==> forall j | 0 <= j < i :: addr[j] % Pow2(MaskWidth(prefix, j)) == 0
    {
      var mask: nat;
      if left == 0 {
        mask := 0xFF;
      } else if left <= 7 {
        mask := Pow2(left) - 1;
        left := 0;
      } else {
        mask := 0;
        left := left - 8;
      }
      AndMask(addr[i], MaskWidth(prefix, i));
      assert Pow2(8) == 256 && Pow2(0) == 1;
      assert mask == Pow2(MaskWidth(prefix, i)) - 1;
      ret := Or(ret, And(addr[i], mask));
    }
    r := if ret != 0 then 1 else 0;
    In6ClearBits(addr, prefix);
  }

  /** Bit `k` of an address, counted from the most significant bit of its first byte. */
  ghost function Bit(addr: In6Addr, k: nat): nat
    requires k < 128
  {
    BitAt(addr[k / 8], 7 - k % 8)
  }

  /** The bits the check looks at: the low `prefix % 8` bits of the boundary byte, or all of it when
      that is 0, and every bit of the bytes after it. */
  ghost predicate Masked(prefix: byte, k: nat) {
    || k / 8 > prefix / 8
    || (k / 8 == prefix / 8 && (prefix % 8 == 0 || k % 8 >= 8 - prefix % 8))
  }

  ghost predicate MaskedBitsZero(addr: In6Addr, prefix: byte) {
    forall k: nat | k < 128 && Masked(prefix, k) :: Bit(addr, k) == 0
  }

  lemma MaskWidthIs(prefix: byte, k: nat)
    ensures Masked(prefix, k) <==> 7 - k % 8 < MaskWidth(prefix, k / 8)
  {
  }

  lemma In6ClearBits(addr: In6Addr, prefix: byte)
    ensures In6Clear(addr, prefix) <==> MaskedBitsZero(addr, prefix)
  {
    forall i | 0 <= i < 16 { LowBits(addr[i], MaskWidth(prefix, i)); }
    if In6Clear(addr, prefix) {
      forall k: nat | k < 128 && Masked(prefix, k) ensures Bit(addr, k) == 0 {
        MaskWidthIs(prefix, k);
        assert addr[k / 8] % Pow2(MaskWidth(prefix, k / 8)) == 0;
      }
    }
    if MaskedBitsZero(addr, prefix) {
      forall i | 0 <= i < 16 ensures addr[i] % Pow2(MaskWidth(prefix, i)) == 0 {
        forall j: nat | j < MaskWidth(prefix, i) ensures BitAt(addr[i], j) == 0 {
          var k := 8 * i + (7 - j);
          assert k / 8 == i && k % 8 == 7 - j;
          MaskWidthIs(prefix, k);
          assert Bit(addr, k) == 0;
        }
      }
    }
  }

  /** Section 2.3 of RFC 4291: every bit after the prefix is zero. */
  ghost predicate HostBitsZero(addr: In6Addr, prefix: byte) {
    forall k: nat | prefix <= k < 128 :: Bit(addr, k) == 0
  }

  /** With at most four bits of the boundary byte in the prefix, the check is implied by the rule. */
  lemma RuleImpliesCheck(addr: In6Addr, prefix: byte)
    requires prefix < 128 && prefix % 8 <= 4 && HostBitsZero(addr, prefix)
    ensures In6Clear(addr, prefix)
  {
    In6ClearBits(addr, prefix);
    forall k: nat | k < 128 && Masked(prefix, k) ensures Bit(addr, k) == 0 {
      assert prefix <= k;
    }
  }

  /** With four or more, or none, the check implies the rule. */
  lemma CheckImpliesRule(addr: In6Addr, prefix: byte)
    requires prefix < 128 && (prefix % 8 == 0 || prefix % 8 >= 4) && In6Clear(addr, prefix)
    ensures HostBitsZero(addr, prefix)
  {
    In6ClearBits(addr, prefix);
    forall k: nat | prefix <= k < 128 ensures Bit(addr, k) == 0 {
      assert Masked(prefix, k);
    }
  }

  /** The address whose only non-zero byte is byte `i`. */
  function OneByte(i: nat, x: byte): In6Addr
    requires i < 16
  {
    seq(16, j => if j == i then x else 0)
  }

  lemma OneByteClear(prefix: byte, x: byte)
    requires prefix < 128
    ensures In6Clear(OneByte(prefix / 8, x), prefix) <==> x % Pow2(MaskWidth(prefix, prefix / 8)) == 0
  {
    var a := OneByte(prefix / 8, x);
    assert a[prefix / 8] == x;
    forall i | 0 <= i < 16 && i != prefix / 8 ensures a[i] % Pow2(MaskWidth(prefix, i)) == 0 {
      ModUnique(0, 0, Pow2(MaskWidth(prefix, i)), 0);
    }
  }

  lemma OneByteHostBits(prefix: byte, x: byte)
    requires prefix < 128 && HostBitsZero(OneByte(prefix / 8, x), prefix)
    ensures x % Pow2(8 - prefix % 8) == 0
  {
    var q, r := prefix / 8, prefix % 8;
    forall j: nat | j < 8 - r ensures BitAt(x, j) == 0 {
      var k := 8 * q + (7 - j);
      assert k / 8 == q && k % 8 == 7 - j && prefix <= k < 128;
      assert Bit(OneByte(q, x), k) == 0;
    }
    LowBits(x, 8 - r);
  }

  lemma OneByteHostZero(prefix: byte, x: byte)
    requires prefix < 128 && x % Pow2(8 - prefix % 8) == 0
    ensures HostBitsZero(OneByte(prefix / 8, x), prefix)
  {
    var q, r := prefix / 8, prefix % 8;
    LowBits(x, 8 - r);
    forall k: nat | prefix <= k < 128 ensures Bit(OneByte(q, x), k) == 0 {
      if k / 8 == q {
        assert 7 - k % 8 < 8 - r;
      } else {
        ModUnique(0, 0, Pow2(7 - k % 8), 0);
      }
    }
  }

  /** A byte that the check passes and the rule does not, or the other way round. */
  function Witness(r: nat): byte
    requires r < 8
  {
    [0, 2, 4, 8, 0, 8, 4, 2][r]
  }

  lemma WitnessByte(r: nat)
    requires r < 8 && r != 0 && r != 4
    ensures Witness(r) % Pow2(r) == 0 <==> r < 4
    ensures Witness(r) % Pow2(8 - r) == 0 <==> r > 4
  {
    assert Pow2(0) == 1 && Pow2(1) == 2 && Pow2(2) == 4 && Pow2(3) == 8;
    assert Pow2(4) == 16 && Pow2(5) == 32 && Pow2(6) == 64 && Pow2(7) == 128;
  }

  lemma WitnessWorks(prefix: byte)
    requires prefix < 128 && prefix % 8 != 0 && prefix % 8 != 4
    ensures var a := OneByte(prefix / 8, Witness(prefix % 8));
            && (prefix % 8 < 4 ==> In6Clear(a, prefix) && !HostBitsZero(a, prefix))
            && (prefix % 8 > 4 ==> !In6Clear(a, prefix) && HostBitsZero(a, prefix))
  {
    var r := prefix % 8;
    OneByteClear(prefix, Witness(r));
    WitnessByte(r);
    if r > 4 {
      OneByteHostZero(prefix, Witness(r));
    } else if HostBitsZero(OneByte(prefix / 8, Witness(r)), prefix) {
      OneByteHostBits(prefix, Witness(r));
    }
  }

  /** The check is the rule on all addresses exactly when the boundary byte is split evenly or
      not at all. */
  lemma In6CheckIsRule(prefix: byte)
    requires prefix < 128
    ensures (forall addr: In6Addr :: In6Clear(addr, prefix) <==> HostBitsZero(addr, prefix))
            <==> prefix % 8 == 0 || prefix % 8 == 4
  {
    if prefix % 8 == 0 || prefix % 8 == 4 {
      forall addr: In6Addr ensures In6Clear(addr, prefix) <==> HostBitsZero(addr, prefix) {
        if In6Clear(addr, prefix) { CheckImpliesRule(addr, prefix); }
        if HostBitsZero(addr, prefix) { RuleImpliesCheck(addr, prefix); }
      }
    } else {
      WitnessWorks(prefix);
    }
  }

  // ---- IPv4 ----

  /** `hed_in_net_check_addr_prefix`: the shift is on a 32-bit unsigned value. */
  function CheckIn(s_addr: u32, prefix: byte): (r: int)
    requires prefix < 32
  {
    var mask := (Pow2(prefix) % WRAP32) - 1;
    Pow2Below32(prefix);
    if And(s_addr, mask) != 0 then 1 else 0
  }

  lemma {:induction false} Pow2Monotonic(m: nat, n: nat)
    requires m <= n
    ensures Pow2(m) <= Pow2(n)
  {
    if m < n { Pow2Monotonic(m, n - 1); }
  }

  lemma Pow2Quadruple(n: nat)
    ensures Pow2(n + 2) == 4 * Pow2(n)
  {
  }

  lemma Pow2Below32(n: nat)
    requires n < 32
    ensures Pow2(n) < WRAP32 && Pow2(n) % WRAP32 == Pow2(n)
  {
    Pow2Monotonic(n, 31);
    PowersOf2();
    Pow2Quadruple(24);
    Pow2Quadruple(26);
    Pow2Quadruple(28);
    assert Pow2(31) == 2 * Pow2(30);
  }

  /** The check passes exactly the addresses, read as host integers, that 2^prefix divides. */
  lemma CheckInIsDivisibility(s_addr: u32, prefix: byte)
    requires prefix < 32
    ensures CheckIn(s_addr, prefix) == 0 <==> s_addr % Pow2(prefix) == 0
    ensures CheckIn(s_addr, prefix) == 0 || CheckIn(s_addr, prefix) == 1
  {
    Pow2Below32(prefix);
    AndMask(s_addr, prefix);
  }

  datatype Octets = Octets(a: byte, b: byte, c: byte, d: byte)

  /** The four octets in network order, as a number. */
  function Network(o: Octets): u32 {
    ((o.a * 256 + o.b) * 256 + o.c) * 256 + o.d
  }

  /** The same octets read as `s_addr` by a little-endian or a big-endian host. */
  function Loaded(little: bool, o: Octets): u32 {
    if little then ((o.d * 256 + o.c) * 256 + o.b) * 256 + o.a else Network(o)
  }

  ghost predicate In4HostBitsZero(o: Octets, prefix: byte)
    requires prefix < 32
  {
    Network(o) % Pow2(32 - prefix) == 0
  }

  lemma PowersOf2()
    ensures Pow2(8) == 0x100 && Pow2(16) == 0x1_0000 && Pow2(24) == 0x100_0000
  {
    assert Pow2(8) == 0x100;
    assert Pow2(16) == 0x1_0000;
  }

  lemma {:induction false} Pow2Divides(m: nat, n: nat)
    requires m <= n
    ensures Pow2(n) % Pow2(m) == 0
  {
    if m > 0 {
      Pow2Divides(m - 1, n - 1);
      ModDouble(Pow2(n), Pow2(m - 1));
    } else {
      assert Pow2(0) == 1;
    }
  }

  lemma FirstOctetOnly(prefix: byte)
    requires 8 <= prefix < 32
    ensures CheckIn(Loaded(true, Octets(1, 0, 0, 0)), prefix) == 1
    ensures In4HostBitsZero(Octets(1, 0, 0, 0), prefix)
  {
    PowersOf2();
    CheckInIsDivisibility(1, prefix);
    Pow2Monotonic(8, prefix);
    ModUnique(1, 0, Pow2(prefix), 1);
    Pow2Divides(32 - prefix, 24);
  }

  lemma SecondOctetOnly(prefix: byte)
    requires prefix < 8
    ensures CheckIn(Loaded(true, Octets(0, 1, 0, 0)), prefix) == 0
    ensures !In4HostBitsZero(Octets(0, 1, 0, 0), prefix)
  {
    PowersOf2();
    CheckInIsDivisibility(256, prefix);
    Pow2Divides(prefix, 8);
    Pow2Monotonic(24, 32 - prefix);
    ModUnique(0x1_0000, 0, Pow2(32 - prefix), 0x1_0000);
  }

  /** On a little-endian host the check differs from the rule for every prefix: the rule accepts
      1.0.0.0 from /8 on and the check does not, and below /8 the check accepts 0.1.0.0 and the
      rule does not. */
  lemma LittleEndianNeverAgrees(prefix: byte)
    requires prefix < 32
    ensures var o := if prefix >= 8 then Octets(1, 0, 0, 0) else Octets(0, 1, 0, 0);
            (CheckIn(Loaded(true, o), prefix) == 0) == (prefix < 8)
            && In4HostBitsZero(o, prefix) == (prefix >= 8)
  {
    if prefix >= 8 { FirstOctetOnly(prefix); } else { SecondOctetOnly(prefix); }
  }

  /** On a big-endian host it agrees on all addresses for /16 alone. */
  lemma BigEndianAgreesAt16(prefix: byte)
    requires prefix < 32
    ensures (forall o: Octets :: CheckIn(Loaded(false, o), prefix) == 0 <==> In4HostBitsZero(o, prefix))
            <==> prefix == 16
  {
    forall o: Octets { CheckInIsDivisibility(Loaded(false, o), prefix); }
    if prefix != 16 {
      BigEndianWitness(prefix);
    }
  }

  lemma BigEndianWitness(prefix: byte)
    requires prefix < 32 && prefix != 16
    ensures exists o: Octets ::
              !(CheckIn(Loaded(false, o), prefix) == 0 <==> In4HostBitsZero(o, prefix))
  {
    PowersOf2();
    if prefix < 16 {
      var o := Octets(0, 1, 0, 0);
      CheckInIsDivisibility(Network(o), prefix);
      Pow2Divides(prefix, 16);
      Pow2Monotonic(17, 32 - prefix);
      ModUnique(0x1_0000, 0, Pow2(32 - prefix), 0x1_0000);
      assert CheckIn(Loaded(false, o), prefix) == 0 && !In4HostBitsZero(o, prefix);
    } else {
      var o := Octets(0, 0, 128, 0);
      assert Pow2(15) == 0x8000;
      CheckInIsDivisibility(0x8000, prefix);
      Pow2Divides(32 - prefix, 15);
      Pow2Monotonic(17, prefix);
      ModUnique(0x8000, 0, Pow2(prefix), 0x8000);
      assert CheckIn(Loaded(false, o), prefix) != 0 && In4HostBitsZero(o, prefix);
    }
  }
}
