/**
 The enumerations and the name type of `lib/base.c`, `include/hed/base.h` and the
 `ip_type` table of `lib/inet.c`.
 */
module BaseCodec {
  import opened Basics
  import opened MsgPack

  // ---- Sorted tables of strings ----

  /** The sign of C's `strcmp`. */
  function Strcmp(a: string, b: string): int {
    if a == [] && b == [] then 0
    else if a == [] then -1
    else if b == [] then 1
    else if a[0] != b[0] then (if a[0] < b[0] then -1 else 1)
    else Strcmp(a[1..], b[1..])
  }

  lemma {:induction false} StrcmpEqual(a: string, b: string)
    ensures Strcmp(a, b) == 0 <==> a == b
  {
    if a != [] && b != [] {
      StrcmpEqual(a[1..], b[1..]);
      assert a == [a[0]] + a[1..] && b == [b[0]] + b[1..];
    }
  }

  lemma {:induction false} StrcmpTransitive(a: string, b: string, c: string)
    requires Strcmp(a, b) <= 0 && Strcmp(b, c) <= 0
    ensures Strcmp(a, c) <= 0
    ensures Strcmp(a, b) < 0 || Strcmp(b, c) < 0 ==> Strcmp(a, c) < 0
  {
    if a != [] && b != [] && c != [] && a[0] == b[0] == c[0] { StrcmpTransitive(a[1..], b[1..], c[1..]); }
  }

  lemma {:induction false} StrcmpFlip(a: string, b: string)
    ensures Strcmp(a, b) < 0 <==> Strcmp(b, a) > 0
  {
    if a != [] && b != [] { StrcmpFlip(a[1..], b[1..]); }
  }

  datatype Entry = Entry(str: string, value: int32)

  predicate Sorted(t: seq<Entry>) {
    forall i, j | 0 <= i < j < |t| :: Strcmp(t[i].str, t[j].str) < 0
  }

  predicate DistinctValues(t: seq<Entry>) {
    forall i, j | 0 <= i < j < |t| :: t[i].value != t[j].value
  }

  const BAUDS: seq<Entry> := [
    Entry("115200", 115200), Entry("19200", 19200), Entry("38400", 38400), Entry("57600", 57600), Entry("9600", 9600)]
  const TOGGLE: seq<Entry> := [Entry("disable", 0), Entry("enable", 1)]
  const POWER: seq<Entry> := [Entry("off", 0), Entry("on", 1)]
  const LINK_STATE: seq<Entry> := [Entry("detected", 2), Entry("down", 0), Entry("up", 1)]
  const IP_TYPE: seq<Entry> := [Entry("IPv4", 2), Entry("IPv6", 10)]

  lemma BaudsSorted()
    ensures Sorted(BAUDS) && DistinctValues(BAUDS)
  {
    StrcmpSecond("115200", "19200");
    forall i, j | 0 <= i < j < |BAUDS| ensures Strcmp(BAUDS[i].str, BAUDS[j].str) < 0 {
      if !(i == 0 && j == 1) { StrcmpFirst(BAUDS[i].str, BAUDS[j].str); }
    }
  }

  lemma StrcmpFirst(a: string, b: string)
    requires a != [] && b != [] && a[0] < b[0]
    ensures Strcmp(a, b) < 0
  {
  }

  lemma StrcmpSecond(a: string, b: string)
    requires |a| > 1 && |b| > 1 && a[0] == b[0] && a[1] < b[1]
    ensures Strcmp(a, b) < 0
  {
    StrcmpFirst(a[1..], b[1..]);
  }

  lemma ToggleSorted()
    ensures Sorted(TOGGLE) && DistinctValues(TOGGLE)
  {
  }

  lemma PowerSorted()
    ensures Sorted(POWER) && DistinctValues(POWER)
  {
    assert Strcmp("off", "on") == Strcmp("ff", "n");
  }

  lemma LinkStateSorted()
    ensures Sorted(LINK_STATE) && DistinctValues(LINK_STATE)
  {
    assert Strcmp("detected", "down") == Strcmp("etected", "own");
  }

  lemma IpTypeSorted()
    ensures Sorted(IP_TYPE) && DistinctValues(IP_TYPE)
  {
    assert Strcmp("IPv4", "IPv6") == Strcmp("Pv4", "Pv6") == Strcmp("v4", "v6") == Strcmp("4", "6");
  }

  /** Each table of the library is in `strcmp` order and gives no value two strings. */
  lemma TablesSorted()
    ensures forall t <- [BAUDS, TOGGLE, POWER, LINK_STATE, IP_TYPE] :: Sorted(t) && DistinctValues(t)
  {
    BaudsSorted();
    ToggleSorted();
    PowerSorted();
    LinkStateSorted();
    IpTypeSorted();
  }

  /** `hed_*_to_str`: the first entry with the value. */
  method ToStr(t: seq<Entry>, value: int32) returns (r: Option<string>)
    ensures r == StrOf(t, value)
  {
    for i := 0 to |t|
      invariant StrOf(t, value) == StrOf(t[i..], value)
    {
      if t[i].value == value { return Some(t[i].str); }
      assert t[i..][1..] == t[i + 1..];
    }
    r := None;
  }

  function StrOf(t: seq<Entry>, value: int32): Option<string> {
    if t == [] then None else if t[0].value == value then Some(t[0].str) else StrOf(t[1..], value)
  }

  /** The linear search that `hed_*_from_str` stands for. */
  function ValueOf(t: seq<Entry>, s: string): Option<int32> {
    if t == [] then None else if t[0].str == s then Some(t[0].value) else ValueOf(t[1..], s)
  }

  lemma {:induction false} ValueOfIs(t: seq<Entry>, s: string)
    ensures match ValueOf(t, s)
            case None => forall i | 0 <= i < |t| :: t[i].str != s
            case Some(v) => exists i | 0 <= i < |t| :: t[i] == Entry(s, v)
  {
    if t != [] && t[0].str != s {
      ValueOfIs(t[1..], s);
      if ValueOf(t, s).Some? {
        var i :| 0 <= i < |t| - 1 && t[1..][i] == Entry(s, ValueOf(t, s).value);
        assert t[i + 1] == Entry(s, ValueOf(t, s).value);
      } else {
        forall i | 0 <= i < |t| ensures t[i].str != s {
          if i > 0 { assert t[1..][i - 1] == t[i]; }
        }
      }
    }
  }

  lemma {:induction false} StrOfIs(t: seq<Entry>, v: int32)
    ensures match StrOf(t, v)
            case None => forall i | 0 <= i < |t| :: t[i].value != v
            case Some(s) => exists i | 0 <= i < |t| :: t[i] == Entry(s, v)
  {
    if t != [] && t[0].value != v {
      StrOfIs(t[1..], v);
      if StrOf(t, v).Some? {
        var i :| 0 <= i < |t| - 1 && t[1..][i] == Entry(StrOf(t, v).value, v);
        assert t[i + 1] == Entry(StrOf(t, v).value, v);
      } else {
        forall i | 0 <= i < |t| ensures t[i].value != v {
          if i > 0 { assert t[1..][i - 1] == t[i]; }
        }
      }
    }
  }

  /** `hed_*_from_str`: bisection over a sorted table agrees with the linear search. */
  method FromStr(t: seq<Entry>, s: string) returns (r: Option<int32>)
    requires Sorted(t)
    ensures r == ValueOf(t, s)
  {
    ValueOfIs(t, s);
    var lo, hi := 0, |t|;
    while lo < hi
      invariant 0 <= lo <= hi <= |t|
      invariant forall i | 0 <= i < |t| && !(lo <= i < hi) :: t[i].str != s
    {
      var mid := lo + (hi - lo) / 2;
      var c := Strcmp(s, t[mid].str);
      StrcmpEqual(s, t[mid].str);
      if c == 0 {
        Unique(t, s, mid);
        return Some(t[mid].value);
      } else if c < 0 {
        forall i | mid <= i < hi ensures t[i].str != s { Beyond(t, s, mid, i); }
        hi := mid;
      } else {
        forall i | lo <= i <= mid ensures t[i].str != s { Beyond(t, s, mid, i); }
        lo := mid + 1;
      }
    }
    r := None;
  }

  lemma Unique(t: seq<Entry>, s: string, mid: nat)
    requires Sorted(t) && mid < |t| && t[mid].str == s
    ensures forall i | 0 <= i < |t| && i != mid :: t[i].str != s
  {
    StrcmpEqual(s, s);
  }

  /** A key on one side of an entry is none of the entries on the other side. */
  lemma Beyond(t: seq<Entry>, s: string, mid: nat, i: nat)
    requires Sorted(t) && mid < |t| && i < |t|
    requires (Strcmp(s, t[mid].str) < 0 && mid <= i) || (Strcmp(s, t[mid].str) > 0 && i <= mid)
    ensures t[i].str != s
  {
    StrcmpEqual(s, s);
    if i != mid && t[i].str == s {
      StrcmpFlip(t[mid].str, s);
      assert false;
    }
  }

  /** The two conversions undo each other. */
  lemma ConversionsInverse(t: seq<Entry>, s: string, v: int32)
    requires Sorted(t) && DistinctValues(t)
    ensures ValueOf(t, s) == Some(v) <==> StrOf(t, v) == Some(s)
  {
    ValueOfIs(t, s);
    StrOfIs(t, v);
    if ValueOf(t, s) == Some(v) {
      var i :| 0 <= i < |t| && t[i] == Entry(s, v);
      assert StrOf(t, v).Some?;
    }
    if StrOf(t, v) == Some(s) {
      var i :| 0 <= i < |t| && t[i] == Entry(s, v);
      Unique(t, s, i);
      assert ValueOf(t, s).Some?;
    }
  }

  /** `hed_*_dump_str`: fills the front of the buffer with the strings in table order. */
  method DumpStr(t: seq<Entry>, buf: array<string>) returns (nr: nat)
    requires buf.Length >= |t|
    modifies buf
    ensures nr == |t|
    ensures forall i | 0 <= i < |t| :: buf[i] == t[i].str
    ensures forall i | |t| <= i < buf.Length :: buf[i] == old(buf[i])
  {
    for i := 0 to |t|
      invariant forall k | 0 <= k < i :: buf[k] == t[k].str
      invariant forall k | i <= k < buf.Length :: buf[k] == old(buf[k])
    {
      buf[i] := t[i].str;
    }
    nr := |t|;
  }

  lemma Said(t: seq<Entry>, i: nat)
    requires Sorted(t) && DistinctValues(t) && i < |t|
    ensures ValueOf(t, t[i].str) == Some(t[i].value) && StrOf(t, t[i].value) == Some(t[i].str)
  {
    ValueOfIs(t, t[i].str);
    Unique(t, t[i].str, i);
    ConversionsInverse(t, t[i].str, t[i].value);
  }

  /** What the library's names mean: the speed of a line is its number, and the states are as the
      headers number them, the address families as Linux does. */
  lemma NamesMean()
    ensures |BAUDS| == 5 && |TOGGLE| == 2 && |POWER| == 2 && |LINK_STATE| == 3 && |IP_TYPE| == 2
    ensures ValueOf(BAUDS, "9600") == Some(9600) && ValueOf(BAUDS, "19200") == Some(19200)
    ensures ValueOf(BAUDS, "38400") == Some(38400) && ValueOf(BAUDS, "57600") == Some(57600)
    ensures ValueOf(BAUDS, "115200") == Some(115200)
    ensures ValueOf(TOGGLE, "disable") == Some(0) && ValueOf(TOGGLE, "enable") == Some(1)
    ensures ValueOf(POWER, "off") == Some(0) && ValueOf(POWER, "on") == Some(1)
    ensures ValueOf(LINK_STATE, "down") == Some(0) && ValueOf(LINK_STATE, "up") == Some(1)
    ensures ValueOf(LINK_STATE, "detected") == Some(2)
    ensures ValueOf(IP_TYPE, "IPv4") == Some(2) && ValueOf(IP_TYPE, "IPv6") == Some(10)
  {
    TablesSorted();
    Said(BAUDS, 0);
    Said(BAUDS, 1);
    Said(BAUDS, 2);
    Said(BAUDS, 3);
    Said(BAUDS, 4);
    Said(TOGGLE, 0);
    Said(TOGGLE, 1);
    Said(POWER, 0);
    Said(POWER, 1);
    Said(LINK_STATE, 0);
    Said(LINK_STATE, 1);
    Said(LINK_STATE, 2);
    Said(IP_TYPE, 0);
    Said(IP_TYPE, 1);
  }

  // ---- Enumerations on the stream ----

  /** `hed_dec_*` of an enumeration: an int of the table. */
  function DecEnum(t: seq<Entry>, s: Bytes): Parsed<int32> {
    match DecodeInt(s)
    case Bad(code) => Bad(code)
    case Good(v, rest) =>
      if !(-0x8000_0000 <= v < 0x8000_0000) then Bad(-ENOMSG)
      else if StrOf(t, v).None? then Bad(-EINVAL)
      else Good(v, rest)
  }

  /** The encoder checks nothing: what it writes is read back exactly for the values of the table. */
  lemma EnumRoundTrip(t: seq<Entry>, v: int32, rest: Bytes)
    ensures DecEnum(t, EncodeInt(v) + rest) ==
            if exists i | 0 <= i < |t| :: t[i].value == v then Good(v, rest) else Bad(-EINVAL)
  {
    IntRoundTrip(v, rest);
    StrOfIs(t, v);
  }

  // ---- Names ----

  predicate Letter(c: byte) { 0x41 <= c <= 0x5a || 0x61 <= c <= 0x7a }

  /** The pattern of names, anchored at both ends. */
  predicate Pattern(s: Bytes) {
    s != [] && Letter(s[0]) && forall c <- s[1..] :: Letter(c) || 0x30 <= c <= 0x39 || c == 0x5f
  }

  /** `regexec` looks for a stretch of the text that the pattern describes. An anchor holds at an end
      of the text, unless a flag says that this end is not the beginning or the end of a line. */
  predicate RegexMatches(notbol: bool, noteol: bool, s: Bytes) {
    exists i, j | 0 <= i <= j <= |s| ::
      (i == 0 && !notbol) && (j == |s| && !noteol) && Pattern(s[i..j])
  }

  /** So the anchored pattern describes the whole text, and either flag rules it out. */
  lemma AnchoredMatch(notbol: bool, noteol: bool, s: Bytes)
    ensures RegexMatches(notbol, noteol, s) <==> !notbol && !noteol && Pattern(s)
  {
    assert s[0..|s|] == s;
  }

  function ChkName(s: Bytes, notbol: bool := true, noteol: bool := true): int {
    if 40 < |s| then -EINVAL
    else if RegexMatches(notbol, noteol, s) then -EINVAL
    else 0
  }

  /** `dpack_decode_lvstr_max` and the check. */
  function DecName(s: Bytes): Parsed<Bytes> {
    match DecodeStr(s)
    case Bad(code) => Bad(code)
    case Good(b, rest) =>
      if 40 < |b| then Bad(-ENOMSG) else if ChkName(b) != 0 then Bad(ChkName(b)) else Good(b, rest)
  }

  /** Without the two flags the check would refuse exactly the names the pattern describes. */
  lemma FlagsHideTheCheck(s: Bytes)
    ensures ChkName(s, false, false) == 0 <==> |s| <= 40 && !Pattern(s)
  {
    AnchoredMatch(false, false, s);
  }

  /** Only the length of a name is ever checked, and every name short enough survives the stream. */
  lemma NameRoundTrip(b: Bytes, rest: Bytes)
    ensures ChkName(b) == 0 <==> |b| <= 40
    ensures |b| < 0x100 ==>
              DecName(EncodeStr(b) + rest) == if |b| <= 40 then Good(b, rest) else Bad(-ENOMSG)
  {
    AnchoredMatch(true, true, b);
    if |b| < 0x100 { StrRoundTrip(b, rest); }
  }
}
