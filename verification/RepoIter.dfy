/**
 Iteration over a table: `hed_repo_create_iter` and `hed_repo_step`, over an
 LMDB cursor that visits keys in ascending byte order.
 */
module RepoIter {
  import opened Basics
  import opened Lmdb
  import opened RepoSpec
  import opened RepoOpening
  import RepoImpl

  // ---- Key order ----

  /** `memcmp` order, a shorter key first when it is a prefix. */
  predicate Less(a: Bytes, b: Bytes) {
    b != [] && (a == [] || a[0] < b[0] || (a[0] == b[0] && Less(a[1..], b[1..])))
  }

  lemma {:induction false} LessTotal(a: Bytes, b: Bytes)
    ensures Less(a, b) || Less(b, a) || a == b
    ensures !(Less(a, b) && Less(b, a))
    decreases |a| + |b|
  {
    if a != [] && b != [] {
      LessTotal(a[1..], b[1..]);
      assert a == [a[0]] + a[1..] && b == [b[0]] + b[1..];
    }
  }

  /** The order, without recursion: where the two first differ, `a` has the smaller byte, or ends. */
  lemma {:induction false} LessIs(a: Bytes, b: Bytes)
    ensures Less(a, b) <==>
            exists k :: 0 <= k <= |a| && k < |b| && a[..k] == b[..k] && (k == |a| || a[k] < b[k])
    decreases |a|
  {
    if b != [] && a != [] && a[0] == b[0] {
      LessIs(a[1..], b[1..]);
      if Less(a, b) {
        var k :| 0 <= k <= |a[1..]| && k < |b[1..]| && a[1..][..k] == b[1..][..k] && (k == |a[1..]| || a[1..][k] < b[1..][k]);
        assert a[..k + 1] == [a[0]] + a[1..][..k] && b[..k + 1] == [b[0]] + b[1..][..k];
      }
      if exists k :: 0 <= k <= |a| && k < |b| && a[..k] == b[..k] && (k == |a| || a[k] < b[k]) { LessTail(a, b); }
    } else if b != [] {
      assert a[..0] == b[..0];
      if a != [] && a[0] > b[0] { LessNever(a, b); }
    }
  }

  lemma LessNever(a: Bytes, b: Bytes)
    requires a != [] && b != [] && a[0] > b[0]
    ensures !exists k :: 0 <= k <= |a| && k < |b| && a[..k] == b[..k] && (k == |a| || a[k] < b[k])
  {
    forall k | 0 <= k <= |a| && k < |b| && a[..k] == b[..k] ensures !(k == |a| || a[k] < b[k]) {
      FirstAgrees(a, b, k);
    }
  }

  lemma FirstAgrees(a: Bytes, b: Bytes, k: nat)
    requires k <= |a| && k <= |b| && a[..k] == b[..k]
    ensures k > 0 ==> a[0] == b[0]
  {
    if k > 0 { assert a[..k][0] == b[..k][0]; }
  }

  lemma LessTail(a: Bytes, b: Bytes)
    requires a != [] && b != [] && a[0] == b[0]
    requires exists k :: 0 <= k <= |a| && k < |b| && a[..k] == b[..k] && (k == |a| || a[k] < b[k])
    ensures exists k :: 0 <= k <= |a[1..]| && k < |b[1..]| && a[1..][..k] == b[1..][..k]
                        && (k == |a[1..]| || a[1..][k] < b[1..][k])
  {
    var k :| 0 <= k <= |a| && k < |b| && a[..k] == b[..k] && (k == |a| || a[k] < b[k]);
    assert k > 0;
    assert a[1..][..k - 1] == a[..k][1..] && b[1..][..k - 1] == b[..k][1..];
  }

  lemma {:induction false} LessTransitive(a: Bytes, b: Bytes, c: Bytes)
    requires Less(a, b) && Less(b, c)
    ensures Less(a, c)
    decreases |a|
  {
    if a != [] && a[0] == b[0] == c[0] { LessTransitive(a[1..], b[1..], c[1..]); }
  }

  predicate IsLeast(k: Bytes, ks: set<Bytes>) {
    k in ks && forall j <- ks :: j == k || Less(k, j)
  }

  lemma {:induction false} LeastExists(ks: set<Bytes>)
    requires ks != {}
    ensures exists k :: IsLeast(k, ks)
    decreases |ks|
  {
    var x :| x in ks;
    var rest := ks - {x};
    if rest == {} {
      assert forall j <- ks :: j == x || j in rest;
      assert IsLeast(x, ks);
    } else {
      LeastExists(rest);
      var m :| IsLeast(m, rest);
      LessTotal(x, m);
      if Less(x, m) {
        forall j <- ks ensures j == x || Less(x, j) {
          if j != x && j != m { LessTransitive(x, m, j); }
        }
        assert IsLeast(x, ks);
      } else {
        assert IsLeast(m, ks);
      }
    }
  }

  lemma LeastUnique(ks: set<Bytes>)
    ensures forall a, b | IsLeast(a, ks) && IsLeast(b, ks) :: a == b
  {
    forall a, b | IsLeast(a, ks) && IsLeast(b, ks) ensures a == b { LessTotal(a, b); }
  }

  function Least(ks: set<Bytes>): (k: Bytes)
    requires ks != {}
    ensures IsLeast(k, ks)
  {
    LeastExists(ks);
    LeastUnique(ks);
    var k :| k in ks && IsLeast(k, ks);
    k
  }

  // ---- The cursor ----

  /** The keys a cursor standing at `at` has still to visit. */
  function Beyond(t: Table, at: Bytes): set<Bytes> {
    set k | k in t && Less(at, k)
  }

  function First(t: Table): Option<Bytes> {
    if t == map[] then None else Some(Least(t.Keys))
  }

  function Next(t: Table, at: Bytes): Option<Bytes> {
    if Beyond(t, at) == {} then None else Some(Least(Beyond(t, at)))
  }

  datatype Created = Created(s: State, at: Option<Bytes>)

  function Seek(b: Build, s: State, table: Bytes): Created
    requires s.txn.Some?
  {
    var r1 := Do(b, s, CursorOpen(s.txn.value));
    if r1.err != 0 then Created(r1.s, None)
    else
      var first := First(Lookup(s.w.working, table));
      var r2 := Do(b, r1.s, CursorGet(s.txn.value, first.Some?));
      Created(r2.s, if r2.err != 0 then None else first)
  }

  /** `at` is where the new iterator stands, `None` when none is returned. */
  function Create(b: Build, s: State, table: Bytes): Created
    requires s.txn.Some?
  {
    var r1 := Do(b, s, DbiOpen(s.txn.value, table));
    if r1.err != 0 then Created(r1.s, None)
    else
      var r2 := Do(b, r1.s, Alloc);
      if r2.err != 0 then Created(r2.s, None) else Seek(b, r2.s, table)
  }

  datatype Stepped = Stepped(s: State, ret: int, key: Bytes, val: Bytes, at: Bytes)

  function StepFrom(b: Build, s: State, table: Bytes, at: Bytes): Stepped
    requires s.txn.Some?
  {
    var t := Lookup(s.w.working, table);
    var r1 := Do(b, s, CursorGet(s.txn.value, at in t));
    if r1.err != 0 then Stepped(r1.s, -EINVAL, [], [], at)
    else
      var next := Next(t, at);
      var r2 := Do(b, r1.s, CursorGet(s.txn.value, next.Some?));
      if r2.err == MDB_NOTFOUND then Stepped(r2.s, 0, at, t[at], at)
      else if r2.err != 0 then Stepped(r2.s, -EINVAL, at, t[at], at)
      else Stepped(r2.s, EAGAIN, at, t[at], next.value)
  }

  class Iter {
    const repo: RepoImpl.Repo
    const table: Bytes
    var at: Bytes

    constructor (repo: RepoImpl.Repo, table: Bytes, at: Bytes)
      ensures this.repo == repo && this.table == table && this.at == at
    {
      this.repo, this.table, this.at := repo, table, at;
    }

    method Step() returns (ret: int, key: Bytes, val: Bytes)
      requires repo.txn.Some?
      modifies this, repo`w
      ensures Stepped(repo.S(), ret, key, val, at) == StepFrom(repo.build, old(repo.S()), table, old(at))
    {
      key, val := [], [];
      var t := Lookup(repo.w.working, table);
      ret := repo.Do(CursorGet(repo.txn.value, at in t));
      if ret != 0 { return -EINVAL, [], []; }
      key, val := at, t[at];
      var next := Next(t, at);
      ret := repo.Do(CursorGet(repo.txn.value, next.Some?));
      if ret == MDB_NOTFOUND { return 0, key, val; }
      if ret != 0 { return -EINVAL, key, val; }
      at := next.value;
      ret := EAGAIN;
    }
  }

  /** Opens a cursor on the table's first entry; `at` is `None` when that fails. */
  method OpenCursor(repo: RepoImpl.Repo, table: Bytes) returns (at: Option<Bytes>)
    requires repo.txn.Some?
    modifies repo`w
    ensures Created(repo.S(), at) == Seek(repo.build, old(repo.S()), table)
  {
    var ret := repo.Do(CursorOpen(repo.txn.value));
    if ret != 0 { return None; }
    at := First(Lookup(repo.w.working, table));
    ret := repo.Do(CursorGet(repo.txn.value, at.Some?));
    if ret != 0 { at := None; }
  }

  method CreateIter(repo: RepoImpl.Repo, table: Bytes) returns (iter: Iter?)
    requires repo.txn.Some?
    modifies repo`w
    ensures var c := Create(repo.build, old(repo.S()), table);
            && repo.S() == c.s
            && (iter == null <==> c.at.None?)
            && (iter != null ==> fresh(iter) && iter.repo == repo && iter.table == table && c.at == Some(iter.at))
  {
    var ret := repo.Do(DbiOpen(repo.txn.value, table));
    if ret != 0 { return null; }
    ret := repo.Do(Alloc);
    if ret != 0 { return null; }
    var at := OpenCursor(repo, table);
    if at.None? { return null; }
    iter := new Iter(repo, table, at.value);
  }

  // ---- A whole iteration ----

  datatype Yield = Yield(ret: int, key: Bytes, val: Bytes)

  /** What successive steps yield until one does not return `EAGAIN`. */
  ghost function Walk(b: Build, s: State, table: Bytes, at: Bytes): seq<Yield>
    requires s.txn.Some?
    decreases |Beyond(Lookup(s.w.working, table), at)|
  {
    StepIs(b, s, table, at);
    var r := StepFrom(b, s, table, at);
    [Yield(r.ret, r.key, r.val)] + (if r.ret == EAGAIN then Walk(b, r.s, table, r.at) else [])
  }

  /** One step under any failures: which of the three codes, what it reads, and where it stands. */
  lemma StepIs(b: Build, s: State, table: Bytes, at: Bytes)
    requires s.txn.Some?
    ensures var t := Lookup(s.w.working, table);
            var r := StepFrom(b, s, table, at);
            var n := |s.w.trace|;
            var here := at in t && b.faults(n).Done?;
            var end := if b.faults(n + 1).Fails? then b.faults(n + 1).code == MDB_NOTFOUND else Beyond(t, at) == {};
            && r.s == s.(w := s.w.(trace := r.s.w.trace))
            && (r.ret == EAGAIN <==> here && b.faults(n + 1).Done? && Beyond(t, at) != {})
            && (r.ret == 0 <==> here && end)
            && (r.ret != EAGAIN && r.ret != 0 ==> r.ret == -EINVAL)
            && (here ==> r.key == at && r.val == t[at])
            && (r.ret != EAGAIN ==> r.at == at)
            && (r.ret == EAGAIN ==>
                  && IsLeast(r.at, Beyond(t, at))
                  && Beyond(t, r.at) == Beyond(t, at) - {r.at} && |Beyond(t, r.at)| < |Beyond(t, at)|)
  {
    var t := Lookup(s.w.working, table);
    FirstCursorCall(b, s, at in t);
    var r1 := Do(b, s, CursorGet(s.txn.value, at in t));
    FirstCursorCall(b, r1.s, Next(t, at).Some?);
    if Beyond(t, at) != {} { BeyondLeast(t, at, Least(Beyond(t, at))); }
  }

  lemma FirstCursorCall(b: Build, s: State, found: bool)
    requires s.txn.Some?
    ensures var r := Do(b, s, CursorGet(s.txn.value, found));
            && r.s == s.(w := s.w.(trace := s.w.trace + [Event(CursorGet(s.txn.value, found), r.err)]))
            && r.err == if b.faults(|s.w.trace|).Fails? then b.faults(|s.w.trace|).code
                        else if found then 0 else MDB_NOTFOUND
  {
  }

  lemma WalkIs(b: Build, s: State, table: Bytes, at: Bytes)
    requires s.txn.Some?
    ensures var r := StepFrom(b, s, table, at);
            && r.s.txn == s.txn && r.s.w.working == s.w.working
            && Walk(b, s, table, at) ==
               if r.ret == EAGAIN then [Yield(r.ret, r.key, r.val)] + Walk(b, r.s, table, r.at)
               else [Yield(r.ret, r.key, r.val)]
  {
    StepIs(b, s, table, at);
    var r := StepFrom(b, s, table, at);
    assert [Yield(r.ret, r.key, r.val)] + [] == [Yield(r.ret, r.key, r.val)];
  }

  lemma StepMoves(b: Build, s: State, table: Bytes, at: Bytes)
    requires NoFaults(b) && s.txn.Some? && at in Lookup(s.w.working, table)
    ensures var t := Lookup(s.w.working, table);
            var r := StepFrom(b, s, table, at);
            && r.s == s.(w := s.w.(trace := r.s.w.trace)) && r.key == at && r.val == t[at]
            && (Beyond(t, at) == {} ==> r.ret == 0)
            && (Beyond(t, at) != {} ==>
                  && r.ret == EAGAIN && IsLeast(r.at, Beyond(t, at))
                  && Beyond(t, r.at) == Beyond(t, at) - {r.at} && |Beyond(t, r.at)| < |Beyond(t, at)|)
  {
    StepIs(b, s, table, at);
  }

  lemma BeyondLeast(t: Table, at: Bytes, m: Bytes)
    requires IsLeast(m, Beyond(t, at))
    ensures Beyond(t, m) == Beyond(t, at) - {m} && |Beyond(t, m)| < |Beyond(t, at)|
  {
    forall k ensures k in Beyond(t, m) <==> k in Beyond(t, at) - {m} {
      LessTotal(m, m);
      if k in Beyond(t, m) { LessTransitive(at, m, k); }
    }
    assert Beyond(t, m) == Beyond(t, at) - {m};
  }

  ghost predicate Ascending(ys: seq<Yield>) {
    forall i, j | 0 <= i < j < |ys| :: Less(ys[i].key, ys[j].key)
  }

  ghost function KeysOf(ys: seq<Yield>): set<Bytes> {
    set y | y in ys :: y.key
  }

  /** `ys` lists the keys `ks` of `t` in order with their values, and only its last return code is 0. */
  ghost predicate Lists(t: Table, ks: set<Bytes>, ys: seq<Yield>) {
    && ys != [] && Ascending(ys) && KeysOf(ys) == ks && |ys| == |ks|
    && (forall y <- ys :: y.key in t && y.val == t[y.key])
    && (forall i | 0 <= i < |ys| :: ys[i].ret == if i == |ys| - 1 then 0 else EAGAIN)
  }

  lemma AscendingCons(y: Yield, ys: seq<Yield>)
    requires Ascending(ys) && forall k <- KeysOf(ys) :: Less(y.key, k)
    ensures Ascending([y] + ys)
  {
    var all := [y] + ys;
    forall i, j | 0 <= i < j < |all| ensures Less(all[i].key, all[j].key) {
      assert all[j] == ys[j - 1] && ys[j - 1] in ys && ys[j - 1].key in KeysOf(ys);
      if i > 0 { assert all[i] == ys[i - 1]; }
    }
  }

  lemma ListsCons(t: Table, ks: set<Bytes>, y: Yield, ys: seq<Yield>)
    requires Lists(t, ks, ys) && y.ret == EAGAIN && y.key in t && y.val == t[y.key]
    requires forall k <- ks :: Less(y.key, k)
    ensures Lists(t, {y.key} + ks, [y] + ys)
  {
    var all := [y] + ys;
    KeysOfCons(y, ys);
    AscendingCons(y, ys);
    LessTotal(y.key, y.key);
    assert y.key !in ks;
    forall i | 0 <= i < |all| ensures all[i].ret == if i == |all| - 1 then 0 else EAGAIN {
      if i > 0 { assert all[i] == ys[i - 1]; }
    }
  }

  lemma ListsOne(t: Table, y: Yield)
    requires y.ret == 0 && y.key in t && y.val == t[y.key]
    ensures Lists(t, {y.key}, [y])
  {
    KeysOfCons(y, []);
    assert [y] + [] == [y] && KeysOf([]) == {};
  }

  lemma {:induction false} WalkFrom(b: Build, s: State, table: Bytes, at: Bytes)
    requires NoFaults(b) && s.txn.Some? && at in Lookup(s.w.working, table)
    ensures Lists(Lookup(s.w.working, table), {at} + Beyond(Lookup(s.w.working, table), at), Walk(b, s, table, at))
    decreases |Beyond(Lookup(s.w.working, table), at)|
  {
    WalkIs(b, s, table, at);
    StepMoves(b, s, table, at);
    var t, r := Lookup(s.w.working, table), StepFrom(b, s, table, at);
    var y, more := Yield(r.ret, r.key, r.val), Beyond(t, at);
    if r.ret == EAGAIN {
      assert {r.at} + Beyond(t, r.at) == more;
      WalkFrom(b, r.s, table, r.at);
      ListsCons(t, more, y, Walk(b, r.s, table, r.at));
    } else {
      assert {at} + more == {at};
      ListsOne(t, y);
    }
  }

  lemma KeysOfCons(y: Yield, ys: seq<Yield>)
    ensures KeysOf([y] + ys) == {y.key} + KeysOf(ys)
  {
    forall k ensures k in KeysOf([y] + ys) <==> k in {y.key} + KeysOf(ys) {
      if k in {y.key} + KeysOf(ys) {
        if k == y.key { assert y in [y] + ys; }
        else {
          var z :| z in ys && z.key == k;
          assert z in [y] + ys;
        }
      }
    }
  }

  /** Without faults there is no iterator over an empty table; over any other, stepping until 0
      lists every key with its value once, in ascending order, in as many steps as the table
      has entries. */
  lemma IterationComplete(b: Build, s: State, table: Bytes)
    requires NoFaults(b) && s.txn.Some? && table != [] && table in s.w.working
    ensures var t := s.w.working[table];
            var c := Create(b, s, table);
            && (c.at.None? <==> t == map[])
            && c.s == s.(w := s.w.(trace := c.s.w.trace))
            && (c.at.Some? ==>
                  && c.at.value in t
                  && Lists(t, t.Keys, Walk(b, c.s, table, c.at.value))
                  && |Walk(b, c.s, table, c.at.value)| == Count(b, s, table).err)
  {
    var t, c := s.w.working[table], Create(b, s, table);
    CreateWorks(b, s, table);
    CountWorks(b, s, table);
    if c.at.Some? {
      WalkAll(b, c.s, table, c.at.value);
    }
  }

  // ---- An iteration that meets failures ----

  /** The steps that did not fail. */
  ghost function Delivered(ys: seq<Yield>): seq<Yield> {
    if ys != [] && ys[|ys| - 1].ret == -EINVAL then ys[..|ys| - 1] else ys
  }

  /** Only the last of `ys` may end the iteration, and what was delivered begins the listing of `ks`:
      ascending, with its values, and without a gap. */
  ghost predicate Begins(t: Table, ks: set<Bytes>, ys: seq<Yield>) {
    && ys != [] && (forall i | 0 <= i < |ys| :: ys[i].ret == EAGAIN <==> i < |ys| - 1)
    && (ys[|ys| - 1].ret == 0 || ys[|ys| - 1].ret == -EINVAL)
    && var ds := Delivered(ys);
    && Ascending(ds)
    && (forall d <- ds :: d.key in ks && d.key in t && d.val == t[d.key])
    && (forall k <- ks :: k in KeysOf(ds) || ds == [] || Less(ds[|ds| - 1].key, k))
  }

  lemma DeliveredCons(y: Yield, ys: seq<Yield>)
    requires ys != []
    ensures Delivered([y] + ys) == [y] + Delivered(ys)
  {
    var all := [y] + ys;
    assert all[|all| - 1] == ys[|ys| - 1];
    assert all[..|all| - 1] == [y] + ys[..|ys| - 1];
  }

  lemma BeginsCons(t: Table, ks: set<Bytes>, y: Yield, ys: seq<Yield>)
    requires Begins(t, ks, ys) && y.ret == EAGAIN && y.key in t && y.val == t[y.key]
    requires forall k <- ks :: Less(y.key, k)
    ensures Begins(t, {y.key} + ks, [y] + ys)
  {
    var all, ds := [y] + ys, Delivered(ys);
    DeliveredCons(y, ys);
    forall k <- KeysOf(ds) ensures Less(y.key, k) {
      var d :| d in ds && d.key == k;
    }
    AscendingCons(y, ds);
    KeysOfCons(y, ds);
    forall i | 0 <= i < |all| ensures all[i].ret == EAGAIN <==> i < |all| - 1 {
      if i > 0 { assert all[i] == ys[i - 1]; }
    }
    assert all[|all| - 1] == ys[|ys| - 1];
    if ds != [] { assert ([y] + ds)[|ds|] == ds[|ds| - 1]; }
  }

  lemma BeginsOne(t: Table, ks: set<Bytes>, y: Yield)
    requires y.ret == 0 || y.ret == -EINVAL
    requires y.ret == 0 ==> y.key in t && y.val == t[y.key] && y.key in ks
    requires y.ret == 0 ==> forall k <- ks :: k == y.key || Less(y.key, k)
    ensures Begins(t, ks, [y])
  {
    KeysOfCons(y, []);
    assert [y] + [] == [y];
  }

  /** Whatever fails, the steps deliver a beginning of the table's listing. */
  lemma {:induction false} WalkBegins(b: Build, s: State, table: Bytes, at: Bytes)
    requires s.txn.Some? && at in Lookup(s.w.working, table)
    ensures var t := Lookup(s.w.working, table);
            Begins(t, {at} + Beyond(t, at), Walk(b, s, table, at))
    decreases |Beyond(Lookup(s.w.working, table), at)|
  {
    WalkIs(b, s, table, at);
    StepIs(b, s, table, at);
    var t, r := Lookup(s.w.working, table), StepFrom(b, s, table, at);
    var y, more := Yield(r.ret, r.key, r.val), Beyond(t, at);
    if r.ret == EAGAIN {
      assert {r.at} + Beyond(t, r.at) == more;
      WalkBegins(b, r.s, table, r.at);
      BeginsCons(t, more, y, Walk(b, r.s, table, r.at));
    } else {
      BeginsOne(t, {at} + more, y);
    }
  }

  /** An iteration that ends with 0 has delivered everything, unless LMDB falsely reported the end. */
  lemma {:induction false} WalkEnds(b: Build, s: State, table: Bytes, at: Bytes)
    requires s.txn.Some? && at in Lookup(s.w.working, table)
    requires forall n: nat | b.faults(n).Fails? :: b.faults(n).code != MDB_NOTFOUND
    ensures var t, ys := Lookup(s.w.working, table), Walk(b, s, table, at);
            ys[|ys| - 1].ret == 0 ==> KeysOf(ys) == {at} + Beyond(t, at)
    decreases |Beyond(Lookup(s.w.working, table), at)|
  {
    WalkIs(b, s, table, at);
    StepIs(b, s, table, at);
    var t, r := Lookup(s.w.working, table), StepFrom(b, s, table, at);
    var y := Yield(r.ret, r.key, r.val);
    if r.ret == EAGAIN {
      assert {r.at} + Beyond(t, r.at) == Beyond(t, at);
      WalkEnds(b, r.s, table, r.at);
      EndsCons(y, Walk(b, r.s, table, r.at));
    } else {
      EndsOne(y);
    }
  }

  lemma EndsCons(y: Yield, ys: seq<Yield>)
    requires ys != []
    ensures KeysOf([y] + ys) == {y.key} + KeysOf(ys) && ([y] + ys)[|[y] + ys| - 1] == ys[|ys| - 1]
  {
    KeysOfCons(y, ys);
  }

  lemma EndsOne(y: Yield)
    ensures KeysOf([y]) == {y.key}
  {
    KeysOfCons(y, []);
    assert [y] + [] == [y] && KeysOf([]) == {};
  }

  /** Creating an iterator under any failures: there is one exactly when no call fails and the table
      has an entry, and it stands on the least key. */
  lemma CreateIs(b: Build, s: State, table: Bytes)
    requires s.txn.Some?
    ensures var t := Lookup(s.w.working, table);
            var c := Create(b, s, table);
            var n := |s.w.trace|;
            && c.s == s.(w := s.w.(trace := c.s.w.trace))
            && (c.at.Some? <==>
                && table != [] && table in s.w.working && t != map[]
                && b.faults(n).Done? && b.faults(n + 1).Done? && b.faults(n + 2).Done? && b.faults(n + 3).Done?)
            && (c.at.Some? ==> IsLeast(c.at.value, t.Keys))
  {
    var r1 := Do(b, s, DbiOpen(s.txn.value, table));
    TableCall(b, s, table);
    if r1.err == 0 {
      AllocCall(b, r1.s);
      SeekIs(b, Do(b, r1.s, Alloc).s, table);
    }
  }

  lemma TableCall(b: Build, s: State, table: Bytes)
    requires s.txn.Some?
    ensures var r := Do(b, s, DbiOpen(s.txn.value, table));
            && r.s == s.(w := s.w.(trace := s.w.trace + [Event(DbiOpen(s.txn.value, table), r.err)]))
            && (r.err == 0 <==> b.faults(|s.w.trace|).Done? && table != [] && table in s.w.working)
  {
  }

  lemma AllocCall(b: Build, s: State)
    ensures var r := Do(b, s, Alloc);
            && r.s == s.(w := s.w.(trace := s.w.trace + [Event(Alloc, r.err)]))
            && (r.err == 0 <==> b.faults(|s.w.trace|).Done?)
  {
  }

  lemma SeekIs(b: Build, s: State, table: Bytes)
    requires s.txn.Some?
    ensures var t := Lookup(s.w.working, table);
            var c := Seek(b, s, table);
            && c.s == s.(w := s.w.(trace := c.s.w.trace))
            && (c.at.Some? <==> t != map[] && b.faults(|s.w.trace|).Done? && b.faults(|s.w.trace| + 1).Done?)
            && (c.at.Some? ==> IsLeast(c.at.value, t.Keys))
  {
    var r1 := Do(b, s, CursorOpen(s.txn.value));
    assert r1.s == s.(w := s.w.(trace := r1.s.w.trace)) && |r1.s.w.trace| == |s.w.trace| + 1;
    FirstCursorCall(b, r1.s, First(Lookup(s.w.working, table)).Some?);
  }

  lemma WalkAll(b: Build, s: State, table: Bytes, first: Bytes)
    requires NoFaults(b) && s.txn.Some? && table in s.w.working && s.w.working[table] != map[]
    requires First(s.w.working[table]) == Some(first)
    ensures first in s.w.working[table]
    ensures Lists(s.w.working[table], s.w.working[table].Keys, Walk(b, s, table, first))
  {
    var t := s.w.working[table];
    WalkFrom(b, s, table, first);
    assert t.Keys == {first} + Beyond(t, first);
  }

  lemma CreateWorks(b: Build, s: State, table: Bytes)
    requires NoFaults(b) && s.txn.Some? && table != [] && table in s.w.working
    ensures var c := Create(b, s, table);
            && c.s == s.(w := s.w.(trace := c.s.w.trace)) && c.at == First(s.w.working[table])
  {
    var s1 := Do(b, Do(b, s, DbiOpen(s.txn.value, table)).s, Alloc).s;
    assert s1 == s.(w := s.w.(trace := s1.w.trace));
    SeekWorks(b, s1, table);
  }

  lemma SeekWorks(b: Build, s: State, table: Bytes)
    requires NoFaults(b) && s.txn.Some?
    ensures var c := Seek(b, s, table);
            c.s == s.(w := s.w.(trace := c.s.w.trace)) && c.at == First(Lookup(s.w.working, table))
  {
  }

  lemma CountWorks(b: Build, s: State, table: Bytes)
    requires NoFaults(b) && s.txn.Some? && table != [] && table in s.w.working
    ensures Count(b, s, table).err == |s.w.working[table]|
  {
  }

  /** An empty table costs a cursor: it is opened, finds nothing, and is not closed. */
  lemma EmptyTableLeavesCursor(b: Build, s: State, table: Bytes)
    requires NoFaults(b) && s.txn.Some? && table != [] && table in s.w.working && s.w.working[table] == map[]
    ensures var t := s.txn.value;
            var c := Create(b, s, table);
            && c.at.None?
            && c.s.w.trace == s.w.trace + [Event(DbiOpen(t, table), 0), Event(Alloc, 0), Event(CursorOpen(t), 0),
                                           Event(CursorGet(t, false), MDB_NOTFOUND)]
  {
    var s1 := Do(b, s, DbiOpen(s.txn.value, table)).s;
    TableCall(b, s, table);
    AllocCall(b, s1);
    EmptySeek(b, Do(b, s1, Alloc).s, table);
  }

  lemma EmptySeek(b: Build, s: State, table: Bytes)
    requires NoFaults(b) && s.txn.Some? && Lookup(s.w.working, table) == map[]
    ensures var c := Seek(b, s, table);
            && c.at.None?
            && c.s.w.trace == s.w.trace + [Event(CursorOpen(s.txn.value), 0),
                                           Event(CursorGet(s.txn.value, false), MDB_NOTFOUND)]
  {
    FirstCursorCall(b, Do(b, s, CursorOpen(s.txn.value)).s, false);
  }

  /** The count of a table that is not there is a positive number: the code is negated twice over. */
  lemma CountOfMissing(b: Build, s: State, table: Bytes)
    requires NoFaults(b) && s.txn.Some?
    ensures Count(b, s, table).err ==
            if table == [] then 30781 else if table in s.w.working then |s.w.working[table]| else 30798
  {
  }
}
