/**
 What opening, closing, reloading and rolling back leave on disk, whichever
 storage call fails.
 */
module RepoOpening {
  import opened Basics
  import opened Lmdb
  import opened RepoSpec

  lemma {:induction false} OpenTablesKeeps(b: Build, s: State, ts: seq<Bytes>, flags: Flags)
    requires s.txn.Some?
    ensures var r := OpenTables(b, s, ts, flags);
            r.s.w.store == s.w.store && r.s.w.backup == s.w.backup
    decreases |ts|
  {
    if ts != [] {
      var r := OpenTable(b, s, ts[0], flags);
      if r.err == 0 {
        OpenTablesKeeps(b, r.s, ts[1..], flags);
      }
    }
  }

  lemma {:induction false} ZeroSeqsKeeps(b: Build, s: State, ts: seq<Bytes>)
    requires s.txn.Some?
    ensures var r := ZeroSeqs(b, s, ts);
            r.s.w.store == s.w.store && r.s.w.backup == s.w.backup
    decreases |ts|
  {
    if ts != [] {
      var r := Update(b, s, HED, ts[0], ZERO);
      if r.err == 0 {
        ZeroSeqsKeeps(b, r.s, ts[1..]);
      }
    }
  }

  /** `st'` is `st` with the tables `ts` opened: created when allowed, emptied when asked. */
  ghost predicate TablesOpened(st: Store, st': Store, ts: seq<Bytes>, flags: Flags) {
    && (forall t :: t in st' <==> t in st || (flags.creat && t in ts))
    && (forall t | t in st' ::
          st'[t] == if t in ts && flags.trunc then map[] else Lookup(st, t))
    && (!flags.creat ==> forall t <- ts :: t in st)
  }

  lemma MakeWorks(b: Build, s: State, t: Bytes, creat: bool)
    requires s.txn.Some?
    ensures var r := Do(b, s, if creat then Mutate(s.txn.value, MakeTable(t)) else DbiOpen(s.txn.value, t));
            && r.s == s.(w := s.w.(trace := r.s.w.trace, working := r.s.w.working)) && Grown(s, r.s)
            && (r.err == 0 ==> TablesOpened(s.w.working, r.s.w.working, [t], Flags(true, creat, false)))
            && (Calm(b, s) ==> (r.err == 0 <==> t != [] && (creat || t in s.w.working)))
            && (Calm(b, s) && r.err != 0 ==> OpenError(s.w.working, [t], Flags(true, creat, false), r.err))
  {
  }

  lemma ClearWorks(b: Build, s: State, t: Bytes)
    requires s.txn.Some?
    ensures var r := Do(b, s, Mutate(s.txn.value, Clear(t)));
            && r.s == s.(w := s.w.(trace := r.s.w.trace, working := r.s.w.working)) && Grown(s, r.s)
            && (r.err == 0 ==> r.s.w.working == s.w.working[t := map[]])
            && (Calm(b, s) && t in s.w.working ==> r.err == 0)
  {
  }

  lemma OpenTableWorks(b: Build, s: State, t: Bytes, flags: Flags)
    requires s.txn.Some?
    ensures var r := OpenTable(b, s, t, flags);
            && r.s == s.(w := s.w.(trace := r.s.w.trace, working := r.s.w.working)) && Grown(s, r.s)
            && (r.err == 0 ==> TablesOpened(s.w.working, r.s.w.working, [t], flags))
            && (Calm(b, s) ==> (r.err == 0 <==> t != [] && (flags.creat || t in s.w.working)))
            && (Calm(b, s) && r.err != 0 ==> OpenError(s.w.working, [t], flags, r.err))
  {
    MakeWorks(b, s, t, flags.creat);
    var h := s.txn.value;
    var s1 := Do(b, s, if flags.creat then Mutate(h, MakeTable(t)) else DbiOpen(h, t)).s;
    ClearWorks(b, s1, t);
    assert t in [t];
  }

  lemma {:induction false} OpenTablesWorks(b: Build, s: State, ts: seq<Bytes>, flags: Flags)
    requires s.txn.Some? && OpenTables(b, s, ts, flags).err == 0
    ensures TablesOpened(s.w.working, OpenTables(b, s, ts, flags).s.w.working, ts, flags)
    decreases |ts|
  {
    if ts != [] {
      OpenTableWorks(b, s, ts[0], flags);
      var s1 := OpenTable(b, s, ts[0], flags).s;
      OpenTablesWorks(b, s1, ts[1..], flags);
      TablesCompose(s.w.working, s1.w.working, OpenTables(b, s1, ts[1..], flags).s.w.working, ts[0], ts[1..], flags);
      assert ts == [ts[0]] + ts[1..];
    }
  }

  lemma TablesCompose(a: Store, m: Store, z: Store, t: Bytes, ts: seq<Bytes>, flags: Flags)
    requires TablesOpened(a, m, [t], flags) && TablesOpened(m, z, ts, flags)
    ensures TablesOpened(a, z, [t] + ts, flags)
  {
  }

  /** The `.hed` table after one zero counter is stored per table. */
  function Zeroed(ts: seq<Bytes>): Table {
    map t | t in ts :: ZERO
  }

  lemma UpdateIs(b: Build, s: State, t: Bytes, k: Bytes, v: Bytes)
    requires s.txn.Some?
    ensures var r := Update(b, s, t, k, v);
            if r.err == 0 then
              && r.s == s.(w := s.w.(trace := r.s.w.trace, working := Apply(s.w.working, Put(t, k, v))))
              && r.s.w.trace != [] && Back(r.s.w.trace) == Event(Mutate(s.txn.value, Put(t, k, v)), 0)
            else r.s == s.(w := s.w.(trace := r.s.w.trace))
  {
  }

  lemma ZeroedStep(st: Store, ts: seq<Bytes>)
    requires HED in st && ts != []
    ensures var st1 := Apply(st, Put(HED, ts[0], ZERO));
            st1[HED := st1[HED] + Zeroed(ts[1..])] == st[HED := st[HED] + Zeroed(ts)]
  {
    assert st[HED][ts[0] := ZERO] + Zeroed(ts[1..]) == st[HED] + Zeroed(ts);
  }

  lemma {:induction false} ZeroSeqsWorks(b: Build, s: State, ts: seq<Bytes>)
    requires s.txn.Some? && ZeroSeqs(b, s, ts).err == 0 && HED in s.w.working
    ensures ZeroSeqs(b, s, ts).s.w.working == s.w.working[HED := s.w.working[HED] + Zeroed(ts)]
    decreases |ts|
  {
    if ts != [] {
      UpdateIs(b, s, HED, ts[0], ZERO);
      ZeroSeqsWorks(b, Update(b, s, HED, ts[0], ZERO).s, ts[1..]);
      ZeroedStep(s.w.working, ts);
    } else {
      assert s.w.working[HED] + Zeroed([]) == s.w.working[HED];
    }
  }

  /** The store after a successful open. */
  ghost predicate Opened(st: Store, st': Store, tables: seq<Bytes>, flags: Flags) {
    && (forall t :: t in st' <==> t in st || (flags.creat && (t == HED || t in tables)))
    && HED in st' && (forall t <- tables :: t in st')
    && (forall t | t in st' && t != HED ::
          st'[t] == if t in tables && flags.trunc then map[] else Lookup(st, t))
    && st'[HED] == if flags.trunc then Zeroed(tables) else Lookup(st, HED)
  }

  lemma OpenedFrom(st: Store, m: Store, tables: seq<Bytes>, flags: Flags)
    requires HED !in tables && TablesOpened(st, m, [HED] + tables, flags)
    ensures HED in m
    ensures Opened(st, if flags.trunc then m[HED := m[HED] + Zeroed(tables)] else m, tables, flags)
  {
    var ts := [HED] + tables;
    assert forall t :: t in ts <==> t == HED || t in tables;
    assert ts[0] == HED;
    assert forall t <- tables :: t in ts;
    if flags.trunc { assert map[] + Zeroed(tables) == Zeroed(tables); }
  }

  lemma PrepareWorks(b: Build, s: State, flags: Flags)
    requires s.env.Some? && s.txn.None? && HED !in s.tables
    requires Prepare(b, s, flags).err == 0
    ensures Opened(Contents(s.w.store), Prepare(b, s, flags).s.w.working, s.tables, flags)
  {
    var s2 := Do(b, Do(b, s, EnvSetMaxdbs(s.env.value)).s, EnvOpen(s.env.value)).s;
    StartKeepsStore(b, s2);
    assert Contents(s2.w.store) == Contents(s.w.store);
    TablesPhase(b, Start(b, s2).s, flags);
  }

  /** The two loops of `repo_open`. */
  lemma TablesPhase(b: Build, s: State, flags: Flags)
    requires s.txn.Some? && HED !in s.tables
    requires OpenTables(b, s, [HED] + s.tables, flags).err == 0
    ensures var r := OpenTables(b, s, [HED] + s.tables, flags);
            && r.s.txn.Some?
            && (!flags.trunc ==> Opened(s.w.working, r.s.w.working, s.tables, flags))
            && (flags.trunc && ZeroSeqs(b, r.s, s.tables).err == 0 ==>
                  Opened(s.w.working, ZeroSeqs(b, r.s, s.tables).s.w.working, s.tables, flags))
  {
    OpenTablesKeeps(b, s, [HED] + s.tables, flags);
    OpenTablesWorks(b, s, [HED] + s.tables, flags);
    var r := OpenTables(b, s, [HED] + s.tables, flags);
    OpenedFrom(s.w.working, r.s.w.working, s.tables, flags);
    if flags.trunc && ZeroSeqs(b, r.s, s.tables).err == 0 { ZeroSeqsWorks(b, r.s, s.tables); }
  }

  lemma CopyKeepsStore(b: Build, s: State)
    requires s.env.Some?
    ensures var r1 := Do(b, s, BackupNew);
            var r2 := Do(b, r1.s, EnvCopy(s.env.value));
            && r1.s == s.(w := r1.s.w) && r1.s.w.store == s.w.store
            && r2.s == s.(w := r2.s.w) && r2.s.w.store == s.w.store
            && (r2.err == 0 ==> r2.s.w.backup == Whole(Contents(s.w.store)))
  {
  }

  lemma BeginKeepsStore(b: Build, s: State)
    requires s.env.Some?
    ensures var r := Begin(b, s);
            && r.s == s.(w := r.s.w, txn := r.s.txn)
            && r.s.w.store == s.w.store && r.s.w.backup == s.w.backup
            && (r.err == 0 ==> r.s.txn.Some? && r.s.w.working == Contents(s.w.store))
  {
  }

  lemma StartKeepsStore(b: Build, s: State)
    requires s.env.Some?
    ensures var r := Start(b, s);
            && r.s.w.store == s.w.store
            && r.s == s.(w := r.s.w, txn := r.s.txn)
            && (r.err == 0 ==> r.s.txn.Some? && r.s.w.working == Contents(s.w.store))
            && (r.err == 0 && b.tpc ==> r.s.w.backup == Whole(Contents(s.w.store)))
  {
    if b.tpc {
      CopyKeepsStore(b, s);
      BeginKeepsStore(b, Do(b, Do(b, s, BackupNew).s, EnvCopy(s.env.value)).s);
    } else {
      BeginKeepsStore(b, s);
    }
  }

  lemma EnvKeepsStore(b: Build, s: State, c: Call)
    requires c.EnvSetMaxdbs? || c.EnvOpen?
    ensures var r := Do(b, s, c); r.s == s.(w := r.s.w) && Contents(r.s.w.store) == Contents(s.w.store)
  {
  }

  lemma FillKeepsStore(b: Build, s: State, flags: Flags)
    requires s.env.Some? && s.txn.None?
    ensures var r := Fill(b, s, flags);
            && r.s.w.store == s.w.store
            && (r.err == 0 && b.tpc ==> r.s.w.backup == Whole(Contents(s.w.store)))
            && r.s == s.(w := r.s.w, txn := r.s.txn)
  {
    StartKeepsStore(b, s);
    var r := Start(b, s);
    if r.err == 0 {
      OpenTablesKeeps(b, r.s, [HED] + s.tables, flags);
      ZeroSeqsKeeps(b, OpenTables(b, r.s, [HED] + s.tables, flags).s, s.tables);
    }
  }

  lemma PrepareKeepsStore(b: Build, s: State, flags: Flags)
    requires s.env.Some? && s.txn.None?
    ensures var r := Prepare(b, s, flags);
            && Contents(r.s.w.store) == Contents(s.w.store)
            && (r.err == 0 && b.tpc ==> r.s.w.backup == Whole(Contents(s.w.store)))
            && r.s == s.(w := r.s.w, txn := r.s.txn)
  {
    var r1 := Do(b, s, EnvSetMaxdbs(s.env.value));
    EnvKeepsStore(b, s, EnvSetMaxdbs(s.env.value));
    EnvKeepsStore(b, r1.s, EnvOpen(s.env.value));
    FillKeepsStore(b, Do(b, r1.s, EnvOpen(s.env.value)).s, flags);
  }

  /** Calls that only undo what was begun; they cannot fail. */
  predicate Cleanup(c: Call) {
    c.TxnAbort? || c.EnvClose? || c.StrFree?
  }

  /** The last call, clean-up aside, was a commit, and it failed. */
  ghost predicate CommitFailedLast(tr: seq<Event>) {
    tr != [] &&
    if Cleanup(Back(tr).call) then CommitFailedLast(Front(tr)) else Back(tr).call.TxnCommit? && Back(tr).err != 0
  }

  ghost predicate FailedCommit(w: World) {
    CommitFailedLast(w.trace)
  }

  lemma ShutKeepsStore(b: Build, s: State)
    ensures var s' := Shut(b, s);
            && s'.w.store == s.w.store && s'.w.backup == s.w.backup
            && s'.env.None? && (s.env.Some? || s.txn.None? ==> s'.txn.None?)
            && s' == s.(w := s'.w, env := s'.env, txn := s'.txn)
            && (s.env.Some? ==> s'.w.trace != [] && Back(s'.w.trace).call.EnvClose?)
  {
  }

  lemma ShutIs(b: Build, s: State)
    requires s.env.Some? && s.txn.None?
    ensures Shut(b, s) == s.(env := None, w := s.w.(env := None, trace := s.w.trace + [Event(EnvClose(s.env.value), 0)]))
  {
  }

  /** The last call was neither a commit nor clean-up. */
  ghost predicate Ongoing(s: State) {
    s.w.trace != [] && !Cleanup(Back(s.w.trace).call) && !Back(s.w.trace).call.TxnCommit?
  }

  lemma DoOngoing(b: Build, s: State, c: Call)
    requires !Cleanup(c) && !c.TxnCommit?
    ensures Ongoing(Do(b, s, c).s)
  {
    FrontBack(s.w.trace, Event(c, Do(b, s, c).err));
  }

  lemma StartOngoing(b: Build, s: State)
    requires s.env.Some?
    ensures Ongoing(Start(b, s).s)
  {
    if b.tpc {
      var r1 := Do(b, s, BackupNew);
      DoOngoing(b, s, BackupNew);
      DoOngoing(b, r1.s, EnvCopy(s.env.value));
      DoOngoing(b, Do(b, r1.s, EnvCopy(s.env.value)).s, TxnBegin(s.env.value));
    } else {
      DoOngoing(b, s, TxnBegin(s.env.value));
    }
  }

  lemma OpenTableOngoing(b: Build, s: State, t: Bytes, flags: Flags)
    requires s.txn.Some?
    ensures Ongoing(OpenTable(b, s, t, flags).s)
  {
    var h := s.txn.value;
    var c := if flags.creat then Mutate(h, MakeTable(t)) else DbiOpen(h, t);
    DoOngoing(b, s, c);
    DoOngoing(b, Do(b, s, c).s, Mutate(h, Clear(t)));
  }

  lemma {:induction false} OpenTablesOngoing(b: Build, s: State, ts: seq<Bytes>, flags: Flags)
    requires s.txn.Some? && Ongoing(s)
    ensures Ongoing(OpenTables(b, s, ts, flags).s)
    decreases |ts|
  {
    if ts != [] {
      OpenTableOngoing(b, s, ts[0], flags);
      OpenTablesOngoing(b, OpenTable(b, s, ts[0], flags).s, ts[1..], flags);
    }
  }

  lemma UpdateOngoing(b: Build, s: State, t: Bytes, k: Bytes, v: Bytes)
    requires s.txn.Some?
    ensures Ongoing(Update(b, s, t, k, v).s) && Update(b, s, t, k, v).s.txn == s.txn
  {
    DoOngoing(b, s, DbiOpen(s.txn.value, t));
    DoOngoing(b, Do(b, s, DbiOpen(s.txn.value, t)).s, Mutate(s.txn.value, Put(t, k, v)));
  }

  lemma {:induction false} ZeroSeqsOngoing(b: Build, s: State, ts: seq<Bytes>)
    requires s.txn.Some? && Ongoing(s)
    ensures Ongoing(ZeroSeqs(b, s, ts).s)
    decreases |ts|
  {
    if ts != [] {
      UpdateOngoing(b, s, HED, ts[0], ZERO);
      ZeroSeqsOngoing(b, Update(b, s, HED, ts[0], ZERO).s, ts[1..]);
    }
  }

  lemma FillOngoing(b: Build, s: State, flags: Flags)
    requires s.env.Some? && s.txn.None?
    ensures Ongoing(Fill(b, s, flags).s)
  {
    StartOngoing(b, s);
    StartKeepsStore(b, s);
    var r := Start(b, s);
    if r.err == 0 {
      OpenTablesOngoing(b, r.s, [HED] + s.tables, flags);
      ZeroSeqsOngoing(b, OpenTables(b, r.s, [HED] + s.tables, flags).s, s.tables);
    }
  }

  lemma PrepareOngoing(b: Build, s: State, flags: Flags)
    requires s.env.Some? && s.txn.None?
    ensures Ongoing(Prepare(b, s, flags).s)
  {
    var r1 := Do(b, s, EnvSetMaxdbs(s.env.value));
    DoOngoing(b, s, EnvSetMaxdbs(s.env.value));
    DoOngoing(b, r1.s, EnvOpen(s.env.value));
    FillOngoing(b, Do(b, r1.s, EnvOpen(s.env.value)).s, flags);
  }

  lemma ShutFailed(b: Build, s: State)
    ensures FailedCommit(Shut(b, s).w) <==> FailedCommit(s.w)
  {
    if s.env.Some? {
      var s1 := if s.txn.Some? then Abort(b, s) else s;
      if s.txn.Some? { CleanupFailed(b, s, TxnAbort(s.txn.value)); }
      CleanupFailed(b, s1, EnvClose(s.env.value));
    }
  }

  lemma CleanupFailed(b: Build, s: State, c: Call)
    requires Cleanup(c)
    ensures FailedCommit(Do(b, s, c).s.w) <==> FailedCommit(s.w)
  {
    FrontBack(s.w.trace, Event(c, Do(b, s, c).err));
  }

  lemma CommitStores(b: Build, s: State)
    requires s.txn.Some?
    ensures var r := Commit(b, s);
            && r.s.w.store == (if r.err == 0 then Whole(s.w.working) else s.w.store)
            && r.s == s.(w := r.s.w, txn := None)
            && r.s.w.backup == s.w.backup
            && r.s.w.trace != [] && Back(r.s.w.trace) == Event(TxnCommit(s.txn.value), r.err)
  {
  }

  /** What holds of `repo_open` whichever call fails. */
  ghost predicate AllOrNothing(b: Build, s: State, flags: Flags, r: Ret) {
    var was, now := Contents(s.w.store), Contents(r.s.w.store);
    && (if r.err == 0 then Opened(was, now, s.tables, flags) else now == was)
    && r.s.txn.None?
    && (r.s.env.Some? <==> r.err == 0 || FailedCommit(r.s.w))
    && (r.err == 0 && b.tpc ==> r.s.w.backup == Whole(was))
    && r.s == s.(w := r.s.w, env := r.s.env)
  }

  lemma FinishAllOrNothing(b: Build, s: State, flags: Flags)
    requires s.env.Some? && s.txn.None? && HED !in s.tables
    ensures AllOrNothing(b, s, flags, Finish(b, s, flags))
  {
    if Prepare(b, s, flags).err == 0 { CommitsAll(b, s, flags); } else { LeavesNothing(b, s, flags); }
  }

  lemma CommitsAll(b: Build, s: State, flags: Flags)
    requires s.env.Some? && s.txn.None? && HED !in s.tables && Prepare(b, s, flags).err == 0
    ensures AllOrNothing(b, s, flags, Finish(b, s, flags))
  {
    PrepareKeepsStore(b, s, flags);
    PrepareWorks(b, s, flags);
    CommitStores(b, Prepare(b, s, flags).s);
  }

  lemma LeavesNothing(b: Build, s: State, flags: Flags)
    requires s.env.Some? && s.txn.None? && Prepare(b, s, flags).err != 0
    ensures AllOrNothing(b, s, flags, Finish(b, s, flags))
  {
    PrepareKeepsStore(b, s, flags);
    PrepareOngoing(b, s, flags);
    ShutKeepsStore(b, Prepare(b, s, flags).s);
    ShutFailed(b, Prepare(b, s, flags).s);
  }

  lemma CreateKeeps(b: Build, s: State)
    ensures var r := Do(b, s, EnvCreate);
            && r.s == s.(w := r.s.w) && r.s.w.store == s.w.store && r.s.w.backup == s.w.backup
            && (r.err == 0 ==> r.s.w.env.Some?)
            && r.s.w.trace != [] && Back(r.s.w.trace).call == EnvCreate
  {
  }

  /** `repo_open`: all or nothing, and nothing left open unless the last commit is what failed. */
  lemma RepoOpenAllOrNothing(b: Build, s: State, flags: Flags)
    requires s.env.None? && s.txn.None? && HED !in s.tables
    ensures AllOrNothing(b, s, flags, RepoOpen(b, s, flags))
  {
    CreateKeeps(b, s);
    var r := Do(b, s, EnvCreate);
    if r.err == 0 { FinishAllOrNothing(b, r.s.(env := r.s.w.env), flags); }
  }

  lemma StringKeeps(b: Build, s: State, c: Call)
    requires c.StrNew? || c.StrFree?
    ensures var r := Do(b, s, c);
            && r.s == s.(w := s.w.(trace := s.w.trace + [Event(c, r.err)]))
            && r.err == (if c.StrNew? && b.faults(|s.w.trace|).Fails? then b.faults(|s.w.trace|).code else 0)
            && (c.StrFree? ==> (FailedCommit(r.s.w) <==> FailedCommit(s.w)))
            && (c.StrNew? ==> !FailedCommit(r.s.w))
  {
    FrontBack(s.w.trace, Event(c, Do(b, s, c).err));
  }

  lemma FreedKeeps(b: Build, s: State)
    ensures var s' := Freed(b, s);
            && s' == s.(w := s.w.(trace := s'.w.trace), paths := false)
            && s'.w.trace == s.w.trace + [Event(StrFree(PathStr), 0)] + [Event(StrFree(BackupStr), 0)]
            && (FailedCommit(s'.w) <==> FailedCommit(s.w))
  {
    StringKeeps(b, s, StrFree(PathStr));
    StringKeeps(b, Do(b, s, StrFree(PathStr)).s, StrFree(BackupStr));
  }

  /** The two allocations of `hed_repo_open`. */
  predicate Allocates(b: Build, n: nat) {
    b.faults(n).Done? && b.faults(n + 1).Done?
  }

  function Allocated(s: State, tables: seq<Bytes>, flags: Flags): State {
    var tr := s.w.trace + [Event(StrNew(BackupStr), 0)] + [Event(StrNew(PathStr), 0)];
    Entered(s, tables, flags).(w := Lost(s.w).(trace := tr), paths := true)
  }

  /** The calls made when one of them fails. */
  function Unallocated(b: Build, tr: seq<Event>): seq<Event>
    requires !Allocates(b, |tr|)
  {
    if b.faults(|tr|).Fails? then tr + [Event(StrNew(BackupStr), b.faults(|tr|).code)]
    else
      tr + [Event(StrNew(BackupStr), 0)] + [Event(StrNew(PathStr), b.faults(|tr| + 1).code)]
      + [Event(StrFree(BackupStr), 0)]
  }

  lemma OpenCases(b: Build, s: State, tables: seq<Bytes>, flags: Flags)
    ensures var r := Open(b, s, tables, flags);
            if Allocates(b, |s.w.trace|) then
              var r3 := RepoOpen(b, Allocated(s, tables, flags), flags);
              r == if r3.err == 0 then r3 else Ret(Freed(b, r3.s), r3.err)
            else
              && r.err != 0
              && r.s == Entered(s, tables, flags).(w := Lost(s.w).(trace := Unallocated(b, s.w.trace)))
  {
    if b.faults(|s.w.trace|).Fails? {
      NoBackupString(b, s, tables, flags);
    } else if b.faults(|s.w.trace| + 1).Fails? {
      NoPathString(b, s, tables, flags);
    } else {
      BothStrings(b, s, tables, flags);
    }
  }

  lemma NoBackupString(b: Build, s: State, tables: seq<Bytes>, flags: Flags)
    requires b.faults(|s.w.trace|).Fails?
    ensures var r := Open(b, s, tables, flags);
            && r.err != 0
            && r.s == Entered(s, tables, flags).(w := Lost(s.w).(trace := Unallocated(b, s.w.trace)))
  {
    StringKeeps(b, Entered(s, tables, flags), StrNew(BackupStr));
  }

  /** The state after the first allocation. */
  function OneString(s: State, tables: seq<Bytes>, flags: Flags): State {
    Entered(s, tables, flags).(w := Lost(s.w).(trace := s.w.trace + [Event(StrNew(BackupStr), 0)]))
  }

  lemma FirstString(b: Build, s: State, tables: seq<Bytes>, flags: Flags)
    requires b.faults(|s.w.trace|).Done?
    ensures Do(b, Entered(s, tables, flags), StrNew(BackupStr)) == Ret(OneString(s, tables, flags), 0)
  {
    StringKeeps(b, Entered(s, tables, flags), StrNew(BackupStr));
  }

  lemma NoPathString(b: Build, s: State, tables: seq<Bytes>, flags: Flags)
    requires b.faults(|s.w.trace|).Done? && b.faults(|s.w.trace| + 1).Fails?
    ensures var r := Open(b, s, tables, flags);
            && r.err != 0
            && r.s == Entered(s, tables, flags).(w := Lost(s.w).(trace := Unallocated(b, s.w.trace)))
  {
    FirstString(b, s, tables, flags);
    SecondString(b, OneString(s, tables, flags));
  }

  lemma BothStrings(b: Build, s: State, tables: seq<Bytes>, flags: Flags)
    requires b.faults(|s.w.trace|).Done? && b.faults(|s.w.trace| + 1).Done?
    ensures var r3 := RepoOpen(b, Allocated(s, tables, flags), flags);
            Open(b, s, tables, flags) == if r3.err == 0 then r3 else Ret(Freed(b, r3.s), r3.err)
  {
    FirstString(b, s, tables, flags);
    SecondString(b, OneString(s, tables, flags));
  }

  lemma SecondString(b: Build, s: State)
    ensures var r := Do(b, s, StrNew(PathStr));
            if b.faults(|s.w.trace|).Done? then
              r == Ret(s.(w := s.w.(trace := s.w.trace + [Event(StrNew(PathStr), 0)])), 0)
            else
              && r.err == b.faults(|s.w.trace|).code
              && Do(b, r.s, StrFree(BackupStr)).s
                 == s.(w := s.w.(trace := s.w.trace + [Event(StrNew(PathStr), r.err)] + [Event(StrFree(BackupStr), 0)]))
  {
    StringKeeps(b, s, StrNew(PathStr));
    StringKeeps(b, Do(b, s, StrNew(PathStr)).s, StrFree(BackupStr));
  }

  /** `hed_repo_open`, under a fault at any storage call or table index. */
  lemma OpenAllOrNothing(b: Build, s: State, tables: seq<Bytes>, flags: Flags)
    requires Enabled(b, s, OpOpen(tables, flags))
    ensures var r := Open(b, s, tables, flags);
            var was, now := Contents(s.w.store), Contents(r.s.w.store);
            && (if r.err == 0 then Opened(was, now, tables, flags) else now == was)
            && r.s.txn.None?
            && (r.s.env.Some? <==> r.err == 0 || FailedCommit(r.s.w))
            && (r.s.paths <==> r.err == 0)
            && (r.err == 0 && b.tpc ==> r.s.w.backup == Whole(was))
            && r.s.tables == tables && r.s.rdwr == flags.rdwr
  {
    assert HED !in tables by { assert HED[0] == DOT; }
    var s0 := Entered(s, tables, flags);
    var r1 := Do(b, s0, StrNew(BackupStr));
    StringKeeps(b, s0, StrNew(BackupStr));
    if r1.err == 0 {
      var r2 := Do(b, r1.s, StrNew(PathStr));
      StringKeeps(b, r1.s, StrNew(PathStr));
      if r2.err == 0 {
        RepoOpenAllOrNothing(b, r2.s.(paths := true), flags);
        FreedKeeps(b, RepoOpen(b, r2.s.(paths := true), flags).s);
      } else {
        StringKeeps(b, r2.s, StrFree(BackupStr));
      }
    }
  }

  // ---- Reload, close and rollback ----

  lemma PlainOpened(st: Store, st': Store, tables: seq<Bytes>, rdwr: bool)
    requires Opened(st, st', tables, Flags(rdwr, false, false))
    ensures st' == st
  {
    assert forall t | t in st :: st'[t] == st[t];
  }

  /** Reopening without creating or truncating, which is what reload and rollback do. */
  lemma ReopenKeeps(b: Build, s: State)
    requires s.env.None? && s.txn.None? && HED !in s.tables
    ensures var r := RepoOpen(b, s, Mode(s));
            && Contents(r.s.w.store) == Contents(s.w.store)
            && (r.err == 0 ==> HED in Contents(s.w.store) && forall t <- s.tables :: t in Contents(s.w.store))
            && (r.err == 0 && b.tpc ==> r.s.w.backup == Whole(Contents(s.w.store)))
            && (r.s.env.Some? <==> r.err == 0 || FailedCommit(r.s.w))
            && r.s.paths == s.paths && r.s.txn.None? && r.s.tables == s.tables && r.s.rdwr == s.rdwr
  {
    RepoOpenAllOrNothing(b, s, Mode(s));
    var r := RepoOpen(b, s, Mode(s));
    if r.err == 0 {
      PlainOpened(Contents(s.w.store), Contents(r.s.w.store), s.tables, s.rdwr);
    }
  }

  /** Reload changes no committed data, whatever fails. */
  lemma ReloadIdentity(b: Build, s: State)
    requires Enabled(b, s, OpReload) && HED !in s.tables
    ensures var r := Reload(b, s);
            && Contents(r.s.w.store) == Contents(s.w.store)
            && (r.s.env.Some? <==> r.err == 0 || FailedCommit(r.s.w))
  {
    ShutKeepsStore(b, s);
    ReopenKeeps(b, Shut(b, s));
  }

  lemma CloseKeepsStore(b: Build, s: State)
    requires s.env.Some?
    ensures var s' := Close(b, s);
            && s'.w.store == s.w.store && s'.env.None? && s'.txn.None? && !s'.paths
  {
    ShutKeepsStore(b, s);
  }

  /** Closing discards the open transaction and nothing else, and a later open without
      `O_CREAT` and `O_TRUNC` finds the same data. */
  lemma CloseThenOpen(b: Build, s: State, tables: seq<Bytes>, rdwr: bool)
    requires Enabled(b, s, OpClose) && s.env.Some?
    requires forall t <- tables :: t == [] || t[0] != DOT
    ensures var s1 := Close(b, s);
            var r := Open(b, s1, tables, Flags(rdwr, false, false));
            && Contents(s1.w.store) == Contents(s.w.store) && s1.env.None? && s1.txn.None?
            && Contents(r.s.w.store) == Contents(s.w.store)
  {
    CloseKeepsStore(b, s);
    OpenPlain(b, Close(b, s), tables, rdwr);
  }

  lemma OpenPlain(b: Build, s: State, tables: seq<Bytes>, rdwr: bool)
    requires Enabled(b, s, OpOpen(tables, Flags(rdwr, false, false)))
    ensures Contents(Open(b, s, tables, Flags(rdwr, false, false)).s.w.store) == Contents(s.w.store)
  {
    var flags := Flags(rdwr, false, false);
    OpenAllOrNothing(b, s, tables, flags);
    var r := Open(b, s, tables, flags);
    if r.err == 0 {
      PlainOpened(Contents(s.w.store), Contents(r.s.w.store), tables, rdwr);
    }
  }

  /** The state in which `hed_repo_rollback` reopens the repository. */
  ghost function Restored(b: Build, s: State): State {
    Do(b, Shut(b, s), BackupRename).s
  }

  /** Whether the rename inside a rollback goes through. */
  ghost predicate Renames(b: Build, s: State) {
    Do(b, Shut(b, s), BackupRename).err == 0
  }

  lemma RestoredIs(b: Build, s: State)
    requires s.env.Some? && s.txn.None?
    ensures var s1 := Restored(b, s);
            && s1 == s.(w := s1.w, env := None)
            && (Renames(b, s) ==> s1.w.store == s.w.backup && s1.w.backup == Absent)
            && (!Renames(b, s) ==> s1.w.store == s.w.store && s1.w.backup == s.w.backup)
  {
    ShutKeepsStore(b, s);
  }

  /** A rollback leaves exactly what the backup held, or what the store held if the rename failed;
      when it also reopens, the backup holds the same. */
  lemma RollbackExact(b: Build, s: State)
    requires Enabled(b, s, OpRollback) && HED !in s.tables
    ensures var r := Rollback(b, s);
            && Contents(r.s.w.store) == Contents(if Renames(b, s) then s.w.backup else s.w.store)
            && (r.err == 0 ==> r.s.w.backup == Whole(Contents(r.s.w.store)))
            && (r.s.env.Some? <==> r.err == 0 || FailedCommit(r.s.w))
            && r.s.paths == s.paths && r.s.txn.None? && r.s.tables == s.tables
  {
    RestoredIs(b, s);
    ReopenKeeps(b, Restored(b, s));
  }

  /** After a rollback that reopened, a second one changes nothing, whatever fails. */
  lemma RollbackTwice(b: Build, s: State)
    requires Enabled(b, s, OpRollback) && HED !in s.tables
    ensures var r := Rollback(b, s);
            r.err == 0 ==>
              && Enabled(b, r.s, OpRollback)
              && Contents(Rollback(b, r.s).s.w.store) == Contents(r.s.w.store)
  {
    RollbackExact(b, s);
    if Rollback(b, s).err == 0 { RollbackExact(b, Rollback(b, s).s); }
  }

  // ---- When nothing fails ----

  ghost predicate NoFaults(b: Build) {
    forall n: nat :: b.faults(n).Done?
  }

  /** No call from here on fails, whatever failed before. */
  ghost predicate Calm(b: Build, s: State) {
    forall n: nat | n >= |s.w.trace| :: b.faults(n).Done?
  }

  /** More calls have been made. */
  ghost predicate Grown(s: State, s': State) {
    |s.w.trace| <= |s'.w.trace|
  }

  /** Opening without creating needs `.hed` and every table to be there already. */
  ghost predicate HasTables(st: Store, ts: seq<Bytes>) {
    forall t <- ts :: t in st
  }

  /** LMDB refuses the empty name; otherwise the tables must be there or may be created. */
  ghost predicate Openable(st: Store, ts: seq<Bytes>, flags: Flags) {
    [] !in ts && (flags.creat || HasTables(st, ts))
  }

  /** A table is missing, or a name is empty. */
  ghost predicate OpenError(st: Store, ts: seq<Bytes>, flags: Flags, err: int) {
    || (err == MDB_NOTFOUND && !flags.creat && !HasTables(st, ts))
    || (err == MDB_BAD_VALSIZE && [] in ts)
  }

  lemma OpenableCons(st: Store, st1: Store, t: Bytes, ts: seq<Bytes>, flags: Flags)
    requires TablesOpened(st, st1, [t], flags)
    ensures Openable(st, [t] + ts, flags) <==> Openable(st, [t], flags) && Openable(st1, ts, flags)
    ensures forall err :: OpenError(st1, ts, flags, err) ==> OpenError(st, [t] + ts, flags, err)
  {
    var all := [t] + ts;
    assert [] in all <==> t == [] || [] in ts;
    assert t in all;
    assert forall u <- ts :: u in all;
    assert forall u <- all :: u == t || u in ts;
    assert t in [t];
  }

  lemma OneTableError(st: Store, t: Bytes, ts: seq<Bytes>, flags: Flags, err: int)
    requires OpenError(st, [t], flags, err)
    ensures OpenError(st, [t] + ts, flags, err) && !Openable(st, [t] + ts, flags)
  {
    assert t in [t] + ts;
  }

  lemma {:induction false} OpenTablesSucceeds(b: Build, s: State, ts: seq<Bytes>, flags: Flags)
    requires Calm(b, s) && s.txn.Some? && (flags.trunc ==> flags.creat)
    ensures var r := OpenTables(b, s, ts, flags);
            && (r.err == 0 <==> Openable(s.w.working, ts, flags))
            && (r.err != 0 ==> OpenError(s.w.working, ts, flags, r.err))
            && Grown(s, r.s)
    decreases |ts|
  {
    if ts != [] {
      var r := OpenTable(b, s, ts[0], flags);
      OpenTableWorks(b, s, ts[0], flags);
      assert ts == [ts[0]] + ts[1..];
      if r.err == 0 {
        OpenTablesSucceeds(b, r.s, ts[1..], flags);
        OpenableCons(s.w.working, r.s.w.working, ts[0], ts[1..], flags);
      } else {
        OneTableError(s.w.working, ts[0], ts[1..], flags, r.err);
      }
    }
  }

  lemma UpdateSucceeds(b: Build, s: State, k: Bytes, v: Bytes)
    requires Calm(b, s) && s.txn.Some? && HED in s.w.working
    ensures var r := Update(b, s, HED, k, v);
            r.err == 0 && r.s.txn == s.txn && HED in r.s.w.working && Grown(s, r.s)
  {
  }

  lemma {:induction false} ZeroSeqsSucceeds(b: Build, s: State, ts: seq<Bytes>)
    requires Calm(b, s) && s.txn.Some? && HED in s.w.working
    ensures ZeroSeqs(b, s, ts).err == 0 && Grown(s, ZeroSeqs(b, s, ts).s)
    decreases |ts|
  {
    if ts != [] {
      UpdateSucceeds(b, s, ts[0], ZERO);
      ZeroSeqsSucceeds(b, Update(b, s, HED, ts[0], ZERO).s, ts[1..]);
    }
  }

  lemma PrepareSucceeds(b: Build, s: State, flags: Flags)
    requires Calm(b, s) && s.env.Some? && s.txn.None? && HED !in s.tables && (flags.trunc ==> flags.creat)
    requires s.w.store != Partial(None)
    ensures var r := Prepare(b, s, flags);
            && (r.err == 0 <==> Openable(Contents(s.w.store), [HED] + s.tables, flags))
            && (r.err != 0 ==> OpenError(Contents(s.w.store), [HED] + s.tables, flags, r.err))
            && Grown(s, r.s)
  {
    EnvSucceeds(b, s);
    FillSucceeds(b, Do(b, Do(b, s, EnvSetMaxdbs(s.env.value)).s, EnvOpen(s.env.value)).s, flags);
  }

  lemma EnvSucceeds(b: Build, s: State)
    requires Calm(b, s) && s.env.Some? && s.w.store != Partial(None)
    ensures var r1 := Do(b, s, EnvSetMaxdbs(s.env.value));
            var r2 := Do(b, r1.s, EnvOpen(s.env.value));
            && r1.err == 0 && r2.err == 0 && r2.s == s.(w := r2.s.w) && Contents(r2.s.w.store) == Contents(s.w.store)
            && Grown(s, r2.s)
  {
  }

  lemma FillSucceeds(b: Build, s: State, flags: Flags)
    requires Calm(b, s) && s.env.Some? && s.txn.None? && HED !in s.tables && (flags.trunc ==> flags.creat)
    ensures var r := Fill(b, s, flags);
            && (r.err == 0 <==> Openable(Contents(s.w.store), [HED] + s.tables, flags))
            && (r.err != 0 ==> OpenError(Contents(s.w.store), [HED] + s.tables, flags, r.err))
            && Grown(s, r.s)
  {
    StartKeepsStore(b, s);
    StartSucceeds(b, s);
    LoopsSucceed(b, Start(b, s).s, flags);
  }

  lemma LoopsSucceed(b: Build, s: State, flags: Flags)
    requires Calm(b, s) && s.txn.Some? && HED !in s.tables && (flags.trunc ==> flags.creat)
    ensures var r := OpenTables(b, s, [HED] + s.tables, flags);
            && (r.err == 0 <==> Openable(s.w.working, [HED] + s.tables, flags))
            && (r.err != 0 ==> OpenError(s.w.working, [HED] + s.tables, flags, r.err))
            && (r.err == 0 ==> ZeroSeqs(b, r.s, s.tables).err == 0)
            && Grown(s, r.s) && (r.err == 0 ==> Grown(s, ZeroSeqs(b, r.s, s.tables).s))
  {
    OpenTablesSucceeds(b, s, [HED] + s.tables, flags);
    var r := OpenTables(b, s, [HED] + s.tables, flags);
    if r.err == 0 {
      OpenTablesWorks(b, s, [HED] + s.tables, flags);
      OpenedFrom(s.w.working, r.s.w.working, s.tables, flags);
      ZeroSeqsSucceeds(b, r.s, s.tables);
    }
  }

  lemma StartSucceeds(b: Build, s: State)
    requires Calm(b, s) && s.env.Some?
    ensures Start(b, s).err == 0 && Grown(s, Start(b, s).s)
  {
  }

  lemma CommitSucceeds(b: Build, s: State)
    requires Calm(b, s) && s.txn.Some?
    ensures Commit(b, s).err == 0 && Commit(b, s).s.env == s.env
  {
  }

  lemma FinishSucceeds(b: Build, s: State, flags: Flags)
    requires Calm(b, s) && s.env.Some? && s.txn.None? && HED !in s.tables && (flags.trunc ==> flags.creat)
    requires s.w.store != Partial(None)
    ensures var r := Finish(b, s, flags);
            && (r.err == 0 <==> Openable(Contents(s.w.store), [HED] + s.tables, flags))
            && (r.err != 0 ==> OpenError(Contents(s.w.store), [HED] + s.tables, flags, r.err))
            && (r.s.env.Some? <==> r.err == 0)
  {
    PrepareSucceeds(b, s, flags);
    var r := Prepare(b, s, flags);
    if r.err == 0 { CommitSucceeds(b, r.s); } else { ShutKeepsStore(b, r.s); }
  }

  /** A file that LMDB cannot read is refused. */
  lemma FinishUnreadable(b: Build, s: State, flags: Flags)
    requires Calm(b, s) && s.env.Some? && s.txn.None? && s.w.store == Partial(None)
    ensures Finish(b, s, flags).err == MDB_INVALID && Finish(b, s, flags).s.env.None?
  {
    var r1 := Do(b, s, EnvSetMaxdbs(s.env.value));
    var r2 := Do(b, r1.s, EnvOpen(s.env.value));
    assert r1.err == 0 && r2.err == MDB_INVALID;
    ShutKeepsStore(b, r2.s);
  }

  /** What becomes of an open that meets no failure: it succeeds exactly when the file is readable
      and it may create, or all is there already, and then the environment is open. */
  ghost predicate OpenedAsIs(s: State, flags: Flags, r: Ret) {
    && (r.err == 0 <==>
        s.w.store != Partial(None) && Openable(Contents(s.w.store), [HED] + s.tables, flags))
    && (r.err != 0 ==>
          || (s.w.store == Partial(None) && r.err == MDB_INVALID)
          || OpenError(Contents(s.w.store), [HED] + s.tables, flags, r.err))
    && (r.s.env.Some? <==> r.err == 0) && r.s.txn.None?
    && r.s.paths == s.paths && r.s.tables == s.tables && r.s.rdwr == s.rdwr
  }

  lemma RepoOpenSucceeds(b: Build, s: State, flags: Flags)
    requires Calm(b, s) && s.env.None? && s.txn.None? && HED !in s.tables && (flags.trunc ==> flags.creat)
    ensures OpenedAsIs(s, flags, RepoOpen(b, s, flags))
  {
    RepoOpenAllOrNothing(b, s, flags);
    var r := Do(b, s, EnvCreate);
    assert r.err == 0;
    var s1 := r.s.(env := r.s.w.env);
    if s.w.store == Partial(None) { FinishUnreadable(b, s1, flags); } else { FinishSucceeds(b, s1, flags); }
  }

  /** The public open that meets no failure. */
  lemma OpenSucceeds(b: Build, s: State, tables: seq<Bytes>, flags: Flags)
    requires Calm(b, s) && Enabled(b, s, OpOpen(tables, flags))
    ensures var r := Open(b, s, tables, flags);
            && (r.err == 0 <==> s.w.store != Partial(None) && Openable(Contents(s.w.store), [HED] + tables, flags))
            && (r.err != 0 ==>
                  || (s.w.store == Partial(None) && r.err == MDB_INVALID)
                  || OpenError(Contents(s.w.store), [HED] + tables, flags, r.err))
            && (r.s.env.Some? <==> r.err == 0) && (r.s.paths <==> r.err == 0) && r.s.txn.None?
  {
    assert HED !in tables by { assert HED[0] == DOT; }
    OpenCases(b, s, tables, flags);
    var s2 := Allocated(s, tables, flags);
    RepoOpenSucceeds(b, s2, flags);
    FreedKeeps(b, RepoOpen(b, s2, flags).s);
  }

  /** A reload that meets no failure reopens the repository exactly when the file is readable and
      holds `.hed` and every table; otherwise it leaves it closed. */
  lemma ReloadSucceeds(b: Build, s: State)
    requires Calm(b, s) && Enabled(b, s, OpReload) && HED !in s.tables
    ensures OpenedAsIs(s, Mode(s), Reload(b, s))
  {
    ShutIs(b, s);
    RepoOpenSucceeds(b, Shut(b, s), Mode(s));
  }

  /** So does a rollback, on the file it leaves, even when its rename failed. */
  lemma RollbackReopens(b: Build, s: State)
    requires Calm(b, Restored(b, s)) && Enabled(b, s, OpRollback) && HED !in s.tables
    ensures var file := if Renames(b, s) then s.w.backup else s.w.store;
            OpenedAsIs(s.(w := s.w.(store := file)), Mode(s), Rollback(b, s))
  {
    RestoredIs(b, s);
    RepoOpenSucceeds(b, Restored(b, s), Mode(s));
  }

  /** Without any failure a rollback restores the snapshot, and succeeds exactly when the snapshot
      holds `.hed` and every table; otherwise it leaves the repository closed on it. */
  lemma RollbackSucceeds(b: Build, s: State)
    requires Calm(b, s) && Enabled(b, s, OpRollback) && HED !in s.tables && s.w.backup.Whole?
    ensures var r := Rollback(b, s);
            && Contents(r.s.w.store) == s.w.backup.data
            && OpenedAsIs(s.(w := s.w.(store := s.w.backup)), Mode(s), r)
  {
    RollbackExact(b, s);
    RenamesWhole(b, s);
    RollbackReopens(b, s);
  }

  lemma RenamesWhole(b: Build, s: State)
    requires Calm(b, s) && s.w.backup.Whole?
    ensures Renames(b, s) && Calm(b, Restored(b, s))
  {
    ShutKeepsStore(b, s);
  }

  // ---- Two ways a rollback disappoints ----

  /** Creating a repository and rolling back at once closes it on an empty store: the snapshot
      was taken before the tables existed. */
  lemma RollbackAfterCreating(b: Build, s: State, tables: seq<Bytes>)
    requires NoFaults(b) && b.tpc && s.w.store == Absent && [] !in tables
    requires Enabled(b, s, OpOpen(tables, Flags(true, true, true)))
    ensures var r1 := Open(b, s, tables, Flags(true, true, true));
            && r1.err == 0 && Enabled(b, r1.s, OpRollback)
            && var r2 := Rollback(b, r1.s);
            r2.err == MDB_NOTFOUND && r2.s.env.None? && Contents(r2.s.w.store) == map[]
  {
    var flags := Flags(true, true, true);
    OpenCreates(b, s, tables, flags);
    RollbackCreated(b, Open(b, s, tables, flags).s);
  }

  lemma OpenCreates(b: Build, s: State, tables: seq<Bytes>, flags: Flags)
    requires NoFaults(b) && b.tpc && s.w.store == Absent && [] !in tables && flags.creat
    requires Enabled(b, s, OpOpen(tables, flags))
    ensures var r := Open(b, s, tables, flags);
            && r.err == 0 && r.s.env.Some? && r.s.txn.None? && HED !in r.s.tables && [] !in r.s.tables
            && r.s.w.backup == Whole(map[])
  {
    assert HED !in tables by { assert HED[0] == DOT; }
    OpenSucceeds(b, s, tables, flags);
    OpenAllOrNothing(b, s, tables, flags);
    assert HED != [] && [] !in [HED] + tables;
  }

  lemma RollbackCreated(b: Build, s: State)
    requires NoFaults(b) && Enabled(b, s, OpRollback) && HED !in s.tables && [] !in s.tables
    requires s.w.backup == Whole(map[])
    ensures var r := Rollback(b, s); r.err == MDB_NOTFOUND && r.s.env.None? && Contents(r.s.w.store) == map[]
  {
    RollbackSucceeds(b, s);
    NothingThere(s.(w := s.w.(store := s.w.backup)), Mode(s), Rollback(b, s));
  }

  lemma NothingThere(s: State, flags: Flags, r: Ret)
    requires OpenedAsIs(s, flags, r) && s.w.store == Whole(map[]) && !flags.creat && [] !in s.tables
    ensures r.err == MDB_NOTFOUND && r.s.env.None?
  {
    var ts := [HED] + s.tables;
    assert ts[0] == HED && HED != [];
    assert HED in ts && [] !in ts && !HasTables(map[], ts);
  }

  lemma StartCopyFails(b: Build, s: State)
    requires b.tpc && s.env.Some? && s.txn.None?
    requires b.faults(|s.w.trace|).Done?
    requires b.faults(|s.w.trace| + 1).Fails?
    ensures var r := Start(b, s);
            && r.err == b.faults(|s.w.trace| + 1).code
            && r.s == s.(w := r.s.w) && r.s.w.store == s.w.store
            && r.s.w.backup == Partial(b.faults(|s.w.trace| + 1).left)
            && r.s.w.env == s.w.env && r.s.w.txn == s.w.txn
            && r.s.w.trace == s.w.trace + [Event(BackupNew, 0)] + [Event(EnvCopy(s.env.value), r.err)]
  {
    var r1 := Do(b, s, BackupNew);
    assert r1.err == 0 && |r1.s.w.trace| == |s.w.trace| + 1;
  }

  /** A start whose copy fails leaves the repository open over a spoilt backup, and a rollback
      then puts that in place of the committed data. */
  lemma RollbackAfterFailedCopy(b: Build, s: State)
    requires Enabled(b, s, OpStart) && b.tpc && HED !in s.tables
    requires b.faults(|s.w.trace|).Done?
    requires b.faults(|s.w.trace| + 1).Fails?
    ensures var r := Start(b, s);
            && r.err == b.faults(|s.w.trace| + 1).code && Enabled(b, r.s, OpRollback)
            && Contents(r.s.w.store) == Contents(s.w.store)
            && r.s.w.backup == Partial(b.faults(|s.w.trace| + 1).left)
            && (Renames(b, r.s) ==>
                  Contents(Rollback(b, r.s).s.w.store) == Contents(Partial(b.faults(|s.w.trace| + 1).left)))
  {
    StartCopyFails(b, s);
    RollbackExact(b, Start(b, s).s);
  }
}
