/**
 Return codes under any failures: every operation stops at the first call that fails, does
 nothing more but clean up, and returns that call's code.
 */
module RepoErrors {
  import opened Basics
  import opened Lmdb
  import opened RepoSpec
  import opened RepoOpening

  /** Of the calls from the `n`-th on, none was made after a failure but to clean up, and `err` is
      the code of the last that was not clean-up, or 0 if there was none. The result of a rename is
      ignored. */
  ghost predicate Gives(tr: seq<Event>, n: nat, err: int) {
    n <= |tr| &&
    if n == |tr| then err == 0
    else if Cleanup(Back(tr).call) then Gives(Front(tr), n, err)
    else Gives(Front(tr), n, 0) && err == if Back(tr).call.BackupRename? then 0 else Back(tr).err
  }

  /** Nothing has failed so far. */
  ghost predicate Clean(s: State, n: nat) {
    Gives(s.w.trace, n, 0)
  }

  ghost predicate Gave(r: Ret, n: nat) {
    Gives(r.s.w.trace, n, r.err)
  }

  lemma DoGives(b: Build, s: State, c: Call, n: nat)
    requires Clean(s, n) && !Cleanup(c) && !c.BackupRename?
    ensures Gave(Do(b, s, c), n)
    ensures Do(b, s, c).err == 0 ==> Clean(Do(b, s, c).s, n)
  {
    FrontBack(s.w.trace, Event(c, Do(b, s, c).err));
  }

  lemma CleanupGives(b: Build, s: State, c: Call, n: nat, err: int)
    requires Gives(s.w.trace, n, err) && Cleanup(c)
    ensures Gives(Do(b, s, c).s.w.trace, n, err)
  {
    FrontBack(s.w.trace, Event(c, Do(b, s, c).err));
  }

  lemma RenameGives(b: Build, s: State, n: nat)
    requires Clean(s, n)
    ensures Clean(Do(b, s, BackupRename).s, n)
  {
    FrontBack(s.w.trace, Event(BackupRename, Do(b, s, BackupRename).err));
  }

  lemma ShutGives(b: Build, s: State, n: nat, err: int)
    requires Gives(s.w.trace, n, err)
    ensures Gives(Shut(b, s).w.trace, n, err)
  {
    if s.env.Some? {
      var s1 := if s.txn.Some? then Abort(b, s) else s;
      if s.txn.Some? { CleanupGives(b, s, TxnAbort(s.txn.value), n, err); }
      CleanupGives(b, s1, EnvClose(s.env.value), n, err);
    }
  }

  lemma FreedGives(b: Build, s: State, n: nat, err: int)
    requires Gives(s.w.trace, n, err)
    ensures Gives(Freed(b, s).w.trace, n, err)
  {
    CleanupGives(b, s, StrFree(PathStr), n, err);
    CleanupGives(b, Do(b, s, StrFree(PathStr)).s, StrFree(BackupStr), n, err);
  }

  /** Two calls, the second made if the first succeeds. */
  lemma PairGives(b: Build, s: State, c: Call, d: Call, n: nat)
    requires Clean(s, n) && !Cleanup(c) && !c.BackupRename? && !Cleanup(d) && !d.BackupRename?
    ensures var r1 := Do(b, s, c);
            Gave(if r1.err != 0 then r1 else Do(b, r1.s, d), n)
  {
    DoGives(b, s, c, n);
    var r1 := Do(b, s, c);
    if r1.err == 0 { DoGives(b, r1.s, d, n); }
  }

  lemma StartGives(b: Build, s: State, n: nat)
    requires Clean(s, n) && s.env.Some?
    ensures Gave(Start(b, s), n)
  {
    if b.tpc {
      DoGives(b, s, BackupNew, n);
      var r1 := Do(b, s, BackupNew);
      if r1.err == 0 {
        DoGives(b, r1.s, EnvCopy(s.env.value), n);
        var r2 := Do(b, r1.s, EnvCopy(s.env.value));
        if r2.err == 0 { BeginGives(b, r2.s, n); }
      }
    } else {
      BeginGives(b, s, n);
    }
  }

  lemma BeginGives(b: Build, s: State, n: nat)
    requires Clean(s, n) && s.env.Some?
    ensures Gave(Begin(b, s), n)
  {
    DoGives(b, s, TxnBegin(s.env.value), n);
  }

  lemma CommitGives(b: Build, s: State, n: nat)
    requires Clean(s, n) && s.txn.Some?
    ensures Gave(Commit(b, s), n)
  {
    DoGives(b, s, TxnCommit(s.txn.value), n);
  }

  lemma UpdateGives(b: Build, s: State, t: Bytes, k: Bytes, v: Bytes, n: nat)
    requires Clean(s, n) && s.txn.Some?
    ensures Gave(Update(b, s, t, k, v), n)
  {
    PairGives(b, s, DbiOpen(s.txn.value, t), Mutate(s.txn.value, Put(t, k, v)), n);
  }

  lemma DelGives(b: Build, s: State, t: Bytes, k: Bytes, n: nat)
    requires Clean(s, n) && s.txn.Some?
    ensures Gave(Del(b, s, t, k), n)
  {
    PairGives(b, s, DbiOpen(s.txn.value, t), Mutate(s.txn.value, Delete(t, k)), n);
  }

  lemma FindGives(b: Build, s: State, t: Bytes, k: Bytes, n: nat)
    requires Clean(s, n) && s.txn.Some?
    ensures Gave(Find(b, s, t, k), n)
  {
    PairGives(b, s, DbiOpen(s.txn.value, t), Get(s.txn.value, t, k), n);
  }

  /** A count that fails negates the code; one that succeeds is not negative. */
  lemma CountGives(b: Build, s: State, t: Bytes, n: nat)
    requires Clean(s, n) && s.txn.Some?
    ensures var r := Count(b, s, t);
            || Gives(r.s.w.trace, n, -r.err)
            || (Clean(r.s, n) && t in s.w.working && r.err == |s.w.working[t]|)
  {
    PairGives(b, s, DbiOpen(s.txn.value, t), Stat(s.txn.value), n);
  }

  /** A sequence number of 0 comes from a call that failed or from a counter that wrapped; any other
      from calls that all succeeded. */
  lemma NextSeqGives(b: Build, s: State, t: Bytes, n: nat)
    requires Clean(s, n) && s.txn.Some?
    ensures var r := NextSeq(b, s, t);
            && (r.err != 0 ==> Clean(r.s, n))
            && (r.err == 0 && Clean(r.s, n) ==>
                  Counter(s.w.working, t).Some? && Successor(Counter(s.w.working, t).value) == 0)
            && exists err :: Gives(r.s.w.trace, n, err)
  {
    FindGives(b, s, HED, t, n);
    FindKeeps(b, s, t);
    var r := Find(b, s, HED, t);
    CleanIff(r.s.w.trace, n, r.err);
    if r.err == 0 { CountedGives(b, r.s, t, LittleEndian(Successor(Lookup(s.w.working, HED)[t]), 4), n); }
  }

  lemma CountedGives(b: Build, s: State, t: Bytes, v: Bytes, n: nat)
    requires Clean(s, n) && s.txn.Some?
    ensures Gave(Update(b, s, HED, t, v), n)
    ensures Clean(Update(b, s, HED, t, v).s, n) <==> Update(b, s, HED, t, v).err == 0
  {
    UpdateGives(b, s, HED, t, v, n);
    CleanIff(Update(b, s, HED, t, v).s.w.trace, n, Update(b, s, HED, t, v).err);
  }

  lemma CleanIff(tr: seq<Event>, n: nat, err: int)
    requires Gives(tr, n, err)
    ensures Gives(tr, n, 0) <==> err == 0
  {
    if Gives(tr, n, 0) { OneCode(tr, n, err, 0); }
  }

  lemma FindKeeps(b: Build, s: State, t: Bytes)
    requires s.txn.Some?
    ensures var r := Find(b, s, HED, t);
            r.s.txn == s.txn && (r.err == 0 ==> Counter(s.w.working, t).Some?)
  {
  }

  /** The calls determine the code. */
  lemma {:induction false} OneCode(tr: seq<Event>, n: nat, a: int, b: int)
    requires Gives(tr, n, a) && Gives(tr, n, b)
    ensures a == b
  {
    if n < |tr| && Cleanup(Back(tr).call) { OneCode(Front(tr), n, a, b); }
  }

  lemma OpenTableGives(b: Build, s: State, t: Bytes, flags: Flags, n: nat)
    requires Clean(s, n) && s.txn.Some?
    ensures Gave(OpenTable(b, s, t, flags), n)
  {
    var h := s.txn.value;
    var c := if flags.creat then Mutate(h, MakeTable(t)) else DbiOpen(h, t);
    PairGives(b, s, c, Mutate(h, Clear(t)), n);
    DoGives(b, s, c, n);
  }

  lemma {:induction false} OpenTablesGives(b: Build, s: State, ts: seq<Bytes>, flags: Flags, n: nat)
    requires Clean(s, n) && s.txn.Some?
    ensures Gave(OpenTables(b, s, ts, flags), n)
    decreases |ts|
  {
    if ts != [] {
      OpenTableGives(b, s, ts[0], flags, n);
      var r := OpenTable(b, s, ts[0], flags);
      if r.err == 0 { OpenTablesGives(b, r.s, ts[1..], flags, n); }
    }
  }

  lemma {:induction false} ZeroSeqsGives(b: Build, s: State, ts: seq<Bytes>, n: nat)
    requires Clean(s, n) && s.txn.Some?
    ensures Gave(ZeroSeqs(b, s, ts), n)
    decreases |ts|
  {
    if ts != [] {
      UpdateGives(b, s, HED, ts[0], ZERO, n);
      var r := Update(b, s, HED, ts[0], ZERO);
      UpdateIs(b, s, HED, ts[0], ZERO);
      if r.err == 0 { ZeroSeqsGives(b, r.s, ts[1..], n); }
    }
  }

  lemma FillGives(b: Build, s: State, flags: Flags, n: nat)
    requires Clean(s, n) && s.env.Some? && s.txn.None?
    ensures Gave(Fill(b, s, flags), n)
  {
    StartGives(b, s, n);
    StartKeepsStore(b, s);
    var r1 := Start(b, s);
    if r1.err == 0 {
      OpenTablesGives(b, r1.s, [HED] + s.tables, flags, n);
      var r2 := OpenTables(b, r1.s, [HED] + s.tables, flags);
      if r2.err == 0 { ZeroSeqsGives(b, r2.s, s.tables, n); }
    }
  }

  lemma PrepareGives(b: Build, s: State, flags: Flags, n: nat)
    requires Clean(s, n) && s.env.Some? && s.txn.None?
    ensures Gave(Prepare(b, s, flags), n)
  {
    DoGives(b, s, EnvSetMaxdbs(s.env.value), n);
    var r1 := Do(b, s, EnvSetMaxdbs(s.env.value));
    if r1.err == 0 {
      DoGives(b, r1.s, EnvOpen(s.env.value), n);
      var r2 := Do(b, r1.s, EnvOpen(s.env.value));
      if r2.err == 0 { FillGives(b, r2.s, flags, n); }
    }
  }

  lemma FinishGives(b: Build, s: State, flags: Flags, n: nat)
    requires Clean(s, n) && s.env.Some? && s.txn.None?
    ensures Gave(Finish(b, s, flags), n)
  {
    PrepareGives(b, s, flags, n);
    var r := Prepare(b, s, flags);
    if r.err != 0 { ShutGives(b, r.s, n, r.err); } else { CommitGives(b, r.s, n); }
  }

  lemma RepoOpenGives(b: Build, s: State, flags: Flags, n: nat)
    requires Clean(s, n) && s.env.None? && s.txn.None?
    ensures Gave(RepoOpen(b, s, flags), n)
  {
    DoGives(b, s, EnvCreate, n);
    var r := Do(b, s, EnvCreate);
    if r.err == 0 { FinishGives(b, r.s.(env := r.s.w.env), flags, n); }
  }

  /** `hed_repo_open` replaces the code of its first allocation, and no other. */
  lemma OpenGives(b: Build, s: State, tables: seq<Bytes>, flags: Flags)
    ensures var r := Open(b, s, tables, flags);
            var n := |s.w.trace|;
            if b.faults(n).Fails? then r.err == -ENOMEM && Gives(r.s.w.trace, n, b.faults(n).code)
            else Gave(r, n)
  {
    var n, tr := |s.w.trace|, s.w.trace;
    OpenCases(b, s, tables, flags);
    FirstStringFails(b, s, tables, flags);
    AllocationsGive(b, tr);
    if Allocates(b, n) {
      var s2 := Allocated(s, tables, flags);
      RepoOpenGives(b, s2, flags, n);
      FreedGives(b, RepoOpen(b, s2, flags).s, n, RepoOpen(b, s2, flags).err);
    }
  }

  lemma FirstStringFails(b: Build, s: State, tables: seq<Bytes>, flags: Flags)
    ensures b.faults(|s.w.trace|).Fails? ==> Open(b, s, tables, flags).err == -ENOMEM
    ensures b.faults(|s.w.trace|).Done? && b.faults(|s.w.trace| + 1).Fails? ==>
              Open(b, s, tables, flags).err == b.faults(|s.w.trace| + 1).code
  {
    var s0 := Entered(s, tables, flags);
    StringKeeps(b, s0, StrNew(BackupStr));
    if b.faults(|s.w.trace|).Done? { SecondString(b, Do(b, s0, StrNew(BackupStr)).s); }
  }

  lemma GivesAppend(tr: seq<Event>, n: nat, e: Event)
    requires Gives(tr, n, 0) && !Cleanup(e.call) && !e.call.BackupRename?
    ensures Gives(tr + [e], n, e.err)
  {
    FrontBack(tr, e);
  }

  lemma AllocationsGive(b: Build, tr: seq<Event>)
    ensures var n := |tr|;
            if Allocates(b, n) then
              Gives(tr + [Event(StrNew(BackupStr), 0)] + [Event(StrNew(PathStr), 0)], n, 0)
            else
              Gives(Unallocated(b, tr), n, if b.faults(n).Fails? then b.faults(n).code else b.faults(n + 1).code)
  {
    var n := |tr|;
    if b.faults(n).Fails? {
      GivesAppend(tr, n, Event(StrNew(BackupStr), b.faults(n).code));
    } else {
      var tr1 := tr + [Event(StrNew(BackupStr), 0)];
      GivesAppend(tr, n, Event(StrNew(BackupStr), 0));
      SecondGives(b, tr1, n);
    }
  }

  lemma SecondGives(b: Build, tr: seq<Event>, n: nat)
    requires Gives(tr, n, 0)
    ensures Gives(tr + [Event(StrNew(PathStr), 0)], n, 0)
    ensures b.faults(|tr|).Fails? ==>
              Gives(tr + [Event(StrNew(PathStr), b.faults(|tr|).code)] + [Event(StrFree(BackupStr), 0)], n,
                    b.faults(|tr|).code)
  {
    GivesAppend(tr, n, Event(StrNew(PathStr), 0));
    if b.faults(|tr|).Fails? {
      var e := Event(StrNew(PathStr), b.faults(|tr|).code);
      GivesAppend(tr, n, e);
      FrontBack(tr + [e], Event(StrFree(BackupStr), 0));
    }
  }

  lemma ReloadGives(b: Build, s: State, n: nat)
    requires Clean(s, n) && s.env.Some? && s.txn.None?
    ensures Gave(Reload(b, s), n)
  {
    ShutGives(b, s, n, 0);
    ShutIs(b, s);
    RepoOpenGives(b, Shut(b, s), Mode(s), n);
  }

  lemma RollbackGives(b: Build, s: State, n: nat)
    requires Clean(s, n) && s.env.Some? && s.txn.None?
    ensures Gave(Rollback(b, s), n)
  {
    ShutGives(b, s, n, 0);
    RestoredIs(b, s);
    RenameGives(b, Shut(b, s), n);
    RepoOpenGives(b, Restored(b, s), Mode(s), n);
  }

  // ---- Reading a value ----

  /** Without faults a get reports exactly what is missing. */
  lemma FindCode(b: Build, s: State, t: Bytes, k: Bytes)
    requires Calm(b, s) && s.txn.Some?
    ensures Find(b, s, t, k).err ==
            if t == [] then MDB_BAD_VALSIZE
            else if k in Lookup(s.w.working, t) then 0
            else MDB_NOTFOUND
  {
  }

  /** Whatever fails, it changes nothing, and succeeds only if the value is there. */
  lemma FindReads(b: Build, s: State, t: Bytes, k: Bytes)
    requires s.txn.Some?
    ensures var r := Find(b, s, t, k);
            && r.s == s.(w := s.w.(trace := r.s.w.trace))
            && |s.w.trace| < |r.s.w.trace| && Back(r.s.w.trace).err == r.err
            && (r.err == 0 ==> k in Lookup(s.w.working, t))
  {
  }
}
