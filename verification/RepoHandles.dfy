/**
 Environment and transaction handles over whole runs. The API lets a caller open a
 structure that is open already, and the open overwrites the handles it finds there.
 What holds in spite of that comes first; then, exactly when all of LMDB's rules hold.
 */
module RepoHandles {
  import opened Basics
  import opened Lmdb
  import opened RepoSpec
  import opened RepoJournal
  import opened RepoRuns
  import opened RepoHistory
  import opened RepoOpening

  // ---- In every run ----

  /** Every handle that a call names is live at that call, the handles in the structure are live,
      and an open transaction has an open environment. */
  lemma HandlesLive(b: Build, s: State, ops: seq<Op>, s': State)
    requires Initial(s) && Runs(b, s, ops, s')
    ensures AllNamed(s'.w.trace)
    ensures s'.env.Some? ==> EnvLive(s'.w.trace, s'.env.value)
    ensures s'.txn.Some? ==> TxnLive(s'.w.trace, s'.txn.value) && s'.env.Some?
  {
    RunInv(b, s, ops, s');
  }

  /** So no environment is used or closed after it was closed, and no transaction is used,
      committed or aborted after it ended. */
  lemma EndedOnce(b: Build, s: State, ops: seq<Op>, s': State, i: nat, j: nat)
    requires Initial(s) && Runs(b, s, ops, s') && i < j < |s'.w.trace|
    ensures var c, later := s'.w.trace[i].call, s'.w.trace[j].call;
            && (c.EnvClose? ==> EnvOf(later) != EnvOf(c))
            && (c.TxnCommit? || c.TxnAbort? ==> TxnOf(later) != TxnOf(c))
  {
    RunInv(b, s, ops, s');
    NotAfter(s'.w.trace, i, j);
  }

  lemma NotAfter(tr: seq<Event>, i: nat, j: nat)
    requires AllNamed(tr) && i < j < |tr|
    ensures tr[i].call.EnvClose? ==> EnvOf(tr[j].call) != EnvOf(tr[i].call)
    ensures tr[i].call.TxnCommit? || tr[i].call.TxnAbort? ==> TxnOf(tr[j].call) != TxnOf(tr[i].call)
  {
    assert Named(tr[..j], tr[j].call) && Named(tr[..i], tr[i].call);
    assert tr[..j][i] == tr[i];
  }

  // ---- All the rules ----

  /** Every call was legal, and the live handles are those in the structure: none is lost. */
  ghost predicate Kept(s: State) {
    && Disciplined(s.w.trace)
    && (forall e: nat :: EnvLive(s.w.trace, e) <==> s.env == Some(e))
    && (forall t: nat :: TxnLive(s.w.trace, t) <==> s.txn == Some(t))
  }

  ghost predicate Stray(w: World, e: nat) {
    EnvLive(w.trace, e) && w.env != Some(e)
  }

  /** An environment lost stays lost, and open. */
  lemma StrayStays(b: Build, e: nat)
    ensures Closed(b, Free, w => Stray(w, e)) && Detached(w => Stray(w, e))
  {
    var p := (w: World) => Stray(w, e);
    forall w: World, c: Call | p(w) && Allowed(w, c) ensures p(Issue(b.faults, w, c).w) {
      EnvLiveAppend(w.trace, Event(c, Issue(b.faults, w, c).err), e);
    }
  }

  lemma OwnedStays(b: Build)
    ensures Closed(b, Free, Owned) && Detached(Owned)
  {
    forall w: World, c: Call | Owned(w) && Allowed(w, c) ensures Owned(Issue(b.faults, w, c).w) {
      OwnedKept(b.faults, w, c);
    }
  }

  lemma {:induction false} OneIsLost(b: Build, s: State, ops: seq<Op>, s': State)
    requires Linked(Owned, s) && Guarded(b, s) && Runs(b, s, ops, s') && !Throughout(b, s, ops, Fresh)
    ensures exists e: nat :: EnvLive(s'.w.trace, e) && s'.env != Some(e)
    decreases |ops|
  {
    var s1 := Step(b, s, ops[0]);
    if Fresh(s, ops[0]) {
      OwnedStays(b);
      StepReaches(b, Free, Owned, s, ops[0]);
      OneIsLost(b, s1, ops[1..], s');
    } else {
      var e := s.env.value;
      var p := (w: World) => Stray(w, e);
      StrayStays(b, e);
      assert p(Lost(s.w));
      OpenReaches(b, Free, p, s, ops[0].tables, ops[0].flags);
      forall op <- ops[1..] ensures Meets(Free, b, op) {}
      RunReaches(b, Free, p, s1, ops[1..], s');
      assert p(s'.w);
    }
  }

  /** LMDB's rules hold throughout a run, with no handle lost, exactly when the run never opens a
      structure whose environment is set. */
  lemma HandleDiscipline(b: Build, s: State, ops: seq<Op>, s': State)
    requires Initial(s) && Runs(b, s, ops, s')
    ensures Kept(s') <==> Throughout(b, s, ops, Fresh)
  {
    if Throughout(b, s, ops, Fresh) {
      forall w: World, c: Call | Handles(w) && Allowed(w, c) ensures Handles(Issue(b.faults, w, c).w) {
        HandlesKept(b.faults, w, c);
      }
      RunReaches(b, Free, Handles, s, ops, s');
    } else {
      OneIsLost(b, s, ops, s');
    }
  }

  // ---- When it is only the calls that count ----

  /** The operation is an open that gets past its two allocations. */
  predicate Creates(b: Build, s: State, op: Op) {
    op.OpOpen? && Allocates(b, |s.w.trace|)
  }

  /** Such an open finds no environment live, in the structure or lost. */
  ghost predicate Tidy(b: Build, s: State, op: Op) {
    Creates(b, s, op) ==> forall e: nat :: !EnvLive(s.w.trace, e)
  }

  ghost predicate Unruly(w: World) {
    !Disciplined(w.trace)
  }

  lemma UnrulyStays(b: Build)
    ensures Closed(b, Free, Unruly) && Detached(Unruly)
  {
    forall w: World, c: Call | Unruly(w) ensures Unruly(Issue(b.faults, w, c).w) {
      IllegalStays(w.trace, Event(c, Issue(b.faults, w, c).err));
    }
  }

  lemma IllegalStays(tr: seq<Event>, e: Event)
    requires !Disciplined(tr)
    ensures !Disciplined(tr + [e])
  {
    var i :| 0 <= i < |tr| && !Legal(tr[..i], tr[i].call);
    assert (tr + [e])[..i] == tr[..i] && (tr + [e])[i] == tr[i];
  }

  /** Creating an environment beside a live one. */
  lemma SecondEnv(b: Build, s: State, flags: Flags, e: nat)
    requires Linked(w => true, s) && s.env.None? && s.txn.None? && EnvLive(s.w.trace, e)
    ensures Unruly(RepoOpen(b, s, flags).s.w)
    ensures Linked(Unruly, RepoOpen(b, s, flags).s) && Guarded(b, RepoOpen(b, s, flags).s)
  {
    var r := Do(b, s, EnvCreate);
    var tr := s.w.trace + [Event(EnvCreate, r.err)];
    assert r.s.w.trace == tr && !Legal(tr[..|s.w.trace|], tr[|s.w.trace|].call) by {
      assert tr[..|s.w.trace|] == s.w.trace;
    }
    RepoOpenReaches(b, Free, w => true, s, flags);
    if r.err == 0 {
      UnrulyStays(b);
      FinishReaches(b, Free, Unruly, r.s.(env := r.s.w.env), flags);
    }
  }

  lemma OpenBeside(b: Build, s: State, op: Op, e: nat)
    requires op.OpOpen? && Creates(b, s, op) && EnvLive(s.w.trace, e) && Enabled(b, s, op)
    ensures Linked(Unruly, Step(b, s, op)) && Guarded(b, Step(b, s, op))
  {
    OpenCases(b, s, op.tables, op.flags);
    var s2 := Allocated(s, op.tables, op.flags);
    EnvLiveAppend(s.w.trace, Event(StrNew(BackupStr), 0), e);
    EnvLiveAppend(s.w.trace + [Event(StrNew(BackupStr), 0)], Event(StrNew(PathStr), 0), e);
    SecondEnv(b, s2, op.flags, e);
    UnrulyStays(b);
    FreedReaches(b, Free, Unruly, RepoOpen(b, s2, op.flags).s);
  }

  /** Between operations: all rules hold, or none was broken yet but an environment is lost. */
  ghost predicate Orderly(s: State) {
    || Linked(Handles, s)
    || (Disciplined(s.w.trace) && s.env.None? && s.txn.None? && exists e: nat :: EnvLive(s.w.trace, e))
  }

  lemma StringEvent(tr: seq<Event>, c: Call, err: int, e: nat)
    requires (c.StrNew? || c.StrFree?) && Disciplined(tr) && EnvLive(tr, e)
    ensures Disciplined(tr + [Event(c, err)]) && EnvLive(tr + [Event(c, err)], e)
  {
    DisciplinedAppend(tr, Event(c, err));
    EnvLiveAppend(tr, Event(c, err), e);
  }

  lemma UnallocatedLegal(b: Build, tr: seq<Event>, e: nat)
    requires !Allocates(b, |tr|) && Disciplined(tr) && EnvLive(tr, e)
    ensures Disciplined(Unallocated(b, tr)) && EnvLive(Unallocated(b, tr), e)
  {
    if b.faults(|tr|).Fails? {
      StringEvent(tr, StrNew(BackupStr), b.faults(|tr|).code, e);
    } else {
      var tr1 := tr + [Event(StrNew(BackupStr), 0)];
      StringEvent(tr, StrNew(BackupStr), 0, e);
      StringEvent(tr1, StrNew(PathStr), b.faults(|tr| + 1).code, e);
      StringEvent(tr1 + [Event(StrNew(PathStr), b.faults(|tr| + 1).code)], StrFree(BackupStr), 0, e);
    }
  }

  lemma NothingCreated(b: Build, s: State, op: Op, e: nat)
    requires op.OpOpen? && !Creates(b, s, op) && Disciplined(s.w.trace) && EnvLive(s.w.trace, e)
    requires Enabled(b, s, op)
    ensures var s' := Step(b, s, op);
            Disciplined(s'.w.trace) && s'.env.None? && s'.txn.None? && EnvLive(s'.w.trace, e)
  {
    OpenCases(b, s, op.tables, op.flags);
    UnallocatedLegal(b, s.w.trace, e);
  }

  lemma OrderlyStep(b: Build, s: State, op: Op)
    requires Orderly(s) && (s.env.Some? ==> Guarded(b, s)) && Enabled(b, s, op) && Tidy(b, s, op)
    ensures var s' := Step(b, s, op); Orderly(s') && (s'.env.Some? ==> Guarded(b, s'))
  {
    if op.OpOpen? && exists e: nat :: EnvLive(s.w.trace, e) {
      var e: nat :| EnvLive(s.w.trace, e);
      NothingCreated(b, s, op, e);
    } else if Linked(Handles, s) {
      forall w: World, c: Call | Handles(w) && Allowed(w, c) ensures Handles(Issue(b.faults, w, c).w) {
        HandlesKept(b.faults, w, c);
      }
      StepReaches(b, Free, Handles, s, op);
    }
  }

  lemma {:induction false} OrderlyRun(b: Build, s: State, ops: seq<Op>, s': State)
    requires Orderly(s) && (s.env.Some? ==> Guarded(b, s)) && Runs(b, s, ops, s')
    ensures Disciplined(s'.w.trace) <==> Throughout(b, s, ops, (s, op) => Tidy(b, s, op))
    decreases |ops|
  {
    if ops != [] {
      var s1 := Step(b, s, ops[0]);
      if Tidy(b, s, ops[0]) {
        OrderlyStep(b, s, ops[0]);
        OrderlyRun(b, s1, ops[1..], s');
      } else {
        var e: nat :| EnvLive(s.w.trace, e);
        OpenBeside(b, s, ops[0], e);
        UnrulyStays(b);
        RunReaches(b, Free, Unruly, s1, ops[1..], s');
      }
    }
  }

  /** A call breaks LMDB's rules exactly when an open gets past its allocations while an
      environment is live. */
  lemma FirstIllegalCall(b: Build, s: State, ops: seq<Op>, s': State)
    requires Initial(s) && Runs(b, s, ops, s')
    ensures Disciplined(s'.w.trace) <==> Throughout(b, s, ops, (s, op) => Tidy(b, s, op))
  {
    OrderlyRun(b, s, ops, s');
  }

  // ---- A retry that breaks them ----

  function FailsAt(n: nat, code: Code): Faults {
    i => if i == n then Fails(code, None) else Done
  }

  const FIRST_OPEN: seq<Event> := [
    Event(StrNew(BackupStr), 0), Event(StrNew(PathStr), 0), Event(EnvCreate, 0), Event(EnvSetMaxdbs(2), 0),
    Event(EnvOpen(2), 0), Event(TxnBegin(2), 0), Event(Mutate(5, MakeTable(HED)), 0)]

  /** What the first open leaves before its commit. */
  lemma FirstPrepares(s: State, code: Code)
    requires Initial(s) && s.w.store == Absent
    ensures var b, flags := Build(false, FailsAt(7, code)), Flags(true, true, false);
            var s2 := Allocated(s, [], flags);
            var r := Do(b, s2, EnvCreate);
            && r.err == 0 && r.s.w.env == Some(2)
            && var p := Prepare(b, r.s.(env := Some(2)), flags);
            && p.err == 0 && p.s.env == Some(2) && p.s.txn == Some(5) && p.s.w.trace == FIRST_OPEN
            && p.s.w.env == Some(2)
  {
    var b, flags := Build(false, FailsAt(7, code)), Flags(true, true, false);
    var s2 := Allocated(s, [], flags);
    assert s2.w.trace == FIRST_OPEN[..2];
    var s3 := Do(b, s2, EnvCreate).s.(env := Some(2));
    assert s3.w.trace == FIRST_OPEN[..3];
    var s4 := Do(b, s3, EnvSetMaxdbs(2)).s;
    assert s4.w.trace == FIRST_OPEN[..4];
    var s5 := Do(b, s4, EnvOpen(2)).s;
    assert s5.w.trace == FIRST_OPEN[..5];
    FirstFills(s5, code);
  }

  lemma FirstFills(s: State, code: Code)
    requires s.env == Some(2) && s.w.env == Some(2) && s.txn.None? && s.tables == [] && s.w.trace == FIRST_OPEN[..5]
    ensures var r := Fill(Build(false, FailsAt(7, code)), s, Flags(true, true, false));
            && r.err == 0 && r.s.env == Some(2) && r.s.txn == Some(5) && r.s.w.trace == FIRST_OPEN
            && r.s.w.env == Some(2)
  {
    var b, flags := Build(false, FailsAt(7, code)), Flags(true, true, false);
    var s6 := Start(b, s).s;
    assert s6.txn == Some(5) && s6.w.trace == FIRST_OPEN[..6];
    assert [HED] + s.tables == [HED] && [HED][1..] == [];
    var s7 := OpenTable(b, s6, HED, flags).s;
    assert s7.w.trace == FIRST_OPEN;
    assert OpenTables(b, s6, [HED], flags) == OpenTables(b, s7, [], flags);
  }

  lemma FirstCommits(b: Build, s: State, code: Code)
    requires b == Build(false, FailsAt(7, code)) && s.w.trace == FIRST_OPEN && s.env == Some(2) && s.txn == Some(5)
    ensures var r := Commit(b, s);
            r.err == code && r.s.env == Some(2) && r.s.w.trace == FIRST_OPEN + [Event(TxnCommit(5), code)]
  {
  }

  lemma FirstOpens(s: State, code: Code)
    requires Initial(s) && s.w.store == Absent
    ensures var r := Open(Build(false, FailsAt(7, code)), s, [], Flags(true, true, false));
            && r.err == code && r.s.env == Some(2) && !r.s.paths
            && r.s.w.trace == FIRST_OPEN + [Event(TxnCommit(5), code)] + [Event(StrFree(PathStr), 0)]
                              + [Event(StrFree(BackupStr), 0)]
  {
    var b, flags := Build(false, FailsAt(7, code)), Flags(true, true, false);
    OpenCases(b, s, [], flags);
    FirstPrepares(s, code);
    var s2 := Allocated(s, [], flags);
    var s3 := Do(b, s2, EnvCreate).s.(env := Some(2));
    var p := Prepare(b, s3, flags).s;
    FirstCommits(b, p, code);
    assert RepoOpen(b, s2, flags) == Commit(b, p);
    FreedKeeps(b, Commit(b, p).s);
  }

  lemma FirstEnvLive(tr: seq<Event>, code: Code)
    requires tr == FIRST_OPEN + [Event(TxnCommit(5), code)] + [Event(StrFree(PathStr), 0)] + [Event(StrFree(BackupStr), 0)]
    ensures EnvLive(tr, 2) && |tr| == 10
  {
    assert EnvLive(FIRST_OPEN, 2);
    var tr8 := FIRST_OPEN + [Event(TxnCommit(5), code)];
    EnvLiveAppend(FIRST_OPEN, Event(TxnCommit(5), code), 2);
    EnvLiveAppend(tr8, Event(StrFree(PathStr), 0), 2);
    EnvLiveAppend(tr8 + [Event(StrFree(PathStr), 0)], Event(StrFree(BackupStr), 0), 2);
  }

  lemma OpenAgain(b: Build, s: State, flags: Flags, e: nat)
    requires Allocates(b, |s.w.trace|) && EnvLive(s.w.trace, e) && Enabled(b, s, OpOpen([], flags))
    ensures !Disciplined(Open(b, s, [], flags).s.w.trace)
  {
    OpenBeside(b, s, OpOpen([], flags), e);
  }

  /** A fresh repository whose first commit fails: the open reports the failure but leaves the
      environment open and the strings freed, and simply opening again creates a second
      environment beside it. */
  lemma RetryBreaksTheRules(s: State, code: Code)
    requires Initial(s) && s.w.store == Absent
    ensures var b, flags := Build(false, FailsAt(7, code)), Flags(true, true, false);
            var r := Open(b, s, [], flags);
            && r.err == code && r.s.env == Some(2) && !r.s.paths
            && Enabled(b, r.s, OpOpen([], flags))
            && !Disciplined(Open(b, r.s, [], flags).s.w.trace)
  {
    var b, flags := Build(false, FailsAt(7, code)), Flags(true, true, false);
    FirstOpens(s, code);
    var s1 := Open(b, s, [], flags).s;
    FirstEnvLive(s1.w.trace, code);
    OpenAgain(b, s1, flags, 2);
  }
}
