/**
 The rollbacks that the theorems about whole runs leave out: those made right after a copy
 of the store failed. From every reachable state, one such rollback loses the surviving history
 unless the spoilt copy happens to hold it.
 */
module RepoBlind {
  import opened Basics
  import opened Lmdb
  import opened RepoSpec
  import opened RepoJournal
  import opened RepoRuns
  import opened RepoHistory
  import opened RepoHandles
  import opened RepoOpening
  import opened RepoSeq

  ghost function Survivors(tr: seq<Event>): seq<seq<Write>> {
    Surviving(tr, |tr|)
  }

  /** Calls that neither commit nor copy nor roll back. */
  ghost predicate Idle(e: Event) {
    !IsCommit(e) && !IsCopy(e) && !IsRollback(e)
  }

  lemma IdleUndone(tr: seq<Event>, e: Event, rb: Event, i: nat)
    requires Idle(e) && IsRollback(rb) && i < |tr|
    ensures Undone(tr + [e] + [rb], i) <==> Undone(tr + [rb], i)
  {
    var long, short := tr + [e] + [rb], tr + [rb];
    assert forall k | 0 <= k < |tr| :: long[k] == tr[k] && short[k] == tr[k];
    if Undone(long, i) {
      var j :| i < j < |long| && IsRollback(long[j]) && forall k | i < k < j :: !IsCopy(long[k]);
      var j' := if j < |tr| then j else |tr|;
      assert IsRollback(short[j']);
      forall k | i < k < j' ensures !IsCopy(short[k]) { assert long[k] == short[k]; }
    }
    if Undone(short, i) {
      var j :| i < j < |short| && IsRollback(short[j]) && forall k | i < k < j :: !IsCopy(short[k]);
      var j' := if j < |tr| then j else |tr| + 1;
      assert IsRollback(long[j']);
      forall k | i < k < j' ensures !IsCopy(long[k]) {
        if k < |tr| { assert long[k] == short[k]; }
      }
    }
  }

  lemma {:induction false} IdleBefore(tr: seq<Event>, e: Event, rb: Event, n: nat)
    requires Idle(e) && IsRollback(rb) && n <= |tr|
    ensures Surviving(tr + [e] + [rb], n) == Surviving(tr + [rb], n)
  {
    if n > 0 {
      IdleBefore(tr, e, rb, n - 1);
      IdleUndone(tr, e, rb, n - 1);
      var long, short := tr + [e] + [rb], tr + [rb];
      assert long[n - 1] == short[n - 1] && long[..n - 1] == short[..n - 1];
    }
  }

  /** An idle call before a rollback makes no difference to the survivors. */
  lemma IdleDropped(tr: seq<Event>, e: Event, rb: Event)
    requires Idle(e) && IsRollback(rb)
    ensures Survivors(tr + [e] + [rb]) == Survivors(tr + [rb])
  {
    var long, short := tr + [e] + [rb], tr + [rb];
    IdleBefore(tr, e, rb, |tr|);
    assert long[|tr|] == e && long[|tr| + 1] == rb && short[|tr|] == rb;
    assert Surviving(long, |tr| + 2) == Surviving(long, |tr| + 1) + [];
  }

  /** The survivors' writes are `ws`, and the open transaction has made none. */
  ghost predicate Unchanged(ws: seq<Write>, w: World) {
    Owned(w) && Flat(Survivors(w.trace)) == ws && Pending(w) == []
  }

  lemma UnchangedCall(f: Faults, ws: seq<Write>, w: World, c: Call)
    requires Unchanged(ws, w) && Allowed(w, c) && Within(Reading, w, c)
    ensures Unchanged(ws, Issue(f, w, c).w)
  {
    var e := Event(c, Issue(f, w, c).err);
    assert Issue(f, w, c).w.trace == w.trace + [e];
    OwnedKept(f, w, c);
    assert w.txn.Some? ==> TxnLive(w.trace, w.txn.value);
    PendingStep(f, w, c);
    SurvivingLast(w.trace, e);
    SameFlat(w.trace, e, ws);
  }

  lemma SameFlat(tr: seq<Event>, e: Event, ws: seq<Write>)
    requires Flat(Survivors(tr)) == ws && (IsCommit(e) ==> Writes(tr, e.call.txn) == [])
    ensures Flat(Survivors(tr) + (if IsCommit(e) then [Writes(tr, e.call.txn)] else [])) == ws
  {
    FrontBack(Survivors(tr), []);
    assert Survivors(tr) + [] == Survivors(tr) && ws + [] == ws;
  }

  /** Reopening adds nothing to what survives. */
  lemma ReopenUnchanged(b: Build, s: State)
    requires Linked(Owned, s) && s.env.None? && s.txn.None?
    ensures Flat(Survivors(RepoOpen(b, s, Mode(s)).s.w.trace)) == Flat(Survivors(s.w.trace))
  {
    var ws := Flat(Survivors(s.w.trace));
    var p := (w: World) => Unchanged(ws, w);
    forall w: World, c: Call | p(w) && Allowed(w, c) && Within(Reading, w, c) ensures p(Issue(b.faults, w, c).w) {
      UnchangedCall(b.faults, ws, w, c);
    }
    RepoOpenReaches(b, Reading, p, s, Mode(s));
  }

  /** The calls of a start whose copy fails, and of a rollback up to its rename. */
  function BlindCalls(e: nat, code: Code): seq<Event> {
    [Event(BackupNew, 0), Event(EnvCopy(e), code), Event(EnvClose(e), 0), Event(BackupRename, 0)]
  }

  lemma BlindSurvivors(tr: seq<Event>, e: nat, code: Code)
    ensures Survivors(tr + BlindCalls(e, code)) == Survivors(tr + [Event(BackupRename, 0)])
  {
    var a, c, d, rb := Event(BackupNew, 0), Event(EnvCopy(e), code), Event(EnvClose(e), 0), Event(BackupRename, 0);
    assert tr + BlindCalls(e, code) == tr + [a] + [c] + [d] + [rb];
    IdleDropped(tr + [a] + [c], d, rb);
    IdleDropped(tr + [a], c, rb);
    IdleDropped(tr, a, rb);
  }

  lemma BlindTrace(b: Build, s: State)
    requires b.tpc && s.env.Some? && s.txn.None?
    requires b.faults(|s.w.trace|).Done? && b.faults(|s.w.trace| + 1).Fails? && b.faults(|s.w.trace| + 3).Done?
    ensures var s1 := Start(b, s).s;
            && Renames(b, s1)
            && Restored(b, s1).w.trace == s.w.trace + BlindCalls(s.env.value, b.faults(|s.w.trace| + 1).code)
            && Restored(b, s1).w.env.None? && Restored(b, s1).w.txn == s.w.txn
            && Restored(b, s1).env.None? && Restored(b, s1).txn.None?
  {
    StartCopyFails(b, s);
    var s1 := Start(b, s).s;
    ShutIs(b, s1);
    RenameTrace(b, Shut(b, s1));
  }

  lemma RenameTrace(b: Build, s: State)
    requires b.faults(|s.w.trace|).Done? && s.w.backup.Partial?
    ensures var r := Do(b, s, BackupRename);
            && r.err == 0 && r.s == s.(w := r.s.w)
            && r.s.w.trace == s.w.trace + [Event(BackupRename, 0)]
            && r.s.w.env == s.w.env && r.s.w.txn == s.w.txn
  {
  }

  /** From every reachable state: a start whose copy fails and then a rollback leave what the copy
      left, and that is the surviving history only if it happens to equal it. */
  lemma BlindRollback(b: Build, s: State, ops: seq<Op>, s': State)
    requires Initial(s) && Runs(b, s, ops, s') && Enabled(b, s', OpRollback)
    requires b.faults(|s'.w.trace|).Done? && b.faults(|s'.w.trace| + 1).Fails? && b.faults(|s'.w.trace| + 3).Done?
    ensures var left := Contents(Partial(b.faults(|s'.w.trace| + 1).left));
            var s2 := Rollback(b, Start(b, s').s).s;
            && Contents(s2.w.store) == left
            && (Contents(s2.w.store) == Replayed(Contents(s.w.store), s2.w.trace) <==>
                left == Replayed(Contents(s.w.store), s'.w.trace + [Event(BackupRename, 0)]))
  {
    RunInv(b, s, ops, s');
    TablesPlain(b, s, ops, s');
    StartCopyFails(b, s');
    BlindTrace(b, s');
    var s1 := Start(b, s').s;
    RollbackExact(b, s1);
    BlindSurvivors(s'.w.trace, s'.env.value, b.faults(|s'.w.trace| + 1).code);
    BlindOwned(b, s');
    ReopenUnchanged(b, Restored(b, s1));
  }

  lemma BlindOwned(b: Build, s: State)
    requires b.tpc && Linked(Owned, s) && Guarded(b, s) && s.env.Some? && s.txn.None? && Start(b, s).err != 0
    ensures Linked(Owned, Restored(b, Start(b, s).s))
  {
    OwnedStays(b);
    StartKeepsStore(b, s);
    StartReaches(b, Free, Owned, s);
    RenameReaches(b, Start(b, s).s);
  }

  lemma RenameReaches(b: Build, s: State)
    requires b.tpc && Closed(b, Free, Owned) && Linked(Owned, s) && Guarded(b, s) && s.env.Some? && s.txn.None?
    ensures Linked(Owned, Restored(b, s))
  {
    ShutReaches(b, Free, Owned, s);
    DoReaches(b, Free, Owned, Shut(b, s), BackupRename);
  }
}
