/**
 The main theorems about runs of the repository. Each holds for every sequence
 of operations the API allows and for every pattern of storage failures.
 */
module RepoHistory {
  import opened Basics
  import opened Lmdb
  import opened RepoSpec
  import opened RepoJournal
  import opened RepoRuns
  import opened RepoOpening

  lemma RunInv(b: Build, s: State, ops: seq<Op>, s': State)
    requires Initial(s) && Runs(b, s, ops, s')
    ensures Inv(b, Contents(s.w.store), s'.w) && s'.env == s'.w.env && s'.txn == s'.w.txn && Guarded(b, s')
    ensures s'.txn.Some? ==> s'.env.Some?
  {
    var init := Contents(s.w.store);
    var p := (w: World) => Inv(b, init, w);
    forall w: World, c: Call | p(w) && Allowed(w, c) && InPhase(b, w, c) ensures p(Issue(b.faults, w, c).w) {
      CallKeeps(b, init, w, c);
    }
    forall w: World | p(w) ensures p(Lost(w)) { LossKeeps(b, init, w); }
    assert p(s.w) by { StartsWell(b, s); }
    RunReaches(b, Free, p, s, ops, s');
  }

  lemma StartsWell(b: Build, s: State)
    requires Initial(s)
    ensures Inv(b, Contents(s.w.store), s.w)
  {
    assert s.w.trace == [];
    assert Surviving(s.w.trace, 0) == [];
    assert Flat([]) == [];
  }

  /** No rollback came right after a failed copy of the store into the backup file. */
  ghost predicate NoBlindRollback(tr: seq<Event>) {
    forall j | 0 <= j < |tr| && IsRollback(tr[j]) :: !CopyFailed(tr[..j])
  }

  /** In a run, the backup is whole at every rollback exactly when no copy failed before it. */
  lemma SoundIffNotBlind(b: Build, s: State, ops: seq<Op>, s': State)
    requires Initial(s) && Runs(b, s, ops, s')
    ensures Sound(s'.w.trace) <==> NoBlindRollback(s'.w.trace)
  {
    RunInv(b, s, ops, s');
    var tr := s'.w.trace;
    forall j | 0 <= j < |tr| && IsRollback(tr[j]) ensures Since(tr[..j]).Some? <==> !CopyFailed(tr[..j]) {
      SinceOrFailed(tr[..j]);
    }
  }

  lemma {:induction false} SinceOrFailed(tr: seq<Event>)
    ensures !(Since(tr).Some? && CopyFailed(tr))
  {
    if tr != [] { SinceOrFailed(Front(tr)); }
  }

  /** After any run the store is what the surviving transactions alone make of it. */
  lemma SurvivingHistory(b: Build, s: State, ops: seq<Op>, s': State)
    requires Initial(s) && Runs(b, s, ops, s')
    requires NoBlindRollback(s'.w.trace)
    ensures Contents(s'.w.store) == Replayed(Contents(s.w.store), s'.w.trace)
    ensures s'.txn.Some? ==>
              s'.w.working == Replay(Contents(s'.w.store), Writes(s'.w.trace, s'.txn.value))
  {
    RunInv(b, s, ops, s');
    SoundIffNotBlind(b, s, ops, s');
  }

  lemma {:induction false} SurvivingBeforeCopy(tr: seq<Event>)
    requires Since(tr).Some?
    ensures Surviving(tr, LastCopy(tr)) == Surviving(tr[..LastCopy(tr)], LastCopy(tr))
  {
    var e, tr0 := Back(tr), Front(tr);
    assert tr == tr0 + [e];
    SurvivingAppend(tr0, e, LastCopy(tr));
    if !IsCopy(e) {
      SurvivingBeforeCopy(tr0);
      assert tr0[..LastCopy(tr)] == tr[..LastCopy(tr)];
    }
  }

  lemma BackupIs(init: Store, w: World)
    requires Files(init, w) && Since(w.trace).Some?
    ensures w.backup == Whole(Replayed(init, w.trace[..LastCopy(w.trace)]))
  {
    SurvivorsAtCopy(w.trace);
  }

  lemma SurvivorsAtCopy(tr: seq<Event>)
    requires Since(tr).Some?
    ensures var all, at := Surviving(tr, |tr|), tr[..LastCopy(tr)];
            Since(tr).value <= |all| && all[..|all| - Since(tr).value] == Surviving(at, |at|)
  {
    SurvivingSinceCopy(tr);
    SurvivingBeforeCopy(tr);
  }

  /** The backup is the store as the surviving transactions had left it at the last copy,
      and at most one transaction has committed since. */
  lemma RollbackPoint(b: Build, s: State, ops: seq<Op>, s': State)
    requires Initial(s) && Runs(b, s, ops, s') && b.tpc
    requires NoBlindRollback(s'.w.trace) && Since(s'.w.trace).Some?
    ensures s'.w.backup == Whole(Replayed(Contents(s.w.store), s'.w.trace[..LastCopy(s'.w.trace)]))
    ensures Since(s'.w.trace).value <= (if s'.txn.Some? then 0 else 1)
  {
    RunInv(b, s, ops, s');
    SoundIffNotBlind(b, s, ops, s');
    BackupIs(Contents(s.w.store), s'.w);
  }

  /** An open repository always has such a backup unless the latest copy failed. */
  lemma RollbackReady(b: Build, s: State, ops: seq<Op>, s': State)
    requires Initial(s) && Runs(b, s, ops, s') && b.tpc && s'.env.Some?
    ensures Since(s'.w.trace).Some? <==> !CopyFailed(s'.w.trace)
  {
    RunInv(b, s, ops, s');
    SinceOrFailed(s'.w.trace);
  }

  lemma {:induction false} SinceCounts(tr: seq<Event>, i: nat)
    requires i < |tr| && IsCommit(tr[i]) && forall m | i < m < |tr| :: !IsCopy(tr[m])
    ensures Since(tr) != Some(0)
  {
    if i < |tr| - 1 {
      SinceCounts(Front(tr), i);
    }
  }

  /** A rollback takes back one transaction at most: between an undone commit and the rollback
      that undoes it there is no other commit. */
  lemma RollbackUndoesOne(b: Build, s: State, ops: seq<Op>, s': State, i: nat, j: nat, k: nat)
    requires Initial(s) && Runs(b, s, ops, s') && b.tpc
    requires i < j < k < |s'.w.trace|
    requires IsCommit(s'.w.trace[i]) && IsRollback(s'.w.trace[k])
    requires forall m | i < m < k :: !IsCopy(s'.w.trace[m])
    ensures !IsCommit(s'.w.trace[j])
  {
    RunInv(b, s, ops, s');
    var tr := s'.w.trace;
    if IsCommit(tr[j]) {
      SinceCounts(tr[..j], i);
    }
  }

  lemma StepTables(b: Build, s: State, op: Op)
    requires Enabled(b, s, op)
    ensures Step(b, s, op).tables == if op.OpOpen? then op.tables else s.tables
  {
    match op
    case OpOpen(tables, flags) => OpenAllOrNothing(b, s, tables, flags);
    case OpReload => RepoOpenTables(b, Shut(b, s), Mode(s));
    case OpRollback => RepoOpenTables(b, Do(b, Shut(b, s), BackupRename).s, Mode(s));
    case _ =>
  }

  lemma RepoOpenTables(b: Build, s: State, flags: Flags)
    requires s.txn.None?
    ensures RepoOpen(b, s, flags).s.tables == s.tables
  {
    var s1 := Do(b, s, EnvCreate).s;
    if s1.w.env.Some? { PrepareKeepsStore(b, s1.(env := s1.w.env), flags); }
  }

  /** No run opens `.hed` as a table of its own. */
  lemma {:induction false} TablesPlain(b: Build, s: State, ops: seq<Op>, s': State)
    requires Runs(b, s, ops, s') && HED !in s.tables
    ensures HED !in s'.tables
    decreases |ops|
  {
    if ops != [] {
      StepTables(b, s, ops[0]);
      assert HED[0] == DOT;
      TablesPlain(b, Step(b, s, ops[0]), ops[1..], s');
    }
  }

  /** In any reachable state, a rollback whose rename goes through leaves the store as the
      surviving transactions had made it by the last copy, unless that copy failed. */
  lemma RollbackRestores(b: Build, s: State, ops: seq<Op>, s': State)
    requires Initial(s) && Runs(b, s, ops, s') && Enabled(b, s', OpRollback)
    requires NoBlindRollback(s'.w.trace) && !CopyFailed(s'.w.trace) && Renames(b, s')
    ensures Since(s'.w.trace).Some?
    ensures Contents(Rollback(b, s').s.w.store) ==
            Replayed(Contents(s.w.store), s'.w.trace[..LastCopy(s'.w.trace)])
  {
    RollbackReady(b, s, ops, s');
    RollbackPoint(b, s, ops, s');
    TablesPlain(b, s, ops, s');
    RollbackExact(b, s');
  }
}
