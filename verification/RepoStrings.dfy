/**
 The two strings that name a repository's files. They are used and freed only while
 allocated, except by what follows an open that failed at its last commit: such an open
 frees them but leaves the environment open.
 */
module RepoStrings {
  import opened Basics
  import opened Lmdb
  import opened RepoSpec
  import opened RepoJournal
  import opened RepoRuns
  import opened RepoHandles
  import opened RepoOpening

  // ---- Reading the record ----

  /** The calls that read or free a string. */
  predicate Uses(c: Call, x: Str) {
    match c
    case EnvOpen(_) => x == PathStr
    case BackupNew => x == BackupStr
    case BackupRename => true
    case BackupRemove => x == BackupStr
    case StrFree(y) => x == y
    case _ => false
  }

  ghost predicate StrLive(tr: seq<Event>, x: Str) {
    tr != [] &&
    if Back(tr).call == StrNew(x) && Ok(Back(tr)) then true
    else Back(tr).call != StrFree(x) && StrLive(Front(tr), x)
  }

  /** Every use and every freeing of a string found it allocated. */
  ghost predicate StringsKept(tr: seq<Event>) {
    forall i | 0 <= i < |tr| :: Provided(tr[..i], tr[i].call)
  }

  lemma StrLiveAppend(tr: seq<Event>, e: Event)
    ensures StrLive(tr + [e], PathStr) <==>
            (e.call == StrNew(PathStr) && Ok(e)) || (e.call != StrFree(PathStr) && StrLive(tr, PathStr))
    ensures StrLive(tr + [e], BackupStr) <==>
            (e.call == StrNew(BackupStr) && Ok(e)) || (e.call != StrFree(BackupStr) && StrLive(tr, BackupStr))
  {
    FrontBack(tr, e);
  }

  /** The strings that a call uses are allocated after the calls in `tr`. */
  ghost predicate Provided(tr: seq<Event>, c: Call) {
    (Uses(c, PathStr) ==> StrLive(tr, PathStr)) && (Uses(c, BackupStr) ==> StrLive(tr, BackupStr))
  }

  lemma StringsKeptAppend(tr: seq<Event>, e: Event)
    ensures StringsKept(tr + [e]) <==> StringsKept(tr) && Provided(tr, e.call)
  {
    AppendEvent(tr, e);
    var tr' := tr + [e];
    if StringsKept(tr') {
      forall i | 0 <= i < |tr| ensures Provided(tr[..i], tr[i].call) { assert tr'[i] == tr[i]; }
      assert tr'[|tr|] == e;
    }
    if StringsKept(tr) && Provided(tr, e.call) {
      forall i | 0 <= i < |tr'| ensures Provided(tr'[..i], tr'[i].call) {
        if i < |tr| { assert tr'[i] == tr[i]; }
      }
    }
  }

  // ---- What calls keep ----

  ghost predicate BothLive(w: World) {
    StringsKept(w.trace) && StrLive(w.trace, PathStr) && StrLive(w.trace, BackupStr)
  }

  ghost predicate BothDead(w: World) {
    StringsKept(w.trace) && !StrLive(w.trace, PathStr) && !StrLive(w.trace, BackupStr)
  }

  ghost predicate Misused(w: World) {
    !StringsKept(w.trace)
  }

  lemma OneCall(f: Faults, w: World, c: Call)
    ensures var w', err := Issue(f, w, c).w, Issue(f, w, c).err;
            && (StringsKept(w'.trace) <==> StringsKept(w.trace) && Provided(w.trace, c))
            && (StrLive(w'.trace, PathStr) <==>
                (c == StrNew(PathStr) && err == 0) || (c != StrFree(PathStr) && StrLive(w.trace, PathStr)))
            && (StrLive(w'.trace, BackupStr) <==>
                (c == StrNew(BackupStr) && err == 0) || (c != StrFree(BackupStr) && StrLive(w.trace, BackupStr)))
  {
    var e := Event(c, Issue(f, w, c).err);
    IssueHandles(f, w, c);
    StrLiveAppend(w.trace, e);
    StringsKeptAppend(w.trace, e);
  }

  lemma LiveCall(f: Faults, w: World, c: Call)
    requires BothLive(w) && !c.StrFree?
    ensures BothLive(Issue(f, w, c).w)
  {
    OneCall(f, w, c);
  }

  lemma DeadCall(f: Faults, w: World, c: Call)
    requires BothDead(w) && !Uses(c, PathStr) && !Uses(c, BackupStr) && !c.StrNew?
    ensures BothDead(Issue(f, w, c).w)
  {
    OneCall(f, w, c);
  }

  lemma LiveStays(b: Build)
    ensures Closed(b, Holding, BothLive) && Detached(BothLive)
  {
    forall w: World, c: Call | BothLive(w) && Within(Holding, w, c) ensures BothLive(Issue(b.faults, w, c).w) {
      LiveCall(b.faults, w, c);
    }
  }

  lemma DeadStays(b: Build)
    ensures Closed(b, Quiet, BothDead) && Detached(BothDead)
  {
    forall w: World, c: Call | BothDead(w) && Within(Quiet, w, c) ensures BothDead(Issue(b.faults, w, c).w) {
      DeadCall(b.faults, w, c);
    }
  }

  lemma MisusedStays(b: Build)
    ensures Closed(b, Free, Misused) && Detached(Misused)
  {
    forall w: World, c: Call | Misused(w) ensures Misused(Issue(b.faults, w, c).w) {
      OneCall(b.faults, w, c);
    }
  }

  // ---- The caller's rule ----

  /** The environment is open but the strings are freed. */
  predicate Stranded(s: State) {
    s.env.Some? && !s.paths
  }

  /** What then touches the strings: a close, a rollback, a start that makes a backup, and a
      reload that gets as far as opening the file. */
  predicate Slips(b: Build, s: State, op: Op) {
    Stranded(s) &&
    match op
    case OpClose => true
    case OpRollback => true
    case OpStart => b.tpc
    case OpReload => Allocates(b, |s.w.trace| + 1)
    case _ => false
  }

  /** That state is what an open that fails at its last commit leaves, until the next open or
      until the environment is closed. */
  lemma StrandedBy(b: Build, s: State, op: Op)
    requires Enabled(b, s, op)
    ensures var s' := Step(b, s, op);
            Stranded(s') <==>
            match op
            case OpOpen(tables, flags) => Open(b, s, tables, flags).err != 0 && FailedCommit(s'.w)
            case _ => Stranded(s) && s'.env.Some?
  {
    match op
    case OpOpen(tables, flags) => OpenAllOrNothing(b, s, tables, flags);
    case OpReload => KeepsPaths(b, Shut(b, s), Mode(s));
    case OpRollback => KeepsPaths(b, Do(b, Shut(b, s), BackupRename).s, Mode(s));
    case _ =>
  }

  lemma KeepsPaths(b: Build, s: State, flags: Flags)
    requires s.txn.None?
    ensures RepoOpen(b, s, flags).s.paths == s.paths
  {
    var s1 := Do(b, s, EnvCreate).s;
    if s1.w.env.Some? { PrepareKeepsStore(b, s1.(env := s1.w.env), flags); }
  }

  // ---- Every operation ----

  /** Between operations: while the environment is open, the strings are as the structure says. */
  ghost predicate Tracked(b: Build, s: State) {
    && Linked(w => true, s) && Guarded(b, s) && StringsKept(s.w.trace)
    && (s.env.Some? ==> if s.paths then BothLive(s.w) else BothDead(s.w))
  }

  ghost predicate Broken(b: Build, s: State) {
    Linked(Misused, s) && Guarded(b, s)
  }

  lemma Frees(b: Build, s: State)
    ensures var s' := Freed(b, s);
            && (BothLive(s.w) ==> BothDead(s'.w))
            && (!StrLive(s.w.trace, PathStr) ==> Misused(s'.w))
            && s'.w.env == s.w.env && s'.w.txn == s.w.txn
  {
    OneCall(b.faults, s.w, StrFree(PathStr));
    OneCall(b.faults, Do(b, s, StrFree(PathStr)).s.w, StrFree(BackupStr));
  }

  lemma AllocatedLive(s: State, tables: seq<Bytes>, flags: Flags)
    requires StringsKept(s.w.trace)
    ensures BothLive(Allocated(s, tables, flags).w)
  {
    var tr := s.w.trace + [Event(StrNew(BackupStr), 0)];
    StringsKeptAppend(s.w.trace, Event(StrNew(BackupStr), 0));
    StrLiveAppend(s.w.trace, Event(StrNew(BackupStr), 0));
    StringsKeptAppend(tr, Event(StrNew(PathStr), 0));
    StrLiveAppend(tr, Event(StrNew(PathStr), 0));
  }

  lemma UnallocatedKept(b: Build, tr: seq<Event>)
    requires StringsKept(tr) && !Allocates(b, |tr|)
    ensures StringsKept(Unallocated(b, tr))
  {
    if b.faults(|tr|).Fails? {
      StringsKeptAppend(tr, Event(StrNew(BackupStr), b.faults(|tr|).code));
    } else {
      var tr1 := tr + [Event(StrNew(BackupStr), 0)];
      var e := Event(StrNew(PathStr), b.faults(|tr| + 1).code);
      StringsKeptAppend(tr, Event(StrNew(BackupStr), 0));
      StrLiveAppend(tr, Event(StrNew(BackupStr), 0));
      StringsKeptAppend(tr1, e);
      StrLiveAppend(tr1, e);
      StringsKeptAppend(tr1 + [e], Event(StrFree(BackupStr), 0));
    }
  }

  lemma OpenTracked(b: Build, s: State, tables: seq<Bytes>, flags: Flags)
    requires Tracked(b, s) && Enabled(b, s, OpOpen(tables, flags))
    ensures Tracked(b, Open(b, s, tables, flags).s)
  {
    OpenCases(b, s, tables, flags);
    OpenReaches(b, Free, w => true, s, tables, flags);
    if Allocates(b, |s.w.trace|) {
      var s2 := Allocated(s, tables, flags);
      AllocatedLive(s, tables, flags);
      LiveStays(b);
      RepoOpenReaches(b, Holding, BothLive, s2, flags);
      Frees(b, RepoOpen(b, s2, flags).s);
      KeepsPaths(b, s2, flags);
    } else {
      UnallocatedKept(b, s.w.trace);
    }
  }

  lemma RemoveLive(b: Build, s: State)
    ensures var s1 := if s.rdwr then Do(b, s, BackupRemove).s else s;
            && (BothLive(s.w) ==> BothLive(s1.w))
            && (!StrLive(s.w.trace, PathStr) ==> !StrLive(s1.w.trace, PathStr))
  {
    OneCall(b.faults, s.w, BackupRemove);
  }

  lemma CloseTracked(b: Build, s: State)
    requires Tracked(b, s)
    ensures if Stranded(s) then Broken(b, Close(b, s)) else Tracked(b, Close(b, s))
  {
    CloseReaches(b, Free, w => true, s);
    if s.env.Some? {
      var s1 := Shut(b, s);
      if s.paths {
        LiveStays(b);
        ShutReaches(b, Holding, BothLive, s);
      } else {
        DeadStays(b);
        ShutReaches(b, Quiet, BothDead, s);
      }
      RemoveLive(b, s1);
      Frees(b, if s.rdwr then Do(b, s1, BackupRemove).s else s1);
    }
  }

  /** With the strings allocated, nothing but an open and a close matters to them. */
  lemma HeldTracked(b: Build, s: State, op: Op)
    requires Tracked(b, s) && s.env.Some? && s.paths && Enabled(b, s, op) && !op.OpOpen? && !op.OpClose?
    ensures Tracked(b, Step(b, s, op))
  {
    LiveStays(b);
    StepReaches(b, Holding, BothLive, s, op);
    StrandedBy(b, s, op);
  }

  lemma QuietTracked(b: Build, s: State, op: Op)
    requires Tracked(b, s) && Stranded(s) && Enabled(b, s, op) && Meets(Quiet, b, op)
    ensures Tracked(b, Step(b, s, op))
  {
    DeadStays(b);
    StepReaches(b, Quiet, BothDead, s, op);
    StrandedBy(b, s, op);
    QuietKeepsPaths(b, s, op);
  }

  lemma QuietKeepsPaths(b: Build, s: State, op: Op)
    requires Enabled(b, s, op) && Meets(Quiet, b, op)
    ensures Step(b, s, op).paths == s.paths
  {
  }

  lemma CopySlips(b: Build, s: State)
    requires Linked(Misused, s) && s.env.Some? && s.txn.None? && b.tpc
    ensures Misused(Do(b, s, EnvCopy(s.env.value)).s.w)
    ensures Do(b, s, EnvCopy(s.env.value)).err == 0 ==>
              Misused(Begin(b, Do(b, s, EnvCopy(s.env.value)).s).s.w)
  {
    MisusedStays(b);
    DoReaches(b, Free, Misused, s, EnvCopy(s.env.value));
    var r := Do(b, s, EnvCopy(s.env.value));
    if r.err == 0 { BeginReaches(b, Free, Misused, r.s); }
  }

  lemma StartSlips(b: Build, s: State)
    requires Tracked(b, s) && Stranded(s) && s.txn.None? && b.tpc
    ensures Broken(b, Start(b, s).s)
  {
    StartReaches(b, Free, w => true, s);
    OneCall(b.faults, s.w, BackupNew);
    DoReaches(b, Free, w => true, s, BackupNew);
    var r := Do(b, s, BackupNew);
    if r.err == 0 { CopySlips(b, r.s); }
  }

  lemma ShutDead(b: Build, s: State)
    requires Linked(BothDead, s) && Guarded(b, s) && s.env.Some? && s.txn.None?
    ensures var s1 := Shut(b, s);
            && Linked(BothDead, s1) && s1.env.None? && s1.txn.None?
            && |s1.w.trace| == |s.w.trace| + 1
            && Since(s1.w.trace) == Since(s.w.trace) && CopyFailed(s1.w.trace) == CopyFailed(s.w.trace)
  {
    DeadStays(b);
    ShutReaches(b, Quiet, BothDead, s);
    ShutIs(b, s);
  }

  lemma RenameSlips(b: Build, s: State)
    requires b.tpc && Linked(BothDead, s) && s.env.None? && s.txn.None?
    requires Since(s.w.trace).Some? || CopyFailed(s.w.trace)
    ensures Linked(Misused, Do(b, s, BackupRename).s)
    ensures Do(b, s, BackupRename).s.env.None? && Do(b, s, BackupRename).s.txn.None?
  {
    assert Misused(Do(b, s, BackupRename).s.w) by { OneCall(b.faults, s.w, BackupRename); }
    assert s.w.env.None? && s.w.txn.None?;
    IssueHandles(b.faults, s.w, BackupRename);
  }

  lemma RollbackSlips(b: Build, s: State)
    requires Tracked(b, s) && Stranded(s) && Enabled(b, s, OpRollback)
    ensures Broken(b, Rollback(b, s).s)
  {
    ShutDead(b, s);
    RenameSlips(b, Shut(b, s));
    MisusedStays(b);
    RepoOpenReaches(b, Free, Misused, Do(b, Shut(b, s), BackupRename).s, Mode(s));
  }

  /** A `repo_open` that fails before it reaches the file. */
  lemma StopsEarly(b: Build, s: State, flags: Flags)
    requires s.env.None? && s.w.env.None? && s.txn.None? && !Allocates(b, |s.w.trace|)
    ensures var n, tr := |s.w.trace|, s.w.trace;
            RepoOpen(b, s, flags).s ==
            if b.faults(n).Fails? then s.(w := s.w.(trace := tr + [Event(EnvCreate, b.faults(n).code)]))
            else
              s.(w := s.w.(trace := tr + [Event(EnvCreate, 0)] + [Event(EnvSetMaxdbs(n), b.faults(n + 1).code)]
                                    + [Event(EnvClose(n), 0)]))
  {
    var r := Do(b, s, EnvCreate);
    if r.err == 0 { StopsAtMaxdbs(b, r.s.(env := r.s.w.env), flags); }
  }

  lemma StopsAtMaxdbs(b: Build, s: State, flags: Flags)
    requires s.env.Some? && s.txn.None? && b.faults(|s.w.trace|).Fails?
    ensures var e, n := s.env.value, |s.w.trace|;
            Finish(b, s, flags).s ==
            s.(env := None, w := s.w.(env := None, trace := s.w.trace + [Event(EnvSetMaxdbs(e), b.faults(n).code)]
                                                            + [Event(EnvClose(e), 0)]))
  {
    var r := Do(b, s, EnvSetMaxdbs(s.env.value));
    assert Finish(b, s, flags).s == Shut(b, r.s);
  }

  lemma EarlyKeeps(b: Build, s: State, flags: Flags)
    requires s.env.None? && s.w.env.None? && s.txn.None? && !Allocates(b, |s.w.trace|)
    requires StringsKept(s.w.trace)
    ensures var s' := RepoOpen(b, s, flags).s; StringsKept(s'.w.trace) && s'.env.None?
  {
    var n, tr := |s.w.trace|, s.w.trace;
    StopsEarly(b, s, flags);
    if b.faults(n).Fails? {
      StringsKeptAppend(tr, Event(EnvCreate, b.faults(n).code));
    } else {
      var tr1 := tr + [Event(EnvCreate, 0)];
      var tr2 := tr1 + [Event(EnvSetMaxdbs(n), b.faults(n + 1).code)];
      StringsKeptAppend(tr, Event(EnvCreate, 0));
      StringsKeptAppend(tr1, Event(EnvSetMaxdbs(n), b.faults(n + 1).code));
      StringsKeptAppend(tr2, Event(EnvClose(n), 0));
    }
  }

  /** One that gets as far as opening the file, by the freed name. */
  lemma LateSlips(b: Build, s: State, flags: Flags)
    requires Linked(BothDead, s) && s.env.None? && s.txn.None? && Allocates(b, |s.w.trace|)
    ensures Misused(RepoOpen(b, s, flags).s.w)
  {
    DeadStays(b);
    DoReaches(b, Quiet, BothDead, s, EnvCreate);
    var r := Do(b, s, EnvCreate);
    FileSlips(b, r.s.(env := r.s.w.env), flags);
  }

  lemma OpenedSlips(b: Build, s: State, flags: Flags)
    requires s.env.Some? && s.txn.None?
    requires var r1 := Do(b, s, EnvSetMaxdbs(s.env.value));
             r1.err == 0 && Linked(Misused, Do(b, r1.s, EnvOpen(s.env.value)).s)
    ensures Misused(Finish(b, s, flags).s.w)
  {
    var r1 := Do(b, s, EnvSetMaxdbs(s.env.value));
    var r2 := Do(b, r1.s, EnvOpen(s.env.value));
    MisusedStays(b);
    if r2.err == 0 { FillReaches(b, Free, Misused, r2.s, flags); }
    var r := Prepare(b, s, flags);
    if r.err != 0 { ShutReaches(b, Free, Misused, r.s); } else { CommitReaches(b, Free, Misused, r.s); }
  }

  lemma FileSlips(b: Build, s: State, flags: Flags)
    requires Linked(BothDead, s) && s.env.Some? && s.txn.None? && b.faults(|s.w.trace|).Done?
    ensures Misused(Finish(b, s, flags).s.w)
  {
    DeadStays(b);
    EnvReaches(b, Quiet, BothDead, s, EnvSetMaxdbs(s.env.value));
    var r1 := Do(b, s, EnvSetMaxdbs(s.env.value));
    OneCall(b.faults, r1.s.w, EnvOpen(s.env.value));
    EnvReaches(b, Free, w => true, r1.s, EnvOpen(s.env.value));
    OpenedSlips(b, s, flags);
  }

  lemma ReopenSlips(b: Build, s: State, flags: Flags)
    requires Linked(BothDead, s) && s.env.None? && s.txn.None?
    ensures var s' := RepoOpen(b, s, flags).s;
            && Linked(w => true, s') && Guarded(b, s')
            && if Allocates(b, |s.w.trace|) then Misused(s'.w) else StringsKept(s'.w.trace) && s'.env.None?
  {
    RepoOpenReaches(b, Free, w => true, s, flags);
    if Allocates(b, |s.w.trace|) { LateSlips(b, s, flags); } else { EarlyKeeps(b, s, flags); }
  }

  lemma ReloadSlips(b: Build, s: State)
    requires Tracked(b, s) && Stranded(s) && Enabled(b, s, OpReload)
    ensures if Allocates(b, |s.w.trace| + 1) then Broken(b, Reload(b, s).s) else Tracked(b, Reload(b, s).s)
  {
    ShutDead(b, s);
    ReopenSlips(b, Shut(b, s), Mode(s));
    assert Reload(b, s) == RepoOpen(b, Shut(b, s), Mode(s));
  }

  lemma StepTracked(b: Build, s: State, op: Op)
    requires Tracked(b, s) && Enabled(b, s, op)
    ensures if Slips(b, s, op) then Broken(b, Step(b, s, op)) else Tracked(b, Step(b, s, op))
  {
    if op.OpOpen? {
      OpenTracked(b, s, op.tables, op.flags);
    } else if op.OpClose? {
      CloseTracked(b, s);
    } else if s.paths {
      HeldTracked(b, s, op);
    } else if op.OpReload? {
      ReloadSlips(b, s);
    } else if op.OpRollback? {
      RollbackSlips(b, s);
    } else if op.OpStart? && b.tpc {
      StartSlips(b, s);
    } else {
      QuietTracked(b, s, op);
    }
  }

  // ---- Every run ----

  lemma {:induction false} TrackedRun(b: Build, s: State, ops: seq<Op>, s': State)
    requires Tracked(b, s) && Runs(b, s, ops, s')
    ensures StringsKept(s'.w.trace) <==> Throughout(b, s, ops, (s, op) => !Slips(b, s, op))
    decreases |ops|
  {
    if ops != [] {
      var s1 := Step(b, s, ops[0]);
      StepTracked(b, s, ops[0]);
      if Slips(b, s, ops[0]) {
        MisusedStays(b);
        RunReaches(b, Free, Misused, s1, ops[1..], s');
      } else {
        TrackedRun(b, s1, ops[1..], s');
      }
    }
  }

  /** In any run the strings are used and freed only while allocated exactly when no operation
      slips. */
  lemma StringDiscipline(b: Build, s: State, ops: seq<Op>, s': State)
    requires Initial(s) && Runs(b, s, ops, s')
    ensures StringsKept(s'.w.trace) <==> Throughout(b, s, ops, (s, op) => !Slips(b, s, op))
  {
    TrackedRun(b, s, ops, s');
  }

  /** The simple rule for callers: after an open that failed at its last commit, do nothing but
      open again. */
  predicate Retried(s: State, op: Op) {
    Stranded(s) ==> op.OpOpen?
  }

  lemma {:induction false} RetriedIsEnough(b: Build, s: State, ops: seq<Op>)
    requires Throughout(b, s, ops, Retried)
    ensures Throughout(b, s, ops, (s, op) => !Slips(b, s, op))
    decreases |ops|
  {
    if ops != [] { RetriedIsEnough(b, Step(b, s, ops[0]), ops[1..]); }
  }

  /** No operation gets out of that state by the rules for strings and for handles together,
      except a reload that fails before it reaches the file: anything else leaves the
      environment open. */
  lemma NoWayOut(b: Build, s: State, op: Op)
    requires Stranded(s) && Enabled(b, s, op) && !Slips(b, s, op) && Fresh(s, op)
    ensures Step(b, s, op).env == if op.OpReload? then None else s.env
  {
    if op.OpReload? {
      ShutIs(b, s);
      StopsEarly(b, Shut(b, s), Mode(s));
    } else {
      StaysOpen(b, s, op);
    }
  }

  lemma StaysOpen(b: Build, s: State, op: Op)
    requires Enabled(b, s, op) && Meets(Quiet, b, op)
    ensures Step(b, s, op).env == s.env
  {
  }

  /** The fresh repository of `RetryBreaksTheRules` again: closing it instead frees the strings a
      second time. */
  lemma CloseFreesTwice(s: State, code: Code)
    requires Initial(s) && s.w.store == Absent
    ensures var b := Build(false, FailsAt(7, code));
            var r := Open(b, s, [], Flags(true, true, false));
            r.err == code && !StringsKept(Close(b, r.s).w.trace)
  {
    var b := Build(false, FailsAt(7, code));
    FirstOpens(s, code);
    OpenTracked(b, s, [], Flags(true, true, false));
    CloseTracked(b, Open(b, s, [], Flags(true, true, false)).s);
  }
}
