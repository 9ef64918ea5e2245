/**
 The invariants of `RepoJournal` over whole runs: every operation, under every
 pattern of failures, makes only calls that LMDB allows, and such calls keep the
 files in step with the record.
 */
module RepoRuns {
  import opened Basics
  import opened Lmdb
  import opened RepoSpec
  import opened RepoJournal

  /** The latest attempt to copy the store into the backup file failed. */
  ghost predicate CopyFailed(tr: seq<Event>) {
    tr != [] && (if Back(tr).call.EnvCopy? then Back(tr).err != 0 else CopyFailed(Front(tr)))
  }

  lemma CopyFailedAppend(tr: seq<Event>, e: Event)
    ensures CopyFailed(tr + [e]) == (if e.call.EnvCopy? then e.err != 0 else CopyFailed(tr))
  {
    FrontBack(tr, e);
  }

  /** Every rollback had a whole backup, or a failed copy to blame. */
  ghost predicate Blamed(tr: seq<Event>) {
    forall j | 0 <= j < |tr| && IsRollback(tr[j]) :: Since(tr[..j]).Some? || CopyFailed(tr[..j])
  }

  /** Every commit is the first since a whole copy was made. */
  ghost predicate Paired(tr: seq<Event>) {
    forall j | 0 <= j < |tr| && IsCommit(tr[j]) :: Since(tr[..j]) == Some(0)
  }

  /** Between two copies at most one transaction commits, and it began after the first. */
  ghost predicate OneAtATime(w: World) {
    && (w.txn.Some? ==> Since(w.trace) == Some(0))
    && (Since(w.trace).Some? ==> Since(w.trace).value <= 1 && !CopyFailed(w.trace))
    && Blamed(w.trace) && Paired(w.trace)
  }

  /** What the kind of build adds to `Allowed`: only the three-phase build rolls back, and it
      copies the store before it begins a transaction. */
  ghost predicate InPhase(b: Build, w: World, c: Call) {
    if !b.tpc then !c.BackupRename?
    else
      match c
      case BackupNew => w.txn.None?
      case EnvCopy(_) => w.txn.None?
      case BackupRemove => w.txn.None?
      case BackupRename => w.txn.None? && (Since(w.trace).Some? || CopyFailed(w.trace))
      case TxnBegin(_) => Since(w.trace) == Some(0)
      case _ => true
  }

  lemma BlamedAppend(tr: seq<Event>, e: Event)
    requires Blamed(tr) && (IsRollback(e) ==> Since(tr).Some? || CopyFailed(tr))
    requires Paired(tr) && (IsCommit(e) ==> Since(tr) == Some(0))
    ensures Blamed(tr + [e]) && Paired(tr + [e])
  {
    var tr' := tr + [e];
    forall j | 0 <= j < |tr'| && IsCommit(tr'[j]) ensures Since(tr'[..j]) == Some(0) {
      assert tr'[..j] == tr[..j] && tr[..|tr|] == tr;
      if j < |tr| { assert tr'[j] == tr[j]; }
    }
    forall j | 0 <= j < |tr'| && IsRollback(tr'[j]) ensures Since(tr'[..j]).Some? || CopyFailed(tr'[..j]) {
      assert tr'[..j] == tr[..j] && tr[..|tr|] == tr;
      if j < |tr| { assert tr'[j] == tr[j]; }
    }
  }

  lemma OneAtATimeKept(f: Faults, w: World, c: Call)
    requires OneAtATime(w) && Allowed(w, c) && InPhase(Build(true, f), w, c)
    ensures OneAtATime(Issue(f, w, c).w)
  {
    var r := Issue(f, w, c);
    var e := Event(c, r.err);
    assert r.w.trace == w.trace + [e];
    SinceAppend(w.trace, e);
    CopyFailedAppend(w.trace, e);
    BlamedAppend(w.trace, e);
  }

  ghost predicate NoRollback(tr: seq<Event>) {
    forall j | 0 <= j < |tr| :: !IsRollback(tr[j])
  }

  /** Everything the calls keep. */
  ghost predicate Inv(b: Build, init: Store, w: World) {
    Owned(w) && Journal(init, w) && if b.tpc then OneAtATime(w) else NoRollback(w.trace)
  }

  /** One call, made by the rules, keeps the invariant. */
  lemma CallKeeps(b: Build, init: Store, w: World, c: Call)
    requires Inv(b, init, w) && Allowed(w, c) && InPhase(b, w, c)
    ensures Inv(b, init, Issue(b.faults, w, c).w)
  {
    OwnedKept(b.faults, w, c);
    JournalKept(b.faults, init, w, c);
    if b.tpc { OneAtATimeKept(b.faults, w, c); }
  }

  /** So does losing the handles. */
  lemma LossKeeps(b: Build, init: Store, w: World)
    requires Inv(b, init, w)
    ensures Inv(b, init, Lost(w))
  {
  }

  // ---- Every operation makes only such calls ----

  /** A write that treats the sequence counters as counters: zero, or one more than is stored. */
  ghost predicate GoodWrite(st: Store, wr: Write) {
    match wr
    case Put(t, k, v) =>
      t == HED && k != [] && k[0] != DOT ==>
        || v == ZERO
        || (&& Counter(st, k).Some? && |Counter(st, k).value| == 4
            && v == LittleEndian(Successor(Counter(st, k).value), 4))
    case Delete(t, _) => t != HED
    case _ => true
  }

  /** Operations that write `.hed` only through sequence numbers and the version. */
  predicate Tame(op: Op) {
    (op.OpUpdate? ==> op.table != HED) && (op.OpDel? ==> op.table != HED)
  }

  ghost predicate Numbered(w: World, c: Call) {
    c.Mutate? ==> GoodWrite(w.working, c.write)
  }

  /** What a run leaves out: `Counting` writes to the counters that do not count, `Keeping` the
      emptying of `.hed`, `Forward` rollbacks, `Reading` both every write and rollbacks, `Holding` freeing the strings,
      `Quiet` any use of them. */
  datatype Limit = Free | Counting | Keeping | Forward | Reading | Holding | Quiet

  /** The calls within a limit. */
  ghost predicate Within(m: Limit, w: World, c: Call) {
    match m
    case Free => true
    case Counting => Numbered(w, c)
    case Keeping => c.Mutate? ==> c.write != Clear(HED)
    case Forward => !c.BackupRename?
    case Reading => !c.Mutate? && !c.BackupRename?
    case Holding => !c.StrFree?
    case Quiet => !c.StrNew? && !c.StrFree? && !c.EnvOpen? && !c.BackupNew? && !c.BackupRename? && !c.BackupRemove?
  }

  predicate FlagsWithin(m: Limit, flags: Flags) {
    (m.Keeping? || m.Reading? ==> !flags.trunc) && (m.Reading? ==> !flags.creat)
  }

  /** The operations within it. */
  predicate Meets(m: Limit, b: Build, op: Op) {
    match m
    case Free => true
    case Counting => Tame(op)
    case Keeping => op.OpOpen? ==> !op.flags.trunc
    case Forward => !op.OpRollback?
    case Reading =>
      && !op.OpUpdate? && !op.OpDel? && !op.OpNextSeq? && !op.OpSetVersion? && !op.OpRollback?
      && (op.OpOpen? ==> !op.flags.trunc && !op.flags.creat)
    case Holding => !op.OpOpen? && !op.OpClose?
    case Quiet => !op.OpOpen? && !op.OpClose? && !op.OpReload? && !op.OpRollback? && (op.OpStart? ==> !b.tpc)
  }

  /** `p` is kept by every call made by the rules and within the limit. */
  ghost predicate Closed(b: Build, m: Limit, p: World -> bool) {
    forall w: World, c: Call {:trigger p(Issue(b.faults, w, c).w)} ::
      p(w) && Allowed(w, c) && InPhase(b, w, c) && Within(m, w, c) ==> p(Issue(b.faults, w, c).w)
  }

  /** `p` does not depend on the handles in hand. */
  ghost predicate Detached(p: World -> bool) {
    forall w: World {:trigger p(Lost(w))} :: p(w) ==> p(Lost(w))
  }

  /** One more call by the rules, with the moves of `Since` and `CopyFailed`. */
  lemma DoReaches(b: Build, m: Limit, p: World -> bool, s: State, c: Call)
    requires Closed(b, m, p) && p(s.w) && Allowed(s.w, c) && InPhase(b, s.w, c)
    requires Within(m, s.w, c)
    ensures var r := Do(b, s, c);
            && p(r.s.w) && r.s == s.(w := r.s.w)
            && Since(r.s.w.trace) == NextSince(Since(s.w.trace), Event(c, r.err))
            && CopyFailed(r.s.w.trace) == (if c.EnvCopy? then r.err != 0 else CopyFailed(s.w.trace))
  {
    var r := Do(b, s, c);
    var e := Event(c, r.err);
    assert r.s.w.trace == s.w.trace + [e];
    SinceAppend(s.w.trace, e);
    CopyFailedAppend(s.w.trace, e);
  }

  ghost predicate Linked(p: World -> bool, s: State) {
    && p(s.w)
    && s.env == s.w.env && s.txn == s.w.txn && (s.txn.Some? ==> s.env.Some?)
  }

  /** An open repository of the three-phase build has a whole backup, unless the latest copy failed. */
  ghost predicate Guarded(b: Build, s: State) {
    && (b.tpc && s.env.Some? ==> Since(s.w.trace).Some? || CopyFailed(s.w.trace))
    && (b.tpc && s.txn.Some? ==> Since(s.w.trace) == Some(0))
  }

  lemma ShutReaches(b: Build, m: Limit, p: World -> bool, s: State)
    requires Closed(b, m, p) && Linked(p, s)
    ensures var s' := Shut(b, s);
            && Linked(p, s') && s'.env.None? && s'.txn.None?
            && Since(s'.w.trace) == Since(s.w.trace) && CopyFailed(s'.w.trace) == CopyFailed(s.w.trace)
  {
    if s.env.Some? {
      if s.txn.Some? { DoReaches(b, m, p, s, TxnAbort(s.txn.value)); }
      var s1 := if s.txn.Some? then Abort(b, s) else s;
      DoReaches(b, m, p, s1, EnvClose(s.env.value));
    }
  }

  lemma BeginReaches(b: Build, m: Limit, p: World -> bool, s: State)
    requires Closed(b, m, p) && Linked(p, s) && s.env.Some? && s.txn.None?
    requires b.tpc ==> Since(s.w.trace) == Some(0)
    ensures var r := Begin(b, s);
            && Linked(p, r.s) && (r.err == 0 <==> r.s.txn.Some?)
            && Guarded(b, r.s) && Since(r.s.w.trace) == Since(s.w.trace)
  {
    DoReaches(b, m, p, s, TxnBegin(s.env.value));
  }

  lemma StartReaches(b: Build, m: Limit, p: World -> bool, s: State)
    requires Closed(b, m, p) && Linked(p, s) && s.env.Some? && s.txn.None? && Meets(m, b, OpStart)
    ensures var r := Start(b, s);
            && Linked(p, r.s) && (r.err == 0 <==> r.s.txn.Some?)
            && (Guarded(b, s) ==> Guarded(b, r.s))
            && (b.tpc && r.err == 0 ==> Since(r.s.w.trace) == Some(0))
  {
    if b.tpc {
      DoReaches(b, m, p, s, BackupNew);
      var r1 := Do(b, s, BackupNew);
      if r1.err == 0 {
        DoReaches(b, m, p, r1.s, EnvCopy(s.env.value));
        var r2 := Do(b, r1.s, EnvCopy(s.env.value));
        if r2.err == 0 { BeginReaches(b, m, p, r2.s); }
      }
    } else {
      BeginReaches(b, m, p, s);
    }
  }

  predicate Inner(c: Call) {
    c.DbiOpen? || c.Mutate? || c.Get? || c.Stat? || c.CursorOpen? || c.CursorGet?
  }

  lemma InnerFrame(b: Build, s: State, c: Call)
    requires Inner(c)
    ensures var w := Do(b, s, c).s.w; w.env == s.w.env && w.txn == s.w.txn
  {
  }

  /** A call inside the open transaction. */
  lemma InTxn(b: Build, m: Limit, p: World -> bool, s: State, c: Call)
    requires Closed(b, m, p) && Linked(p, s) && s.txn.Some?
    requires Inner(c) && Allowed(s.w, c)
    requires Within(m, s.w, c)
    ensures var s' := Do(b, s, c).s;
            && Linked(p, s') && s' == s.(w := s'.w)
            && Since(s'.w.trace) == Since(s.w.trace) && CopyFailed(s'.w.trace) == CopyFailed(s.w.trace)
  {
    InnerFrame(b, s, c);
    DoReaches(b, m, p, s, c);
  }

  lemma UpdateReaches(b: Build, m: Limit, p: World -> bool, s: State, t: Bytes, k: Bytes, v: Bytes)
    requires Closed(b, m, p) && Linked(p, s) && s.txn.Some?
    requires Within(m, s.w, Mutate(s.txn.value, Put(t, k, v)))
    ensures var s' := Update(b, s, t, k, v).s;
            && Linked(p, s') && s' == s.(w := s'.w)
            && Since(s'.w.trace) == Since(s.w.trace) && CopyFailed(s'.w.trace) == CopyFailed(s.w.trace)
  {
    InTxn(b, m, p, s, DbiOpen(s.txn.value, t));
    InTxn(b, m, p, Do(b, s, DbiOpen(s.txn.value, t)).s, Mutate(s.txn.value, Put(t, k, v)));
  }

  lemma OpenTableReaches(b: Build, m: Limit, p: World -> bool, s: State, t: Bytes, flags: Flags)
    requires Closed(b, m, p) && Linked(p, s) && s.txn.Some? && FlagsWithin(m, flags)
    ensures var s' := OpenTable(b, s, t, flags).s;
            && Linked(p, s') && s' == s.(w := s'.w)
            && Since(s'.w.trace) == Since(s.w.trace) && CopyFailed(s'.w.trace) == CopyFailed(s.w.trace)
  {
    var h := s.txn.value;
    var c := if flags.creat then Mutate(h, MakeTable(t)) else DbiOpen(h, t);
    InTxn(b, m, p, s, c);
    if flags.trunc { InTxn(b, m, p, Do(b, s, c).s, Mutate(h, Clear(t))); }
  }

  lemma {:induction false} OpenTablesReaches(b: Build, m: Limit, p: World -> bool, s: State, ts: seq<Bytes>, flags: Flags)
    requires Closed(b, m, p) && Linked(p, s) && s.txn.Some? && FlagsWithin(m, flags)
    ensures var s' := OpenTables(b, s, ts, flags).s;
            && Linked(p, s') && s' == s.(w := s'.w)
            && Since(s'.w.trace) == Since(s.w.trace) && CopyFailed(s'.w.trace) == CopyFailed(s.w.trace)
    decreases |ts|
  {
    if ts != [] {
      OpenTableReaches(b, m, p, s, ts[0], flags);
      OpenTablesReaches(b, m, p, OpenTable(b, s, ts[0], flags).s, ts[1..], flags);
    }
  }

  lemma {:induction false} ZeroSeqsReaches(b: Build, m: Limit, p: World -> bool, s: State, ts: seq<Bytes>)
    requires Closed(b, m, p) && Linked(p, s) && s.txn.Some? && !m.Reading?
    ensures var s' := ZeroSeqs(b, s, ts).s;
            && Linked(p, s') && s' == s.(w := s'.w)
            && Since(s'.w.trace) == Since(s.w.trace) && CopyFailed(s'.w.trace) == CopyFailed(s.w.trace)
    decreases |ts|
  {
    if ts != [] {
      UpdateReaches(b, m, p, s, HED, ts[0], ZERO);
      ZeroSeqsReaches(b, m, p, Update(b, s, HED, ts[0], ZERO).s, ts[1..]);
    }
  }

  lemma LoopsReach(b: Build, m: Limit, p: World -> bool, s: State, flags: Flags)
    requires Closed(b, m, p) && Linked(p, s) && s.txn.Some? && FlagsWithin(m, flags)
    ensures var r := OpenTables(b, s, [HED] + s.tables, flags);
            && Linked(p, r.s) && r.s == s.(w := r.s.w) && Since(r.s.w.trace) == Since(s.w.trace)
            && var r' := ZeroSeqs(b, r.s, s.tables);
            flags.trunc && !m.Reading? ==>
              Linked(p, r'.s) && r'.s == s.(w := r'.s.w) && Since(r'.s.w.trace) == Since(s.w.trace)
  {
    OpenTablesReaches(b, m, p, s, [HED] + s.tables, flags);
    if flags.trunc { ZeroSeqsReaches(b, m, p, OpenTables(b, s, [HED] + s.tables, flags).s, s.tables); }
  }

  lemma EnvReaches(b: Build, m: Limit, p: World -> bool, s: State, c: Call)
    requires Closed(b, m, p) && Linked(p, s) && s.env.Some? && s.txn.None?
    requires c == EnvSetMaxdbs(s.env.value) || c == EnvOpen(s.env.value)
    requires Within(m, s.w, c)
    ensures var s' := Do(b, s, c).s; Linked(p, s') && s' == s.(w := s'.w)
  {
    DoReaches(b, m, p, s, c);
  }

  lemma FillReaches(b: Build, m: Limit, p: World -> bool, s: State, flags: Flags)
    requires Closed(b, m, p) && Linked(p, s) && s.env.Some? && s.txn.None?
    requires Meets(m, b, OpStart) && FlagsWithin(m, flags)
    ensures var r := Fill(b, s, flags);
            && Linked(p, r.s) && r.s.env == s.env && (r.err == 0 ==> r.s.txn.Some? && Guarded(b, r.s))
  {
    StartReaches(b, m, p, s);
    if Start(b, s).err == 0 { LoopsReach(b, m, p, Start(b, s).s, flags); }
  }

  lemma PrepareReaches(b: Build, m: Limit, p: World -> bool, s: State, flags: Flags)
    requires Closed(b, m, p) && Linked(p, s) && s.env.Some? && s.txn.None?
    requires !m.Quiet? && FlagsWithin(m, flags)
    ensures var r := Prepare(b, s, flags);
            && Linked(p, r.s) && (r.err == 0 ==> r.s.txn.Some? && Guarded(b, r.s))
  {
    EnvReaches(b, m, p, s, EnvSetMaxdbs(s.env.value));
    var r1 := Do(b, s, EnvSetMaxdbs(s.env.value));
    EnvReaches(b, m, p, r1.s, EnvOpen(s.env.value));
    var r2 := Do(b, r1.s, EnvOpen(s.env.value));
    if r1.err == 0 && r2.err == 0 { FillReaches(b, m, p, r2.s, flags); }
  }

  lemma CommitReaches(b: Build, m: Limit, p: World -> bool, s: State)
    requires Closed(b, m, p) && Linked(p, s) && s.txn.Some? && Guarded(b, s)
    ensures Linked(p, Commit(b, s).s) && Guarded(b, Commit(b, s).s) && Commit(b, s).s.txn.None?
  {
    DoReaches(b, m, p, s, TxnCommit(s.txn.value));
  }

  lemma FinishReaches(b: Build, m: Limit, p: World -> bool, s: State, flags: Flags)
    requires Closed(b, m, p) && Linked(p, s) && s.env.Some? && s.txn.None?
    requires !m.Quiet? && FlagsWithin(m, flags)
    ensures var s' := Finish(b, s, flags).s; Linked(p, s') && Guarded(b, s') && s'.txn.None?
  {
    PrepareReaches(b, m, p, s, flags);
    var r := Prepare(b, s, flags);
    if r.err != 0 { ShutReaches(b, m, p, r.s); } else { CommitReaches(b, m, p, r.s); }
  }

  lemma RepoOpenReaches(b: Build, m: Limit, p: World -> bool, s: State, flags: Flags)
    requires Closed(b, m, p) && Linked(p, s) && s.env.None? && s.txn.None?
    requires !m.Quiet? && FlagsWithin(m, flags)
    ensures var s' := RepoOpen(b, s, flags).s; Linked(p, s') && Guarded(b, s') && s'.txn.None?
  {
    DoReaches(b, m, p, s, EnvCreate);
    var r := Do(b, s, EnvCreate);
    if r.err == 0 { FinishReaches(b, m, p, r.s.(env := r.s.w.env), flags); }
  }

  lemma StringReaches(b: Build, m: Limit, p: World -> bool, s: State, c: Call)
    requires Closed(b, m, p) && Linked(p, s)
    requires (c.StrNew? || c.StrFree?) && Within(m, s.w, c)
    ensures var s' := Do(b, s, c).s;
            && Linked(p, s') && s' == s.(w := s'.w) && (Guarded(b, s) ==> Guarded(b, s'))
  {
    DoReaches(b, m, p, s, c);
  }

  lemma FreedReaches(b: Build, m: Limit, p: World -> bool, s: State)
    requires Closed(b, m, p) && Linked(p, s) && Guarded(b, s) && !m.Quiet? && !m.Holding?
    ensures Linked(p, Freed(b, s)) && Guarded(b, Freed(b, s))
  {
    StringReaches(b, m, p, s, StrFree(PathStr));
    StringReaches(b, m, p, Do(b, s, StrFree(PathStr)).s, StrFree(BackupStr));
  }

  /** An open starts by losing whatever handles the structure had. */
  lemma OpenReaches(b: Build, m: Limit, p: World -> bool, s: State, tables: seq<Bytes>, flags: Flags)
    requires Closed(b, m, p) && p(Lost(s.w))
    requires !m.Quiet? && !m.Holding? && FlagsWithin(m, flags)
    ensures var s' := Open(b, s, tables, flags).s; Linked(p, s') && Guarded(b, s')
  {
    var s0 := Entered(s, tables, flags);
    StringReaches(b, m, p, s0, StrNew(BackupStr));
    var r1 := Do(b, s0, StrNew(BackupStr));
    if r1.err == 0 {
      StringReaches(b, m, p, r1.s, StrNew(PathStr));
      var r2 := Do(b, r1.s, StrNew(PathStr));
      if r2.err == 0 {
        RepoOpenReaches(b, m, p, r2.s.(paths := true), flags);
        FreedReaches(b, m, p, RepoOpen(b, r2.s.(paths := true), flags).s);
      } else {
        StringReaches(b, m, p, r2.s, StrFree(BackupStr));
      }
    }
  }

  lemma CloseReaches(b: Build, m: Limit, p: World -> bool, s: State)
    requires Closed(b, m, p) && Linked(p, s) && Guarded(b, s) && !m.Quiet? && !m.Holding?
    ensures Linked(p, Close(b, s)) && Guarded(b, Close(b, s))
  {
    if s.env.Some? {
      ShutReaches(b, m, p, s);
      var s1 := Shut(b, s);
      DoReaches(b, m, p, s1, BackupRemove);
      FreedReaches(b, m, p, if s.rdwr then Do(b, s1, BackupRemove).s else s1);
    }
  }

  lemma RollbackReaches(b: Build, m: Limit, p: World -> bool, s: State)
    requires Closed(b, m, p) && Linked(p, s) && Guarded(b, s) && Enabled(b, s, OpRollback)
    requires !m.Quiet? && !m.Forward? && !m.Reading?
    ensures Linked(p, Rollback(b, s).s) && Guarded(b, Rollback(b, s).s)
  {
    ShutReaches(b, m, p, s);
    DoReaches(b, m, p, Shut(b, s), BackupRename);
    RepoOpenReaches(b, m, p, Do(b, Shut(b, s), BackupRename).s, Mode(s));
  }

  /** A call pair inside the transaction: open the table, then use it. */
  lemma PairReaches(b: Build, m: Limit, p: World -> bool, s: State, t: Bytes, c: Call)
    requires Closed(b, m, p) && Linked(p, s) && s.txn.Some? && (c.Mutate? || c.Get? || c.Stat?) && Allowed(s.w, c)
    requires Within(m, s.w, c)
    ensures var s1 := Do(b, s, DbiOpen(s.txn.value, t)).s;
            var s2 := Do(b, s1, c).s;
            && Linked(p, s1) && s1 == s.(w := s1.w) && Linked(p, s2) && s2 == s.(w := s2.w)
            && (Guarded(b, s) ==> Guarded(b, s1) && Guarded(b, s2))
  {
    InTxn(b, m, p, s, DbiOpen(s.txn.value, t));
    InTxn(b, m, p, Do(b, s, DbiOpen(s.txn.value, t)).s, c);
  }

  lemma FindReaches(b: Build, m: Limit, p: World -> bool, s: State, t: Bytes, k: Bytes)
    requires Closed(b, m, p) && Linked(p, s) && s.txn.Some? && Guarded(b, s)
    ensures var r := Find(b, s, t, k);
            && Linked(p, r.s) && Guarded(b, r.s) && r.s == s.(w := r.s.w)
            && r.s.w.working == s.w.working
            && (r.err == 0 ==> k in Lookup(s.w.working, t))
  {
    PairReaches(b, m, p, s, t, Get(s.txn.value, t, k));
  }

  lemma NextSeqReaches(b: Build, m: Limit, p: World -> bool, s: State, t: Bytes)
    requires Closed(b, m, p) && Linked(p, s) && Enabled(b, s, OpNextSeq(t)) && Guarded(b, s) && !m.Reading?
    ensures Linked(p, NextSeq(b, s, t).s) && Guarded(b, NextSeq(b, s, t).s)
  {
    FindReaches(b, m, p, s, HED, t);
    var r := Find(b, s, HED, t);
    if r.err == 0 {
      UpdateReaches(b, m, p, r.s, HED, t, LittleEndian(Successor(Lookup(s.w.working, HED)[t]), 4));
    }
  }

  lemma StepReaches(b: Build, m: Limit, p: World -> bool, s: State, op: Op)
    requires Closed(b, m, p) && Linked(p, s) && Guarded(b, s) && Enabled(b, s, op) && Meets(m, b, op)
    requires op.OpOpen? && s.env.Some? ==> p(Lost(s.w))
    ensures Linked(p, Step(b, s, op)) && Guarded(b, Step(b, s, op))
  {
    match op
    case OpOpen(tables, flags) =>
      if s.env.None? { assert Lost(s.w) == s.w; }
      OpenReaches(b, m, p, s, tables, flags);
    case OpClose => CloseReaches(b, m, p, s);
    case OpReload => ShutReaches(b, m, p, s); RepoOpenReaches(b, m, p, Shut(b, s), Mode(s));
    case OpStart => StartReaches(b, m, p, s);
    case OpCommit => CommitReaches(b, m, p, s);
    case OpAbort => DoReaches(b, m, p, s, TxnAbort(s.txn.value));
    case OpRollback => RollbackReaches(b, m, p, s);
    case _ => InsideReaches(b, m, p, s, op);
  }

  lemma InsideReaches(b: Build, m: Limit, p: World -> bool, s: State, op: Op)
    requires Closed(b, m, p) && Linked(p, s) && Guarded(b, s) && Enabled(b, s, op) && Meets(m, b, op)
    requires op.OpGet? || op.OpUpdate? || op.OpDel? || op.OpCount? || op.OpNextSeq? || op.OpSetVersion?
    ensures Linked(p, Step(b, s, op)) && Guarded(b, Step(b, s, op))
  {
    match op
    case OpGet(t, k) => FindReaches(b, m, p, s, t, k);
    case OpUpdate(t, k, v) => WriteReaches(b, m, p, s, t, k, v);
    case OpDel(t, k) => DelReaches(b, m, p, s, t, k);
    case OpCount(t) => CountReaches(b, m, p, s, t);
    case OpNextSeq(t) => NextSeqReaches(b, m, p, s, t);
    case OpSetVersion(v) => WriteReaches(b, m, p, s, HED, VERSION, v);
  }

  lemma DelReaches(b: Build, m: Limit, p: World -> bool, s: State, t: Bytes, k: Bytes)
    requires Closed(b, m, p) && Linked(p, s) && s.txn.Some? && Guarded(b, s)
    requires Within(m, s.w, Mutate(s.txn.value, Delete(t, k)))
    ensures Linked(p, Del(b, s, t, k).s) && Guarded(b, Del(b, s, t, k).s)
  {
    PairReaches(b, m, p, s, t, Mutate(s.txn.value, Delete(t, k)));
  }

  lemma CountReaches(b: Build, m: Limit, p: World -> bool, s: State, t: Bytes)
    requires Closed(b, m, p) && Linked(p, s) && s.txn.Some? && Guarded(b, s)
    ensures Linked(p, Count(b, s, t).s) && Guarded(b, Count(b, s, t).s)
  {
    PairReaches(b, m, p, s, t, Stat(s.txn.value));
  }

  lemma WriteReaches(b: Build, m: Limit, p: World -> bool, s: State, t: Bytes, k: Bytes, v: Bytes)
    requires Closed(b, m, p) && Linked(p, s) && s.txn.Some? && Guarded(b, s)
    requires Within(m, s.w, Mutate(s.txn.value, Put(t, k, v)))
    ensures Linked(p, Update(b, s, t, k, v).s) && Guarded(b, Update(b, s, t, k, v).s)
  {
    UpdateReaches(b, m, p, s, t, k, v);
  }

  /** The caller rule that keeps handles from being lost. */
  predicate Fresh(s: State, op: Op) {
    op.OpOpen? ==> s.env.None?
  }

  lemma {:induction false} RunReaches(b: Build, m: Limit, p: World -> bool, s: State, ops: seq<Op>, s': State)
    requires Closed(b, m, p) && Linked(p, s) && Guarded(b, s) && Runs(b, s, ops, s')
    requires forall op <- ops :: Meets(m, b, op)
    requires Detached(p) || Throughout(b, s, ops, Fresh)
    ensures Linked(p, s') && Guarded(b, s')
    decreases |ops|
  {
    if ops != [] {
      StepReaches(b, m, p, s, ops[0]);
      RunReaches(b, m, p, Step(b, s, ops[0]), ops[1..], s');
    }
  }
}
