/**
 Sequence numbers over whole runs: what `hed_repo_next_seq` hands out, seen
 through commits, aborts, reloads and rollbacks.
 */
module RepoSeq {
  import opened Basics
  import opened Lmdb
  import opened RepoSpec
  import opened RepoJournal
  import opened RepoRuns
  import opened RepoHistory
  import opened RepoOpening

  /** Every write in the list treats the counters as counters. */
  ghost predicate Counted(init: Store, ws: seq<Write>) {
    ws != [] ==> Counted(init, Front(ws)) && GoodWrite(Replay(init, Front(ws)), Back(ws))
  }

  /** The writes of the open transaction, if any. */
  ghost function Pending(w: World): seq<Write> {
    if w.txn.Some? then Writes(w.trace, w.txn.value) else []
  }

  /** The writes behind the data a transaction would see now. */
  ghost function History(w: World): seq<Write> {
    Flat(Surviving(w.trace, |w.trace|)) + Pending(w)
  }

  lemma {:induction false} CountedPrefix(init: Store, a: seq<Write>, b: seq<Write>)
    requires Counted(init, a + b)
    ensures Counted(init, a)
  {
    if b == [] {
      assert a + b == a;
    } else {
      assert Front(a + b) == a + Front(b);
      CountedPrefix(init, a, Front(b));
    }
  }

  lemma {:induction false} FlatPrefix(s: seq<seq<Write>>, n: nat)
    requires n <= |s|
    ensures Flat(s[..n]) <= Flat(s)
  {
    if n < |s| {
      assert Front(s)[..n] == s[..n];
      FlatPrefix(Front(s), n);
    } else {
      assert s[..n] == s;
    }
  }

  ghost predicate Numbers(init: Store, w: World) {
    Sound(w.trace) ==> Counted(init, History(w))
  }

  lemma PendingStep(f: Faults, w: World, c: Call)
    requires Allowed(w, c) && (w.txn.Some? ==> w.txn.value < |w.trace|)
    ensures var r := Issue(f, w, c);
            Pending(r.w) == if r.w.txn.None? then []
                            else if c.Mutate? && r.err == 0 then Pending(w) + [c.write]
                            else Pending(w)
  {
    var r := Issue(f, w, c);
    IssueHandles(f, w, c);
    if w.txn.Some? && r.w.txn.Some? {
      WritesAppend(w.trace, Event(c, r.err), w.txn.value);
      assert Pending(w) + [] == Pending(w);
    }
  }

  /** Committing moves the pending writes, aborting drops them. */
  lemma CountedEnd(init: Store, s: seq<seq<Write>>, pending: seq<Write>)
    requires Counted(init, Flat(s) + pending)
    ensures Counted(init, Flat(s) + [])
    ensures Counted(init, Flat(s + [pending]) + [])
  {
    assert Flat(s) + [] == Flat(s);
    CountedPrefix(init, Flat(s), pending);
    FrontBack(s, pending);
    assert Flat(s + [pending]) + [] == Flat(s) + pending;
  }

  lemma CountedMore(init: Store, a: seq<Write>, pending: seq<Write>, wr: Write)
    requires Counted(init, a + pending) && GoodWrite(Replay(init, a + pending), wr)
    ensures Counted(init, a + (pending + [wr]))
  {
    FrontBack(a + pending, wr);
    assert a + (pending + [wr]) == (a + pending) + [wr];
  }

  lemma CountedCut(init: Store, s: seq<seq<Write>>, pending: seq<Write>, n: nat)
    requires Counted(init, Flat(s) + pending) && n <= |s|
    ensures Counted(init, Flat(s[..n]) + [])
  {
    var a, all := Flat(s[..n]), Flat(s) + pending;
    assert a <= all by { FlatPrefix(s, n); }
    assert all == a + all[|a|..];
    CountedPrefix(init, a, all[|a|..]);
    assert a + [] == a;
  }

  lemma NumbersKept(b: Build, init: Store, w: World, c: Call)
    requires Inv(b, init, w) && Allowed(w, c) && Numbered(w, c)
    requires Numbers(init, w)
    ensures Numbers(init, Issue(b.faults, w, c).w)
  {
    var r := Issue(b.faults, w, c);
    assert w.txn.Some? ==> TxnLive(w.trace, w.txn.value);
    PendingStep(b.faults, w, c);
    if Sound(w.trace) {
      HistoryIsData(b, init, w);
      NumbersStep(init, w, Event(c, r.err), r.w);
    } else {
      SoundAppend(w.trace, Event(c, r.err));
    }
  }

  lemma NumbersStep(init: Store, w: World, e: Event, w': World)
    requires Sound(w.trace) && Counted(init, History(w))
    requires w'.trace == w.trace + [e]
    requires Pending(w') == if w'.txn.None? then []
                            else if e.call.Mutate? && Ok(e) then Pending(w) + [e.call.write] else Pending(w)
    requires IsCommit(e) ==> w'.txn.None? && Pending(w) == Writes(w.trace, e.call.txn)
    requires IsRollback(e) ==> w'.txn.None?
    requires e.call.Mutate? && Ok(e) ==> GoodWrite(Replay(init, History(w)), e.call.write)
    ensures Numbers(init, w')
  {
    SoundAppend(w.trace, e);
    var s := Surviving(w.trace, |w.trace|);
    if IsRollback(e) {
      if Since(w.trace).Some? { NumbersCut(init, w, e, w'); }
    } else {
      SurvivingLast(w.trace, e);
      NumbersAppend(init, s, Pending(w), e, w');
    }
  }

  lemma NumbersCut(init: Store, w: World, e: Event, w': World)
    requires Counted(init, History(w)) && Since(w.trace).Some? && IsRollback(e)
    requires w'.trace == w.trace + [e] && w'.txn.None?
    ensures Counted(init, History(w'))
  {
    var s := Surviving(w.trace, |w.trace|);
    assert && Since(w.trace).value <= |s|
           && Surviving(w'.trace, |w'.trace|) == s[..|s| - Since(w.trace).value]
      by { SurvivingAtRollback(w.trace, e); }
    CountedCut(init, s, Pending(w), |s| - Since(w.trace).value);
  }

  lemma NumbersLost(init: Store, w: World)
    requires Numbers(init, w)
    ensures Numbers(init, Lost(w))
  {
    if Sound(w.trace) {
      CountedPrefix(init, Flat(Surviving(w.trace, |w.trace|)), Pending(w));
      assert Flat(Surviving(w.trace, |w.trace|)) + [] == Flat(Surviving(w.trace, |w.trace|));
    }
  }

  lemma NumbersAppend(init: Store, s: seq<seq<Write>>, pending: seq<Write>, e: Event, w': World)
    requires Counted(init, Flat(s) + pending)
    requires Surviving(w'.trace, |w'.trace|) == s + (if IsCommit(e) then [pending] else [])
    requires IsCommit(e) ==> w'.txn.None?
    requires Pending(w') == if w'.txn.None? then []
                            else if e.call.Mutate? && Ok(e) then pending + [e.call.write] else pending
    requires e.call.Mutate? && Ok(e) ==> GoodWrite(Replay(init, Flat(s) + pending), e.call.write)
    ensures Counted(init, History(w'))
  {
    assert s + [] == s;
    CountedEnd(init, s, pending);
    if e.call.Mutate? && Ok(e) { CountedMore(init, Flat(s), pending, e.call.write); }
  }

  lemma HistoryIsData(b: Build, init: Store, w: World)
    requires Inv(b, init, w) && Sound(w.trace)
    ensures Replay(init, History(w)) == if w.txn.Some? then w.working else Contents(w.store)
  {
    var s := Surviving(w.trace, |w.trace|);
    ReplayConcat(init, Flat(s), Pending(w));
  }

  /** The counter values stored for table `k` since it was last set to zero; nothing if the
      list never sets it to zero, or clears `.hed` afterwards. */
  ghost function Issued(ws: seq<Write>, k: Bytes): Option<seq<Bytes>> {
    if ws == [] then None
    else
      var before := Issued(Front(ws), k);
      match Back(ws)
      case Clear(t) => if t == HED then None else before
      case Put(t, k', v) =>
        if t != HED || k' != k then before
        else if v == ZERO then Some([])
        else if before.Some? then Some(before.value + [v]) else None
      case _ => before
  }

  /** The values are 1, 2, 3 and so on, as the host stores them in four bytes. */
  ghost predicate CountsUp(vs: seq<Bytes>) {
    vs != [] ==> CountsUp(Front(vs)) && |vs| < WRAP32 && Back(vs) == LittleEndian(|vs|, 4)
  }

  lemma {:induction false} CountsUpAt(vs: seq<Bytes>, i: nat)
    requires CountsUp(vs) && i < |vs|
    ensures vs[i] == LittleEndian(i + 1, 4) && FromLittleEndian(vs[i]) == i + 1
  {
    if i < |vs| - 1 { CountsUpAt(Front(vs), i); } else { FourBytes(|vs|); }
  }

  lemma ZeroStored()
    ensures LittleEndian(0, 4) == ZERO
  {
  }

  lemma FourBytes(x: nat)
    requires x < WRAP32
    ensures |LittleEndian(x, 4)| == 4 && FromLittleEndian(LittleEndian(x, 4)) == x
  {
    assert Pow256(4) == WRAP32;
    LittleEndianRoundTrip(x, 4);
  }

  lemma CounterAfter(st: Store, wr: Write, k: Bytes)
    requires GoodWrite(st, wr)
    ensures Counter(Apply(st, wr), k) ==
            if wr.Put? && wr.table == HED && wr.key == k then Some(wr.val)
            else if wr.Clear? && wr.table == HED then None
            else Counter(st, k)
  {
  }

  lemma SuccessorOf(n: nat)
    requires n < WRAP32
    ensures |LittleEndian(n, 4)| == 4 && Successor(LittleEndian(n, 4)) == (n + 1) % WRAP32
  {
    FourBytes(n);
  }

  lemma GoodValue(st: Store, n: nat, k: Bytes, v: Bytes)
    requires n < WRAP32 && Counter(st, k) == Some(LittleEndian(n, 4)) && k != [] && k[0] != DOT
    requires GoodWrite(st, Put(HED, k, v)) && v != ZERO
    ensures n + 1 < WRAP32 && v == LittleEndian(n + 1, 4)
  {
    assert v == LittleEndian(Successor(Counter(st, k).value), 4);
    SuccessorStored(n, Successor(LittleEndian(n, 4)));
  }

  lemma SuccessorStored(n: nat, next: nat)
    requires n < WRAP32 && next == Successor(LittleEndian(n, 4)) && LittleEndian(next, 4) != ZERO
    ensures n + 1 < WRAP32 && next == n + 1
  {
    assert next == if n + 1 == WRAP32 then 0 else n + 1 by {
      SuccessorOf(n);
      WrapStep(n);
    }
    ZeroStored();
  }

  lemma WrapStep(n: nat)
    requires n < WRAP32
    ensures (n + 1) % WRAP32 == if n + 1 == WRAP32 then 0 else n + 1
  {
  }

  lemma {:induction false} CountedCountsUp(init: Store, ws: seq<Write>, k: Bytes)
    requires Counted(init, ws) && Issued(ws, k).Some? && k != [] && k[0] != DOT
    ensures CountsUp(Issued(ws, k).value)
    ensures Counter(Replay(init, ws), k) == Some(LittleEndian(|Issued(ws, k).value|, 4))
  {
    var st, wr := Replay(init, Front(ws)), Back(ws);
    ZeroStored();
    CounterAfter(st, wr, k);
    if wr.Put? && wr.table == HED && wr.key == k {
      if wr.val != ZERO {
        CountedCountsUp(init, Front(ws), k);
        var vs := Issued(Front(ws), k).value;
        GoodValue(st, |vs|, k, wr.val);
        FrontBack(vs, wr.val);
      }
    } else {
      CountedCountsUp(init, Front(ws), k);
    }
  }

  /** After any run whose operations leave the counters to the library, and in which a counter
      was once set to zero: the values stored since then in the transactions that survive, and
      in the open one, are exactly 1, 2, ..., n, and n is what is stored now. */
  lemma SequenceNumbers(b: Build, s: State, ops: seq<Op>, s': State, k: Bytes)
    requires Initial(s) && Runs(b, s, ops, s') && forall op <- ops :: Tame(op)
    requires NoBlindRollback(s'.w.trace)
    requires k != [] && k[0] != DOT && Issued(History(s'.w), k).Some?
    ensures var n := |Issued(History(s'.w), k).value|;
            && CountsUp(Issued(History(s'.w), k).value)
            && Counter(if s'.txn.Some? then s'.w.working else Contents(s'.w.store), k) == Some(LittleEndian(n, 4))
  {
    var init := Contents(s.w.store);
    var p := (w: World) => Inv(b, init, w) && Numbers(init, w);
    forall w: World, c: Call | p(w) && Allowed(w, c) && InPhase(b, w, c) && Numbered(w, c)
      ensures p(Issue(b.faults, w, c).w)
    {
      CallKeeps(b, init, w, c);
      NumbersKept(b, init, w, c);
    }
    forall w: World | p(w) ensures p(Lost(w)) {
      LossKeeps(b, init, w);
      NumbersLost(init, w);
    }
    StartsWell(b, s);
    assert History(s.w) == [] by {
      assert Surviving(s.w.trace, 0) == [];
    }
    RunReaches(b, Counting, p, s, ops, s');
    SoundIffNotBlind(b, s, ops, s');
    HistoryIsData(b, init, s'.w);
    CountedCountsUp(init, History(s'.w), k);
  }

  // ---- A truncating open starts every counter at zero ----

  function Zeros(ts: seq<Bytes>): seq<Write> {
    if ts == [] then [] else [Put(HED, ts[0], ZERO)] + Zeros(ts[1..])
  }

  lemma {:induction false} ZerosIssueNothing(ws: seq<Write>, ts: seq<Bytes>, k: Bytes)
    requires k in ts || Issued(ws, k) == Some([])
    ensures Issued(ws + Zeros(ts), k) == Some([])
    decreases |ts|
  {
    if ts == [] {
      assert ws + Zeros(ts) == ws;
    } else {
      var wr := Put(HED, ts[0], ZERO);
      FrontBack(ws, wr);
      ConcatZeros(ws, ts);
      ZerosIssueNothing(ws + [wr], ts[1..], k);
    }
  }

  ghost predicate InOrder(s: State) {
    s.txn == s.w.txn && (s.txn.Some? ==> s.txn.value < |s.w.trace|)
  }

  lemma StepPends(b: Build, s: State, c: Call)
    requires InOrder(s) && s.txn.Some?
    requires c.DbiOpen? || c.Mutate?
    requires c.txn == s.txn.value
    ensures var r := Do(b, s, c);
            && InOrder(r.s) && r.s.txn == s.txn
            && Pending(r.s.w) == Pending(s.w) + (if c.Mutate? && r.err == 0 then [c.write] else [])
  {
    InnerFrame(b, s, c);
    PendingStep(b.faults, s.w, c);
    assert Pending(s.w) + [] == Pending(s.w);
  }

  lemma UpdatePends(b: Build, s: State, t: Bytes, k: Bytes, v: Bytes)
    requires InOrder(s) && s.txn.Some?
    ensures var r := Update(b, s, t, k, v);
            && InOrder(r.s) && r.s.txn == s.txn
            && (r.err == 0 ==> Pending(r.s.w) == Pending(s.w) + [Put(t, k, v)])
  {
    var s1 := Do(b, s, DbiOpen(s.txn.value, t)).s;
    StepPends(b, s, DbiOpen(s.txn.value, t));
    assert Pending(s1.w) == Pending(s.w);
    StepPends(b, s1, Mutate(s.txn.value, Put(t, k, v)));
  }

  lemma ConcatZeros(ws: seq<Write>, ts: seq<Bytes>)
    requires ts != []
    ensures ws + Zeros(ts) == (ws + [Put(HED, ts[0], ZERO)]) + Zeros(ts[1..])
  {
  }

  lemma {:induction false} ZeroSeqsPends(b: Build, s: State, ts: seq<Bytes>)
    requires InOrder(s) && s.txn.Some? && ZeroSeqs(b, s, ts).err == 0
    ensures var s' := ZeroSeqs(b, s, ts).s;
            InOrder(s') && s'.txn == s.txn && Pending(s'.w) == Pending(s.w) + Zeros(ts)
    decreases |ts|
  {
    if ts == [] {
      assert Pending(s.w) + Zeros(ts) == Pending(s.w);
    } else {
      UpdatePends(b, s, HED, ts[0], ZERO);
      var s1 := Update(b, s, HED, ts[0], ZERO).s;
      ZeroSeqsPends(b, s1, ts[1..]);
      ConcatZeros(Pending(s.w), ts);
    }
  }

  lemma {:induction false} OpenTablesInOrder(b: Build, s: State, ts: seq<Bytes>, flags: Flags)
    requires InOrder(s) && s.txn.Some?
    ensures var s' := OpenTables(b, s, ts, flags).s; InOrder(s') && s'.txn == s.txn
    decreases |ts|
  {
    if ts != [] {
      OpenTablesInOrder(b, OpenTable(b, s, ts[0], flags).s, ts[1..], flags);
    }
  }

  lemma StartInOrder(b: Build, s: State)
    requires s.env.Some? && s.txn.None? && InOrder(s) && Start(b, s).err == 0
    ensures var s' := Start(b, s).s; InOrder(s') && s'.txn.Some? && s'.tables == s.tables
  {
  }

  lemma LoopsZero(b: Build, s: State, flags: Flags, k: Bytes, ws: seq<Write>)
    requires InOrder(s) && s.txn.Some? && k in s.tables
    requires OpenTables(b, s, [HED] + s.tables, flags).err == 0
    requires ZeroSeqs(b, OpenTables(b, s, [HED] + s.tables, flags).s, s.tables).err == 0
    ensures var s' := ZeroSeqs(b, OpenTables(b, s, [HED] + s.tables, flags).s, s.tables).s;
            InOrder(s') && Issued(ws + Pending(s'.w), k) == Some([])
  {
    OpenTablesInOrder(b, s, [HED] + s.tables, flags);
    var s4 := OpenTables(b, s, [HED] + s.tables, flags).s;
    ZeroSeqsPends(b, s4, s.tables);
    assert ws + (Pending(s4.w) + Zeros(s.tables)) == (ws + Pending(s4.w)) + Zeros(s.tables);
    ZerosIssueNothing(ws + Pending(s4.w), s.tables, k);
  }

  lemma EnvInOrder(b: Build, s: State, c: Call)
    requires InOrder(s) && s.txn.None? && (c.EnvSetMaxdbs? || c.EnvOpen?)
    ensures var r := Do(b, s, c); r.s == s.(w := r.s.w) && InOrder(r.s)
  {
  }

  lemma PrepareZeroes(b: Build, s: State, flags: Flags, k: Bytes, ws: seq<Write>)
    requires s.env.Some? && s.txn.None? && InOrder(s) && flags.trunc && k in s.tables
    ensures var r := Prepare(b, s, flags);
            r.err == 0 ==> InOrder(r.s) && Issued(ws + Pending(r.s.w), k) == Some([])
  {
    var s1 := Do(b, s, EnvSetMaxdbs(s.env.value)).s;
    EnvInOrder(b, s, EnvSetMaxdbs(s.env.value));
    EnvInOrder(b, s1, EnvOpen(s.env.value));
    if Prepare(b, s, flags).err == 0 {
      StartsZero(b, Do(b, s1, EnvOpen(s.env.value)).s, flags, k, ws);
    }
  }

  /** `Prepare` from the start of its transaction on. */
  lemma StartsZero(b: Build, s: State, flags: Flags, k: Bytes, ws: seq<Write>)
    requires s.env.Some? && s.txn.None? && InOrder(s) && k in s.tables && Start(b, s).err == 0
    ensures Start(b, s).s.txn.Some?
    ensures var r4 := OpenTables(b, Start(b, s).s, [HED] + s.tables, flags);
            var r := ZeroSeqs(b, r4.s, s.tables);
            r4.err == 0 && r.err == 0 ==> InOrder(r.s) && Issued(ws + Pending(r.s.w), k) == Some([])
  {
    StartInOrder(b, s);
    var s3 := Start(b, s).s;
    var r4 := OpenTables(b, s3, [HED] + s3.tables, flags);
    if r4.err == 0 && ZeroSeqs(b, r4.s, s3.tables).err == 0 { LoopsZero(b, s3, flags, k, ws); }
  }

  lemma CommitHistory(b: Build, s: State)
    requires InOrder(s) && s.txn.Some? && Commit(b, s).err == 0
    ensures History(Commit(b, s).s.w) == Flat(Surviving(s.w.trace, |s.w.trace|)) + Pending(s.w)
  {
    var e := Event(TxnCommit(s.txn.value), 0);
    assert Commit(b, s).s.w.trace == s.w.trace + [e];
    SurvivingLast(s.w.trace, e);
    FrontBack(Surviving(s.w.trace, |s.w.trace|), Pending(s.w));
  }

  /** After a truncating open every declared table has been given a zero counter and no number
      yet, so that `SequenceNumbers` applies to what follows. */
  lemma OpenStartsCounting(b: Build, s: State, tables: seq<Bytes>, flags: Flags, k: Bytes)
    requires Enabled(b, s, OpOpen(tables, flags)) && flags.trunc && k in tables
    ensures Open(b, s, tables, flags).err == 0 ==>
              Issued(History(Open(b, s, tables, flags).s.w), k) == Some([])
  {
    var s0 := Entered(s, tables, flags);
    var s1 := Do(b, s0, StrNew(BackupStr)).s;
    StringKeeps(b, s0, StrNew(BackupStr));
    StringKeeps(b, s1, StrNew(PathStr));
    var s2 := Do(b, s1, StrNew(PathStr)).s.(paths := true);
    RepoOpenStartsCounting(b, s2, flags, k);
  }

  lemma CreateOnly(b: Build, s: State)
    ensures var r := Do(b, s, EnvCreate); r.s == s.(w := r.s.w) && r.s.w.txn == s.w.txn
  {
  }

  lemma RepoOpenStartsCounting(b: Build, s: State, flags: Flags, k: Bytes)
    requires s.txn.None? && s.w.txn.None? && flags.trunc && k in s.tables
    ensures RepoOpen(b, s, flags).err == 0 ==> Issued(History(RepoOpen(b, s, flags).s.w), k) == Some([])
  {
    var r := Do(b, s, EnvCreate);
    CreateOnly(b, s);
    if r.err == 0 { FinishStartsCounting(b, r.s.(env := r.s.w.env), flags, k); }
  }

  lemma FinishStartsCounting(b: Build, s: State, flags: Flags, k: Bytes)
    requires s.env.Some? && s.txn.None? && s.w.txn.None? && flags.trunc && k in s.tables
    ensures Finish(b, s, flags).err == 0 ==> Issued(History(Finish(b, s, flags).s.w), k) == Some([])
  {
    var r := Prepare(b, s, flags);
    PrepareZeroes(b, s, flags, k, Flat(Surviving(r.s.w.trace, |r.s.w.trace|)));
    if Finish(b, s, flags).err == 0 { CommitHistory(b, r.s); }
  }

  /** The last call of a truncating open commits a transaction that sets the counter to zero,
      whatever came before it. */
  lemma RepoOpenZeroes(b: Build, s: State, flags: Flags, k: Bytes, ws: seq<Write>)
    requires s.txn.None? && s.w.txn.None? && flags.trunc && k in s.tables
    ensures var r := RepoOpen(b, s, flags);
            r.err == 0 ==>
              && r.s.w.trace != [] && IsCommit(Back(r.s.w.trace)) && r.s.w.txn.None?
              && Issued(ws + Writes(Front(r.s.w.trace), Back(r.s.w.trace).call.txn), k) == Some([])
  {
    var r := Do(b, s, EnvCreate);
    CreateOnly(b, s);
    if r.err == 0 { FinishZeroes(b, r.s.(env := r.s.w.env), flags, k, ws); }
  }

  lemma FinishZeroes(b: Build, s: State, flags: Flags, k: Bytes, ws: seq<Write>)
    requires s.env.Some? && s.txn.None? && s.w.txn.None? && flags.trunc && k in s.tables
    ensures var r := Finish(b, s, flags);
            r.err == 0 ==>
              && r.s.w.trace != [] && IsCommit(Back(r.s.w.trace)) && r.s.w.txn.None?
              && Issued(ws + Writes(Front(r.s.w.trace), Back(r.s.w.trace).call.txn), k) == Some([])
  {
    PrepareZeroes(b, s, flags, k, ws);
    if Finish(b, s, flags).err == 0 { CommitLast(b, Prepare(b, s, flags).s); }
  }

  lemma CommitLast(b: Build, s: State)
    requires s.txn.Some?
    ensures var r := Commit(b, s);
            r.s.w.trace == s.w.trace + [Event(TxnCommit(s.txn.value), r.err)] && r.s.w.txn.None?
  {
  }

  lemma OpenZeroes(b: Build, s: State, tables: seq<Bytes>, flags: Flags, k: Bytes, ws: seq<Write>)
    requires flags.trunc && k in tables
    ensures var r := Open(b, s, tables, flags);
            r.err == 0 ==>
              && r.s.w.trace != [] && IsCommit(Back(r.s.w.trace)) && r.s.w.txn.None?
              && Issued(ws + Writes(Front(r.s.w.trace), Back(r.s.w.trace).call.txn), k) == Some([])
  {
    OpenCases(b, s, tables, flags);
    RepoOpenZeroes(b, Allocated(s, tables, flags), flags, k, ws);
  }

  // ---- And keeps counting ----

  lemma {:induction false} IssuedKept(a: seq<Write>, c: seq<Write>, k: Bytes)
    requires Issued(a, k).Some? && Clear(HED) !in c
    ensures Issued(a + c, k).Some?
  {
    if c == [] {
      assert a + c == a;
    } else {
      assert Front(a + c) == a + Front(c) && Back(a + c) == Back(c);
      assert Back(c) in c;
      IssuedKept(a, Front(c), k);
    }
  }

  /** The calls after the first `n` never empty `.hed`, and their transactions are all their own. */
  ghost predicate Keeps(n: nat, w: World) {
    && n <= |w.trace|
    && (forall i | n <= i < |w.trace| :: w.trace[i].call.Mutate? ==> w.trace[i].call.write != Clear(HED))
    && (forall i | n <= i < |w.trace| :: w.trace[i].call.TxnCommit? ==> n <= w.trace[i].call.txn)
    && (w.txn.Some? ==> n <= w.txn.value)
  }

  ghost predicate KeepsAfter(tr: seq<Event>, w: World) {
    tr <= w.trace && Keeps(|tr|, w)
  }

  lemma KeepsStays(b: Build, tr: seq<Event>)
    ensures Closed(b, Keeping, w => KeepsAfter(tr, w)) && Detached(w => KeepsAfter(tr, w))
  {
    var p := (w: World) => KeepsAfter(tr, w);
    forall w: World, c: Call | p(w) && Allowed(w, c) && Within(Keeping, w, c) ensures p(Issue(b.faults, w, c).w) {
      assert Issue(b.faults, w, c).w.trace == w.trace + [Event(c, Issue(b.faults, w, c).err)];
    }
  }

  lemma {:induction false} WritesKept(tr: seq<Event>, t: nat)
    requires forall i | t < i < |tr| :: tr[i].call.Mutate? ==> tr[i].call.write != Clear(HED)
    ensures Clear(HED) !in Writes(tr, t)
  {
    if |tr| > t + 1 { WritesKept(Front(tr), t); }
  }

  /** Once a commit that survives has set the counter to zero, the survivors up to any later
      call still do. */
  lemma {:induction false} SurvivorsIssue(w: World, tr: seq<Event>, n: nat, k: Bytes)
    requires tr != [] && KeepsAfter(tr, w) && IsCommit(Back(tr)) && !Undone(w.trace, |tr| - 1)
    requires forall ws :: Issued(ws + Writes(Front(tr), Back(tr).call.txn), k).Some?
    requires |tr| <= n <= |w.trace|
    ensures Issued(Flat(Surviving(w.trace, n)), k).Some?
  {
    var e := w.trace[n - 1];
    FlatSurviving(w.trace, n - 1);
    if n == |tr| {
      assert w.trace[..n - 1] == Front(tr) && e == Back(tr);
    } else {
      SurvivorsIssue(w, tr, n - 1, k);
      if IsCommit(e) {
        WritesKept(w.trace[..n - 1], e.call.txn);
        IssuedKept(Flat(Surviving(w.trace, n - 1)), Writes(w.trace[..n - 1], e.call.txn), k);
      }
    }
  }

  lemma FlatSurviving(tr: seq<Event>, n: nat)
    requires n < |tr|
    ensures Flat(Surviving(tr, n + 1)) ==
            if IsCommit(tr[n]) && !Undone(tr, n) then Flat(Surviving(tr, n)) + Writes(tr[..n], tr[n].call.txn)
            else Flat(Surviving(tr, n))
  {
    var before := Surviving(tr, n);
    if IsCommit(tr[n]) { FrontBack(before, Writes(tr[..n], tr[n].call.txn)); }
    assert before + [] == before;
  }

  lemma HistoryIssues(w: World, tr: seq<Event>, k: Bytes)
    requires tr != [] && KeepsAfter(tr, w) && IsCommit(Back(tr)) && !Undone(w.trace, |tr| - 1)
    requires forall ws :: Issued(ws + Writes(Front(tr), Back(tr).call.txn), k).Some?
    ensures Issued(History(w), k).Some?
  {
    SurvivorsIssue(w, tr, |w.trace|, k);
    if w.txn.Some? { WritesKept(w.trace, w.txn.value); }
    IssuedKept(Flat(Surviving(w.trace, |w.trace|)), Pending(w), k);
  }

  /** From a truncating open on, through any run that does not truncate again, a declared table
      has a counter unless a rollback undoes that open's own commit, its last call `c`. */
  lemma CountingGoesOn(
      b: Build, s: State, tables: seq<Bytes>, flags: Flags, s1: State, c: nat,
      ops: seq<Op>, s': State, k: Bytes)
    requires Open(b, s, tables, flags) == Ret(s1, 0) && flags.trunc && k in tables
    requires Runs(b, s1, ops, s') && forall op <- ops :: Meets(Keeping, b, op)
    requires |s1.w.trace| == c + 1 && !Undone(s'.w.trace, c)
    ensures Issued(History(s'.w), k).Some?
  {
    AfterOpen(b, s, tables, flags, s1, k);
    KeptByRun(b, s1, ops, s');
    HistoryIssues(s'.w, s1.w.trace, k);
  }

  lemma AfterOpen(b: Build, s: State, tables: seq<Bytes>, flags: Flags, s': State, k: Bytes)
    requires Open(b, s, tables, flags) == Ret(s', 0) && flags.trunc && k in tables
    ensures Linked(w => true, s') && Guarded(b, s') && s'.w.txn.None?
    ensures s'.w.trace != [] && IsCommit(Back(s'.w.trace))
    ensures forall ws :: Issued(ws + Writes(Front(s'.w.trace), Back(s'.w.trace).call.txn), k).Some?
  {
    var tr := s'.w.trace;
    OpenZeroes(b, s, tables, flags, k, []);
    forall ws ensures Issued(ws + Writes(Front(tr), Back(tr).call.txn), k).Some? {
      OpenZeroes(b, s, tables, flags, k, ws);
    }
    OpenReaches(b, Free, w => true, s, tables, flags);
  }

  lemma KeptByRun(b: Build, s: State, ops: seq<Op>, s': State)
    requires Linked(w => true, s) && Guarded(b, s) && s.w.txn.None? && Runs(b, s, ops, s')
    requires forall op <- ops :: Meets(Keeping, b, op)
    ensures KeepsAfter(s.w.trace, s'.w)
  {
    KeepsStays(b, s.w.trace);
    RunReaches(b, Keeping, w => KeepsAfter(s.w.trace, w), s, ops, s');
  }

  // ---- When no rollback can undo it any more ----

  /** A copy made after a commit that is not undone settles it. */
  lemma CopySettles(tr: seq<Event>, c: nat, m: nat)
    requires c < m < |tr| && IsCopy(tr[m]) && !Undone(tr[..m], c)
    ensures !Undone(tr, c)
  {
    forall j | c < j < |tr| && IsRollback(tr[j]) ensures exists i :: c < i < j && IsCopy(tr[i]) {
      if j < m {
        assert IsRollback(tr[..m][j]);
        var i :| c < i < j && IsCopy(tr[..m][i]);
        assert IsCopy(tr[i]);
      } else {
        assert c < m < j;
      }
    }
  }

  lemma UndoneEarlier(tr: seq<Event>, tr': seq<Event>, c: nat)
    requires tr <= tr' && Undone(tr, c)
    ensures Undone(tr', c)
  {
    var j :| c < j < |tr| && IsRollback(tr[j]) && forall i | c < i < j :: !IsCopy(tr[i]);
    assert tr'[j] == tr[j] && forall i | c < i < j :: !IsCopy(tr'[i]);
  }

  lemma TraceGrows(b: Build, s: State, ops: seq<Op>, s': State)
    requires Linked(w => true, s) && Guarded(b, s) && Runs(b, s, ops, s')
    ensures s.w.trace <= s'.w.trace
  {
    RunReaches(b, Free, (w: World) => s.w.trace <= w.trace, s, ops, s');
  }

  /** So once a later copy has succeeded, no operation whatever undoes the commit. */
  lemma SettledForGood(b: Build, s: State, ops: seq<Op>, s1: State, more: seq<Op>, s': State, c: nat)
    requires Initial(s) && Runs(b, s, ops, s1) && Runs(b, s1, more, s')
    requires !Undone(s1.w.trace, c) && Since(s1.w.trace).Some? && c < LastCopy(s1.w.trace)
    ensures !Undone(s'.w.trace, c)
  {
    RunInv(b, s, ops, s1);
    TraceGrows(b, s1, more, s');
    SettledBy(s1.w.trace, s'.w.trace, c, LastCopy(s1.w.trace));
  }

  lemma SettledBy(tr: seq<Event>, tr': seq<Event>, c: nat, m: nat)
    requires tr <= tr' && c < m < |tr| && IsCopy(tr[m]) && !Undone(tr, c)
    ensures !Undone(tr', c)
  {
    assert tr'[m] == tr[m] && tr'[..m] == tr[..m];
    if Undone(tr[..m], c) { UndoneEarlier(tr[..m], tr, c); }
    CopySettles(tr', c, m);
  }

  /** And without a rollback nothing is undone. */
  lemma ForwardSettles(b: Build, s: State, ops: seq<Op>, s1: State, more: seq<Op>, s': State, c: nat)
    requires Initial(s) && Runs(b, s, ops, s1) && Runs(b, s1, more, s')
    requires forall op <- more :: Meets(Forward, b, op)
    requires c < |s1.w.trace| && !Undone(s1.w.trace, c)
    ensures !Undone(s'.w.trace, c)
  {
    RunInv(b, s, ops, s1);
    StandingStays(b, c);
    RunReaches(b, Forward, w => Standing(w, c), s1, more, s');
  }

  ghost predicate Standing(w: World, c: nat) {
    c < |w.trace| && !Undone(w.trace, c)
  }

  lemma StandingStays(b: Build, c: nat)
    ensures Closed(b, Forward, w => Standing(w, c)) && Detached(w => Standing(w, c))
  {
    forall w: World, a: Call | Standing(w, c) && Within(Forward, w, a) ensures Standing(Issue(b.faults, w, a).w, c) {
      ForwardCall(w.trace, Event(a, Issue(b.faults, w, a).err), c);
    }
  }

  lemma ForwardCall(tr: seq<Event>, e: Event, c: nat)
    requires !Undone(tr, c) && !IsRollback(e)
    ensures !Undone(tr + [e], c)
  {
    var tr' := tr + [e];
    if Undone(tr', c) {
      var j :| c < j < |tr'| && IsRollback(tr'[j]) && forall i | c < i < j :: !IsCopy(tr'[i]);
      assert tr[j] == tr'[j];
      forall i | c < i < j ensures !IsCopy(tr[i]) { assert tr[i] == tr'[i]; }
    }
  }

  // ---- The numbers after a truncating open ----

  lemma RunsCons(b: Build, s: State, op: Op, s1: State, ops: seq<Op>, s': State)
    requires Enabled(b, s, op) && Step(b, s, op) == s1 && Runs(b, s1, ops, s')
    ensures Runs(b, s, [op] + ops, s')
  {
    assert ([op] + ops)[1..] == ops;
  }

  lemma Tail(ops: seq<Op>, more: seq<Op>)
    requires ops != []
    ensures (ops + more)[0] == ops[0] && (ops + more)[1..] == ops[1..] + more
  {
  }

  lemma {:induction false} RunsConcat(b: Build, s: State, ops: seq<Op>, s1: State, more: seq<Op>, s': State)
    requires Runs(b, s, ops, s1) && Runs(b, s1, more, s')
    ensures Runs(b, s, ops + more, s')
    decreases |ops|
  {
    if ops == [] {
      assert ops + more == more;
    } else {
      Tail(ops, more);
      RunsConcat(b, Step(b, s, ops[0]), ops[1..], s1, more, s');
    }
  }

  lemma RunThroughOpen(
      b: Build, s: State, ops0: seq<Op>, s0: State, tables: seq<Bytes>, flags: Flags, s1: State, ops: seq<Op>, s': State)
    requires Runs(b, s, ops0, s0) && Enabled(b, s0, OpOpen(tables, flags))
    requires Open(b, s0, tables, flags).s == s1 && Runs(b, s1, ops, s')
    requires (forall op <- ops0 :: Tame(op)) && forall op <- ops :: Tame(op)
    ensures var all := ops0 + ([OpOpen(tables, flags)] + ops);
            Runs(b, s, all, s') && forall op <- all :: Tame(op)
    ensures forall k <- tables :: k == [] || k[0] != DOT
  {
    RunsCons(b, s0, OpOpen(tables, flags), s1, ops, s');
    RunsConcat(b, s, ops0, s0, [OpOpen(tables, flags)] + ops, s');
  }

  /** The numbers issued for `k` are 1 to n, n is what is stored, and inside a transaction the
      next one is n + 1. */
  ghost predicate CountsOn(b: Build, s: State, k: Bytes) {
    && Issued(History(s.w), k).Some?
    && var vs := Issued(History(s.w), k).value;
    && CountsUp(vs)
    && Counter(if s.txn.Some? then s.w.working else Contents(s.w.store), k) == Some(LittleEndian(|vs|, 4))
    && (s.txn.Some? ==> NextSeq(b, s, k).err == 0 || NextSeq(b, s, k).err == |vs| + 1)
  }

  lemma RunCountsOn(b: Build, s: State, ops: seq<Op>, s': State, k: Bytes)
    requires Initial(s) && Runs(b, s, ops, s') && forall op <- ops :: Tame(op)
    requires NoBlindRollback(s'.w.trace)
    requires k != [] && k[0] != DOT && Issued(History(s'.w), k).Some?
    ensures CountsOn(b, s', k)
  {
    SequenceNumbers(b, s, ops, s', k);
    if s'.txn.Some? { NextSeqContinues(b, s, ops, s', k); }
  }

  /** The whole run: anything that leaves the counters to the library, a truncating open, and
      anything of that kind that does not truncate again. Unless that open's commit was undone or a
      rollback was blind, every declared table counts on. */
  lemma NumbersFromOpen(
      b: Build, s: State, ops0: seq<Op>, s0: State, tables: seq<Bytes>, flags: Flags, s1: State, c: nat,
      ops: seq<Op>, s': State, k: Bytes)
    requires Initial(s) && Runs(b, s, ops0, s0) && Enabled(b, s0, OpOpen(tables, flags))
    requires Open(b, s0, tables, flags) == Ret(s1, 0) && flags.trunc && k in tables && k != []
    requires Runs(b, s1, ops, s')
    requires (forall op <- ops0 :: Tame(op)) && (forall op <- ops :: Tame(op) && Meets(Keeping, b, op))
    requires |s1.w.trace| == c + 1 && !Undone(s'.w.trace, c) && NoBlindRollback(s'.w.trace)
    ensures CountsOn(b, s', k)
  {
    assert Issued(History(s'.w), k).Some? by { CountingGoesOn(b, s0, tables, flags, s1, c, ops, s', k); }
    RunThroughOpen(b, s, ops0, s0, tables, flags, s1, ops, s');
    RunCountsOn(b, s, ops0 + ([OpOpen(tables, flags)] + ops), s', k);
  }

  lemma FindIs(b: Build, s: State, t: Bytes)
    requires s.txn.Some?
    ensures var r := Find(b, s, HED, t);
            && r.s == s.(w := s.w.(trace := r.s.w.trace))
            && (r.err == 0 ==> Counter(s.w.working, t).Some?)
  {
  }

  /** What one call returns: one more than is stored, which it stores; or 0, with nothing stored
      unless the counter wrapped. */
  lemma NextSeqReturns(b: Build, s: State, t: Bytes)
    requires Enabled(b, s, OpNextSeq(t))
    ensures var r := NextSeq(b, s, t);
            && r.s == s.(w := r.s.w) && r.s.w.txn == s.w.txn
            && r.s.w.store == s.w.store && r.s.w.backup == s.w.backup
            && (r.err != 0 ==>
                  && Counter(s.w.working, t).Some?
                  && r.err == FromLittleEndian(Counter(s.w.working, t).value) + 1 < WRAP32
                  && Back(r.s.w.trace) == Event(Mutate(s.txn.value, Put(HED, t, LittleEndian(r.err, 4))), 0)
                  && r.s.w.working == Apply(s.w.working, Put(HED, t, LittleEndian(r.err, 4))))
            && (r.err == 0 ==>
                  || r.s.w.working == s.w.working
                  || (&& Counter(s.w.working, t) == Some(LittleEndian(WRAP32 - 1, 4))
                      && Counter(r.s.w.working, t) == Some(ZERO)))
  {
    FindIs(b, s, t);
    if Find(b, s, HED, t).err == 0 {
      var c := Counter(s.w.working, t).value;
      UpdateIs(b, Find(b, s, HED, t).s, HED, t, LittleEndian(Successor(c), 4));
      SuccessorCases(c);
      ZeroStored();
    }
  }

  lemma DoExtends(b: Build, s: State, c: Call)
    requires InOrder(s) && s.txn.Some?
    requires c.DbiOpen? || c.Mutate? || c.Get?
    requires c.txn == s.txn.value
    ensures var r := Do(b, s, c);
            && InOrder(r.s) && r.s.txn == s.txn
            && History(r.s.w) == History(s.w) + (if c.Mutate? && r.err == 0 then [c.write] else [])
  {
    var r := Do(b, s, c);
    InnerFrame(b, s, c);
    PendingStep(b.faults, s.w, c);
    HistoryAppend(s.w, Event(c, r.err), r.s.w, if c.Mutate? && r.err == 0 then [c.write] else []);
  }

  lemma HistoryAppend(w: World, e: Event, w': World, more: seq<Write>)
    requires w'.trace == w.trace + [e] && !IsRollback(e) && !IsCommit(e)
    requires Pending(w') == Pending(w) + more
    ensures History(w') == History(w) + more
  {
    SurvivingLast(w.trace, e);
    var all := Surviving(w.trace, |w.trace|);
    assert all + [] == all;
  }

  lemma NextSeqExtends(b: Build, s: State, t: Bytes)
    requires InOrder(s) && s.txn.Some? && NextSeq(b, s, t).err != 0
    ensures var r := NextSeq(b, s, t);
            0 < r.err < WRAP32 && History(r.s.w) == History(s.w) + [Put(HED, t, LittleEndian(r.err, 4))]
  {
    var h, put := s.txn.value, Put(HED, t, LittleEndian(Successor(Lookup(s.w.working, HED)[t]), 4));
    DoExtends(b, s, DbiOpen(h, HED));
    var s1 := Do(b, s, DbiOpen(h, HED)).s;
    DoExtends(b, s1, Get(h, HED, t));
    var s2 := Find(b, s, HED, t).s;
    DoExtends(b, s2, DbiOpen(h, HED));
    DoExtends(b, Do(b, s2, DbiOpen(h, HED)).s, Mutate(h, put));
    assert History(s.w) + [] == History(s.w);
  }

  /** In such a run the next call returns the number that follows, and records it, or fails. */
  lemma NextSeqContinues(b: Build, s: State, ops: seq<Op>, s': State, k: Bytes)
    requires Initial(s) && Runs(b, s, ops, s') && forall op <- ops :: Tame(op)
    requires NoBlindRollback(s'.w.trace) && s'.txn.Some?
    requires k != [] && k[0] != DOT && Issued(History(s'.w), k).Some?
    ensures Enabled(b, s', OpNextSeq(k))
    ensures var vs := Issued(History(s'.w), k).value;
            var r := NextSeq(b, s', k);
            && (r.err == 0 || r.err == |vs| + 1)
            && (r.err != 0 ==> Issued(History(r.s.w), k) == Some(vs + [LittleEndian(r.err, 4)]))
  {
    RunInv(b, s, ops, s');
    SequenceNumbers(b, s, ops, s', k);
    assert InOrder(s') by { assert TxnLive(s'.w.trace, s'.txn.value); }
    CounterContinues(b, s', Issued(History(s'.w), k).value, k);
  }

  lemma CounterContinues(b: Build, s: State, vs: seq<Bytes>, k: Bytes)
    requires InOrder(s) && s.env.Some? && s.txn.Some? && k != []
    requires Issued(History(s.w), k) == Some(vs) && CountsUp(vs)
    requires Counter(s.w.working, k) == Some(LittleEndian(|vs|, 4))
    ensures Enabled(b, s, OpNextSeq(k))
    ensures var r := NextSeq(b, s, k);
            && (r.err == 0 || r.err == |vs| + 1)
            && (r.err != 0 ==> Issued(History(r.s.w), k) == Some(vs + [LittleEndian(r.err, 4)]))
  {
    IssuedBound(vs);
    FourBytes(|vs|);
    NextSeqReturns(b, s, k);
    if NextSeq(b, s, k).err != 0 {
      NextSeqExtends(b, s, k);
      IssuedNext(History(s.w), vs, k, NextSeq(b, s, k).err);
    }
  }

  lemma IssuedNext(ws: seq<Write>, vs: seq<Bytes>, k: Bytes, n: nat)
    requires Issued(ws, k) == Some(vs) && 0 < n < WRAP32
    ensures Issued(ws + [Put(HED, k, LittleEndian(n, 4))], k) == Some(vs + [LittleEndian(n, 4)])
  {
    FrontBack(ws, Put(HED, k, LittleEndian(n, 4)));
    NotZero(n);
  }

  lemma NotZero(n: nat)
    requires 0 < n < WRAP32
    ensures LittleEndian(n, 4) != ZERO
  {
    FourBytes(n);
    FourBytes(0);
    ZeroStored();
  }

  lemma IssuedBound(vs: seq<Bytes>)
    requires CountsUp(vs)
    ensures |vs| < WRAP32
  {
  }

  lemma SuccessorCases(c: Bytes)
    requires |c| == 4
    ensures Successor(c) != 0 ==> Successor(c) == FromLittleEndian(c) + 1 < WRAP32
    ensures Successor(c) == 0 ==> c == LittleEndian(WRAP32 - 1, 4)
  {
    assert Pow256(4) == WRAP32;
    FromLittleEndianBound(c);
  }

  lemma GetWorks(b: Build, s: State, t: Bytes)
    requires NoFaults(b) && s.txn.Some? && Counter(s.w.working, t).Some?
    ensures Find(b, s, HED, t).err == 0
  {
  }

  lemma PutWorks(b: Build, s: State, k: Bytes, v: Bytes)
    requires NoFaults(b) && s.txn.Some? && HED in s.w.working
    ensures Update(b, s, HED, k, v).err == 0
  {
  }

  /** Without faults it returns one more than is stored. */
  lemma NextSeqSucceeds(b: Build, s: State, t: Bytes)
    requires NoFaults(b) && s.txn.Some? && Counter(s.w.working, t).Some?
    ensures NextSeq(b, s, t).err == Successor(Counter(s.w.working, t).value)
  {
    GetWorks(b, s, t);
    FindIs(b, s, t);
    PutWorks(b, Find(b, s, HED, t).s, t, LittleEndian(Successor(Counter(s.w.working, t).value), 4));
  }

  /** Opening with truncation, starting and asking for a number gives 1. */
  lemma FirstNumber(b: Build, s: State, tables: seq<Bytes>, flags: Flags, s1: State, k: Bytes)
    requires NoFaults(b) && Enabled(b, s, OpOpen(tables, flags)) && flags.trunc && k in tables
    requires Open(b, s, tables, flags) == Ret(s1, 0)
    ensures s1.env.Some? && s1.txn.None?
    ensures Start(b, s1).err == 0 && Start(b, s1).s.txn.Some?
    ensures NextSeq(b, Start(b, s1).s, k).err == 1
  {
    CounterAfterOpen(b, s, tables, flags, s1, k);
    CountFromZero(b, s1, k);
  }

  lemma CounterAfterOpen(b: Build, s: State, tables: seq<Bytes>, flags: Flags, s1: State, k: Bytes)
    requires Enabled(b, s, OpOpen(tables, flags)) && flags.trunc && k in tables
    requires Open(b, s, tables, flags) == Ret(s1, 0)
    ensures Counter(Contents(s1.w.store), k) == Some(ZERO) && s1.env.Some? && s1.txn.None?
  {
    OpenAllOrNothing(b, s, tables, flags);
    ZeroedCounter(Contents(s.w.store), Contents(s1.w.store), tables, flags, k);
  }

  lemma CountFromZero(b: Build, s: State, k: Bytes)
    requires NoFaults(b) && s.env.Some? && s.txn.None? && Counter(Contents(s.w.store), k) == Some(ZERO)
    ensures Start(b, s).err == 0 && Start(b, s).s.txn.Some?
    ensures NextSeq(b, Start(b, s).s, k).err == 1
  {
    StartSucceeds(b, s);
    StartKeepsStore(b, s);
    FirstSuccessor(b, Start(b, s).s, k);
  }

  lemma FirstSuccessor(b: Build, s: State, k: Bytes)
    requires NoFaults(b) && s.txn.Some? && Counter(s.w.working, k) == Some(ZERO)
    ensures NextSeq(b, s, k).err == 1
  {
    NextSeqSucceeds(b, s, k);
    OneAfterZero();
  }

  lemma OneAfterZero()
    ensures Successor(ZERO) == 1
  {
    SuccessorOf(0);
    ZeroStored();
  }

  lemma ForwardNeverBlind(b: Build, s: State, ops: seq<Op>, s': State)
    requires Initial(s) && Runs(b, s, ops, s') && forall op <- ops :: Meets(Forward, b, op)
    ensures NoBlindRollback(s'.w.trace)
  {
    var p := (w: World) => NoRollback(w.trace);
    forall w: World, c: Call | p(w) && Within(Forward, w, c) ensures p(Issue(b.faults, w, c).w) {
      IssueHandles(b.faults, w, c);
    }
    RunReaches(b, Forward, p, s, ops, s');
  }

  lemma OpenThen(b: Build, s: State, tables: seq<Bytes>, flags: Flags, s1: State, ops: seq<Op>, s': State)
    requires Enabled(b, s, OpOpen(tables, flags)) && Open(b, s, tables, flags).s == s1 && Runs(b, s1, ops, s')
    ensures Runs(b, s, [OpOpen(tables, flags)], s1) && Runs(b, s, [OpOpen(tables, flags)] + ops, s')
  {
    RunsCons(b, s, OpOpen(tables, flags), s1, [], s1);
    RunsCons(b, s, OpOpen(tables, flags), s1, ops, s');
    assert [OpOpen(tables, flags)] + [] == [OpOpen(tables, flags)];
  }

  lemma NothingUndone(b: Build, s: State, first: Op, s1: State, c: nat, ops: seq<Op>, s': State)
    requires Initial(s) && Runs(b, s, [first], s1) && Runs(b, s1, ops, s') && Runs(b, s, [first] + ops, s')
    requires !first.OpRollback? && forall op <- ops :: Meets(Forward, b, op)
    requires |s1.w.trace| == c + 1
    ensures !Undone(s'.w.trace, c) && NoBlindRollback(s'.w.trace)
  {
    ForwardSettles(b, s, [first], s1, ops, s', c);
    ForwardNeverBlind(b, s, [first] + ops, s');
  }

  /** Without a rollback nothing stands in the way: from a truncating open that succeeded on, every
      declared table counts, whatever fails. */
  lemma CountsWithoutRollback(
      b: Build, s: State, tables: seq<Bytes>, flags: Flags, s1: State, c: nat, ops: seq<Op>, s': State, k: Bytes)
    requires Initial(s) && Enabled(b, s, OpOpen(tables, flags)) && flags.trunc && k in tables && k != []
    requires Open(b, s, tables, flags) == Ret(s1, 0) && |s1.w.trace| == c + 1 && Runs(b, s1, ops, s')
    requires forall op <- ops :: Tame(op) && Meets(Keeping, b, op) && Meets(Forward, b, op)
    ensures CountsOn(b, s', k)
  {
    OpenThen(b, s, tables, flags, s1, ops, s');
    NothingUndone(b, s, OpOpen(tables, flags), s1, c, ops, s');
    NumbersFromOpen(b, s, [], s, tables, flags, s1, c, ops, s', k);
  }

  lemma ZeroedCounter(st: Store, st': Store, tables: seq<Bytes>, flags: Flags, k: Bytes)
    requires Opened(st, st', tables, flags) && flags.trunc && k in tables
    ensures Counter(st', k) == Some(ZERO)
  {
  }

  /** A table that no truncating open ever gave a counter never gets a sequence number. */
  lemma NoCounterNoNumber(b: Build, s: State, t: Bytes)
    requires s.txn.Some? && Counter(s.w.working, t).None?
    ensures NextSeq(b, s, t).err == 0 && NextSeq(b, s, t).s.w.working == s.w.working
  {
    FindIs(b, s, t);
  }

  /** Creating without truncating gives a fresh store no counters at all. */
  lemma CreateWithoutTruncate(b: Build, s: State, tables: seq<Bytes>, flags: Flags, k: Bytes)
    requires Enabled(b, s, OpOpen(tables, flags)) && !flags.trunc && HED !in Contents(s.w.store)
    ensures Open(b, s, tables, flags).err == 0 ==>
              Counter(Contents(Open(b, s, tables, flags).s.w.store), k).None?
  {
    OpenAllOrNothing(b, s, tables, flags);
  }
}
