/**
 What every run of the repository keeps, whatever fails on the way.

 The record of storage calls is read on its own: which transactions it shows as
 committed, which of those a rollback undid, and whether the handles were used
 as LMDB demands. The theorems connect that reading to the two files.
 */
module RepoJournal {
  import opened Basics
  import opened Lmdb

  // ---- Reading the record: which transactions survive ----

  ghost predicate Ok(e: Event) { e.err == 0 }

  ghost predicate IsCommit(e: Event) { Ok(e) && e.call.TxnCommit? }

  ghost predicate IsRollback(e: Event) { Ok(e) && e.call.BackupRename? }

  ghost predicate IsCopy(e: Event) { Ok(e) && e.call.EnvCopy? }

  /** The writes a transaction made after the call that began it. */
  ghost function Writes(tr: seq<Event>, t: nat): seq<Write> {
    if |tr| <= t + 1 then []
    else
      var e := Back(tr);
      Writes(Front(tr), t) + (if Ok(e) && e.call.Mutate? && e.call.txn == t then [e.call.write] else [])
  }

  /** How one call moves `Since`. */
  ghost function NextSince(before: Option<nat>, e: Event): Option<nat> {
    match e.call
    case EnvCopy(_) => if Ok(e) then Some(0) else None
    case TxnCommit(_) => if Ok(e) && before.Some? then Some(before.value + 1) else before
    case BackupNew => if Ok(e) then None else before
    case BackupRename => if Ok(e) then None else before
    case BackupRemove => if Ok(e) then None else before
    case _ => before
  }

  /** How many transactions have committed since the backup became a whole copy of the
      store; `None` while there is no such copy. */
  ghost function Since(tr: seq<Event>): Option<nat> {
    if tr == [] then None
    else
      NextSince(Since(Front(tr)), Back(tr))
  }

  /** Every rollback so far replaced the store by a whole copy. */
  ghost predicate Sound(tr: seq<Event>) {
    forall j | 0 <= j < |tr| && IsRollback(tr[j]) :: Since(tr[..j]).Some?
  }

  /** The commit at `i` is undone when a later rollback finds no newer copy than that commit. */
  ghost predicate Undone(tr: seq<Event>, i: nat) {
    exists j :: i < j < |tr| && IsRollback(tr[j]) && forall k | i < k < j :: !IsCopy(tr[k])
  }

  /** The write lists of the first `n` calls' commits that no rollback undid, in order. */
  ghost function Surviving(tr: seq<Event>, n: nat): seq<seq<Write>>
    requires n <= |tr|
  {
    if n == 0 then []
    else
      var e := tr[n - 1];
      Surviving(tr, n - 1)
      + (if IsCommit(e) && !Undone(tr, n - 1) then [Writes(tr[..n - 1], e.call.txn)] else [])
  }

  ghost function Flat(txns: seq<seq<Write>>): seq<Write> {
    if txns == [] then [] else Flat(Front(txns)) + Back(txns)
  }

  /** The store after replaying exactly the surviving transactions. */
  ghost function Replayed(init: Store, tr: seq<Event>): Store {
    Replay(init, Flat(Surviving(tr, |tr|)))
  }

  // ---- Reading the record: handles ----

  ghost predicate EnvLive(tr: seq<Event>, e: nat) {
    && e < |tr| && tr[e] == Event(EnvCreate, 0)
    && forall k | e < k < |tr| :: tr[k].call != EnvClose(e)
  }

  ghost predicate TxnLive(tr: seq<Event>, t: nat) {
    && t < |tr| && tr[t].call.TxnBegin? && Ok(tr[t])
    && forall k | t < k < |tr| :: tr[k].call != TxnCommit(t) && tr[k].call != TxnAbort(t)
  }

  function EnvOf(c: Call): Option<nat> {
    match c
    case EnvSetMaxdbs(e) => Some(e)
    case EnvOpen(e) => Some(e)
    case EnvCopy(e) => Some(e)
    case EnvClose(e) => Some(e)
    case TxnBegin(e) => Some(e)
    case _ => None
  }

  function TxnOf(c: Call): Option<nat> {
    match c
    case TxnCommit(t) => Some(t)
    case TxnAbort(t) => Some(t)
    case DbiOpen(t, _) => Some(t)
    case Mutate(t, _) => Some(t)
    case Get(t, _, _) => Some(t)
    case Stat(t) => Some(t)
    case CursorOpen(t) => Some(t)
    case CursorGet(t, _) => Some(t)
    case _ => None
  }

  /** A handle that a call names is live. */
  ghost predicate Named(tr: seq<Event>, c: Call) {
    && (EnvOf(c).Some? ==> EnvLive(tr, EnvOf(c).value))
    && (TxnOf(c).Some? ==> TxnLive(tr, TxnOf(c).value))
  }

  /** No other handle stands in the way of the call. */
  ghost predicate Alone(tr: seq<Event>, c: Call) {
    match c
    case EnvCreate => forall e: nat :: !EnvLive(tr, e)
    case EnvClose(_) => forall t: nat :: !TxnLive(tr, t)
    case BackupRename => forall e: nat :: !EnvLive(tr, e)
    case TxnBegin(_) => forall t: nat :: !TxnLive(tr, t)
    case _ => true
  }

  /** LMDB's rules for one call made after the calls in `tr`. */
  ghost predicate Legal(tr: seq<Event>, c: Call) {
    Named(tr, c) && Alone(tr, c)
  }

  ghost predicate AllNamed(tr: seq<Event>) {
    forall i | 0 <= i < |tr| :: Named(tr[..i], tr[i].call)
  }

  ghost predicate Disciplined(tr: seq<Event>) {
    forall i | 0 <= i < |tr| :: Legal(tr[..i], tr[i].call)
  }

  // ---- The invariant ----

  /** The store is the replay of the survivors `s`, and a whole backup is that of all but
      the newest `since` of them. */
  ghost predicate Match(init: Store, s: seq<seq<Write>>, since: Option<nat>, store: File, backup: File) {
    && Contents(store) == Replay(init, Flat(s))
    && (since.Some? ==> since.value <= |s| && backup == Whole(Replay(init, Flat(s[..|s| - since.value]))))
  }

  ghost predicate Files(init: Store, w: World) {
    Match(init, Surviving(w.trace, |w.trace|), Since(w.trace), w.store, w.backup)
  }

  ghost predicate Journal(init: Store, w: World) {
    && (w.txn.Some? ==> w.working == Replay(Contents(w.store), Writes(w.trace, w.txn.value)))
    && (Sound(w.trace) ==> Files(init, w))
  }

  ghost predicate Handles(w: World) {
    && Disciplined(w.trace)
    && (forall e: nat :: EnvLive(w.trace, e) <==> w.env == Some(e))
    && (forall t: nat :: TxnLive(w.trace, t) <==> w.txn == Some(t))
  }

  /** The half of it that needs nothing of the caller: the handles in hand are live, and no call
      named any other. */
  ghost predicate Owned(w: World) {
    && AllNamed(w.trace)
    && (w.env.Some? ==> EnvLive(w.trace, w.env.value))
    && (w.txn.Some? ==> TxnLive(w.trace, w.txn.value))
  }

  /** LMDB's rules again, read off the handles in hand. */
  ghost predicate Allowed(w: World, c: Call) {
    && (EnvOf(c).Some? ==> w.env == EnvOf(c))
    && (TxnOf(c).Some? ==> w.txn == TxnOf(c))
    && (c.EnvCreate? || c.BackupRename? ==> w.env.None?)
    && (c.EnvClose? || c.BackupRename? || c.TxnBegin? ==> w.txn.None?)
  }

  // ---- One call keeps it ----

  lemma AppendEvent(tr: seq<Event>, e: Event)
    ensures Front(tr + [e]) == tr && Back(tr + [e]) == e
    ensures forall i | 0 <= i <= |tr| :: (tr + [e])[..i] == tr[..i]
    ensures tr[..|tr|] == tr
  {
  }

  lemma SoundAppend(tr: seq<Event>, e: Event)
    ensures Sound(tr + [e]) <==> Sound(tr) && (IsRollback(e) ==> Since(tr).Some?)
  {
    AppendEvent(tr, e);
    var tr' := tr + [e];
    if Sound(tr') {
      forall j | 0 <= j < |tr| && IsRollback(tr[j]) ensures Since(tr[..j]).Some? {
        assert tr'[j] == tr[j];
      }
      if IsRollback(e) { assert tr'[|tr|] == e; }
    }
    if Sound(tr) && (IsRollback(e) ==> Since(tr).Some?) {
      forall j | 0 <= j < |tr'| && IsRollback(tr'[j]) ensures Since(tr'[..j]).Some? {
        if j < |tr| { assert tr'[j] == tr[j]; }
      }
    }
  }

  lemma {:induction false} SurvivingAppend(tr: seq<Event>, e: Event, n: nat)
    requires n <= |tr| && !IsRollback(e)
    ensures Surviving(tr + [e], n) == Surviving(tr, n)
  {
    if n > 0 {
      AppendEvent(tr, e);
      SurvivingAppend(tr, e, n - 1);
      var tr' := tr + [e];
      assert tr'[n - 1] == tr[n - 1];
      assert Undone(tr, n - 1) ==> Undone(tr', n - 1) by {
        if Undone(tr, n - 1) {
          var j :| n - 1 < j < |tr| && IsRollback(tr[j]) && forall k | n - 1 < k < j :: !IsCopy(tr[k]);
          assert tr'[j] == tr[j] && forall k | n - 1 < k < j :: !IsCopy(tr'[k]);
        }
      }
      assert Undone(tr', n - 1) ==> Undone(tr, n - 1) by {
        if Undone(tr', n - 1) {
          var j :| n - 1 < j < |tr'| && IsRollback(tr'[j]) && forall k | n - 1 < k < j :: !IsCopy(tr'[k]);
          assert tr[j] == tr'[j] && forall k | n - 1 < k < j :: !IsCopy(tr[k]) by {
            forall k | n - 1 < k < j ensures !IsCopy(tr[k]) { assert tr[k] == tr'[k]; }
          }
        }
      }
    }
  }

  /** Where the last whole copy was made, when nothing has spoilt it since. */
  ghost function LastCopy(tr: seq<Event>): (c: nat)
    requires Since(tr).Some?
    ensures c < |tr| && IsCopy(tr[c])
    ensures forall k | c < k < |tr| :: !IsCopy(tr[k]) && !IsRollback(tr[k])
  {
    AppendEvent(Front(tr), Back(tr));
    if IsCopy(Back(tr)) then |tr| - 1
    else
      var c := LastCopy(Front(tr));
      assert forall k | c < k < |tr| - 1 :: tr[k] == Front(tr)[k];
      c
  }

  lemma UndoneOlder(tr: seq<Event>, e: Event, i: nat)
    requires Since(tr).Some? && IsRollback(e) && i < LastCopy(tr)
    ensures Undone(tr + [e], i) <==> Undone(tr, i)
  {
    var c, tr' := LastCopy(tr), tr + [e];
    assert forall k | 0 <= k < |tr| :: tr'[k] == tr[k];
    if Undone(tr, i) {
      var j :| i < j < |tr| && IsRollback(tr[j]) && forall k | i < k < j :: !IsCopy(tr[k]);
      assert IsRollback(tr'[j]) && forall k | i < k < j :: !IsCopy(tr'[k]);
    }
    if Undone(tr', i) {
      var j :| i < j < |tr'| && IsRollback(tr'[j]) && forall k | i < k < j :: !IsCopy(tr'[k]);
      assert j != |tr| by { assert IsCopy(tr'[c]); }
      assert IsRollback(tr[j]) && forall k | i < k < j :: !IsCopy(tr[k]);
    }
  }

  lemma UndoneNewer(tr: seq<Event>, e: Event, i: nat)
    requires Since(tr).Some? && IsRollback(e) && LastCopy(tr) < i < |tr|
    ensures Undone(tr + [e], i)
  {
    var tr' := tr + [e];
    assert IsRollback(tr'[|tr|]);
    forall k | i < k < |tr| ensures !IsCopy(tr'[k]) { assert tr'[k] == tr[k]; }
  }

  /** A successful rollback drops exactly the commits made after the last copy. */
  lemma {:induction false} SurvivingRollback(tr: seq<Event>, e: Event, n: nat)
    requires Since(tr).Some? && IsRollback(e) && n <= |tr|
    ensures Surviving(tr + [e], n) == Surviving(tr, if n <= LastCopy(tr) then n else LastCopy(tr))
  {
    if n > 0 {
      var c, i, tr' := LastCopy(tr), n - 1, tr + [e];
      SurvivingRollback(tr, e, i);
      assert tr'[i] == tr[i] && tr'[..i] == tr[..i];
      if i < c {
        UndoneOlder(tr, e, i);
      } else if i > c {
        UndoneNewer(tr, e, i);
      }
    }
  }

  lemma SinceAppend(tr: seq<Event>, e: Event)
    ensures Since(tr + [e]) == NextSince(Since(tr), e)
  {
    assert Front(tr + [e]) == tr && Back(tr + [e]) == e;
  }

  lemma SurvivingLast(tr: seq<Event>, e: Event)
    requires !IsRollback(e)
    ensures Surviving(tr + [e], |tr| + 1) ==
            Surviving(tr, |tr|) + (if IsCommit(e) then [Writes(tr, e.call.txn)] else [])
  {
    SurvivingAppend(tr, e, |tr|);
    assert (tr + [e])[..|tr|] == tr;
  }

  lemma LastCopyAppend(tr: seq<Event>, e: Event)
    requires Since(tr + [e]).Some?
    ensures IsCopy(e) ==> LastCopy(tr + [e]) == |tr|
    ensures !IsCopy(e) ==> Since(tr).Some? && !IsRollback(e) && LastCopy(tr + [e]) == LastCopy(tr)
  {
    SinceAppend(tr, e);
    var tr' := tr + [e];
    assert Back(tr') == e;
    if !IsCopy(e) {
      assert Front(tr') == tr;
      assert LastCopy(tr') == LastCopy(Front(tr'));
    }
  }

  /** No commit after the last copy is undone yet, so they are the last `Since` survivors. */
  lemma {:induction false} SurvivingSinceCopy(tr: seq<Event>)
    requires Since(tr).Some?
    ensures |Surviving(tr, |tr|)| == |Surviving(tr, LastCopy(tr))| + Since(tr).value
    ensures Surviving(tr, LastCopy(tr)) <= Surviving(tr, |tr|)
  {
    var e, tr0 := Back(tr), Front(tr);
    assert tr == tr0 + [e];
    SinceAppend(tr0, e);
    LastCopyAppend(tr0, e);
    SurvivingLast(tr0, e);
    SurvivingAppend(tr0, e, LastCopy(tr));
    if !IsCopy(e) { SurvivingSinceCopy(tr0); }
  }

  lemma WritesAppend(tr: seq<Event>, e: Event, t: nat)
    ensures Writes(tr + [e], t) ==
            Writes(tr, t) + (if t < |tr| && Ok(e) && e.call.Mutate? && e.call.txn == t then [e.call.write] else [])
  {
    AppendEvent(tr, e);
  }

  lemma {:induction false} ReplayConcat(st: Store, a: seq<Write>, b: seq<Write>)
    ensures Replay(st, a + b) == Replay(Replay(st, a), b)
  {
    if b == [] {
      assert a + b == a;
    } else {
      assert Front(a + b) == a + Front(b) && Back(a + b) == Back(b);
      ReplayConcat(st, a, Front(b));
    }
  }

  function EnvAfter(w: World, e: Event): Option<nat> {
    if e.call.EnvCreate? && e.err == 0 then Some(|w.trace|) else if e.call.EnvClose? then None else w.env
  }

  function TxnAfter(w: World, e: Event): Option<nat> {
    if e.call.TxnBegin? && e.err == 0 then Some(|w.trace|)
    else if e.call.TxnCommit? || e.call.TxnAbort? then None
    else w.txn
  }

  /** How one call moves the record and the handles in hand. */
  lemma IssueHandles(f: Faults, w: World, c: Call)
    ensures var r := Issue(f, w, c);
            var e := Event(c, r.err);
            r.w.trace == w.trace + [e] && r.w.env == EnvAfter(w, e) && r.w.txn == TxnAfter(w, e)
  {
  }

  /** How it moves the working copy of a transaction that is still open. */
  lemma IssueWorking(f: Faults, w: World, c: Call)
    requires Allowed(w, c)
    ensures var r := Issue(f, w, c);
            r.w.txn.Some? ==>
              && Contents(r.w.store) == Contents(w.store)
              && (w.txn.Some? ==>
                    && r.w.txn == w.txn
                    && r.w.working == if c.Mutate? && r.err == 0 then Apply(w.working, c.write) else w.working)
              && (w.txn.None? ==> r.w.txn == Some(|w.trace|) && r.w.working == Contents(w.store))
  {
  }

  lemma WorkingKept(f: Faults, w: World, c: Call)
    requires w.txn.Some? ==> w.txn.value < |w.trace|
    requires w.txn.Some? ==> w.working == Replay(Contents(w.store), Writes(w.trace, w.txn.value))
    requires Allowed(w, c)
    ensures var w' := Issue(f, w, c).w;
            w'.txn.Some? ==> w'.working == Replay(Contents(w'.store), Writes(w'.trace, w'.txn.value))
  {
    var r := Issue(f, w, c);
    IssueHandles(f, w, c);
    IssueWorking(f, w, c);
    if r.w.txn.Some? && w.txn.Some? { WorkingStep(w, Event(c, r.err), r.w); }
  }

  lemma WorkingStep(w: World, e: Event, w': World)
    requires w.txn.Some? && w.txn.value < |w.trace| && w'.txn == w.txn && w'.trace == w.trace + [e]
    requires w.working == Replay(Contents(w.store), Writes(w.trace, w.txn.value))
    requires Contents(w'.store) == Contents(w.store)
    requires w'.working == if e.call.Mutate? && e.err == 0 then Apply(w.working, e.call.write) else w.working
    requires Allowed(w, e.call)
    ensures w'.working == Replay(Contents(w'.store), Writes(w'.trace, w'.txn.value))
  {
    var ws := Writes(w.trace, w.txn.value);
    WritesAppend(w.trace, e, w.txn.value);
    if e.call.Mutate? { FrontBack(ws, e.call.write); }
    assert ws + [] == ws;
  }

  /** A commit adds its writes as the newest survivor. */
  lemma MatchCommit(init: Store, s: seq<seq<Write>>, since: Option<nat>, store: File, backup: File, ws: seq<Write>)
    requires Match(init, s, since, store, backup)
    ensures Match(init, s + [ws], if since.Some? then Some(since.value + 1) else None,
                  Whole(Replay(Contents(store), ws)), backup)
  {
    FrontBack(s, ws);
    ReplayConcat(init, Flat(s), ws);
    if since.Some? {
      assert (s + [ws])[..|s| - since.value] == s[..|s| - since.value];
    }
  }

  lemma IssueFiles(f: Faults, w: World, c: Call, since: Option<nat>)
    requires !(c.BackupRename? && Issue(f, w, c).err == 0)
    ensures var r := Issue(f, w, c);
            && (c.TxnCommit? ==>
                  r.w.store == (if r.err == 0 then Whole(w.working) else w.store) && r.w.backup == w.backup)
            && (!c.TxnCommit? ==> Contents(r.w.store) == Contents(w.store))
            && (c.EnvCopy? && r.err == 0 ==> r.w.backup == Whole(Contents(w.store)))
            && (!c.EnvCopy? && NextSince(since, Event(c, r.err)).Some? ==> r.w.backup == w.backup)
  {
  }

  /** Other calls leave the stored data alone, and the backup as `NextSince` says. */
  lemma MatchOther(f: Faults, init: Store, s: seq<seq<Write>>, since: Option<nat>, w: World, c: Call)
    requires Match(init, s, since, w.store, w.backup)
    requires !c.TxnCommit? && !(c.BackupRename? && Issue(f, w, c).err == 0)
    ensures var r := Issue(f, w, c);
            Match(init, s, NextSince(since, Event(c, r.err)), r.w.store, r.w.backup)
  {
    assert s[..|s| - 0] == s;
    IssueFiles(f, w, c, since);
  }

  lemma MatchCommitted(
      init: Store, s: seq<seq<Write>>, since: Option<nat>, store: File, backup: File, ws: seq<Write>, e: Event)
    requires Match(init, s, since, store, backup) && e.call.TxnCommit?
    ensures e.err == 0 ==>
              Match(init, s + [ws], NextSince(since, e), Whole(Replay(Contents(store), ws)), backup)
    ensures e.err != 0 ==> Match(init, s, NextSince(since, e), store, backup)
  {
    if e.err == 0 {
      assert NextSince(since, e) == if since.Some? then Some(since.value + 1) else None;
      MatchCommit(init, s, since, store, backup, ws);
    } else {
      assert NextSince(since, e) == since;
    }
  }

  lemma MatchAtCommit(f: Faults, init: Store, s: seq<seq<Write>>, since: Option<nat>, w: World, c: Call, ws: seq<Write>)
    requires Match(init, s, since, w.store, w.backup)
    requires c.TxnCommit? && w.working == Replay(Contents(w.store), ws)
    ensures var r := Issue(f, w, c);
            Match(init, if r.err == 0 then s + [ws] else s, NextSince(since, Event(c, r.err)), r.w.store, r.w.backup)
  {
    IssueFiles(f, w, c, since);
    MatchCommitted(init, s, since, w.store, w.backup, ws, Event(c, Issue(f, w, c).err));
  }

  /** `Match` after one call that is not a successful rollback. */
  lemma MatchKept(f: Faults, init: Store, s: seq<seq<Write>>, since: Option<nat>, w: World, c: Call, ws: seq<Write>)
    requires Match(init, s, since, w.store, w.backup)
    requires !(c.BackupRename? && Issue(f, w, c).err == 0)
    requires c.TxnCommit? ==> w.working == Replay(Contents(w.store), ws)
    ensures var r := Issue(f, w, c);
            Match(init, if c.TxnCommit? && r.err == 0 then s + [ws] else s,
                  NextSince(since, Event(c, r.err)), r.w.store, r.w.backup)
  {
    if c.TxnCommit? {
      MatchAtCommit(f, init, s, since, w, c, ws);
    } else {
      MatchOther(f, init, s, since, w, c);
    }
  }

  lemma FilesKept(f: Faults, init: Store, w: World, c: Call)
    requires Files(init, w) && !(c.BackupRename? && Issue(f, w, c).err == 0)
    requires c.TxnCommit? ==> w.working == Replay(Contents(w.store), Writes(w.trace, c.txn))
    ensures Files(init, Issue(f, w, c).w)
  {
    var r := Issue(f, w, c);
    var e := Event(c, r.err);
    IssueHandles(f, w, c);
    SinceAppend(w.trace, e);
    SurvivingLast(w.trace, e);
    assert Surviving(w.trace, |w.trace|) + [] == Surviving(w.trace, |w.trace|);
    MatchKept(f, init, Surviving(w.trace, |w.trace|), Since(w.trace), w, c,
              if c.TxnCommit? then Writes(w.trace, c.txn) else []);
  }

  /** Putting the backup in place of the store drops the newest `n` survivors. */
  lemma MatchCut(init: Store, s: seq<seq<Write>>, n: nat, store: File, backup: File)
    requires Match(init, s, Some(n), store, backup)
    ensures n <= |s| && Match(init, s[..|s| - n], None, backup, Absent)
  {
  }

  lemma IssueRename(f: Faults, w: World, c: Call)
    requires c.BackupRename? && Issue(f, w, c).err == 0
    ensures var w' := Issue(f, w, c).w;
            w'.trace == w.trace + [Event(c, 0)] && w'.store == w.backup && w'.backup == Absent
  {
  }

  lemma RollbackKept(f: Faults, init: Store, w: World, c: Call)
    requires Files(init, w) && c.BackupRename? && Issue(f, w, c).err == 0
    requires Since(w.trace).Some?
    ensures Files(init, Issue(f, w, c).w)
  {
    IssueRename(f, w, c);
    RollbackStep(init, w, Event(c, 0), Issue(f, w, c).w);
  }

  lemma RollbackStep(init: Store, w: World, e: Event, w': World)
    requires Files(init, w) && IsRollback(e) && Since(w.trace).Some?
    requires w'.trace == w.trace + [e] && w'.store == w.backup && w'.backup == Absent
    ensures Files(init, w')
  {
    SinceAppend(w.trace, e);
    SurvivingAtRollback(w.trace, e);
    MatchCut(init, Surviving(w.trace, |w.trace|), Since(w.trace).value, w.store, w.backup);
  }

  lemma SurvivingAtRollback(tr: seq<Event>, e: Event)
    requires Since(tr).Some? && IsRollback(e)
    ensures Since(tr).value <= |Surviving(tr, |tr|)|
    ensures Surviving(tr + [e], |tr| + 1) == Surviving(tr, |tr|)[..|Surviving(tr, |tr|)| - Since(tr).value]
  {
    SurvivingRollback(tr, e, |tr|);
    SurvivingSinceCopy(tr);
    var tr' := tr + [e];
    assert Surviving(tr', |tr| + 1) == Surviving(tr', |tr|) by { assert tr'[|tr|] == e; }
  }

  lemma JournalKept(f: Faults, init: Store, w: World, c: Call)
    requires Journal(init, w) && Allowed(w, c) && Owned(w)
    ensures Journal(init, Issue(f, w, c).w)
  {
    var w' := Issue(f, w, c).w;
    var e := Back(w'.trace);
    assert w'.trace == w.trace + [e] && e.call == c;
    SoundAppend(w.trace, e);
    assert w.txn.Some? ==> TxnLive(w.trace, w.txn.value);
    WorkingKept(f, w, c);
    if Sound(w'.trace) {
      if IsRollback(e) {
        RollbackKept(f, init, w, c);
      } else {
        FilesKept(f, init, w, c);
      }
    }
  }

  lemma EnvLiveAppend(tr: seq<Event>, e: Event, h: nat)
    ensures EnvLive(tr + [e], h) <==>
            if h == |tr| then e == Event(EnvCreate, 0) else EnvLive(tr, h) && e.call != EnvClose(h)
  {
    var tr' := tr + [e];
    if h < |tr| {
      assert tr'[h] == tr[h] && forall k | h < k < |tr| :: tr'[k] == tr[k];
      assert tr'[|tr|] == e;
      if EnvLive(tr', h) {
        forall k | h < k < |tr| ensures tr[k].call != EnvClose(h) { assert tr'[k] == tr[k]; }
      }
    }
  }

  lemma TxnLiveAppend(tr: seq<Event>, e: Event, h: nat)
    ensures TxnLive(tr + [e], h) <==>
            if h == |tr| then Ok(e) && e.call.TxnBegin?
            else TxnLive(tr, h) && e.call != TxnCommit(h) && e.call != TxnAbort(h)
  {
    var tr' := tr + [e];
    if h < |tr| {
      assert tr'[h] == tr[h] && forall k | h < k < |tr| :: tr'[k] == tr[k];
      assert tr'[|tr|] == e;
      if TxnLive(tr', h) {
        forall k | h < k < |tr| ensures tr[k].call != TxnCommit(h) && tr[k].call != TxnAbort(h) {
          assert tr'[k] == tr[k];
        }
      }
    }
  }

  lemma DisciplinedAppend(tr: seq<Event>, e: Event)
    requires Disciplined(tr) && Legal(tr, e.call)
    ensures Disciplined(tr + [e])
  {
    var tr' := tr + [e];
    AppendEvent(tr, e);
    forall i | 0 <= i < |tr'| ensures Legal(tr'[..i], tr'[i].call) {
      if i < |tr| { assert tr'[i] == tr[i]; }
    }
  }

  lemma AllowedIsLegal(w: World, c: Call)
    requires Handles(w) && Allowed(w, c)
    ensures Legal(w.trace, c)
  {
  }

  lemma LiveKept(f: Faults, w: World, c: Call, h: nat)
    requires Allowed(w, c)
    requires EnvLive(w.trace, h) <==> w.env == Some(h)
    requires TxnLive(w.trace, h) <==> w.txn == Some(h)
    ensures EnvLive(Issue(f, w, c).w.trace, h) <==> Issue(f, w, c).w.env == Some(h)
    ensures TxnLive(Issue(f, w, c).w.trace, h) <==> Issue(f, w, c).w.txn == Some(h)
  {
    EnvLiveAppend(w.trace, Event(c, Issue(f, w, c).err), h);
    TxnLiveAppend(w.trace, Event(c, Issue(f, w, c).err), h);
  }

  lemma AllNamedAppend(tr: seq<Event>, e: Event)
    requires AllNamed(tr) && Named(tr, e.call)
    ensures AllNamed(tr + [e])
  {
    var tr' := tr + [e];
    AppendEvent(tr, e);
    forall i | 0 <= i < |tr'| ensures Named(tr'[..i], tr'[i].call) {
      if i < |tr| { assert tr'[i] == tr[i]; }
    }
  }

  lemma OwnedStep(w: World, e: Event, w': World)
    requires Owned(w) && Allowed(w, e.call)
    requires w'.trace == w.trace + [e] && w'.env == EnvAfter(w, e) && w'.txn == TxnAfter(w, e)
    requires e.call.EnvCreate? && e.err == 0 ==> e == Event(EnvCreate, 0)
    ensures Owned(w')
  {
    AllNamedAppend(w.trace, e);
    if w'.env.Some? { EnvLiveAppend(w.trace, e, w'.env.value); }
    if w'.txn.Some? { TxnLiveAppend(w.trace, e, w'.txn.value); }
  }

  lemma OwnedKept(f: Faults, w: World, c: Call)
    requires Owned(w) && Allowed(w, c)
    ensures Owned(Issue(f, w, c).w)
  {
    IssueHandles(f, w, c);
    OwnedStep(w, Event(c, Issue(f, w, c).err), Issue(f, w, c).w);
  }

  lemma HandlesKept(f: Faults, w: World, c: Call)
    requires Handles(w) && Allowed(w, c)
    ensures Handles(Issue(f, w, c).w)
  {
    AllowedIsLegal(w, c);
    DisciplinedAppend(w.trace, Event(c, Issue(f, w, c).err));
    forall h: nat { LiveKept(f, w, c, h); }
  }
}
