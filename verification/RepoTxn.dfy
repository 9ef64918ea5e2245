/**
 What each operation inside a transaction does to the data, under failures and
 without them.
 */
module RepoTxn {
  import opened Basics
  import opened Lmdb
  import opened RepoSpec
  import opened RepoOpening

  /** What a store holds under a key of a table. */
  function Value(st: Store, t: Bytes, k: Bytes): Option<Bytes> {
    if k in Lookup(st, t) then Some(Lookup(st, t)[k]) else None
  }

  /** Opening a table's handle changes nothing. */
  lemma HandleOnly(b: Build, s: State, t: Bytes)
    requires s.txn.Some?
    ensures var r := Do(b, s, DbiOpen(s.txn.value, t));
            && r.s == s.(w := s.w.(trace := r.s.w.trace))
            && (r.err == 0 ==> t in s.w.working)
            && (NoFaults(b) ==> r.err == if t == [] then MDB_BAD_VALSIZE else if t in s.w.working then 0 else MDB_NOTFOUND)
  {
  }

  lemma OneWrite(b: Build, s: State, wr: Write)
    requires s.txn.Some? && (wr.Put? || wr.Delete?) && wr.table in s.w.working
    ensures var r := Do(b, s, Mutate(s.txn.value, wr));
            && r.s == s.(w := s.w.(trace := r.s.w.trace,
                                   working := if r.err == 0 then Apply(s.w.working, wr) else s.w.working))
            && (NoFaults(b) ==>
                  r.err == if wr.Delete? && wr.key !in s.w.working[wr.table] then MDB_NOTFOUND else 0)
  {
  }

  /** An update changes one value or nothing, and nothing on disk. */
  lemma UpdateChangesOne(b: Build, s: State, t: Bytes, k: Bytes, v: Bytes, t': Bytes, k': Bytes)
    requires s.txn.Some?
    ensures var r := Update(b, s, t, k, v);
            && Value(r.s.w.working, t', k') ==
               (if r.err == 0 && t' == t && k' == k then Some(v) else Value(s.w.working, t', k'))
            && r.s.w.working.Keys == s.w.working.Keys
            && r.s.w.store == s.w.store && r.s.w.backup == s.w.backup
            && (NoFaults(b) ==> (r.err == 0 <==> t != [] && t in s.w.working))
            && (NoFaults(b) && r.err != 0 ==> r.err == if t == [] then MDB_BAD_VALSIZE else MDB_NOTFOUND)
  {
    HandleOnly(b, s, t);
    var r := Do(b, s, DbiOpen(s.txn.value, t));
    if r.err == 0 { OneWrite(b, r.s, Put(t, k, v)); }
  }

  /** A deletion removes one value or nothing, and without faults it fails exactly when there is
      nothing to remove. */
  lemma DelRemovesOne(b: Build, s: State, t: Bytes, k: Bytes, t': Bytes, k': Bytes)
    requires s.txn.Some?
    ensures var r := Del(b, s, t, k);
            && Value(r.s.w.working, t', k') ==
               (if r.err == 0 && t' == t && k' == k then None else Value(s.w.working, t', k'))
            && r.s.w.working.Keys == s.w.working.Keys
            && r.s.w.store == s.w.store && r.s.w.backup == s.w.backup
            && (NoFaults(b) ==> (r.err == 0 <==> t != [] && Value(s.w.working, t, k).Some?))
            && (NoFaults(b) && r.err != 0 ==> r.err == if t == [] then MDB_BAD_VALSIZE else MDB_NOTFOUND)
  {
    HandleOnly(b, s, t);
    var r := Do(b, s, DbiOpen(s.txn.value, t));
    if r.err == 0 { OneWrite(b, r.s, Delete(t, k)); }
  }

  /** A value that was set is read back, and so is the version record. */
  lemma UpdateThenGet(b: Build, s: State, t: Bytes, k: Bytes, v: Bytes)
    requires NoFaults(b) && s.txn.Some? && t != [] && t in s.w.working
    ensures var s1 := Update(b, s, t, k, v).s;
            Find(b, s1, t, k).err == 0 && Value(s1.w.working, t, k) == Some(v)
  {
    UpdateChangesOne(b, s, t, k, v, t, k);
  }

  /** A commit stores the working copy or, when it fails, nothing; an abort stores nothing. */
  lemma EndOfTransaction(b: Build, s: State)
    requires s.txn.Some?
    ensures var r := Commit(b, s);
            && Contents(r.s.w.store) == (if r.err == 0 then s.w.working else Contents(s.w.store))
            && r.s.txn.None? && r.s.w.txn.None? && r.s.env == s.env && r.s.w.backup == s.w.backup
    ensures var s' := Abort(b, s);
            && s'.w.store == s.w.store && s'.w.backup == s.w.backup
            && s'.txn.None? && s'.w.txn.None? && s'.env == s.env
  {
    CommitStores(b, s);
  }

  /** Start, one update, commit: without faults the store gains exactly that value, and in the
      three-phase build the backup keeps the store as it was. */
  lemma OneUpdate(b: Build, s: State, t: Bytes, k: Bytes, v: Bytes)
    requires NoFaults(b) && s.env.Some? && t != [] && t in Contents(s.w.store)
    ensures var s1 := Start(b, s).s;
            && Start(b, s).err == 0 && s1.txn.Some?
            && var s2 := Update(b, s1, t, k, v).s;
            && s2.txn.Some?
            && var r := Commit(b, s2);
            && r.err == 0
            && Contents(r.s.w.store) == Apply(Contents(s.w.store), Put(t, k, v))
            && (b.tpc ==> r.s.w.backup == Whole(Contents(s.w.store)))
  {
    StartSucceeds(b, s);
    StartKeepsStore(b, s);
    var s1 := Start(b, s).s;
    UpdateChangesOne(b, s1, t, k, v, t, k);
    UpdateIs(b, s1, t, k, v);
    var s2 := Update(b, s1, t, k, v).s;
    CommitStores(b, s2);
  }

  /** A close takes the backup away when the repository was opened for writing, and leaves it
      otherwise. */
  lemma CloseRemovesBackup(b: Build, s: State)
    requires NoFaults(b) && s.env.Some?
    ensures Close(b, s).w.backup == if s.rdwr then Absent else s.w.backup
  {
    ShutKeepsStore(b, s);
  }
}
