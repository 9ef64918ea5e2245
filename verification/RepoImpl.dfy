/**
 `struct hed_repo` and its functions, statement by statement. Every method is
 proved to do what the function of the same name in `RepoSpec` says, for every
 pattern of storage failures; the theorems about those functions are therefore
 theorems about these methods.
 */
module RepoImpl {
  import opened Basics
  import opened Lmdb
  import Spec = RepoSpec
  import opened RepoOpening
  import opened RepoTxn
  import opened RepoErrors

  class Repo {
    const build: Spec.Build
    var env: Option<nat>
    var txn: Option<nat>
    var paths: bool
    var tables: seq<Bytes>
    var rdwr: bool
    var w: World

    function S(): Spec.State
      reads this
    {
      Spec.State(w, env, txn, paths, tables, rdwr)
    }

    /** A structure nobody has opened, over the files an earlier process left. */
    constructor (build: Spec.Build, store: File, backup: File)
      ensures Spec.Initial(S()) && S().w.store == store && S().w.backup == backup && this.build == build
    {
      this.build := build;
      env, txn, paths, tables, rdwr := None, None, false, [], false;
      w := World(store, backup, None, None, map[], []);
    }

    method Do(c: Call) returns (ret: int)
      modifies this`w
      ensures Spec.Ret(S(), ret) == Spec.Do(build, old(S()), c)
    {
      var r := Issue(build.faults, w, c);
      w, ret := r.w, r.err;
    }

    method Abort()
      requires txn.Some?
      modifies this`w, this`txn
      ensures S() == Spec.Abort(build, old(S()))
      ensures txn.None? && w.store == old(w.store)
    {
      var _ := Do(TxnAbort(txn.value));
      txn := None;
    }

    method Commit() returns (ret: int)
      requires txn.Some?
      modifies this`w, this`txn
      ensures Spec.Ret(S(), ret) == Spec.Commit(build, old(S()))
      ensures txn.None? && Contents(w.store) == if ret == 0 then old(w.working) else Contents(old(w.store))
      ensures Gives(w.trace, |old(w.trace)|, ret)
    {
      CommitGives(build, S(), |w.trace|);
      ret := Do(TxnCommit(txn.value));
      txn := None;
    }

    /** `repo_close` */
    method Shut()
      modifies this`w, this`txn, this`env
      ensures S() == Spec.Shut(build, old(S()))
      ensures env.None? && w.store == old(w.store) && w.backup == old(w.backup)
    {
      ShutKeepsStore(build, S());
      if env.None? { return; }
      if txn.Some? { Abort(); }
      var _ := Do(EnvClose(env.value));
      env := None;
    }

    method Start() returns (ret: int)
      requires env.Some? && txn.None?
      modifies this`w, this`txn
      ensures Spec.Ret(S(), ret) == Spec.Start(build, old(S()))
      ensures w.store == old(w.store)
      ensures ret == 0 ==> txn.Some? && w.working == Contents(w.store)
      ensures ret == 0 && build.tpc ==> w.backup == Whole(Contents(w.store))
      ensures Gives(w.trace, |old(w.trace)|, ret)
    {
      StartGives(build, S(), |w.trace|);
      StartKeepsStore(build, S());
      if build.tpc {
        ret := Do(BackupNew);
        if ret != 0 { return; }
        ret := Do(EnvCopy(env.value));
        if ret != 0 { return; }
      }
      ret := Do(TxnBegin(env.value));
      if ret == 0 { txn := w.txn; }
    }

    /** `repo_open_table` */
    method OpenTable(t: Bytes, flags: Spec.Flags) returns (ret: int)
      requires txn.Some?
      modifies this`w
      ensures Spec.Ret(S(), ret) == Spec.OpenTable(build, old(S()), t, flags)
    {
      ret := Do(if flags.creat then Mutate(txn.value, MakeTable(t)) else DbiOpen(txn.value, t));
      if ret != 0 || !flags.trunc { return; }
      ret := Do(Mutate(txn.value, Clear(t)));
    }

    method Update(t: Bytes, k: Bytes, v: Bytes) returns (ret: int)
      requires txn.Some?
      modifies this`w
      ensures Spec.Ret(S(), ret) == Spec.Update(build, old(S()), t, k, v)
      ensures forall t', k' :: Value(w.working, t', k') ==
                               if ret == 0 && t' == t && k' == k then Some(v) else Value(old(w.working), t', k')
      ensures Gives(w.trace, |old(w.trace)|, ret)
    {
      UpdateGives(build, S(), t, k, v, |w.trace|);
      forall t', k' { UpdateChangesOne(build, S(), t, k, v, t', k'); }
      ret := Do(DbiOpen(txn.value, t));
      if ret != 0 { return; }
      ret := Do(Mutate(txn.value, Put(t, k, v)));
    }

    /** Opening `.hed` and then, in a loop, every table. */
    method OpenTables(flags: Spec.Flags) returns (ret: int)
      requires txn.Some?
      modifies this`w
      ensures Spec.Ret(S(), ret) == Spec.OpenTables(build, old(S()), [Spec.HED] + tables, flags)
    {
      ghost var all := Spec.OpenTables(build, S(), [Spec.HED] + tables, flags);
      ret := OpenTable(Spec.HED, flags);
      assert ([Spec.HED] + tables)[1..] == tables;
      if ret != 0 { return; }
      for i := 0 to |tables|
        invariant ret == 0 && all == Spec.OpenTables(build, S(), tables[i..], flags)
      {
        ret := OpenTable(tables[i], flags);
        assert tables[i..][0] == tables[i] && tables[i..][1..] == tables[i + 1..];
        if ret != 0 { return; }
      }
    }

    /** Storing a zero counter for every table. */
    method ZeroSeqs() returns (ret: int)
      requires txn.Some?
      modifies this`w
      ensures Spec.Ret(S(), ret) == Spec.ZeroSeqs(build, old(S()), tables)
    {
      ghost var all := Spec.ZeroSeqs(build, S(), tables);
      ret := 0;
      for i := 0 to |tables|
        invariant ret == 0 && all == Spec.ZeroSeqs(build, S(), tables[i..])
      {
        ret := Update(Spec.HED, tables[i], Spec.ZERO);
        assert tables[i..][0] == tables[i] && tables[i..][1..] == tables[i + 1..];
        if ret != 0 { return; }
      }
    }

    /** The calls of `repo_open` that share its error label. */
    method Prepare(flags: Spec.Flags) returns (ret: int)
      requires env.Some? && txn.None?
      modifies this`w, this`txn
      ensures Spec.Ret(S(), ret) == Spec.Prepare(build, old(S()), flags)
    {
      ret := Do(EnvSetMaxdbs(env.value));
      if ret != 0 { return; }
      ret := Do(EnvOpen(env.value));
      if ret != 0 { return; }
      ret := Fill(flags);
    }

    method Fill(flags: Spec.Flags) returns (ret: int)
      requires env.Some? && txn.None?
      modifies this`w, this`txn
      ensures Spec.Ret(S(), ret) == Spec.Fill(build, old(S()), flags)
    {
      ret := Start();
      if ret != 0 { return; }
      ret := OpenTables(flags);
      if ret != 0 || !flags.trunc { return; }
      ret := ZeroSeqs();
    }

    /** `repo_open` */
    method RepoOpen(flags: Spec.Flags) returns (ret: int)
      requires env.None? && txn.None?
      modifies this`w, this`txn, this`env
      ensures Spec.Ret(S(), ret) == Spec.RepoOpen(build, old(S()), flags)
    {
      ret := Do(EnvCreate);
      if ret != 0 { return; }
      env := w.env;
      ret := Prepare(flags);
      if ret != 0 {
        Shut();
        return;
      }
      ret := Commit();
    }

    method Open(tables: seq<Bytes>, flags: Spec.Flags) returns (ret: int)
      modifies this
      ensures Spec.Ret(S(), ret) == Spec.Open(build, old(S()), tables, flags)
      ensures Spec.Enabled(build, old(S()), Spec.OpOpen(tables, flags)) ==>
                if ret == 0 then Opened(Contents(old(w.store)), Contents(w.store), tables, flags)
                else Contents(w.store) == Contents(old(w.store))
    {
      if Spec.Enabled(build, S(), Spec.OpOpen(tables, flags)) { OpenAllOrNothing(build, S(), tables, flags); }
      // Whatever the two handles were, they are gone.
      env, txn, w, paths := None, None, Lost(w), false;
      this.tables, rdwr := tables, flags.rdwr;
      ret := Do(StrNew(BackupStr));
      if ret != 0 { return -ENOMEM; }
      ret := Do(StrNew(PathStr));
      if ret != 0 {
        var _ := Do(StrFree(BackupStr));
        return;
      }
      paths := true;
      ret := RepoOpen(flags);
      if ret != 0 { FreeStrings(); }
    }

    method FreeStrings()
      modifies this`w, this`paths
      ensures S() == Spec.Freed(build, old(S()))
    {
      var _ := Do(StrFree(PathStr));
      var _ := Do(StrFree(BackupStr));
      paths := false;
    }

    method Close()
      modifies this
      ensures S() == Spec.Close(build, old(S()))
      ensures env.None? && w.store == old(w.store)
    {
      if env.None? { return; }
      Shut();
      if rdwr { var _ := Do(BackupRemove); }
      FreeStrings();
    }

    method Reload() returns (ret: int)
      requires env.Some? && txn.None?
      modifies this
      ensures Spec.Ret(S(), ret) == Spec.Reload(build, old(S()))
      ensures Spec.HED !in tables ==> Contents(w.store) == Contents(old(w.store))
      ensures Spec.HED !in tables && Calm(build, old(S())) ==>
                OpenedAsIs(old(S()), Spec.Mode(old(S())), Spec.Ret(S(), ret))
      ensures Gives(w.trace, |old(w.trace)|, ret)
    {
      ReloadGives(build, S(), |w.trace|);
      if Spec.HED !in tables && Calm(build, S()) { ReloadSucceeds(build, S()); }
      if Spec.HED !in tables { ReloadIdentity(build, S()); }
      Shut();
      ret := RepoOpen(Spec.Flags(rdwr, false, false));
    }

    method Rollback() returns (ret: int)
      requires env.Some? && txn.None? && build.tpc
      modifies this
      ensures Spec.Ret(S(), ret) == Spec.Rollback(build, old(S()))
      ensures Spec.HED !in tables ==>
                Contents(w.store) == Contents(if Renames(build, old(S())) then old(w.backup) else old(w.store))
      ensures Gives(w.trace, |old(w.trace)|, ret)
    {
      RollbackGives(build, S(), |w.trace|);
      if Spec.HED !in tables { RollbackExact(build, S()); }
      Shut();
      var _ := Do(BackupRename);
      ret := RepoOpen(Spec.Flags(rdwr, false, false));
    }

    /** On success `value` is what the open transaction has under the key. */
    method GetValue(t: Bytes, k: Bytes) returns (ret: int, value: Bytes)
      requires txn.Some?
      modifies this`w
      ensures Spec.Ret(S(), ret) == Spec.Find(build, old(S()), t, k)
      ensures ret == 0 ==> Value(old(w.working), t, k) == Some(value)
      ensures Calm(build, old(S())) ==>
                ret == if t == [] then MDB_BAD_VALSIZE
                       else if Value(old(w.working), t, k).Some? then 0
                       else MDB_NOTFOUND
      ensures w.trace != [] && Back(w.trace).err == ret
      ensures Gives(w.trace, |old(w.trace)|, ret)
    {
      FindGives(build, S(), t, k, |w.trace|);
      FindReads(build, S(), t, k);
      if Calm(build, S()) { FindCode(build, S(), t, k); }
      value := [];
      ret := Do(DbiOpen(txn.value, t));
      if ret != 0 { return; }
      ret := Do(Get(txn.value, t, k));
      if ret == 0 { value := w.working[t][k]; }
    }

    method Del(t: Bytes, k: Bytes) returns (ret: int)
      requires txn.Some?
      modifies this`w
      ensures Spec.Ret(S(), ret) == Spec.Del(build, old(S()), t, k)
      ensures forall t', k' :: Value(w.working, t', k') ==
                               if ret == 0 && t' == t && k' == k then None else Value(old(w.working), t', k')
      ensures Gives(w.trace, |old(w.trace)|, ret)
    {
      DelGives(build, S(), t, k, |w.trace|);
      forall t', k' { DelRemovesOne(build, S(), t, k, t', k'); }
      ret := Do(DbiOpen(txn.value, t));
      if ret != 0 { return; }
      ret := Do(Mutate(txn.value, Delete(t, k)));
    }

    method Count(t: Bytes) returns (ret: int)
      requires txn.Some?
      modifies this`w
      ensures Spec.Ret(S(), ret) == Spec.Count(build, old(S()), t)
    {
      ret := Do(DbiOpen(txn.value, t));
      if ret != 0 { return -ret; }
      ret := Do(Stat(txn.value));
      if ret != 0 { return -ret; }
      ret := |Lookup(w.working, t)|;
    }

    method NextSeq(t: Bytes) returns (seq1: int)
      requires txn.Some?
      requires Spec.Counter(w.working, t).Some? ==> |Spec.Counter(w.working, t).value| == 4
      modifies this`w
      ensures Spec.Ret(S(), seq1) == Spec.NextSeq(build, old(S()), t)
    {
      var ret, stored := GetValue(Spec.HED, t);
      if ret != 0 { return 0; }
      seq1 := (FromLittleEndian(stored) + 1) % WRAP32;
      assert seq1 == Spec.Successor(Lookup(old(w.working), Spec.HED)[t]);
      ret := Update(Spec.HED, t, LittleEndian(seq1, 4));
      if ret != 0 { return 0; }
    }

    /** Any operation of the API, as a run performs it. */
    method Perform(op: Spec.Op)
      requires Spec.Enabled(build, S(), op)
      modifies this
      ensures S() == Spec.Step(build, old(S()), op)
    {
      match op
      case OpOpen(tables, flags) => var _ := Open(tables, flags);
      case OpClose => Close();
      case OpReload => var _ := Reload();
      case OpStart => var _ := Start();
      case OpCommit => var _ := Commit();
      case OpAbort => Abort();
      case OpRollback => var _ := Rollback();
      case OpGet(t, k) => var _, _ := GetValue(t, k);
      case OpUpdate(t, k, v) => var _ := Update(t, k, v);
      case OpDel(t, k) => var _ := Del(t, k);
      case OpCount(t) => var _ := Count(t);
      case OpNextSeq(t) => var _ := NextSeq(t);
      case OpSetVersion(v) => var _ := Update(Spec.HED, Spec.VERSION, v);
    }
  }
}
