/**
 The repository operations of `lib/repo.c` as functions on values, one per C
 function. They specify the methods of `RepoImpl.Repo`, and the theorems about
 whole runs are stated about them.
 */
module RepoSpec {
  import opened Basics
  import opened Lmdb

  const HED: Bytes := [0x2e, 0x68, 0x65, 0x64]                              // ".hed"
  const VERSION: Bytes := [0x2e, 0x76, 0x65, 0x72, 0x73, 0x69, 0x6f, 0x6e]  // ".version"
  const ZERO: Bytes := [0, 0, 0, 0]                                         // a uint32_t 0
  const DOT: byte := 0x2e

  /** How the library was built and which storage calls fail. */
  datatype Build = Build(tpc: bool, faults: Faults)

  datatype Flags = Flags(rdwr: bool, creat: bool, trunc: bool)

  /** The fields of `struct hed_repo`, with the storage behind them. `paths` says that the
      `path` and `backup` strings of the latest open are allocated. */
  datatype State = State(
    w: World, env: Option<nat>, txn: Option<nat>,
    paths: bool, tables: seq<Bytes>, rdwr: bool)

  datatype Ret = Ret(s: State, err: int)

  function Do(b: Build, s: State, c: Call): Ret {
    var r := Issue(b.faults, s.w, c);
    Ret(s.(w := r.w), r.err)
  }

  function Abort(b: Build, s: State): State
    requires s.txn.Some?
  {
    Do(b, s, TxnAbort(s.txn.value)).s.(txn := None)
  }

  function Commit(b: Build, s: State): Ret
    requires s.txn.Some?
  {
    var r := Do(b, s, TxnCommit(s.txn.value));
    Ret(r.s.(txn := None), r.err)
  }

  function Shut(b: Build, s: State): State {
    if s.env.None? then s
    else
      var s1 := if s.txn.Some? then Abort(b, s) else s;
      Do(b, s1, EnvClose(s.env.value)).s.(env := None)
  }

  function Begin(b: Build, s: State): Ret
    requires s.env.Some?
  {
    var r := Do(b, s, TxnBegin(s.env.value));
    if r.err != 0 then r else Ret(r.s.(txn := r.s.w.txn), 0)
  }

  function Start(b: Build, s: State): Ret
    requires s.env.Some?
  {
    if !b.tpc then Begin(b, s)
    else
      var r1 := Do(b, s, BackupNew);
      if r1.err != 0 then r1
      else
        var r2 := Do(b, r1.s, EnvCopy(s.env.value));
        if r2.err != 0 then r2 else Begin(b, r2.s)
  }

  function OpenTable(b: Build, s: State, t: Bytes, flags: Flags): Ret
    requires s.txn.Some?
  {
    var h := s.txn.value;
    var r := Do(b, s, if flags.creat then Mutate(h, MakeTable(t)) else DbiOpen(h, t));
    if r.err != 0 || !flags.trunc then r else Do(b, r.s, Mutate(h, Clear(t)))
  }

  function OpenTables(b: Build, s: State, ts: seq<Bytes>, flags: Flags): (r: Ret)
    requires s.txn.Some?
    ensures r.s == s.(w := r.s.w)
    decreases |ts|
  {
    if ts == [] then Ret(s, 0)
    else
      var r := OpenTable(b, s, ts[0], flags);
      if r.err != 0 then r else OpenTables(b, r.s, ts[1..], flags)
  }

  function Update(b: Build, s: State, t: Bytes, k: Bytes, v: Bytes): Ret
    requires s.txn.Some?
  {
    var r := Do(b, s, DbiOpen(s.txn.value, t));
    if r.err != 0 then r else Do(b, r.s, Mutate(s.txn.value, Put(t, k, v)))
  }

  function Del(b: Build, s: State, t: Bytes, k: Bytes): Ret
    requires s.txn.Some?
  {
    var r := Do(b, s, DbiOpen(s.txn.value, t));
    if r.err != 0 then r else Do(b, r.s, Mutate(s.txn.value, Delete(t, k)))
  }

  function Find(b: Build, s: State, t: Bytes, k: Bytes): Ret
    requires s.txn.Some?
  {
    var r := Do(b, s, DbiOpen(s.txn.value, t));
    if r.err != 0 then r else Do(b, r.s, Get(s.txn.value, t, k))
  }

  function ZeroSeqs(b: Build, s: State, ts: seq<Bytes>): (r: Ret)
    requires s.txn.Some?
    ensures r.s == s.(w := r.s.w)
    decreases |ts|
  {
    if ts == [] then Ret(s, 0)
    else
      var r := Update(b, s, HED, ts[0], ZERO);
      if r.err != 0 then r else ZeroSeqs(b, r.s, ts[1..])
  }

  /** From `hed_repo_start` to the end of the two loops. */
  function Fill(b: Build, s: State, flags: Flags): (r: Ret)
    requires s.env.Some? && s.txn.None?
    ensures r.s.env == s.env
    ensures r.err == 0 ==> r.s.txn.Some?
  {
    var r1 := Start(b, s);
    if r1.err != 0 then r1
    else
      var r2 := OpenTables(b, r1.s, [HED] + s.tables, flags);
      if r2.err != 0 || !flags.trunc then r2 else ZeroSeqs(b, r2.s, s.tables)
  }

  /** The part of `repo_open` between creating the environment and the commit. */
  function Prepare(b: Build, s: State, flags: Flags): (r: Ret)
    requires s.env.Some? && s.txn.None?
    ensures r.s.env == s.env
    ensures r.err == 0 ==> r.s.txn.Some?
  {
    var r1 := Do(b, s, EnvSetMaxdbs(s.env.value));
    if r1.err != 0 then r1
    else
      var r2 := Do(b, r1.s, EnvOpen(s.env.value));
      if r2.err != 0 then r2 else Fill(b, r2.s, flags)
  }

  /** `repo_open` after its first call. */
  function Finish(b: Build, s: State, flags: Flags): Ret
    requires s.env.Some? && s.txn.None?
  {
    var r := Prepare(b, s, flags);
    if r.err != 0 then Ret(Shut(b, r.s), r.err) else Commit(b, r.s)
  }

  function RepoOpen(b: Build, s: State, flags: Flags): Ret
    requires s.txn.None?
  {
    var r := Do(b, s, EnvCreate);
    if r.err != 0 then r else Finish(b, r.s.(env := r.s.w.env), flags)
  }

  function Freed(b: Build, s: State): State {
    Do(b, Do(b, s, StrFree(PathStr)).s, StrFree(BackupStr)).s.(paths := false)
  }

  /** The state once `hed_repo_open` has set the fields, whatever they held before. */
  function Entered(s: State, tables: seq<Bytes>, flags: Flags): State {
    State(Lost(s.w), None, None, false, tables, flags.rdwr)
  }

  function Open(b: Build, s: State, tables: seq<Bytes>, flags: Flags): Ret {
    var r1 := Do(b, Entered(s, tables, flags), StrNew(BackupStr));
    if r1.err != 0 then Ret(r1.s, -ENOMEM)
    else
      var r2 := Do(b, r1.s, StrNew(PathStr));
      if r2.err != 0 then Ret(Do(b, r2.s, StrFree(BackupStr)).s, r2.err)
      else
        var r3 := RepoOpen(b, r2.s.(paths := true), flags);
        if r3.err != 0 then Ret(Freed(b, r3.s), r3.err) else r3
  }

  /** The access mode alone, which is all that reload and rollback pass on. */
  function Mode(s: State): Flags {
    Flags(s.rdwr, false, false)
  }

  function Close(b: Build, s: State): State {
    if s.env.None? then s
    else
      var s1 := Shut(b, s);
      var s2 := if s.rdwr then Do(b, s1, BackupRemove).s else s1;
      Freed(b, s2)
  }

  function Reload(b: Build, s: State): Ret
    requires s.txn.None?
  {
    RepoOpen(b, Shut(b, s), Mode(s))
  }

  function Rollback(b: Build, s: State): Ret
    requires s.txn.None?
  {
    RepoOpen(b, Do(b, Shut(b, s), BackupRename).s, Mode(s))
  }

  /** What `hed_repo_count` returns: an entry count, or an error code negated. */
  function Count(b: Build, s: State, t: Bytes): Ret
    requires s.txn.Some?
  {
    var r := Do(b, s, DbiOpen(s.txn.value, t));
    if r.err != 0 then Ret(r.s, -r.err)
    else
      var r2 := Do(b, r.s, Stat(s.txn.value));
      if r2.err != 0 then Ret(r2.s, -r2.err) else Ret(r2.s, |Lookup(r2.s.w.working, t)|)
  }

  /** The stored counter of a table, when there is one. */
  function Counter(st: Store, t: Bytes): Option<Bytes> {
    if t in Lookup(st, HED) then Some(Lookup(st, HED)[t]) else None
  }

  function Successor(prev: Bytes): nat {
    (FromLittleEndian(prev) + 1) % WRAP32
  }

  /** `err` is the sequence number returned, 0 on failure. */
  function NextSeq(b: Build, s: State, t: Bytes): Ret
    requires s.txn.Some?
  {
    var r := Find(b, s, HED, t);
    if r.err != 0 then Ret(r.s, 0)
    else
      var seq1 := Successor(Lookup(s.w.working, HED)[t]);
      var r2 := Update(b, r.s, HED, t, LittleEndian(seq1, 4));
      if r2.err != 0 then Ret(r2.s, 0) else Ret(r2.s, seq1)
  }

  datatype Op =
    | OpOpen(tables: seq<Bytes>, flags: Flags)
    | OpClose
    | OpReload
    | OpStart
    | OpCommit
    | OpAbort
    | OpRollback
    | OpGet(table: Bytes, key: Bytes)
    | OpUpdate(table: Bytes, key: Bytes, val: Bytes)
    | OpDel(table: Bytes, key: Bytes)
    | OpCount(table: Bytes)
    | OpNextSeq(table: Bytes)
    | OpSetVersion(val: Bytes)

  /** What the API assertions of `lib/repo.c` ask of the caller before each operation, and no
      more: a repository may be opened again while it is open. */
  predicate Enabled(b: Build, s: State, op: Op) {
    match op
    case OpOpen(tables, flags) =>
      && (forall t <- tables :: t == [] || t[0] != DOT)
      && (flags.creat ==> flags.rdwr) && (flags.trunc ==> flags.creat)
    case OpClose => true
    case OpReload => s.env.Some? && s.txn.None?
    case OpStart => s.env.Some? && s.txn.None?
    case OpRollback => s.env.Some? && s.txn.None? && b.tpc
    case OpUpdate(_, k, v) => s.env.Some? && s.txn.Some? && k != [] && v != []
    case OpSetVersion(v) => s.env.Some? && s.txn.Some? && v != []
    case OpNextSeq(t) =>
      && s.env.Some? && s.txn.Some? && t != []
      && (Counter(s.w.working, t).Some? ==> |Counter(s.w.working, t).value| == 4)
    case OpDel(_, k) => s.env.Some? && s.txn.Some? && k != []
    case OpGet(_, k) => s.env.Some? && s.txn.Some? && k != []
    case _ => s.env.Some? && s.txn.Some?
  }

  function Step(b: Build, s: State, op: Op): State
    requires Enabled(b, s, op)
  {
    match op
    case OpOpen(tables, flags) => Open(b, s, tables, flags).s
    case OpClose => Close(b, s)
    case OpReload => Reload(b, s).s
    case OpStart => Start(b, s).s
    case OpCommit => Commit(b, s).s
    case OpAbort => Abort(b, s)
    case OpRollback => Rollback(b, s).s
    case OpGet(t, k) => Find(b, s, t, k).s
    case OpUpdate(t, k, v) => Update(b, s, t, k, v).s
    case OpDel(t, k) => Del(b, s, t, k).s
    case OpCount(t) => Count(b, s, t).s
    case OpNextSeq(t) => NextSeq(b, s, t).s
    case OpSetVersion(v) => Update(b, s, HED, VERSION, v).s
  }

  /** A process that has opened nothing yet, over files left by earlier ones. */
  predicate Initial(s: State) {
    s.env.None? && s.txn.None? && s.w.env.None? && s.w.txn.None? && s.w.trace == [] && s.tables == []
  }

  /** `run` goes from `s` through `ops`, each allowed by the API. */
  ghost predicate Runs(b: Build, s: State, ops: seq<Op>, s': State)
    decreases |ops|
  {
    if ops == [] then s' == s
    else Enabled(b, s, ops[0]) && Runs(b, Step(b, s, ops[0]), ops[1..], s')
  }

  /** Every operation of the run is made in a state in which the rule allows it. */
  ghost predicate Throughout(b: Build, s: State, ops: seq<Op>, rule: (State, Op) -> bool)
    decreases |ops|
  {
    ops != [] ==>
      && Enabled(b, s, ops[0]) && rule(s, ops[0])
      && Throughout(b, Step(b, s, ops[0]), ops[1..], rule)
  }
}
