/**
 The storage layer as its callers may rely on it: an LMDB environment over one
 store file, a backup file beside it, and a record of every call made.

 Any fallible call may fail. Which ones do is decided by a `Faults` function of
 the number of calls made so far, so a statement about all `Faults` is a
 statement about every pattern of failures.
 */
module Lmdb {
  import opened Basics

  type Table = map<Bytes, Bytes>
  type Store = map<Bytes, Table>

  /** A file on disk. A copy that stopped half-way leaves a `Partial` file: LMDB either
      refuses it or reads something out of it, and nothing is known about what. */
  datatype File = Absent | Whole(data: Store) | Partial(readable: Option<Store>)

  function Contents(f: File): Store {
    match f
    case Absent => map[]
    case Whole(d) => d
    case Partial(Some(d)) => d
    case Partial(None) => map[]
  }

  datatype Write =
    | MakeTable(table: Bytes)
    | Clear(table: Bytes)
    | Put(table: Bytes, key: Bytes, val: Bytes)
    | Delete(table: Bytes, key: Bytes)

  function Lookup(st: Store, t: Bytes): Table {
    if t in st then st[t] else map[]
  }

  function Apply(st: Store, w: Write): Store {
    match w
    case MakeTable(t) => if t in st then st else st[t := map[]]
    case Clear(t) => st[t := map[]]
    case Put(t, k, v) => st[t := Lookup(st, t)[k := v]]
    case Delete(t, k) => st[t := Lookup(st, t) - {k}]
  }

  /** The store after a list of writes, first to last. */
  function Replay(st: Store, ws: seq<Write>): Store {
    if ws == [] then st else Apply(Replay(st, Front(ws)), Back(ws))
  }

  /** The two strings a repository allocates for the names of its files. */
  datatype Str = PathStr | BackupStr

  datatype Call =
    | Alloc
    | StrNew(str: Str)
    | StrFree(str: Str)
    | EnvCreate
    | EnvSetMaxdbs(env: nat)
    | EnvOpen(env: nat)
    | EnvCopy(env: nat)
    | EnvClose(env: nat)
    | BackupNew
    | BackupRename
    | BackupRemove
    | TxnBegin(env: nat)
    | TxnCommit(txn: nat)
    | TxnAbort(txn: nat)
    | DbiOpen(txn: nat, table: Bytes)
    | Mutate(txn: nat, write: Write)
    | Get(txn: nat, table: Bytes, key: Bytes)
    | Stat(txn: nat)
    | CursorOpen(txn: nat)
    | CursorGet(txn: nat, found: bool)

  datatype Event = Event(call: Call, err: int)

  type Code = c: int | c != 0 witness 1

  /** What a fallible call answers; `left` is what a failed copy leaves in the backup file. */
  datatype Answer = Done | Fails(code: Code, left: Option<Store>)

  type Faults = nat -> Answer

  const MDB_NOTFOUND: int := -30798
  const MDB_INVALID: int := -30793
  const MDB_BAD_VALSIZE: int := -30781
  const MDB_BAD_DBI: int := -30780

  /** Both files, the handles in the caller's hands (each is the index of the call that made
      it), the private working copy of the open transaction, and the calls so far. */
  datatype World = World(
    store: File, backup: File,
    env: Option<nat>, txn: Option<nat>, working: Store,
    trace: seq<Event>)

  datatype Reply = Reply(w: World, err: int)

  predicate Fallible(c: Call) {
    !c.EnvClose? && !c.TxnAbort? && !c.StrFree?
  }

  /** Errors the contract of the call itself dictates. */
  function Refusal(w: World, c: Call): int {
    match c
    case EnvOpen(_) => if w.store == Partial(None) then MDB_INVALID else 0
    case BackupRename => if w.backup == Absent then ENOENT else 0
    case BackupRemove => if w.backup == Absent then ENOENT else 0
    case DbiOpen(_, t) => if t == [] then MDB_BAD_VALSIZE else if t in w.working then 0 else MDB_NOTFOUND
    case Mutate(_, wr) =>
      if wr.MakeTable? then (if wr.table == [] then MDB_BAD_VALSIZE else 0)
      else if wr.table !in w.working then MDB_BAD_DBI
      else if wr.Delete? && wr.key !in w.working[wr.table] then MDB_NOTFOUND
      else 0
    case Get(_, t, k) =>
      if t !in w.working then MDB_BAD_DBI
      else if k !in w.working[t] then MDB_NOTFOUND
      else 0
    case CursorGet(_, found) => if found then 0 else MDB_NOTFOUND
    case _ => 0
  }

  function Succeeded(w: World, c: Call): World {
    match c
    case EnvCreate => w.(env := Some(|w.trace|))
    case EnvOpen(_) => if w.store == Absent then w.(store := Whole(map[])) else w
    case EnvCopy(_) => w.(backup := Whole(Contents(w.store)))
    case EnvClose(_) => w.(env := None)
    case BackupNew => w.(backup := Partial(Some(map[])))
    case BackupRename => w.(store := w.backup, backup := Absent)
    case BackupRemove => w.(backup := Absent)
    case TxnBegin(_) => w.(txn := Some(|w.trace|), working := Contents(w.store))
    case TxnCommit(_) => w.(store := Whole(w.working), txn := None)
    case TxnAbort(_) => w.(txn := None)
    case Mutate(_, wr) => w.(working := Apply(w.working, wr))
    case _ => w
  }

  /** The caller has overwritten its handles: nothing can name them any more, though nothing
      has closed them. */
  function Lost(w: World): World {
    w.(env := None, txn := None)
  }

  /** A failed commit frees the transaction and stores nothing; a failed copy spoils the backup. */
  function Failed(w: World, c: Call, left: Option<Store>): World {
    match c
    case EnvCopy(_) => w.(backup := Partial(left))
    case TxnCommit(_) => w.(txn := None)
    case _ => w
  }

  /** One storage call: its effect, its return code, and its entry in the record. */
  function Issue(f: Faults, w: World, c: Call): Reply {
    var answer := f(|w.trace|);
    var refusal := Refusal(w, c);
    if Fallible(c) && answer.Fails? then
      Reply(Failed(w, c, answer.left).(trace := w.trace + [Event(c, answer.code)]), answer.code)
    else if refusal != 0 then
      Reply(w.(trace := w.trace + [Event(c, refusal)]), refusal)
    else
      Reply(Succeeded(w, c).(trace := w.trace + [Event(c, 0)]), 0)
  }
}
