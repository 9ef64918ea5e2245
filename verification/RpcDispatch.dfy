/** The dispatch table that `hed_rpc_create` of `lib/rpc.c` builds for a connection. */
module RpcDispatch {
  import opened Basics

  /** One authorisation: method `meth` serves requests `id`. The group is never looked at. */
  datatype Auth<Meth> = Auth(id: u32, gid: int, meth: Meth)

  /** `max_id + 1`, computed on 32 bits before it is widened. */
  function Slots(maxId: u32): nat {
    (maxId + 1) % WRAP32
  }

  predicate HasSlot(maxId: u32, id: u32) {
    id < Slots(maxId)
  }

  /** Every id up to the maximum has a slot unless the maximum is the largest 32-bit number. */
  lemma SlotsSuffice(maxId: u32)
    ensures (forall id: u32 | id <= maxId :: HasSlot(maxId, id)) <==> maxId < WRAP32 - 1
  {
    if maxId == WRAP32 - 1 { assert !HasSlot(maxId, 0); }
  }

  /** What slot `id` holds: the method of the last entry for it. */
  function LastFor<Meth>(auth: seq<Auth<Meth>>, id: u32): Option<Meth> {
    if auth == [] then None
    else if Back(auth).id == id then Some(Back(auth).meth)
    else LastFor(Front(auth), id)
  }

  lemma {:induction false} LastForIs<Meth>(auth: seq<Auth<Meth>>, id: u32)
    ensures LastFor(auth, id).None? <==> forall a <- auth :: a.id != id
    ensures LastFor(auth, id).Some? ==>
              exists i | 0 <= i < |auth| ::
                && auth[i].id == id && LastFor(auth, id) == Some(auth[i].meth)
                && forall j | i < j < |auth| :: auth[j].id != id
  {
    if auth != [] {
      if Back(auth).id == id {
        assert Back(auth) in auth;
      } else {
        LastForIs(Front(auth), id);
        assert forall a <- auth :: a == Back(auth) || a in Front(auth);
        assert forall a <- Front(auth) :: a in auth;
        if LastFor(auth, id).Some? {
          var i :| 0 <= i < |Front(auth)| && auth[i].id == id && LastFor(auth, id) == Some(auth[i].meth)
            && forall j | i < j < |Front(auth)| :: Front(auth)[j].id != id;
          forall j | i < j < |auth| ensures auth[j].id != id {
            if j < |auth| - 1 { assert auth[j] == Front(auth)[j]; }
          }
        }
      }
    }
  }

  /** `room` says whether `calloc` succeeds. */
  method Create<Meth>(auth: seq<Auth<Meth>>, maxId: u32, room: bool)
    returns (ret: int, meth: array?<Option<Meth>>)
    requires maxId < WRAP32 - 1
    requires forall a <- auth :: a.id <= maxId
    ensures !room ==> ret == -ENOMEM
    ensures room ==> (ret == -EPERM <==> auth == []) && (ret == maxId + 1 <==> auth != [])
    ensures meth != null <==> ret == maxId + 1
    ensures meth != null ==>
              && fresh(meth) && meth.Length == ret
              && forall id | 0 <= id <= maxId :: meth[id] == LastFor(auth, id)
  {
    var permit := false;
    var nr := Slots(maxId);
    if !room { return -ENOMEM, null; }
    var fn := new Option<Meth>[nr](_ => None);
    for i := 0 to |auth|
      invariant permit <==> i > 0
      invariant forall id | 0 <= id <= maxId :: fn[id] == LastFor(auth[..i], id)
    {
      assert Front(auth[..i + 1]) == auth[..i] && Back(auth[..i + 1]) == auth[i];
      assert auth[i] in auth;
      fn[auth[i].id] := Some(auth[i].meth);
      permit := true;
    }
    assert auth[..|auth|] == auth;
    if permit { return nr, fn; }
    return -EPERM, null;
  }
}
