/**
 * The in-memory order store `DB` (server.js:13) with the create handler
 * (server.js:50-72) and the status-update handler (server.js:85-107).
 * The clock is a parameter; `saveDb` is recorded as a count of saves.
 */
module Store {

  import opened Wrappers
  import opened Orders
  import opened Lifecycle
  import opened Reports

  /** The body of a create request. Absent fields are None (`undefined`). */
  datatype CreateRequest = CreateRequest(
    createdBy: Option<string>,
    orderType: Option<string>,
    notes: Option<string>,
    /** None when `items` is present but not an array; an absent `items` is Some([]). */
    items: Option<seq<LineItem>>)

  /** The reply to a successful create: `{ id, status }`. */
  datatype Created = Created(id: int, status: Status)

  /** Ids are 1, 2, ... in store order: what a store started empty keeps. */
  predicate SequentialIds(db: seq<Order>) {
    forall k :: 0 <= k < |db| ==> db[k].id == k + 1
  }

  predicate AllConsistent(db: seq<Order>) {
    forall k :: 0 <= k < |db| ==> Consistent(db[k])
  }

  /** `DB.find(o => o.id === id)`, as the index of the first order with that id. */
  function IndexOfId(db: seq<Order>, id: int): (r: Option<nat>)
    ensures r.Some? ==> r.value < |db| && db[r.value].id == id
    ensures r.Some? ==> forall j :: 0 <= j < r.value ==> db[j].id != id
    ensures r.None? ==> forall j :: 0 <= j < |db| ==> db[j].id != id
    decreases |db|
  {
    if db == [] then None
    else if db[0].id == id then Some(0)
    else match IndexOfId(db[1..], id)
      case None => None
      case Some(i) => Some(i + 1)
  }

  /** With sequential ids, order `id` sits at index `id - 1`. */
  lemma IndexOfSequentialId(db: seq<Order>, id: int)
    requires SequentialIds(db)
    ensures IndexOfId(db, id) == if 1 <= id <= |db| then Some(id - 1) else None
  {
    if 1 <= id <= |db| {
      assert db[id - 1].id == id;
    }
  }

  /**
   * The store invariant is what the reports rely on: a valid store lists
   * strictly newest first, and its summary's prep intervals come from
   * completed orders and are non-negative.
   */
  lemma ValidStoreReports(db: seq<Order>, date: string, status: string, today: string)
    requires SequentialIds(db) && AllConsistent(db)
    ensures var r := ListOrders(db, date, status);
      forall i, j :: 0 <= i < j < |r| ==> r[i].id > r[j].id
    ensures var s := Summary(db, date, today);
      |s.prepMillis| <= s.completed && forall i :: 0 <= i < |s.prepMillis| ==> s.prepMillis[i] >= 0
  {
    assert forall i, j :: 0 <= i < j < |db| ==> db[i].id < db[j].id;
    ListStrictlyDescending(db, date, status);
    PrepOnlyCompleted(db, date, today);
  }

  class OrderStore {
    /** The orders, in the order they were created. */
    var db: seq<Order>
    /** How many times the whole store has been written out. */
    ghost var saves: nat

    /** The invariant of a store that started empty. */
    ghost predicate Valid()
      reads this
    {
      SequentialIds(db) && AllConsistent(db)
    }

    constructor ()
      ensures db == [] && saves == 0 && Valid()
    {
      db := [];
      saves := 0;
    }

    /**
     * Rejects a request whose items are not a non-empty array; otherwise
     * appends a NEW order whose id follows the last order's, saves, and
     * answers with its id and status.
     */
    method Create(req: CreateRequest, now: nat, businessDate: string) returns (r: Result<Created, Error>)
      modifies this
      ensures req.items.None? || req.items.value == [] ==>
        r == Failure(ValidationError) && db == old(db) && saves == old(saves)
      ensures req.items.Some? && req.items.value != [] ==>
        var id := if |old(db)| == 0 then 1 else old(db)[|old(db)| - 1].id + 1;
        && r == Success(Created(id, New))
        && db == old(db) + [Order(id, req.createdBy.GetOr("FrontDesk"), req.orderType.GetOr("Takeaway"),
                                  req.notes.GetOr(""), req.items.value, New, now, None, None, None,
                                  businessDate)]
        && saves == old(saves) + 1
      ensures old(Valid()) ==> Valid()
    {
      if req.items.None? || |req.items.value| == 0 {
        return Failure(ValidationError);
      }
      var id := if |db| > 0 then db[|db| - 1].id + 1 else 1;
      var order := Order(
        id,
        req.createdBy.GetOr("FrontDesk"),
        req.orderType.GetOr("Takeaway"),
        req.notes.GetOr(""),
        req.items.value,
        New,
        now,
        None,
        None,
        None,
        businessDate);
      db := db + [order];
      saves := saves + 1;
      r := Success(Created(order.id, order.status));
    }

    /**
     * Finds the order with `id` and applies `action` at instant `now`:
     * 404 when there is no such order, 400 when the lifecycle rejects the
     * action, otherwise the order is updated in place and the store saved.
     */
    method ApplyAction(id: int, action: string, now: nat) returns (r: Result<Status, Error>)
      modifies this
      ensures IndexOfId(old(db), id).None? ==>
        r == Failure(NotFound) && db == old(db) && saves == old(saves)
      ensures IndexOfId(old(db), id).Some? && Step(old(db)[IndexOfId(old(db), id).value], action, now).None? ==>
        r == Failure(InvalidTransition) && db == old(db) && saves == old(saves)
      ensures IndexOfId(old(db), id).Some? && Step(old(db)[IndexOfId(old(db), id).value], action, now).Some? ==>
        var i := IndexOfId(old(db), id).value;
        var o := Step(old(db)[i], action, now).value;
        && r == Success(o.status)
        && db == old(db)[i := o]
        && saves == old(saves) + 1
      ensures old(Valid()) ==> Valid()
    {
      var found := IndexOfId(db, id);
      if found.None? {
        return Failure(NotFound);
      }
      var i := found.value;
      var order := db[i];
      if action == "ACCEPT" && order.status == New {
        order := order.(status := InProgress, acceptedAt := Some(now));
      } else if action == "DONE" && (order.status == New || order.status == InProgress) {
        order := order.(status := Completed, doneAt := Some(now));
      } else if action == "CANCEL" && (order.status == New || order.status == InProgress) {
        order := order.(status := Canceled, canceledAt := Some(now));
      } else {
        return Failure(InvalidTransition);
      }
      assert Some(order) == Step(db[i], action, now);
      if Valid() {
        StepStampsOnce(db[i], action, now);
      }
      db := db[i := order];
      saves := saves + 1;
      r := Success(order.status);
    }
  }

  /**
   * What a client can rely on from the contracts alone: ids 1 and 2 for the
   * first two orders, a second ACCEPT rejected, a terminal order frozen.
   */
  method Scenario(item: LineItem, t0: nat, t1: nat, t2: nat, t3: nat, day: string)
  {
    var store := new OrderStore();
    var req := CreateRequest(None, None, None, Some([item]));
    var a := store.Create(req, t0, day);
    var b := store.Create(req, t1, day);
    assert a == Success(Created(1, New)) && b == Success(Created(2, New));
    var empty := store.Create(CreateRequest(None, None, None, Some([])), t1, day);
    assert empty == Failure(ValidationError) && |store.db| == 2;
    var s1 := store.ApplyAction(1, "ACCEPT", t2);
    assert s1 == Success(InProgress);
    var s2 := store.ApplyAction(1, "ACCEPT", t3);
    assert s2 == Failure(InvalidTransition) && store.db[0].acceptedAt == Some(t2);
    var s3 := store.ApplyAction(1, "DONE", t3);
    var s4 := store.ApplyAction(1, "CANCEL", t3);
    assert s3 == Success(Completed) && s4 == Failure(InvalidTransition);
    var s5 := store.ApplyAction(3, "DONE", t3);
    assert s5 == Failure(NotFound);
    assert store.Valid() && store.db[0].businessDate == day;
  }
}
