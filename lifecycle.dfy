/**
 * The order lifecycle (server.js:92-103), as a transition table:
 *
 *   ACCEPT  NEW               -> IN_PROGRESS  stamps acceptedAt
 *   DONE    NEW, IN_PROGRESS  -> COMPLETED    stamps doneAt
 *   CANCEL  NEW, IN_PROGRESS  -> CANCELED     stamps canceledAt
 *
 * Every other action text and status pair is rejected.
 */
module Lifecycle {

  import opened Wrappers
  import opened Orders

  datatype Action = Accept | Done | Cancel

  /** The action names the handler recognises; anything else is None. */
  function ParseAction(s: string): Option<Action> {
    if s == "ACCEPT" then Some(Accept)
    else if s == "DONE" then Some(Done)
    else if s == "CANCEL" then Some(Cancel)
    else None
  }

  predicate AllowedFrom(a: Action, s: Status) {
    match a
    case Accept => s == New
    case Done => s == New || s == InProgress
    case Cancel => s == New || s == InProgress
  }

  function Target(a: Action): Status {
    match a
    case Accept => InProgress
    case Done => Completed
    case Cancel => Canceled
  }

  /** The order after `a` fires at instant `now`: new status, one timestamp. */
  function Fire(o: Order, a: Action, now: nat): Order {
    match a
    case Accept => o.(status := Target(a), acceptedAt := Some(now))
    case Done => o.(status := Target(a), doneAt := Some(now))
    case Cancel => o.(status := Target(a), canceledAt := Some(now))
  }

  /** The order after the request's action, or None when it is rejected. */
  function Step(o: Order, action: string, now: nat): Option<Order> {
    match ParseAction(action)
    case None => None
    case Some(a) => if AllowedFrom(a, o.status) then Some(Fire(o, a, now)) else None
  }

  predicate Terminal(s: Status) { s == Completed || s == Canceled }

  /** The status edges of the lifecycle, listed independently of the table. */
  predicate Edge(from: Status, to: Status) {
    (from, to) in {(New, InProgress), (New, Completed), (InProgress, Completed),
                   (New, Canceled), (InProgress, Canceled)}
  }

  /**
   * Only ACCEPT, DONE and CANCEL are recognised; a successful step moves to
   * its action's target along an edge, and every edge is some action's step.
   */
  lemma StepFollowsEdges(o: Order, action: string, now: nat)
    ensures Step(o, action, now).Some? ==> action in {"ACCEPT", "DONE", "CANCEL"}
    ensures Step(o, action, now).Some? ==>
      Step(o, action, now).value.status
      == (if action == "ACCEPT" then InProgress else if action == "DONE" then Completed else Canceled)
    ensures Step(o, action, now).Some? ==> Edge(o.status, Step(o, action, now).value.status)
    ensures forall to :: Edge(o.status, to) ==>
      exists name :: name in {"ACCEPT", "DONE", "CANCEL"}
        && Step(o, name, now).Some? && Step(o, name, now).value.status == to
  {
    forall to | Edge(o.status, to)
      ensures exists name :: (name in {"ACCEPT", "DONE", "CANCEL"}
                              && Step(o, name, now).Some? && Step(o, name, now).value.status == to)
    {
      var name := if to == InProgress then "ACCEPT" else if to == Completed then "DONE" else "CANCEL";
      assert Step(o, name, now).Some? && Step(o, name, now).value.status == to;
    }
  }

  /** Completed and canceled orders accept no action. */
  lemma TerminalIsFinal(o: Order, action: string, now: nat)
    requires Terminal(o.status)
    ensures Step(o, action, now) == None
  {
  }

  /** A second ACCEPT is rejected. */
  lemma AcceptTwiceRejected(o: Order, now: nat, later: nat)
    requires Step(o, "ACCEPT", now).Some?
    ensures Step(Step(o, "ACCEPT", now).value, "ACCEPT", later) == None
  {
  }

  /**
   * For any order, consistent or not, a step changes only the status and its
   * action's timestamp, which becomes `now`; id, items, dates and texts are kept.
   */
  lemma StepKeepsRecord(o: Order, action: string, now: nat)
    requires Step(o, action, now).Some?
    ensures var o' := Step(o, action, now).value;
      && o' == o.(status := o'.status, acceptedAt := o'.acceptedAt, doneAt := o'.doneAt,
                  canceledAt := o'.canceledAt)
      && (action == "ACCEPT" ==> o'.acceptedAt == Some(now) && o'.doneAt == o.doneAt
                                 && o'.canceledAt == o.canceledAt)
      && (action == "DONE" ==> o'.doneAt == Some(now) && o'.acceptedAt == o.acceptedAt
                               && o'.canceledAt == o.canceledAt)
      && (action == "CANCEL" ==> o'.canceledAt == Some(now) && o'.acceptedAt == o.acceptedAt
                                 && o'.doneAt == o.doneAt)
  {
  }

  /**
   * A step keeps the status/timestamp invariant, changes only the status and
   * one timestamp, and that timestamp was unset before and is `now` after.
   */
  lemma StepStampsOnce(o: Order, action: string, now: nat)
    requires Consistent(o) && Step(o, action, now).Some?
    ensures var o' := Step(o, action, now).value;
      && Consistent(o')
      && o' == o.(status := o'.status, acceptedAt := o'.acceptedAt, doneAt := o'.doneAt,
                  canceledAt := o'.canceledAt)
      && (action == "ACCEPT" ==> o.acceptedAt == None && o'.acceptedAt == Some(now)
                                 && o'.doneAt == o.doneAt && o'.canceledAt == o.canceledAt)
      && (action == "DONE" ==> o.doneAt == None && o'.doneAt == Some(now)
                               && o'.acceptedAt == o.acceptedAt && o'.canceledAt == o.canceledAt)
      && (action == "CANCEL" ==> o.canceledAt == None && o'.canceledAt == Some(now)
                                 && o'.acceptedAt == o.acceptedAt && o'.doneAt == o.doneAt)
  {
  }
}
