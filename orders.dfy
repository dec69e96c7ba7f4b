/** The order record held in the store (server.js:56-68) and its status invariant. */
module Orders {

  import opened Wrappers

  datatype Status = New | InProgress | Completed | Canceled

  /** The status as it is stored, listed and exported. */
  function StatusName(s: Status): string {
    match s
    case New => "NEW"
    case InProgress => "IN_PROGRESS"
    case Completed => "COMPLETED"
    case Canceled => "CANCELED"
  }

  lemma StatusNameInjective(a: Status, b: Status)
    ensures StatusName(a) == StatusName(b) <==> a == b
  {
  }

  /**
   * One line of an order as the client sends it. `note` is "" when absent;
   * `price` is None when the client's price is not a number.
   */
  datatype LineItem = LineItem(name: string, qty: int, note: string, price: Option<real>)

  /** Timestamps are milliseconds since the epoch; None stands for `null`. */
  datatype Order = Order(
    id: int,
    createdBy: string,
    orderType: string,
    notes: string,
    items: seq<LineItem>,
    status: Status,
    createdAt: nat,
    acceptedAt: Option<nat>,
    doneAt: Option<nat>,
    canceledAt: Option<nat>,
    businessDate: string)

  /** Which timestamps are set is determined by the status. */
  predicate Consistent(o: Order) {
    match o.status
    case New => o.acceptedAt.None? && o.doneAt.None? && o.canceledAt.None?
    case InProgress => o.acceptedAt.Some? && o.doneAt.None? && o.canceledAt.None?
    case Completed => o.doneAt.Some? && o.canceledAt.None?
    case Canceled => o.canceledAt.Some? && o.doneAt.None?
  }

  /** The failures a handler answers with: 400, 404 and 400 respectively. */
  datatype Error = ValidationError | NotFound | InvalidTransition
}
