/**
 * Reading the store: the order list with its optional filters and newest-
 * first order (server.js:75-82) and the daily summary (server.js:110-127).
 * The requested date and status are "" when the query leaves them out.
 */
module Reports {

  import opened Orders

  /** `s.filter(p)`: the elements satisfying p, in their original order. */
  function Filter(s: seq<Order>, p: Order -> bool): (r: seq<Order>)
    ensures |r| <= |s|
    ensures forall x :: multiset(r)[x] == if p(x) then multiset(s)[x] else 0
    decreases |s|
  {
    if s == [] then []
    else
      assert s == [s[0]] + s[1..];
      if p(s[0]) then [s[0]] + Filter(s[1..], p) else Filter(s[1..], p)
  }

  /**
   * Filtering a concatenation filters each part and keeps them in order, so
   * the kept elements stay in their input order.
   */
  lemma {:induction false} FilterAppend(a: seq<Order>, b: seq<Order>, p: Order -> bool)
    ensures Filter(a + b, p) == Filter(a, p) + Filter(b, p)
    decreases |a|
  {
    if a == [] {
      assert a + b == b;
    } else {
      assert (a + b)[0] == a[0] && (a + b)[1..] == a[1..] + b;
      FilterAppend(a[1..], b, p);
    }
  }

  /** A single element is kept exactly when it satisfies the predicate. */
  lemma FilterSingleton(x: Order, p: Order -> bool)
    ensures Filter([x], p) == if p(x) then [x] else []
  {
    assert [x][1..] == [];
  }

  /** Three filters that never hold together select at most |s| elements. */
  lemma {:induction false} DisjointFiltersBounded(s: seq<Order>, p: Order -> bool, q: Order -> bool, u: Order -> bool)
    requires forall x :: !(p(x) && q(x)) && !(p(x) && u(x)) && !(q(x) && u(x))
    ensures |Filter(s, p)| + |Filter(s, q)| + |Filter(s, u)| <= |s|
    decreases |s|
  {
    if s != [] {
      DisjointFiltersBounded(s[1..], p, q, u);
    }
  }

  /** A filter implied by another, on the elements of s, selects no more. */
  lemma {:induction false} FilterMonotone(s: seq<Order>, p: Order -> bool, q: Order -> bool)
    requires forall i :: 0 <= i < |s| ==> p(s[i]) ==> q(s[i])
    ensures |Filter(s, p)| <= |Filter(s, q)|
    decreases |s|
  {
    if s != [] {
      FilterMonotone(s[1..], p, q);
    }
  }

  predicate SortedByIdDesc(s: seq<Order>) {
    forall i, j :: 0 <= i < j < |s| ==> s[i].id >= s[j].id
  }

  /** Putting an order in front of a sorted sequence whose ids are no larger keeps it sorted. */
  lemma PrependSorted(x: Order, t: seq<Order>)
    requires SortedByIdDesc(t)
    requires t == [] || x.id >= t[0].id
    ensures SortedByIdDesc([x] + t)
  {
    var r := [x] + t;
    forall i, j | 0 <= i < j < |r|
      ensures r[i].id >= r[j].id
    {
      if i == 0 && j > 1 {
        assert r[j] == t[j - 1] && t[0].id >= t[j - 1].id;
      }
    }
  }

  function Insert(o: Order, s: seq<Order>): (r: seq<Order>)
    requires SortedByIdDesc(s)
    ensures |r| == |s| + 1 && (r[0] == o || (s != [] && r[0] == s[0]))
    ensures SortedByIdDesc(r)
    ensures multiset(r) == multiset(s) + multiset{o}
    decreases |s|
  {
    if s == [] || o.id >= s[0].id then
      PrependSorted(o, s);
      [o] + s
    else
      assert s == [s[0]] + s[1..];
      var rest := Insert(o, s[1..]);
      PrependSorted(s[0], rest);
      [s[0]] + rest
  }

  /** `sort((a, b) => b.id - a.id)`: an insertion sort. */
  function SortByIdDesc(s: seq<Order>): (r: seq<Order>)
    ensures SortedByIdDesc(r)
    ensures multiset(r) == multiset(s)
    decreases |s|
  {
    if s == [] then []
    else
      assert s == [s[0]] + s[1..];
      Insert(s[0], SortByIdDesc(s[1..]))
  }

  /** The listing's filters: "" leaves that filter off. */
  predicate Matches(date: string, status: string, o: Order) {
    (date == "" || o.businessDate == date) && (status == "" || StatusName(o.status) == status)
  }

  /** `DB.filter(o => o.businessDate === date)`. */
  function OnDate(db: seq<Order>, date: string): seq<Order> {
    Filter(db, (o: Order) => o.businessDate == date)
  }

  /**
   * An order added to the store joins the date's list at its end when it is
   * of that date, so the list is in store order.
   */
  lemma OnDateAppend(db: seq<Order>, o: Order, date: string)
    ensures OnDate(db + [o], date) == OnDate(db, date) + if o.businessDate == date then [o] else []
  {
    var p := (x: Order) => x.businessDate == date;
    assert OnDate(db + [o], date) == Filter(db + [o], p);
    FilterAppend(db, [o], p);
    FilterSingleton(o, p);
  }

  /**
   * GET /api/orders: exactly the matching orders, each as often as it is
   * stored, newest id first.
   */
  function ListOrders(db: seq<Order>, date: string, status: string): (r: seq<Order>)
    ensures SortedByIdDesc(r)
    ensures forall o :: multiset(r)[o] == if Matches(date, status, o) then multiset(db)[o] else 0
  {
    var byDate := if date != "" then OnDate(db, date) else db;
    var byStatus := if status != "" then Filter(byDate, (o: Order) => StatusName(o.status) == status) else byDate;
    SortByIdDesc(byStatus)
  }

  /** An element at two positions occurs twice. */
  lemma TwoPositions(r: seq<Order>, i: int, j: int)
    requires 0 <= i < j < |r| && r[i] == r[j]
    ensures multiset(r)[r[i]] >= 2
  {
    assert r == r[..j] + r[j..];
    assert r[i] == r[..j][i];
    assert r[j] == r[j..][0];
  }

  /** Strictly increasing ids along a sequence mean no order is stored twice. */
  lemma OccursOnce(db: seq<Order>, a: int)
    requires forall i, j :: 0 <= i < j < |db| ==> db[i].id < db[j].id
    requires 0 <= a < |db|
    ensures multiset(db)[db[a]] == 1
  {
    assert db == db[..a] + [db[a]] + db[a + 1..];
    assert forall k :: 0 <= k < a ==> db[..a][k].id < db[a].id;
    assert db[a] !in db[..a];
    var after := db[a + 1..];
    assert forall k :: 0 <= k < |after| ==> after[k].id > db[a].id;
    assert db[a] !in after;
  }

  /** Every listed order is one of the stored orders. */
  lemma ListedIsStored(db: seq<Order>, date: string, status: string, i: int)
    requires 0 <= i < |ListOrders(db, date, status)|
    ensures exists a :: 0 <= a < |db| && db[a] == ListOrders(db, date, status)[i]
  {
    var r := ListOrders(db, date, status);
    assert r[i] in multiset(r);
    assert r[i] in db;
  }

  /** Among orders with strictly increasing ids, the listing is strictly newest first. */
  lemma ListStrictlyDescending(db: seq<Order>, date: string, status: string)
    requires forall i, j :: 0 <= i < j < |db| ==> db[i].id < db[j].id
    ensures var r := ListOrders(db, date, status);
      forall i, j :: 0 <= i < j < |r| ==> r[i].id > r[j].id
  {
    var r := ListOrders(db, date, status);
    forall i, j | 0 <= i < j < |r|
      ensures r[i].id != r[j].id
    {
      if r[i].id == r[j].id {
        ListedIsStored(db, date, status, i);
        ListedIsStored(db, date, status, j);
        var a :| 0 <= a < |db| && db[a] == r[i];
        var b :| 0 <= b < |db| && db[b] == r[j];
        assert a == b;
        TwoPositions(r, i, j);
        OccursOnce(db, a);
        assert false;
      }
    }
  }

  /** The summary as answered: counts and, per qualifying order, its prep time in ms. */
  datatype Report = Report(date: string, total: nat, completed: nat, canceled: nat, inProgress: nat,
                           prepMillis: seq<int>)

  /** `req.query.date || getBusinessDate(new Date())`, with today's date passed in. */
  function EffectiveDate(date: string, today: string): string {
    if date != "" then date else today
  }

  predicate IsCompleted(o: Order) { o.status == Completed }
  predicate IsCanceled(o: Order) { o.status == Canceled }
  predicate IsInProgress(o: Order) { o.status == InProgress }

  /** `o.createdAt && o.doneAt && o.doneAt >= o.createdAt`, where 0 and null are false. */
  predicate PrepQualifies(o: Order) {
    o.createdAt != 0 && o.doneAt.Some? && o.doneAt.value != 0 && o.doneAt.value >= o.createdAt
  }

  function PrepMillis(o: Order): int {
    match o.doneAt
    case Some(t) => t - o.createdAt
    case None => 0
  }

  /** GET /api/summary. */
  function Summary(db: seq<Order>, date: string, today: string): Report {
    var d := EffectiveDate(date, today);
    var list := OnDate(db, d);
    var prep := Filter(list, PrepQualifies);
    Report(d, |list|, |Filter(list, IsCompleted)|, |Filter(list, IsCanceled)|,
           |Filter(list, IsInProgress)|,
           seq(|prep|, i requires 0 <= i < |prep| => PrepMillis(prep[i])))
  }

  /** completed + canceled + inProgress never exceeds total. */
  lemma SummaryCountsBounded(db: seq<Order>, date: string, today: string)
    ensures var r := Summary(db, date, today);
      r.completed + r.canceled + r.inProgress <= r.total
  {
    var list := OnDate(db, EffectiveDate(date, today));
    DisjointFiltersBounded(list, IsCompleted, IsCanceled, IsInProgress);
  }

  lemma SameMultisetSameLength(a: seq<Order>, b: seq<Order>)
    requires forall o :: multiset(a)[o] == multiset(b)[o]
    ensures |a| == |b|
  {
    assert multiset(a) == multiset(b);
    assert |multiset(a)| == |a| && |multiset(b)| == |b|;
  }

  /** Listing a (non-empty) date and status has as many orders as the summary's filter. */
  lemma ListSizeByStatus(db: seq<Order>, d: string, name: string, p: Order -> bool)
    requires d != "" && name != ""
    requires forall o: Order :: p(o) == (StatusName(o.status) == name)
    ensures |ListOrders(db, d, name)| == |Filter(OnDate(db, d), p)|
  {
    var a, b := ListOrders(db, d, name), Filter(OnDate(db, d), p);
    forall o
      ensures multiset(a)[o] == multiset(b)[o]
    {
    }
    SameMultisetSameLength(a, b);
  }

  /** The summary counts are the sizes of the corresponding listings for that date. */
  lemma SummaryAgreesWithList(db: seq<Order>, date: string, today: string)
    requires EffectiveDate(date, today) != ""
    ensures var r := Summary(db, date, today);
      && r.total == |ListOrders(db, r.date, "")|
      && r.completed == |ListOrders(db, r.date, "COMPLETED")|
      && r.canceled == |ListOrders(db, r.date, "CANCELED")|
      && r.inProgress == |ListOrders(db, r.date, "IN_PROGRESS")|
  {
    var d := EffectiveDate(date, today);
    SameMultisetSameLength(ListOrders(db, d, ""), OnDate(db, d));
    ListSizeByStatus(db, d, "COMPLETED", IsCompleted);
    ListSizeByStatus(db, d, "CANCELED", IsCanceled);
    ListSizeByStatus(db, d, "IN_PROGRESS", IsInProgress);
  }

  /** Every element a filter keeps satisfies it and comes from the filtered sequence. */
  lemma FilterKeeps(s: seq<Order>, p: Order -> bool)
    ensures forall i :: 0 <= i < |Filter(s, p)| ==> p(Filter(s, p)[i]) && Filter(s, p)[i] in s
  {
    var r := Filter(s, p);
    forall i | 0 <= i < |r|
      ensures p(r[i]) && r[i] in s
    {
      assert r[i] in multiset(r);
    }
  }

  /**
   * Among consistent orders, the prep filter keeps only completed ones, each
   * with a non-negative interval.
   */
  lemma PrepKeepsCompleted(list: seq<Order>)
    requires forall k :: 0 <= k < |list| ==> Consistent(list[k])
    ensures var prep := Filter(list, PrepQualifies);
      forall i :: 0 <= i < |prep| ==> prep[i].status == Completed && PrepMillis(prep[i]) >= 0
  {
    FilterKeeps(list, PrepQualifies);
  }

  /**
   * In a consistent store only completed orders have a prep interval, and
   * every interval is non-negative.
   */
  lemma PrepOnlyCompleted(db: seq<Order>, date: string, today: string)
    requires forall k :: 0 <= k < |db| ==> Consistent(db[k])
    ensures var prep := Filter(OnDate(db, EffectiveDate(date, today)), PrepQualifies);
      forall i :: 0 <= i < |prep| ==> prep[i].status == Completed
    ensures var r := Summary(db, date, today);
      |r.prepMillis| <= r.completed && forall i :: 0 <= i < |r.prepMillis| ==> r.prepMillis[i] >= 0
  {
    var list := OnDate(db, EffectiveDate(date, today));
    FilterKeeps(db, (o: Order) => o.businessDate == EffectiveDate(date, today));
    assert forall k :: 0 <= k < |list| ==> Consistent(list[k]);
    FilterMonotone(list, PrepQualifies, IsCompleted);
    PrepKeepsCompleted(list);
  }
}
