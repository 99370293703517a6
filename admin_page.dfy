/**
 * The computed parts of the admin dashboard: the search and status filter
 * over the fetched orders, the status tallies, and which orders offer the
 * approve and reject buttons.
 */
module AdminPage {
  import opened Text
  import opened OrderModel
  import opened Collections

  /** The status drop-down: every status, or one. */
  datatype StatusFilter = AllStatuses | OnlyStatus(status: OrderStatus)

  /** Email or name contains the term ignoring case, or the phone contains it verbatim. */
  predicate MatchesSearch(o: Order, term: string) {
    || Contains(ToLower(o.email), ToLower(term))
    || Contains(ToLower(o.name), ToLower(term))
    || Contains(o.phone, term)
  }

  predicate MatchesStatus(o: Order, filter: StatusFilter) {
    filter == AllStatuses || o.status == filter.status
  }

  /** An order stays in the list when it matches the search and the status filter. */
  predicate Shown(o: Order, term: string, filter: StatusFilter) {
    MatchesSearch(o, term) && MatchesStatus(o, filter)
  }

  /** `a` is `b` with some elements left out and the rest in their original order. */
  ghost predicate IsSubsequence(a: seq<Order>, b: seq<Order>)
    decreases |b|
  {
    if b == [] then a == []
    else IsSubsequence(a, b[1..]) || (a != [] && a[0] == b[0] && IsSubsequence(a[1..], b[1..]))
  }

  /**
   * The orders the table shows: exactly those that match, each as many times
   * as it was fetched, no more of them than were fetched, in the order they
   * were fetched.
   */
  function FilterOrders(orders: seq<Order>, term: string, filter: StatusFilter): (r: seq<Order>)
    ensures |r| <= |orders|
    ensures forall o :: o in r <==> o in orders && Shown(o, term, filter)
    ensures forall o :: multiset(r)[o] == if Shown(o, term, filter) then multiset(orders)[o] else 0
    ensures IsSubsequence(r, orders)
  {
    if orders == [] then []
    else
      var rest := FilterOrders(orders[1..], term, filter);
      HeadTail(orders);
      if Shown(orders[0], term, filter) then
        Cons(orders[0], rest);
        [orders[0]] + rest
      else rest
  }

  /** Filtering again with the same search and status changes nothing. */
  lemma {:induction false} FilterIdempotent(orders: seq<Order>, term: string, filter: StatusFilter)
    ensures FilterOrders(FilterOrders(orders, term, filter), term, filter) == FilterOrders(orders, term, filter)
  {
    if orders != [] {
      FilterIdempotent(orders[1..], term, filter);
      var rest := FilterOrders(orders[1..], term, filter);
      if Shown(orders[0], term, filter) {
        assert ([orders[0]] + rest)[1..] == rest;
      }
    }
  }

  /** With an empty search and every status selected, the whole list is shown. */
  lemma {:induction false} EmptySearchShowsAll(orders: seq<Order>)
    ensures FilterOrders(orders, "", AllStatuses) == orders
  {
    if orders != [] {
      EmptySearchShowsAll(orders[1..]);
      ContainsEmpty(ToLower(orders[0].email));
      assert ToLower("") == "";
      assert Shown(orders[0], "", AllStatuses);
      assert orders == [orders[0]] + orders[1..];
    }
  }

  /** The number of orders with status `st`. */
  function CountStatus(orders: seq<Order>, st: OrderStatus): nat {
    if orders == [] then 0
    else (if orders[0].status == st then 1 else 0) + CountStatus(orders[1..], st)
  }

  /** Every order has one of the three statuses, so the tallies add up to the total. */
  lemma {:induction false} StatusCountsAddUp(orders: seq<Order>)
    ensures CountStatus(orders, Pending) + CountStatus(orders, Approved) + CountStatus(orders, Rejected) == |orders|
  {
    if orders != [] {
      StatusCountsAddUp(orders[1..]);
    }
  }

  /** A status tally is the length of the list the status filter shows with an empty search. */
  lemma {:induction false} CountIsFilterLength(orders: seq<Order>, st: OrderStatus)
    ensures CountStatus(orders, st) == |FilterOrders(orders, "", OnlyStatus(st))|
  {
    if orders != [] {
      CountIsFilterLength(orders[1..], st);
      ContainsEmpty(ToLower(orders[0].email));
      assert ToLower("") == "";
      assert MatchesSearch(orders[0], "");
    }
  }

  datatype Stats = Stats(total: nat, pending: nat, approved: nat, rejected: nat)

  /**
   * The dashboard's counters: the total, and for each status the length of
   * the list filtered to that status; the three tallies partition the total.
   */
  function ComputeStats(orders: seq<Order>): (s: Stats)
    ensures s.total == |orders|
    ensures s.pending == |FilterOrders(orders, "", OnlyStatus(Pending))|
    ensures s.approved == |FilterOrders(orders, "", OnlyStatus(Approved))|
    ensures s.rejected == |FilterOrders(orders, "", OnlyStatus(Rejected))|
    ensures s.pending + s.approved + s.rejected == s.total
  {
    StatusCountsAddUp(orders);
    CountIsFilterLength(orders, Pending);
    CountIsFilterLength(orders, Approved);
    CountIsFilterLength(orders, Rejected);
    Stats(|orders|, CountStatus(orders, Pending), CountStatus(orders, Approved), CountStatus(orders, Rejected))
  }

  /** The list row and the detail panel offer approve and reject only on a pending order. */
  predicate ActionsOffered(o: Order) {
    o.status == Pending
  }
}
