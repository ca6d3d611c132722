/** The staff order page of components/admin/admin-orders-page.tsx: the list
    filter, the per-status action buttons (the only order transition table in
    the system), and the two actions, which call the store and then update the
    page's own copy of the orders. */
module AdminOrders {
  import opened Domain
  import opened Seqs
  import opened Text
  import opened StoreSpec
  import opened Store

  /** The status select: "all" or one status. */
  datatype StatusFilter = AllStatuses | OnlyStatus(status: OrderStatus)

  /** The buttons of an order row. */
  datatype Action = MarkReady | MarkCompleted | CancelByStaff

  /** The order chosen in the cancel dialog (`confirmCancel`). */
  datatype CancelTarget = CancelTarget(id: nat, userId: string)

  /** The text of a store id, as `order.id` is searched. */
  function IdText(id: nat): string {
    NatToString(id)
  }

  /** The predicate of `filtered`. */
  predicate Listed(o: Order, filter: StatusFilter, search: string) {
    && (filter.AllStatuses? || o.status == filter.status)
    && (Includes(Lower(o.userEmail), Lower(search)) || Includes(IdText(o.id), search))
  }

  function ListedBy(filter: StatusFilter, search: string): Order -> bool {
    (o: Order) => Listed(o, filter, search)
  }

  /** `filtered`: the orders the table shows, in list order. */
  function Filtered(orders: seq<Order>, filter: StatusFilter, search: string): seq<Order> {
    Filter(ListedBy(filter, search), orders)
  }

  /** An order is shown iff it is in the list, the status filter is "all" or
      its status, and its email (ignoring case) or its id contains the search. */
  lemma FilteredMembership(orders: seq<Order>, filter: StatusFilter, search: string, o: Order)
    ensures o in Filtered(orders, filter, search) <==>
      && o in orders
      && (filter.AllStatuses? || o.status == filter.status)
      && (Includes(Lower(o.userEmail), Lower(search)) || Includes(IdText(o.id), search))
  {
    FilterMembership(ListedBy(filter, search), orders, o);
  }

  /** With "all" and an empty search the table shows the whole list. */
  lemma UnfilteredShowsAll(orders: seq<Order>)
    ensures Filtered(orders, AllStatuses, "") == orders
  {
    forall i | 0 <= i < |orders| ensures ListedBy(AllStatuses, "")(orders[i]) {
      IncludesEmpty(Lower(orders[i].userEmail));
      assert Lower("") == "";
    }
    FilterKeepsAll(ListedBy(AllStatuses, ""), orders);
  }

  /** The buttons a row offers for an order in status `s`. */
  function Offered(s: OrderStatus): set<Action> {
    (if s == Pending then {MarkReady} else {})
    + (if s == Ready then {MarkCompleted} else {})
    + (if s != Completed && s != Cancelled then {CancelByStaff} else {})
  }

  /** The status a button sets. */
  function Target(a: Action): OrderStatus {
    match a
    case MarkReady => Ready
    case MarkCompleted => Completed
    case CancelByStaff => Cancelled
  }

  /** The page lets staff move an order from `s` to `t`. */
  predicate PageTransition(s: OrderStatus, t: OrderStatus) {
    exists a :: a in Offered(s) && Target(a) == t
  }

  /** The transition table: pending to ready, ready to completed, and
      cancellation from either; nothing leaves completed or cancelled. */
  lemma TransitionTable(s: OrderStatus, t: OrderStatus)
    ensures PageTransition(s, t) <==>
      || (s == Pending && (t == Ready || t == Cancelled))
      || (s == Ready && (t == Completed || t == Cancelled))
  {
    if s == Pending && t == Ready { assert MarkReady in Offered(s); }
    if s == Ready && t == Completed { assert MarkCompleted in Offered(s); }
    if (s == Pending || s == Ready) && t == Cancelled { assert CancelByStaff in Offered(s); }
  }

  /** How far along an order is. */
  function Rank(s: OrderStatus): nat {
    match s
    case Pending => 0
    case Ready => 1
    case Completed => 2
    case Cancelled => 2
  }

  /** Every transition the page offers moves the order strictly forward, so at
      most two actions apply to one order. */
  lemma TransitionsMoveForward(s: OrderStatus, t: OrderStatus)
    requires PageTransition(s, t)
    ensures Rank(s) < Rank(t)
  {
    TransitionTable(s, t);
  }

  /** The owner notice `updateStatus` adds beside the store's own: for ready
      and completed only. */
  function StaffStatusMessage(id: nat, s: OrderStatus): (m: string)
    ensures m != "" <==> s == Ready || s == Completed
  {
    match s
    case Ready =>
      "Your order #" + SliceLast(IdText(id), 6)
        + " is ready for pickup at AAMU's Bulldog Market (Macleb and Macintosh Building, Room 103)."
    case Completed => "Your order #" + SliceLast(IdText(id), 6) + " has been completed. Thank you for shopping with us!"
    case _ => ""
  }

  /** The owner notice of a staff cancellation. */
  function StaffCancelMessage(id: nat): string {
    "Your order #" + SliceLast(IdText(id), 6) + " was cancelled by staff. Your tokens have been refunded."
  }

  /** `prev.map(o => o.id === id ? { ...o, status } : o)`. */
  function WithStatus(orders: seq<Order>, id: nat, s: OrderStatus): (r: seq<Order>)
    ensures |r| == |orders|
    ensures forall i :: 0 <= i < |orders| ==> r[i] == if orders[i].id == id then orders[i].(status := s) else orders[i]
  {
    seq(|orders|, i requires 0 <= i < |orders| => if orders[i].id == id then orders[i].(status := s) else orders[i])
  }

  /** The local update only touches the order's status: contents, ids and
      every other order are as before. */
  lemma WithStatusOnlyStatus(orders: seq<Order>, id: nat, s: OrderStatus)
    ensures forall i :: 0 <= i < |orders| ==>
      WithStatus(orders, id, s)[i].(status := orders[i].status) == orders[i]
    ensures forall i :: 0 <= i < |orders| && orders[i].id == id ==> WithStatus(orders, id, s)[i].status == s
  {
  }

  /** What a staff action does to the store, taking it from `s` to `t`:
      `updateOrderStatus(id, status)`
      and, when it succeeds and `staffMessage` is not empty, one more
      notification of the default type. Stock and balances never change: a
      staff cancellation does not call `cancelOrder`, so nothing is returned or
      refunded, whatever the notice says. */
  predicate StaffUpdateEffect(s: StoreState, t: StoreState, id: nat, userId: string, status: OrderStatus,
                              staffMessage: string, out: Outcome)
  {
    && t.items == s.items && t.nextItemId == s.nextItemId
    && t.users == s.users && t.uids == s.uids
    && t.requests == s.requests
    && (out == Ok <==> id < |s.orders|)
    && (out != Ok ==> out == Err(OrderNotFound) && t.orders == s.orders
                      && t.notifications == s.notifications)
    && (out == Ok ==>
          && t.orders == s.orders[id := s.orders[id].(status := status)]
          && t.notifications == s.notifications
               + (if status == Pending then []
                  else [Notification(s.orders[id].userId, StatusMessage(status), OrderNotice, false, Some(id))])
               + (if staffMessage == "" then [] else [Notification(userId, staffMessage, SystemNotice, false, None)]))
  }

  /** The store calls of a staff action. */
  method StaffUpdate(market: Market, id: nat, userId: string, status: OrderStatus, staffMessage: string)
    returns (out: Outcome)
    requires market.Valid()
    modifies market
    ensures market.Valid()
    ensures StaffUpdateEffect(old(market.State()), market.State(), id, userId, status, staffMessage, out)
  {
    out := market.UpdateOrderStatus(id, status);
    if out == Ok && staffMessage != "" {
      var _ := market.AddNotification(userId, staffMessage);
    }
  }

  class AdminOrdersPage {
    /** The page's copy of the orders. */
    var orders: seq<Order>
    var confirmCancel: Option<CancelTarget>

    constructor (loaded: seq<Order>)
      ensures orders == loaded && confirmCancel == None
    {
      orders, confirmCancel := loaded, None;
    }

    /** `updateStatus`: the store update and the extra notice; on success only
        that order's local status changes, on failure nothing local does. */
    method UpdateStatus(id: nat, userId: string, status: OrderStatus, market: Market) returns (out: Outcome)
      requires market.Valid()
      modifies this, market
      ensures market.Valid()
      ensures StaffUpdateEffect(old(market.State()), market.State(), id, userId, status, StaffStatusMessage(id, status), out)
      ensures out == Ok ==> orders == WithStatus(old(orders), id, status)
      ensures out != Ok ==> orders == old(orders)
      ensures confirmCancel == old(confirmCancel)
    {
      out := StaffUpdate(market, id, userId, status, StaffStatusMessage(id, status));
      if out == Ok {
        orders := WithStatus(orders, id, status);
      }
    }

    /** The Cancel button (`setConfirmCancel(order)`), shown only while the
        order is neither completed nor cancelled. */
    method AskCancel(o: Order) returns (shown: bool)
      modifies this
      ensures shown <==> CancelByStaff in Offered(o.status)
      ensures shown ==> confirmCancel == Some(CancelTarget(o.id, o.userId))
      ensures !shown ==> confirmCancel == old(confirmCancel)
      ensures orders == old(orders)
    {
      shown := o.status != Completed && o.status != Cancelled;
      if shown {
        confirmCancel := Some(CancelTarget(o.id, o.userId));
      }
    }

    /** `cancelOrder`: nothing without a chosen order; otherwise the order is
        set cancelled through `updateOrderStatus` and its owner told, and on
        success the local status follows. The dialog closes either way. */
    method CancelOrder(market: Market) returns (out: Option<Outcome>)
      requires market.Valid()
      modifies this, market
      ensures market.Valid()
      ensures confirmCancel == None
      ensures old(confirmCancel).None? ==> out == None && unchanged(market) && orders == old(orders)
      ensures old(confirmCancel).Some? ==>
        var t := old(confirmCancel).value;
        && out.Some?
        && StaffUpdateEffect(old(market.State()), market.State(), t.id, t.userId, Cancelled, StaffCancelMessage(t.id), out.value)
        && (out.value == Ok ==> orders == WithStatus(old(orders), t.id, Cancelled))
        && (out.value != Ok ==> orders == old(orders))
    {
      if confirmCancel.None? {
        return None;
      }
      var t := confirmCancel.value;
      var r := StaffUpdate(market, t.id, t.userId, Cancelled, StaffCancelMessage(t.id));
      if r == Ok {
        orders := WithStatus(orders, t.id, Cancelled);
      }
      confirmCancel := None;
      out := Some(r);
    }
  }
}
