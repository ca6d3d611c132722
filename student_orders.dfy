/** The student order page of components/orders/orders-page.tsx: the Cancel
    button of a pending order, the confirmation it opens, and the cancellation,
    which calls the store's `cancelOrder` and updates the page's own copy of
    the orders. */
module StudentOrders {
  import opened Domain
  import opened StoreSpec
  import opened Store
  import AdminOrders

  /** The order chosen in the dialog (`orderToCancel`). */
  datatype CancelTarget = CancelTarget(id: nat, tokensToRefund: int)

  /** The button of an order card is rendered only for a pending order. */
  predicate CancelShown(o: Order) {
    o.status == Pending
  }

  /** A student may cancel only what the staff page may cancel too: the page
      never starts a cancellation the staff transition table forbids. */
  lemma StudentCancelIsStaffCancel(o: Order)
    requires CancelShown(o)
    ensures AdminOrders.CancelByStaff in AdminOrders.Offered(o.status)
    ensures AdminOrders.PageTransition(o.status, Cancelled)
  {
    AdminOrders.TransitionTable(o.status, Cancelled);
  }

  class OrdersPage {
    /** The page's copy of the student's orders. */
    var orders: seq<Order>
    /** The order being cancelled, which disables every Cancel button. */
    var cancellingOrderId: Option<nat>
    var orderToCancel: Option<CancelTarget>
    /** `isConfirmDialogOpen`. */
    var dialogOpen: bool

    constructor (loaded: seq<Order>)
      ensures orders == loaded && cancellingOrderId == None && orderToCancel == None && !dialogOpen
    {
      orders, cancellingOrderId, orderToCancel, dialogOpen := loaded, None, None, false;
    }

    /** `confirmCancelOrder(orderId, tokensToRefund)`: remembers the order and
        opens the dialog. */
    method ConfirmCancelOrder(orderId: nat, tokensToRefund: int)
      modifies this
      ensures orderToCancel == Some(CancelTarget(orderId, tokensToRefund)) && dialogOpen
      ensures orders == old(orders) && cancellingOrderId == old(cancellingOrderId)
    {
      orderToCancel := Some(CancelTarget(orderId, tokensToRefund));
      dialogOpen := true;
    }

    /** A click on the Cancel button of `o`: the button exists only for a
        pending order and is disabled while a cancellation runs; a click that
        gets through offers to refund the tokens the order used. */
    method ClickCancel(o: Order) returns (accepted: bool)
      modifies this
      ensures accepted <==> CancelShown(o) && old(cancellingOrderId).None?
      ensures accepted ==> orderToCancel == Some(CancelTarget(o.id, o.tokensUsed)) && dialogOpen
      ensures !accepted ==> orderToCancel == old(orderToCancel) && dialogOpen == old(dialogOpen)
      ensures orders == old(orders) && cancellingOrderId == old(cancellingOrderId)
    {
      accepted := CancelShown(o) && cancellingOrderId.None?;
      if accepted {
        ConfirmCancelOrder(o.id, o.tokensUsed);
      }
    }

    /** `handleCancelOrder`. Without a user or a chosen order it returns before
        doing anything, and the dialog state is not reset. Otherwise it calls
        `cancelOrder(id, uid, tokensToRefund)`; only when that succeeds does
        the local copy mark the order cancelled. Either way the dialog closes
        and the chosen and cancelling orders are cleared. */
    method HandleCancelOrder(user: Option<SessionUser>, market: Market) returns (out: Option<Outcome>)
      requires market.Valid()
      modifies this, market
      ensures market.Valid()
      ensures user.None? || old(orderToCancel).None? ==>
        && out == None && unchanged(market) && orders == old(orders)
        && cancellingOrderId == old(cancellingOrderId) && orderToCancel == old(orderToCancel)
        && dialogOpen == old(dialogOpen)
      ensures user.Some? && old(orderToCancel).Some? ==>
        var t := old(orderToCancel).value;
        && out.Some?
        && CancelOrderEffect(old(market.State()), market.State(), t.id, user.value.uid, t.tokensToRefund, out.value)
        && (out.value == Ok ==> orders == AdminOrders.WithStatus(old(orders), t.id, Cancelled))
        && (out.value != Ok ==> orders == old(orders))
        && cancellingOrderId == None && orderToCancel == None && !dialogOpen
    {
      if user.None? || orderToCancel.None? {
        return None;
      }
      var t := orderToCancel.value;
      cancellingOrderId := Some(t.id);
      var r := market.CancelOrder(t.id, user.value.uid, t.tokensToRefund);
      if r == Ok {
        orders := AdminOrders.WithStatus(orders, t.id, Cancelled);
      }
      cancellingOrderId, orderToCancel, dialogOpen := None, None, false;
      out := Some(r);
    }
  }
}
