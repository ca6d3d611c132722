/** Properties of whole sequences of store calls, stated over the store
    states the pages' effects relate: a checkout undone by its cancellation,
    a cancellation repeated, and two checkouts racing for the last unit. */
module Scenarios {
  import opened Domain
  import opened StoreSpec
  import opened CartHook
  import opened Store
  import opened CartPage

  /** What a placed checkout leaves for the later steps: the stock reserved
      and the pending order under the next id, paid by its user. */
  lemma CheckoutPlaced(s: StoreState, t: StoreState, u: SessionUser, cart: seq<CartLine>, pickupTime: string, id: nat)
    requires CheckoutEffect(s, t, u, cart, pickupTime, Placed(id))
    ensures id == |s.orders| && |t.orders| == id + 1 && t.orders[..id] == s.orders
    ensures t.orders[id] == Order(id, u.uid, u.email, UserName(u), OrderLines(cart), Pending, pickupTime, TokensNeeded(cart))
    ensures t.items == ReserveAll(s.items, OrderLines(cart))
    ensures u.uid in s.users && t.users == Credit(s.users, u.uid, -TokensNeeded(cart))
  {
    assert t.orders[..id] == s.orders;
  }

  /** What a successful cancellation of an order that is not completed leaves
      for the later steps. */
  lemma CancelReleased(s: StoreState, t: StoreState, id: nat, uid: string, refund: int)
    requires id < |s.orders| && s.orders[id].status != Completed
    requires CancelOrderEffect(s, t, id, uid, refund, Ok)
    ensures t.items == ReleaseAll(s.items, s.orders[id].items)
    ensures t.orders == s.orders[id := s.orders[id].(status := Cancelled)]
    ensures uid in s.users && t.users == Credit(s.users, uid, refund)
  {
  }

  /** A checkout from a cart that keeps the cart rules, for no more units of
      any item than are in stock, followed by the cancellation the student
      page sends for that order (refunding the tokens the order used), leaves
      the stock and every balance as they were before the checkout; the order
      remains, cancelled. */
  lemma CheckoutThenCancelRestores(s: StoreState, t: StoreState, w: StoreState, u: SessionUser,
                                   cart: seq<CartLine>, pickupTime: string, id: nat)
    requires WellFormed(cart)
    requires forall i :: 0 <= i < |cart| && cart[i].id in s.items ==> cart[i].quantity <= s.items[cart[i].id].quantity
    requires CheckoutEffect(s, t, u, cart, pickupTime, Placed(id))
    requires id < |t.orders|
    requires CancelOrderEffect(t, w, id, u.uid, t.orders[id].tokensUsed, Ok)
    ensures w.items == s.items
    ensures w.users == s.users
    ensures |w.orders| == |s.orders| + 1 && w.orders[..|s.orders|] == s.orders
    ensures w.orders[id].status == Cancelled && w.orders[id].userId == u.uid
  {
    var lines := OrderLines(cart);
    CheckoutPlaced(s, t, u, cart, pickupTime, id);
    CancelReleased(t, w, id, u.uid, t.orders[id].tokensUsed);
    OrderLinesDistinct(cart);
    ReserveThenRelease(s.items, lines);
    DebitThenRefund(s.users, u.uid, -TokensNeeded(cart), TokensNeeded(cart));
    assert w.orders[..|s.orders|] == t.orders[..|s.orders|];
  }

  /** `cancelOrder` does not look at whether the order is already cancelled:
      a second call for the same order refunds the tokens and returns its
      stock again. (The student page offers the button only on pending
      orders, and the staff page never cancels through this call.) */
  lemma CancelTwiceRefundsTwice(s: StoreState, t: StoreState, w: StoreState, id: nat, uid: string, refund: int)
    requires id < |s.orders| && s.orders[id].status != Completed
    requires CancelOrderEffect(s, t, id, uid, refund, Ok)
    requires CancelOrderEffect(t, w, id, uid, refund, Ok)
    ensures uid in w.users && w.users[uid].tokenBalance == s.users[uid].tokenBalance + 2 * refund
    ensures w.items == ReleaseAll(ReleaseAll(s.items, s.orders[id].items), s.orders[id].items)
    ensures w.orders == t.orders && w.orders[id].status == Cancelled
  {
    CancelReleased(s, t, id, uid, refund);
    CancelReleased(t, w, id, uid, refund);
  }

  /** The single unit of rice a student checks out. */
  function RiceCart(): seq<CartLine> {
    [CartLine(0, "Rice", "", 1)]
  }

  /** The rice item with `n` units in stock. */
  function Rice(n: int): Item {
    Item("Rice", "", "food", "", n)
  }

  /** A store call on one line is that line's step. */
  lemma SingleLine(items: map<nat, Item>, line: Line)
    ensures ReserveAll(items, [line]) == ReserveOne(items, line)
    ensures ReleaseAll(items, [line]) == ReleaseOne(items, line)
  {
    assert [line][..0] == [];
  }

  /** Two students who both saw one unit of rice in stock both check it out:
      the reservation clamps at 0 instead of refusing, so both orders are
      placed, pending, for one unit each, and the stock ends at 0. */
  lemma LastUnitOversold(s: StoreState, t1: StoreState, t2: StoreState, a: SessionUser, b: SessionUser,
                         pickupTime: string, idA: nat, idB: nat)
    requires s.items == map[0 := Rice(1)]
    requires CheckoutEffect(s, t1, a, RiceCart(), pickupTime, Placed(idA))
    requires CheckoutEffect(t1, t2, b, RiceCart(), pickupTime, Placed(idB))
    ensures idA < idB < |t2.orders|
    ensures t2.orders[idA].status == Pending && t2.orders[idA].items == [Line(0, "Rice", 1)]
    ensures t2.orders[idB].status == Pending && t2.orders[idB].items == [Line(0, "Rice", 1)]
    ensures t2.items == map[0 := Rice(0)]
  {
    assert OrderLines(RiceCart()) == [Line(0, "Rice", 1)];
    CheckoutPlaced(s, t1, a, RiceCart(), pickupTime, idA);
    CheckoutPlaced(t1, t2, b, RiceCart(), pickupTime, idB);
    SingleLine(s.items, Line(0, "Rice", 1));
    SingleLine(t1.items, Line(0, "Rice", 1));
    assert t2.orders[idA] == t1.orders[idA];
  }

  /** A student whose session has no loaded profile checks out the last unit
      of rice: `createOrder` reserves it, then its `addDoc` refuses the order
      without a `userName`. The unit is gone from the stock, yet no order
      exists that a cancellation could return it from, and no token is
      debited. */
  lemma ProfilelessCheckoutStrandsStock(s: StoreState, t: StoreState, u: SessionUser, pickupTime: string,
                                        out: CheckoutOutcome)
    requires s.items == map[0 := Rice(1)]
    requires u.profile.None?
    requires CheckoutEffect(s, t, u, RiceCart(), pickupTime, out)
    ensures out == CheckoutFailed
    ensures t.orders == s.orders && t.users == s.users
    ensures t.items == map[0 := Rice(0)]
  {
    assert OrderLines(RiceCart()) == [Line(0, "Rice", 1)];
    SingleLine(s.items, Line(0, "Rice", 1));
  }

  /** Returning the unit of rice of one order adds one unit to the stock. */
  lemma ReleaseRice(items: map<nat, Item>, n: int, m: int)
    requires items == map[0 := Rice(n)] && m == n + 1
    ensures ReleaseAll(items, [Line(0, "Rice", 1)]) == map[0 := Rice(m)]
  {
    SingleLine(items, Line(0, "Rice", 1));
  }

  /** Cancelling both of those orders returns a unit each: the stock ends at
      2, one more than the store ever held. */
  lemma OversoldCancelsInflateStock(t2: StoreState, w1: StoreState, w2: StoreState, idA: nat, idB: nat,
                                    uidA: string, uidB: string)
    requires idA < idB < |t2.orders|
    requires t2.orders[idA].status == Pending && t2.orders[idA].items == [Line(0, "Rice", 1)]
    requires t2.orders[idB].status == Pending && t2.orders[idB].items == [Line(0, "Rice", 1)]
    requires t2.items == map[0 := Rice(0)]
    requires CancelOrderEffect(t2, w1, idA, uidA, 1, Ok)
    requires CancelOrderEffect(w1, w2, idB, uidB, 1, Ok)
    ensures w2.items == map[0 := Rice(2)]
  {
    CancelReleased(t2, w1, idA, uidA, 1);
    ReleaseRice(t2.items, 0, 1);
    CancelReleased(w1, w2, idB, uidB, 1);
    ReleaseRice(w1.items, 1, 2);
  }
}
