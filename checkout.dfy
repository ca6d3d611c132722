/** The checkout of components/cart/cart-page.tsx: the confirmation guard and
    the checkout sequence (read the balance, create the order, debit the
    tokens, clear the cart), over the cart and the store. */
module CartPage {
  import opened Domain
  import opened Seqs
  import opened StoreSpec
  import opened CartHook
  import opened Store

  /** Which toast `handleCheckoutConfirm` shows; `ConfirmOpened` opens the dialog. */
  datatype ConfirmOutcome = NotLoggedIn | EmptyCart | NoPickupTime | ConfirmOpened

  /** How `handleCheckout` ends. */
  datatype CheckoutOutcome = Placed(orderId: nat) | NotEnoughTokens(needed: int, balance: int) | CheckoutFailed

  /** The order lines the checkout sends: each cart line's id, name and quantity. */
  function OrderLines(lines: seq<CartLine>): (r: seq<Line>)
    ensures |r| == |lines|
    ensures forall i :: 0 <= i < |lines| ==> r[i] == Line(lines[i].id, lines[i].name, lines[i].quantity)
  {
    seq(|lines|, i requires 0 <= i < |lines| => Line(lines[i].id, lines[i].name, lines[i].quantity))
  }

  /** A cart with one line per item yields an order with one line per item, so
      the stock lemmas of the store apply to the orders the checkout places. */
  lemma OrderLinesDistinct(lines: seq<CartLine>)
    requires DistinctIds(lines)
    ensures DistinctItems(OrderLines(lines))
  {
    var ids := ItemIds(OrderLines(lines));
    forall i, j | 0 <= i < j < |ids| ensures ids[i] != ids[j] {
      assert ids[i] == lines[i].id && ids[j] == lines[j].id;
    }
  }

  /** Every order line asks for at least one unit when every cart line does. */
  lemma OrderLinesPositive(lines: seq<CartLine>)
    requires forall i :: 0 <= i < |lines| ==> lines[i].quantity >= 1
    ensures forall i :: 0 <= i < |OrderLines(lines)| ==> OrderLines(lines)[i].quantity >= 1
  {
  }

  /** The `userName` the checkout passes: the profile's names joined by a
      space, or none when no profile has loaded. */
  function UserName(user: SessionUser): (n: Option<string>)
    ensures n.None? <==> user.profile.None?
    ensures n.Some? ==> n.value == user.profile.value.firstName + " " + user.profile.value.lastName
  {
    match user.profile
    case None => None
    case Some(p) => Some(p.firstName + " " + p.lastName)
  }

  /** Tokens a checkout costs: one per cart line, whatever the quantities. */
  function TokensNeeded(lines: seq<CartLine>): (n: int)
    ensures n == |lines|
  {
    |lines|
  }

  /** A cart that keeps the rules costs at most as many tokens as it holds
      units, and at most 3. */
  lemma TokensNeededBound(lines: seq<CartLine>)
    requires WellFormed(lines)
    ensures TokensNeeded(lines) <= Total(lines) <= MaxCartTotal
  {
    LinesAtMostUnits(lines);
  }

  /** What a checkout that passed the balance check does to the store, taking
      it from `s` to `t`. `createOrder` always reserves the stock and sends the
      "out of stock" notices. Without a loaded profile it is passed no
      `userName`, so it then fails: no order, no order notice, no debit.
      Otherwise it stores the pending order and its notices, and the debit of
      one token per cart line follows, which succeeds iff the user document
      exists (the outcome is `Placed` exactly then). */
  predicate CheckoutEffect(s: StoreState, t: StoreState, u: SessionUser, cartLines: seq<CartLine>, pickupTime: string,
                           out: CheckoutOutcome)
  {
    var lines := OrderLines(cartLines);
    var id := |s.orders|;
    && t.items == ReserveAll(s.items, lines)
    && (u.profile.None? ==>
          && out == CheckoutFailed && t.orders == s.orders && t.users == s.users
          && t.notifications == s.notifications + StockNotices(s.items, lines, AdminsIn(s)))
    && (u.profile.Some? ==>
          && t.orders == s.orders
               + [Order(id, u.uid, u.email, UserName(u), lines, Pending, pickupTime, TokensNeeded(cartLines))]
          && t.notifications == s.notifications
               + StockNotices(s.items, lines, AdminsIn(s))
               + FanOut(AdminsIn(s), NewOrderMessage(u.email), OrderNotice, Some(id))
          && (u.uid in s.users ==>
                out == Placed(id) && t.users == Credit(s.users, u.uid, -TokensNeeded(cartLines)))
          && (u.uid !in s.users ==> out == CheckoutFailed && t.users == s.users))
    && t.nextItemId == s.nextItemId && t.uids == s.uids
    && t.requests == s.requests
  }

  /** A `createOrder` that stored the order, followed by the debit, is the
      checkout's effect. */
  lemma CheckoutComposes(s: StoreState, placed: StoreState, t: StoreState, u: SessionUser, cartLines: seq<CartLine>,
                         pickupTime: string, lines: seq<Line>, needed: int, name: Option<string>, amount: int, orderId: nat,
                         debit: Outcome)
    requires lines == OrderLines(cartLines) && needed == TokensNeeded(cartLines) && name == UserName(u)
    requires amount == -needed
    requires CreateOrderEffect(s, placed, u.uid, u.email, lines, pickupTime, needed, name, Ok, orderId)
    requires BalanceUpdateEffect(placed, t, u.uid, amount, debit)
    ensures CheckoutEffect(s, t, u, cartLines, pickupTime, if debit.Err? then CheckoutFailed else Placed(orderId))
  {
  }

  /** A `createOrder` that failed is the checkout's whole effect. */
  lemma CheckoutStopsAtOrder(s: StoreState, t: StoreState, u: SessionUser, cartLines: seq<CartLine>,
                             pickupTime: string, lines: seq<Line>, needed: int, name: Option<string>, created: Outcome,
                             orderId: nat)
    requires lines == OrderLines(cartLines) && needed == TokensNeeded(cartLines) && name == UserName(u)
    requires created.Err?
    requires CreateOrderEffect(s, t, u.uid, u.email, lines, pickupTime, needed, name, created, orderId)
    ensures CheckoutEffect(s, t, u, cartLines, pickupTime, CheckoutFailed)
  {
  }

  /** The store calls of `handleCheckout` after the balance check:
      `createOrder`, then, only if it resolved,
      `updateUserTokenBalance(uid, -tokensNeeded)`. */
  method PlaceOrder(u: SessionUser, cartLines: seq<CartLine>, pickupTime: string, market: Market)
    returns (out: CheckoutOutcome)
    requires market.Valid()
    modifies market
    ensures market.Valid()
    ensures CheckoutEffect(old(market.State()), market.State(), u, cartLines, pickupTime, out)
  {
    ghost var before := market.State();
    var lines, needed, name := OrderLines(cartLines), TokensNeeded(cartLines), UserName(u);
    var created, orderId := market.CreateOrder(u.uid, u.email, lines, pickupTime, needed, name);
    ghost var placed := market.State();
    if created.Err? {
      CheckoutStopsAtOrder(before, placed, u, cartLines, pickupTime, lines, needed, name, created, orderId);
      return CheckoutFailed;
    }
    var amount := -needed;
    var debit := market.UpdateUserTokenBalance(u.uid, amount);
    ghost var after := market.State();
    out := if debit.Err? then CheckoutFailed else Placed(orderId);
    CheckoutComposes(before, placed, after, u, cartLines, pickupTime, lines, needed, name, amount, orderId, debit);
  }

  class CheckoutPage {
    /** The chosen pickup slot; `""` until one is chosen. */
    var pickupTime: string
    /** `isConfirmDialogOpen`. */
    var confirmOpen: bool

    constructor ()
      ensures pickupTime == "" && !confirmOpen
    {
      pickupTime, confirmOpen := "", false;
    }

    /** `setPickupTime`. */
    method SelectPickupTime(slot: string)
      modifies this
      ensures pickupTime == slot && confirmOpen == old(confirmOpen)
    {
      pickupTime := slot;
    }

    /** `handleCheckoutConfirm`: refuses when nobody is signed in, the cart is
        empty or no pickup time is chosen; only otherwise opens the dialog. */
    method HandleCheckoutConfirm(user: Option<SessionUser>, cart: Cart) returns (out: ConfirmOutcome)
      modifies this
      ensures out == NotLoggedIn <==> user.None?
      ensures out == EmptyCart <==> user.Some? && cart.lines == []
      ensures out == NoPickupTime <==> user.Some? && cart.lines != [] && pickupTime == ""
      ensures confirmOpen == (old(confirmOpen) || out == ConfirmOpened)
      ensures pickupTime == old(pickupTime)
    {
      if user.None? {
        return NotLoggedIn;
      }
      if |cart.lines| == 0 {
        return EmptyCart;
      }
      if pickupTime == "" {
        return NoPickupTime;
      }
      confirmOpen := true;
      out := ConfirmOpened;
    }

    /** `handleCheckout`. Without a user the first store call throws and
        nothing changes. With fewer tokens than cart lines nothing is written
        and the dialog stays open. Otherwise the store changes as
        `CheckoutEffect` says; only when the debit succeeds is the cart cleared
        and the dialog closed. When `createOrder` or the debit fails, the cart
        and the dialog are kept, although the stock stays reserved (and, after
        a failed debit, the order stays placed). */
    method HandleCheckout(user: Option<SessionUser>, cart: Cart, market: Market) returns (out: CheckoutOutcome)
      requires market.Valid()
      modifies this, cart, market
      ensures market.Valid()
      ensures pickupTime == old(pickupTime)
      ensures user.None? ==>
        out == CheckoutFailed && unchanged(market) && unchanged(cart) && confirmOpen == old(confirmOpen)
      ensures user.Some? && old(market.TokenBalance(user.value.uid)) < TokensNeeded(old(cart.lines)) ==>
        && out == NotEnoughTokens(TokensNeeded(old(cart.lines)), old(market.TokenBalance(user.value.uid)))
        && unchanged(market) && unchanged(cart) && confirmOpen == old(confirmOpen)
      ensures user.Some? && old(market.TokenBalance(user.value.uid)) >= TokensNeeded(old(cart.lines)) ==>
        && CheckoutEffect(old(market.State()), market.State(), user.value, old(cart.lines), old(pickupTime), out)
        && (out.Placed? ==> cart.lines == [] && !confirmOpen)
        && (!out.Placed? ==> cart.lines == old(cart.lines) && confirmOpen == old(confirmOpen))
    {
      if user.None? {
        return CheckoutFailed;
      }
      var u := user.value;
      var balance := market.TokenBalance(u.uid);
      var needed := TokensNeeded(cart.lines);
      if balance < needed {
        return NotEnoughTokens(needed, balance);
      }
      out := PlaceOrder(u, cart.lines, pickupTime, market);
      if out.Placed? {
        cart.ClearCart();
        confirmOpen := false;
      }
    }
  }
}
