/** The document store of lib/firebase/firestore-utils.ts as one object whose
    collections the store operations overwrite in place. Every method is proved
    against the specification functions of `StoreSpec`, and states what it
    leaves alone. */
module Store {
  import opened Domain
  import opened Seqs
  import opened StoreSpec

  /** The collections of the store at one moment. */
  datatype StoreState = StoreState(
    items: map<nat, Item>,
    nextItemId: nat,
    users: map<string, User>,
    uids: seq<string>,
    orders: seq<Order>,
    requests: seq<TokenRequest>,
    notifications: seq<Notification>)

  /** The answer of `where("role", "==", "admin")` in state `s`. */
  function AdminsIn(s: StoreState): seq<string> {
    WithRole(s.uids, s.users, Admin)
  }

  /** `updateUserTokenBalance(userId, amount)` takes the store from `s` to
      `t`: it adds `amount` to the user's balance, and fails without a change
      when the user has no document. */
  predicate BalanceUpdateEffect(s: StoreState, t: StoreState, userId: string, amount: int, out: Outcome) {
    && (out == Ok <==> userId in s.users)
    && (out.Err? ==> out.failure == UserNotFound && t.users == s.users)
    && (out == Ok ==> t.users == Credit(s.users, userId, amount))
    && t.items == s.items && t.nextItemId == s.nextItemId && t.uids == s.uids
    && t.orders == s.orders && t.requests == s.requests && t.notifications == s.notifications
  }

  /** `createOrder` takes the store from `s` to `t`: every line reserved, with
      a warning to every admin for each item that runs out. Then, when a
      `userName` is given, one pending order with the next id and one notice
      to every admin; without one, the `addDoc` of the order is refused and
      the call fails after the reservation. */
  predicate CreateOrderEffect(s: StoreState, t: StoreState, userId: string, userEmail: string, lines: seq<Line>,
                              pickupTime: string, tokensUsed: int, userName: Option<string>, out: Outcome, orderId: nat)
  {
    && orderId == |s.orders|
    && t.items == ReserveAll(s.items, lines)
    && (out == Ok <==> userName.Some?)
    && (out.Err? ==>
          && out.failure == UndefinedField && t.orders == s.orders
          && t.notifications == s.notifications + StockNotices(s.items, lines, AdminsIn(s)))
    && (out == Ok ==>
          && t.orders == s.orders + [Order(orderId, userId, userEmail, userName, lines, Pending, pickupTime, tokensUsed)]
          && t.notifications == s.notifications
               + StockNotices(s.items, lines, AdminsIn(s))
               + FanOut(AdminsIn(s), NewOrderMessage(userEmail), OrderNotice, Some(orderId)))
    && t.nextItemId == s.nextItemId && t.users == s.users && t.uids == s.uids && t.requests == s.requests
  }

  /** `updateItem(itemId, patch)` takes the store from `s` to `t`: a missing
      item is an error that changes nothing; otherwise the patch is applied,
      after a warning to every admin when it takes the stock from above 0 to
      0 or below. */
  predicate UpdateItemEffect(s: StoreState, t: StoreState, itemId: nat, patch: ItemPatch, out: Outcome)
  {
    && t.nextItemId == s.nextItemId && t.users == s.users && t.uids == s.uids
    && t.orders == s.orders && t.requests == s.requests
    && (out == Ok <==> itemId in s.items)
    && (out.Err? ==> out.failure == ItemNotFound && t.items == s.items && t.notifications == s.notifications)
    && (out == Ok ==>
          && t.items == s.items[itemId := Patched(s.items[itemId], patch)]
          && t.notifications == s.notifications
               + (if PatchRunsOut(s.items[itemId], patch)
                  then FanOut(AdminsIn(s), OutOfStockMessage(s.items[itemId].name), InventoryNotice, Some(itemId))
                  else []))
  }

  /** `cancelOrder(orderId, userId, tokensToRefund)` takes the store from `s`
      to `t`. A missing order is an error and a completed one is left alone;
      both change nothing. Any other order, even one already cancelled, gets its stock
      back and the status cancelled; then the refund goes to `userId` and the
      user and every admin are notified, unless no such user exists, in which
      case the call fails after the first two writes. */
  predicate CancelOrderEffect(s: StoreState, t: StoreState, orderId: nat, userId: string, tokensToRefund: int,
                              out: Outcome)
  {
    && t.nextItemId == s.nextItemId && t.uids == s.uids && t.requests == s.requests
    && (orderId >= |s.orders| ==>
          && out == Err(OrderNotFound) && t.items == s.items && t.orders == s.orders
          && t.users == s.users && t.notifications == s.notifications)
    && (orderId < |s.orders| && s.orders[orderId].status == Completed ==>
          && out == Ok && t.items == s.items && t.orders == s.orders
          && t.users == s.users && t.notifications == s.notifications)
    && (orderId < |s.orders| && s.orders[orderId].status != Completed ==>
          && t.items == ReleaseAll(s.items, s.orders[orderId].items)
          && t.orders == s.orders[orderId := s.orders[orderId].(status := Cancelled)]
          && (out == Ok <==> userId in s.users)
          && (out == Ok ==>
                && t.users == Credit(s.users, userId, tokensToRefund)
                && t.notifications == s.notifications
                     + [Notification(userId, RefundMessage, OrderNotice, false, Some(orderId))]
                     + FanOut(AdminsIn(s), UserCancelledMessage(orderId), OrderNotice, Some(orderId)))
          && (out != Ok ==>
                out == Err(UserNotFound) && t.users == s.users && t.notifications == s.notifications))
  }

  /** `createTokenRequest` takes the store from `s` to `t`: when a `userName`
      is given, one pending request with the next id and one notice to every
      admin; without one, the `addDoc` is refused and nothing is written.
      Nothing else changes. */
  predicate CreateTokenRequestEffect(s: StoreState, t: StoreState, userId: string, userEmail: string, reason: string,
                                     tokensRequested: int, userName: Option<string>, out: Outcome, requestId: nat)
  {
    && requestId == |s.requests|
    && (out == Ok <==> userName.Some?)
    && (out.Err? ==> out.failure == UndefinedField && t.requests == s.requests && t.notifications == s.notifications)
    && (out == Ok ==>
          && t.requests == s.requests
               + [TokenRequest(requestId, userId, userEmail, userName, reason, tokensRequested, RequestPending)]
          && t.notifications == s.notifications
               + FanOut(AdminsIn(s), NewRequestMessage(userEmail, tokensRequested), TokenNotice, Some(requestId)))
    && t.items == s.items && t.nextItemId == s.nextItemId && t.users == s.users
    && t.uids == s.uids && t.orders == s.orders
  }

  /** `updateTokenRequest(requestId, status)` takes the store from `s` to
      `t`: a missing request is an error that changes nothing. Otherwise the request
      takes the decided status; an approval then credits the requested tokens
      and fails, after that first write, when the requester has no user
      document; a successful decision tells the requester. */
  predicate UpdateTokenRequestEffect(s: StoreState, t: StoreState, requestId: nat, decision: Decision, out: Outcome)
  {
    && t.items == s.items && t.nextItemId == s.nextItemId && t.uids == s.uids
    && t.orders == s.orders
    && (requestId >= |s.requests| ==>
          && out == Err(RequestNotFound) && t.requests == s.requests
          && t.users == s.users && t.notifications == s.notifications)
    && (requestId < |s.requests| ==>
          var r := s.requests[requestId];
          && t.requests == s.requests[requestId := r.(status := decision.Status())]
          && (out == Ok <==> decision == Reject || r.userId in s.users)
          && (out == Ok ==>
                && t.users == (if decision == Approve then Credit(s.users, r.userId, r.tokensRequested) else s.users)
                && t.notifications == s.notifications
                     + [Notification(r.userId, DecisionMessage(decision, r.tokensRequested), TokenNotice, false, Some(requestId))])
          && (out != Ok ==>
                out == Err(UserNotFound) && t.users == s.users && t.notifications == s.notifications))
  }

  class Market {
    /** The `items` collection, keyed by document id. */
    var items: map<nat, Item>
    /** The id the next `addItem` receives. */
    var nextItemId: nat
    /** The `users` collection, keyed by uid. */
    var users: map<string, User>
    /** The user documents in collection order (the order queries list them). */
    var uids: seq<string>
    /** The `orders` collection; an order's id is its position. */
    var orders: seq<Order>
    /** The `tokenRequests` collection; a request's id is its position. */
    var requests: seq<TokenRequest>
    /** The `notifications` collection; a notification's id is its position. */
    var notifications: seq<Notification>

    ghost predicate Valid()
      reads this
    {
      && (forall k :: k in items ==> k < nextItemId)
      && Distinct(uids)
      && (forall u :: u in users <==> u in uids)
      && (forall i :: 0 <= i < |orders| ==> orders[i].id == i)
      && (forall i :: 0 <= i < |requests| ==> requests[i].id == i)
    }

    /** An empty store. */
    constructor ()
      ensures Valid()
      ensures items == map[] && nextItemId == 0 && users == map[] && uids == []
      ensures orders == [] && requests == [] && notifications == []
    {
      items, nextItemId, users, uids := map[], 0, map[], [];
      orders, requests, notifications := [], [], [];
    }

    /** The collections as they are now. */
    function State(): StoreState
      reads this
    {
      StoreState(items, nextItemId, users, uids, orders, requests, notifications)
    }

    /** The result of `where("role", "==", "admin")` at the time of the call. */
    function Admins(): (r: seq<string>)
      reads this
      ensures forall u :: u in r <==> u in uids && u in users && users[u].role == Admin
    {
      var r := AdminsIn(State());
      assert forall u :: u in r <==> u in uids && u in users && users[u].role == Admin by {
        forall u ensures u in r <==> u in uids && u in users && users[u].role == Admin {
          WithRoleMembership(uids, users, Admin, u);
        }
      }
      r
    }

    /** The result of `where("role", "==", "student")` at the time of the call. */
    function Students(): (r: seq<string>)
      reads this
      ensures forall u :: u in r <==> u in uids && u in users && users[u].role == Student
    {
      var r := WithRole(uids, users, Student);
      assert forall u :: u in r <==> u in uids && u in users && users[u].role == Student by {
        forall u ensures u in r <==> u in uids && u in users && users[u].role == Student {
          WithRoleMembership(uids, users, Student, u);
        }
      }
      r
    }

    /** `getUserTokenBalance`: the stored balance, or 0 for an unknown user. */
    function TokenBalance(uid: string): (b: int)
      reads this
      ensures uid in users ==> b == users[uid].tokenBalance
      ensures uid !in users ==> b == 0
    {
      if uid in users then users[uid].tokenBalance else 0
    }

    /** `addNotification`: one new unread notification; `relatedId` only when given. */
    method AddNotification(userId: string, message: string, kind: NoticeKind := SystemNotice, relatedId: Option<nat> := None)
      returns (id: nat)
      modifies this
      ensures id == |old(notifications)|
      ensures notifications == old(notifications) + [Notification(userId, message, kind, false, relatedId)]
      ensures items == old(items) && nextItemId == old(nextItemId) && users == old(users) && uids == old(uids)
      ensures orders == old(orders) && requests == old(requests)
    {
      id := |notifications|;
      notifications := notifications + [Notification(userId, message, kind, false, relatedId)];
    }

    /** One `addNotification` per recipient, in recipient order (the
        `Promise.all` over a query's documents). */
    method NotifyAll(recipients: seq<string>, message: string, kind: NoticeKind, relatedId: Option<nat>)
      modifies this
      ensures notifications == old(notifications) + FanOut(recipients, message, kind, relatedId)
      ensures items == old(items) && nextItemId == old(nextItemId) && users == old(users) && uids == old(uids)
      ensures orders == old(orders) && requests == old(requests)
    {
      var i := 0;
      while i < |recipients|
        invariant 0 <= i <= |recipients|
        invariant notifications == old(notifications) + FanOut(recipients[..i], message, kind, relatedId)
        invariant items == old(items) && nextItemId == old(nextItemId) && users == old(users) && uids == old(uids)
        invariant orders == old(orders) && requests == old(requests)
      {
        var _ := AddNotification(recipients[i], message, kind, relatedId);
        FanOutSnoc(recipients[..i], recipients[i], message, kind, relatedId);
        assert recipients[..i + 1] == recipients[..i] + [recipients[i]];
        i := i + 1;
      }
      assert recipients[..i] == recipients;
    }

    /** `createUserProfile`: an existing profile gets the new email, role and
        names and keeps its balance; a new one starts with 3 tokens for a student
        and 0 for an admin, and a student is welcomed. */
    method CreateUserProfile(userId: string, email: string, role: Role := Student, firstName: string := "", lastName: string := "")
      requires Valid()
      modifies this
      ensures Valid()
      ensures old(userId in users) ==>
        && users == old(users)[userId := old(users[userId]).(email := email, role := role, firstName := firstName, lastName := lastName)]
        && uids == old(uids) && notifications == old(notifications)
      ensures old(userId !in users) ==>
        && users == old(users)[userId := User(email, role, firstName, lastName, if role == Student then WeeklyQuota else 0)]
        && uids == old(uids) + [userId]
        && notifications == old(notifications)
             + (if role == Student then [Notification(userId, WelcomeMessage, SystemNotice, false, None)] else [])
      ensures items == old(items) && nextItemId == old(nextItemId) && orders == old(orders) && requests == old(requests)
    {
      if userId in users {
        users := users[userId := users[userId].(email := email, role := role, firstName := firstName, lastName := lastName)];
      } else {
        DistinctSnoc(uids, userId);
        users := users[userId := User(email, role, firstName, lastName, if role == Student then WeeklyQuota else 0)];
        uids := uids + [userId];
        if role == Student {
          var _ := AddNotification(userId, WelcomeMessage, SystemNotice);
        }
      }
    }

    /** `updateUserTokenBalance`: `increment(amount)`, unguarded; the update of a
        missing user document fails. */
    method UpdateUserTokenBalance(userId: string, amount: int) returns (out: Outcome)
      requires Valid()
      modifies this
      ensures Valid()
      ensures BalanceUpdateEffect(old(State()), State(), userId, amount, out)
    {
      if userId !in users {
        return Err(UserNotFound);
      }
      users := Credit(users, userId, amount);
      out := Ok;
    }

    /** `addItem`: a new item under a fresh id. */
    method AddItem(item: Item) returns (id: nat)
      requires Valid()
      modifies this
      ensures Valid()
      ensures id !in old(items)
      ensures items == old(items)[id := item]
      ensures users == old(users) && uids == old(uids) && orders == old(orders)
      ensures requests == old(requests) && notifications == old(notifications)
    {
      id := nextItemId;
      items := items[id := item];
      nextItemId := nextItemId + 1;
    }

    /** `updateItem`: fails for a missing item; otherwise warns every admin when
        the patch takes the stock from above 0 to 0 or below (naming the item as
        it was), then applies the patch. */
    method UpdateItem(itemId: nat, patch: ItemPatch) returns (out: Outcome)
      requires Valid()
      modifies this
      ensures Valid()
      ensures UpdateItemEffect(old(State()), State(), itemId, patch, out)
    {
      if itemId !in items {
        return Err(ItemNotFound);
      }
      var current := items[itemId];
      if PatchRunsOut(current, patch) {
        NotifyAll(Admins(), OutOfStockMessage(current.name), InventoryNotice, Some(itemId));
      }
      items := items[itemId := Patched(current, patch)];
      out := Ok;
    }

    /** `deleteItem`: removes the item; deleting a missing item succeeds and
        changes nothing. */
    method DeleteItem(itemId: nat)
      requires Valid()
      modifies this
      ensures Valid()
      ensures items == old(items) - {itemId}
      ensures nextItemId == old(nextItemId) && users == old(users) && uids == old(uids)
      ensures orders == old(orders) && requests == old(requests) && notifications == old(notifications)
    {
      items := items - {itemId};
    }

    /** `createOrder`: reserves stock line by line (clamping at 0, skipping
        missing items, warning the admins of every item that runs out), then
        stores one pending order and tells every admin. An absent `userName`
        is an `undefined` field, so the `addDoc` of the order is refused and
        the call fails after the reservation. */
    method CreateOrder(userId: string, userEmail: string, lines: seq<Line>, pickupTime: string, tokensUsed: int,
                       userName: Option<string> := None)
      returns (out: Outcome, orderId: nat)
      requires Valid()
      modifies this
      ensures Valid()
      ensures CreateOrderEffect(old(State()), State(), userId, userEmail, lines, pickupTime, tokensUsed, userName, out,
                                orderId)
    {
      var admins := Admins();
      ReserveLines(lines, admins);
      ReserveKeepsKeys(old(items), lines);
      orderId := |orders|;
      if userName.None? {
        return Err(UndefinedField), orderId;
      }
      orders := orders + [Order(orderId, userId, userEmail, userName, lines, Pending, pickupTime, tokensUsed)];
      NotifyAll(admins, NewOrderMessage(userEmail), OrderNotice, Some(orderId));
      out := Ok;
    }

    /** The reservation loop of `createOrder`, one line after the other. */
    method ReserveLines(lines: seq<Line>, admins: seq<string>)
      modifies this
      ensures items == ReserveAll(old(items), lines)
      ensures notifications == old(notifications) + StockNotices(old(items), lines, admins)
      ensures nextItemId == old(nextItemId) && users == old(users) && uids == old(uids)
      ensures orders == old(orders) && requests == old(requests)
    {
      var i := 0;
      while i < |lines|
        invariant 0 <= i <= |lines|
        invariant items == ReserveAll(old(items), lines[..i])
        invariant notifications == old(notifications) + StockNotices(old(items), lines[..i], admins)
        invariant nextItemId == old(nextItemId) && users == old(users) && uids == old(uids)
        invariant orders == old(orders) && requests == old(requests)
      {
        ReservePrefixStep(old(items), lines, i, i + 1, admins);
        ReserveLine(lines[i], admins);
        i := i + 1;
      }
      assert lines[..i] == lines;
    }

    /** One line of `createOrder`'s reservation. */
    method ReserveLine(line: Line, admins: seq<string>)
      modifies this
      ensures items == ReserveOne(old(items), line)
      ensures items.Keys == old(items).Keys
      ensures notifications == old(notifications) + CrossingNotices(old(items), line, admins)
      ensures nextItemId == old(nextItemId) && users == old(users) && uids == old(uids)
      ensures orders == old(orders) && requests == old(requests)
    {
      if line.itemId in items {
        var current := items[line.itemId].quantity;
        var newQuantity := Max(0, current - line.quantity);
        items := items[line.itemId := items[line.itemId].(quantity := newQuantity)];
        if current > 0 && newQuantity <= 0 {
          NotifyAll(admins, OutOfStockMessage(line.name), InventoryNotice, Some(line.itemId));
        }
      }
    }

    /** `updateOrderStatus`: fails for a missing order; otherwise overwrites the
        status, whatever it was, and sends the owner the message of the new
        status (none for `pending`). */
    method UpdateOrderStatus(orderId: nat, status: OrderStatus) returns (out: Outcome)
      requires Valid()
      modifies this
      ensures Valid()
      ensures out == Ok <==> orderId < |old(orders)|
      ensures out.Err? ==> out.failure == OrderNotFound && orders == old(orders) && notifications == old(notifications)
      ensures out == Ok ==>
        && orders == old(orders)[orderId := old(orders[orderId]).(status := status)]
        && notifications == old(notifications)
             + (if status == Pending then []
                else [Notification(old(orders[orderId]).userId, StatusMessage(status), OrderNotice, false, Some(orderId))])
      ensures items == old(items) && nextItemId == old(nextItemId) && users == old(users) && uids == old(uids)
      ensures requests == old(requests)
    {
      if orderId >= |orders| {
        return Err(OrderNotFound);
      }
      var order := orders[orderId];
      orders := orders[orderId := order.(status := status)];
      var message := StatusMessage(status);
      if message != "" {
        var _ := AddNotification(order.userId, message, OrderNotice, Some(orderId));
      }
      out := Ok;
    }

    /** `cancelOrder`: fails for a missing order and does nothing to a completed
        one. Otherwise, in this order, it returns every line's quantity to its
        item, marks the order cancelled, credits `tokensToRefund` to `userId`
        (the update fails when that user does not exist, after the earlier
        writes), then notifies the user and every admin. */
    method CancelOrder(orderId: nat, userId: string, tokensToRefund: int) returns (out: Outcome)
      requires Valid()
      modifies this
      ensures Valid()
      ensures CancelOrderEffect(old(State()), State(), orderId, userId, tokensToRefund, out)
    {
      if orderId >= |orders| {
        return Err(OrderNotFound);
      }
      var order := orders[orderId];
      if order.status == Completed {
        return Ok;
      }
      ReleaseLines(order.items);
      ReleaseAllEffect(old(items), order.items);
      orders := orders[orderId := order.(status := Cancelled)];
      out := RefundAndNotify(orderId, userId, tokensToRefund);
    }

    /** The last steps of `cancelOrder`: the refund, then the notices to the
        user and to every admin. */
    method RefundAndNotify(orderId: nat, userId: string, tokensToRefund: int) returns (out: Outcome)
      requires Valid()
      modifies this
      ensures Valid()
      ensures out == Ok <==> userId in old(users)
      ensures out == Ok ==>
        && users == Credit(old(users), userId, tokensToRefund)
        && notifications == old(notifications)
             + [Notification(userId, RefundMessage, OrderNotice, false, Some(orderId))]
             + FanOut(old(Admins()), UserCancelledMessage(orderId), OrderNotice, Some(orderId))
      ensures out != Ok ==> out == Err(UserNotFound) && users == old(users) && notifications == old(notifications)
      ensures items == old(items) && nextItemId == old(nextItemId) && uids == old(uids)
      ensures orders == old(orders) && requests == old(requests)
    {
      out := UpdateUserTokenBalance(userId, tokensToRefund);
      if out.Err? {
        return;
      }
      CreditKeepsRoles(uids, old(users), userId, tokensToRefund, Admin);
      var _ := AddNotification(userId, RefundMessage, OrderNotice, Some(orderId));
      NotifyAll(Admins(), UserCancelledMessage(orderId), OrderNotice, Some(orderId));
    }

    /** The stock-return loop of `cancelOrder`, one line after the other. */
    method ReleaseLines(lines: seq<Line>)
      modifies this
      ensures items == ReleaseAll(old(items), lines)
      ensures nextItemId == old(nextItemId) && users == old(users) && uids == old(uids)
      ensures orders == old(orders) && requests == old(requests) && notifications == old(notifications)
    {
      var i := 0;
      while i < |lines|
        invariant 0 <= i <= |lines|
        invariant items == ReleaseAll(old(items), lines[..i])
        invariant nextItemId == old(nextItemId) && users == old(users) && uids == old(uids)
        invariant orders == old(orders) && requests == old(requests) && notifications == old(notifications)
      {
        var line := lines[i];
        assert lines[..i + 1][..i] == lines[..i];
        if line.itemId in items {
          items := items[line.itemId := items[line.itemId].(quantity := items[line.itemId].quantity + line.quantity)];
        }
        i := i + 1;
      }
      assert lines[..i] == lines;
    }

    /** `createTokenRequest`: stores one pending request and tells every admin.
        An absent `userName` is an `undefined` field, so the `addDoc` is
        refused and nothing is written. */
    method CreateTokenRequest(userId: string, userEmail: string, reason: string, tokensRequested: int,
                              userName: Option<string> := None)
      returns (out: Outcome, requestId: nat)
      requires Valid()
      modifies this
      ensures Valid()
      ensures CreateTokenRequestEffect(old(State()), State(), userId, userEmail, reason, tokensRequested, userName, out,
                                       requestId)
    {
      requestId := |requests|;
      if userName.None? {
        return Err(UndefinedField), requestId;
      }
      out := Ok;
      requests := requests + [TokenRequest(requestId, userId, userEmail, userName, reason, tokensRequested, RequestPending)];
      NotifyAll(Admins(), NewRequestMessage(userEmail, tokensRequested), TokenNotice, Some(requestId));
    }

    /** `updateTokenRequest`: fails for a missing request; otherwise overwrites
        the status, whatever it was. An approval credits `tokensRequested` to the
        requester (failing, after the status write, when the requester does not
        exist); either decision then sends the requester one notification. */
    method UpdateTokenRequest(requestId: nat, decision: Decision) returns (out: Outcome)
      requires Valid()
      modifies this
      ensures Valid()
      ensures UpdateTokenRequestEffect(old(State()), State(), requestId, decision, out)
    {
      if requestId >= |requests| {
        return Err(RequestNotFound);
      }
      var r := requests[requestId];
      requests := requests[requestId := r.(status := decision.Status())];
      if decision == Approve {
        out := UpdateUserTokenBalance(r.userId, r.tokensRequested);
        if out.Err? {
          return;
        }
      }
      var _ := AddNotification(r.userId, DecisionMessage(decision, r.tokensRequested), TokenNotice, Some(requestId));
      out := Ok;
    }

    /** `markNotificationAsRead`: fails for a missing notification. */
    method MarkNotificationAsRead(id: nat) returns (out: Outcome)
      modifies this
      ensures out == Ok <==> id < |old(notifications)|
      ensures out.Err? ==> out.failure == NotificationNotFound && notifications == old(notifications)
      ensures out == Ok ==> notifications == old(notifications)[id := old(notifications[id]).(read := true)]
      ensures items == old(items) && nextItemId == old(nextItemId) && users == old(users) && uids == old(uids)
      ensures orders == old(orders) && requests == old(requests)
    {
      if id >= |notifications| {
        return Err(NotificationNotFound);
      }
      notifications := notifications[id := notifications[id].(read := true)];
      out := Ok;
    }

    /** `markAllNotificationsAsRead`: every unread notification of the user is
        marked read. */
    method MarkAllNotificationsAsRead(userId: string)
      modifies this
      ensures notifications == MarkAllRead(old(notifications), userId)
      ensures items == old(items) && nextItemId == old(nextItemId) && users == old(users) && uids == old(uids)
      ensures orders == old(orders) && requests == old(requests)
    {
      var i := 0;
      while i < |notifications|
        invariant 0 <= i <= |notifications| == |old(notifications)|
        invariant forall j :: 0 <= j < i ==> notifications[j] == MarkedFor(old(notifications)[j], userId)
        invariant forall j :: i <= j < |notifications| ==> notifications[j] == old(notifications)[j]
        invariant items == old(items) && nextItemId == old(nextItemId) && users == old(users) && uids == old(uids)
        invariant orders == old(orders) && requests == old(requests)
      {
        if notifications[i].userId == userId && !notifications[i].read {
          notifications := notifications[i := notifications[i].(read := true)];
        }
        i := i + 1;
      }
    }

    /** `resetWeeklyTokens`: the students are listed first; each gets a balance
        of 3, then each gets one notification. */
    method ResetWeeklyTokens()
      requires Valid()
      modifies this
      ensures Valid()
      ensures users == ResetBalances(old(users))
      ensures notifications == old(notifications) + FanOut(old(Students()), ResetMessage, SystemNotice, None)
      ensures items == old(items) && nextItemId == old(nextItemId) && uids == old(uids)
      ensures orders == old(orders) && requests == old(requests)
    {
      var students := Students();
      SetWeeklyBalances(students);
      ResetSomeStudents(old(users), students);
      NotifyAll(students, ResetMessage, SystemNotice, None);
    }

    /** The balance loop of `resetWeeklyTokens`: each listed user's balance
        becomes the weekly quota. */
    method SetWeeklyBalances(students: seq<string>)
      requires forall i :: 0 <= i < |students| ==> students[i] in users
      modifies this
      ensures users == ResetSome(old(users), students)
      ensures items == old(items) && nextItemId == old(nextItemId) && uids == old(uids)
      ensures orders == old(orders) && requests == old(requests) && notifications == old(notifications)
    {
      var i := 0;
      while i < |students|
        invariant 0 <= i <= |students|
        invariant users == ResetSome(old(users), students[..i])
        invariant items == old(items) && nextItemId == old(nextItemId) && uids == old(uids)
        invariant orders == old(orders) && requests == old(requests) && notifications == old(notifications)
      {
        var s := students[i];
        ResetSomeSnoc(old(users), students[..i], s);
        assert students[..i + 1] == students[..i] + [s];
        users := users[s := users[s].(tokenBalance := WeeklyQuota)];
        i := i + 1;
      }
      assert students[..i] == students;
    }
  }
}
