/** Specification functions for the store operations of
    lib/firebase/firestore-utils.ts, over plain values, and the properties proved
    about them: the stock effect of placing and cancelling an order, the
    out-of-stock fan-out, credits, the weekly reset, marking notifications read and
    the item queries. The class `Store.Market` is proved against these. */
module StoreSpec {
  import opened Domain
  import opened Seqs
  import opened Text

  /** Tokens a new student starts with, and the weekly reset value. */
  const WeeklyQuota := 3
  /** Default threshold of `getLowStockItems`. */
  const LowStockThreshold := 5

  // ----- Notification texts -------------------------------------------------

  const WelcomeMessage := "Welcome to Bulldogs Market! You have 3 tokens to start with. Happy shopping!"
  const ReadyMessage := "Your order is ready for pickup! Please visit the Bulldogs Market during your selected time slot."
  const CompletedMessage := "Your order has been marked as completed. Thank you for using Bulldogs Market!"
  const CancelledMessage := "Your order has been cancelled. Please contact Bulldogs Market for more information."
  const RefundMessage := "Your order has been cancelled and your tokens have been refunded."
  const ResetMessage := "Your weekly token balance has been reset to 3. Happy shopping!"

  function OutOfStockMessage(name: string): string {
    "Item \"" + name + "\" is now out of stock."
  }

  function NewOrderMessage(email: string): string {
    "New order received from " + email + "."
  }

  /** The owner's message for a status change; empty (none sent) for `pending`. */
  function StatusMessage(s: OrderStatus): (m: string)
    ensures m == "" <==> s == Pending
  {
    match s
    case Pending => ""
    case Ready => ReadyMessage
    case Completed => CompletedMessage
    case Cancelled => CancelledMessage
  }

  function UserCancelledMessage(orderId: nat): string {
    "Order #" + SliceLast(NatToString(orderId), 6) + " has been cancelled by the user."
  }

  function NewRequestMessage(email: string, tokens: int): string {
    "New token request from " + email + " for " + IntToString(tokens) + " tokens."
  }

  function DecisionMessage(d: Decision, tokens: int): string {
    "Your request for " + IntToString(tokens)
      + (if d == Approve then " additional tokens has been approved!" else " additional tokens has been rejected.")
  }

  // ----- Recipients ---------------------------------------------------------

  /** The query `where("role", "==", role)` as a test on a user id. */
  function HasRole(users: map<string, User>, role: Role): string -> bool {
    (u: string) => u in users && users[u].role == role
  }

  /** The ids returned by the role query, in document order. */
  function WithRole(uids: seq<string>, users: map<string, User>, role: Role): seq<string> {
    Filter(HasRole(users, role), uids)
  }

  /** The role query lists a user iff the user exists with that role. */
  lemma WithRoleMembership(uids: seq<string>, users: map<string, User>, role: Role, u: string)
    ensures u in WithRole(uids, users, role) <==> u in uids && u in users && users[u].role == role
  {
    FilterMembership(HasRole(users, role), uids, u);
  }

  /** Over duplicate-free document ids, every user of the role is listed once. */
  lemma WithRoleDistinct(uids: seq<string>, users: map<string, User>, role: Role)
    requires Distinct(uids)
    ensures Distinct(WithRole(uids, users, role))
  {
    FilterDistinct(HasRole(users, role), uids);
  }

  /** One unread notification per recipient, in recipient order (one
      `addNotification` per document of the query). */
  function FanOut(recipients: seq<string>, message: string, kind: NoticeKind, related: Option<nat>): (r: seq<Notification>)
    ensures |r| == |recipients|
    ensures forall i :: 0 <= i < |r| ==> r[i] == Notification(recipients[i], message, kind, false, related)
  {
    seq(|recipients|, i requires 0 <= i < |recipients| => Notification(recipients[i], message, kind, false, related))
  }

  /** A fan-out notifies exactly the recipients, each with an unread notice. */
  lemma FanOutRecipients(recipients: seq<string>, message: string, kind: NoticeKind, related: Option<nat>, u: string)
    ensures Notification(u, message, kind, false, related) in FanOut(recipients, message, kind, related) <==> u in recipients
    ensures forall n :: n in FanOut(recipients, message, kind, related) ==> !n.read && n.userId in recipients
  {
    var r := FanOut(recipients, message, kind, related);
    if u in recipients {
      var i :| 0 <= i < |recipients| && recipients[i] == u;
      assert r[i] == Notification(u, message, kind, false, related);
    }
  }

  /** Over duplicate-free recipients a fan-out reaches each of them exactly once. */
  lemma FanOutOncePerRecipient(recipients: seq<string>, message: string, kind: NoticeKind, related: Option<nat>)
    requires Distinct(recipients)
    ensures forall i, j :: 0 <= i < j < |recipients| ==>
      FanOut(recipients, message, kind, related)[i].userId != FanOut(recipients, message, kind, related)[j].userId
  {
  }

  lemma FanOutSnoc(recipients: seq<string>, u: string, message: string, kind: NoticeKind, related: Option<nat>)
    ensures FanOut(recipients + [u], message, kind, related)
         == FanOut(recipients, message, kind, related) + [Notification(u, message, kind, false, related)]
  {
  }

  // ----- Item updates -----------------------------------------------------------

  /** `updateDoc(itemRef, data)`: the fields present in the patch overwrite the
      item's, the others are kept. */
  function Patched(item: Item, patch: ItemPatch): Item {
    Item(
      if patch.name.Some? then patch.name.value else item.name,
      if patch.description.Some? then patch.description.value else item.description,
      if patch.category.Some? then patch.category.value else item.category,
      if patch.imageUrl.Some? then patch.imageUrl.value else item.imageUrl,
      if patch.quantity.Some? then patch.quantity.value else item.quantity)
  }

  /** The patch that sets every field, as the inventory editor sends it. */
  function FullPatch(item: Item): ItemPatch {
    ItemPatch(Some(item.name), Some(item.description), Some(item.category), Some(item.imageUrl), Some(item.quantity))
  }

  /** A full patch replaces the item, an empty patch keeps it, and applying a
      patch twice is applying it once. */
  lemma PatchLaws(item: Item, other: Item, patch: ItemPatch)
    ensures Patched(item, FullPatch(other)) == other
    ensures Patched(item, ItemPatch(None, None, None, None, None)) == item
    ensures Patched(Patched(item, patch), patch) == Patched(item, patch)
    ensures patch.quantity.None? ==> Patched(item, patch).quantity == item.quantity
  {
  }

  /** `updateItem` warns the admins iff the patch sets a quantity, the item had
      stock, and the new quantity is 0 or below. */
  predicate PatchRunsOut(item: Item, patch: ItemPatch) {
    patch.quantity.Some? && item.quantity > 0 && patch.quantity.value <= 0
  }

  // ----- Order lines ----------------------------------------------------------

  /** The item ids of a list of lines, in order. */
  function ItemIds(lines: seq<Line>): (ids: seq<nat>)
    ensures |ids| == |lines|
    ensures forall i :: 0 <= i < |lines| ==> ids[i] == lines[i].itemId
  {
    seq(|lines|, i requires 0 <= i < |lines| => lines[i].itemId)
  }

  /** No item appears on two lines (what the cart guarantees). */
  predicate DistinctItems(lines: seq<Line>) {
    Distinct(ItemIds(lines))
  }

  /** Total quantity the lines ask of item `k`. */
  function Requested(lines: seq<Line>, k: nat): int
    decreases |lines|
  {
    if lines == [] then 0
    else Requested(lines[..|lines| - 1], k) + (if lines[|lines| - 1].itemId == k then lines[|lines| - 1].quantity else 0)
  }

  lemma ItemIdsSnoc(lines: seq<Line>, x: Line)
    ensures ItemIds(lines + [x]) == ItemIds(lines) + [x.itemId]
  {
  }

  lemma {:induction false} RequestedUnmentioned(lines: seq<Line>, k: nat)
    requires k !in ItemIds(lines)
    ensures Requested(lines, k) == 0
    decreases |lines|
  {
    if lines != [] {
      var init := lines[..|lines| - 1];
      assert ItemIds(lines) == ItemIds(init) + [lines[|lines| - 1].itemId];
      RequestedUnmentioned(init, k);
    }
  }

  // ----- Stock: createOrder's reservation, cancelOrder's return ----------------

  /** One line of `createOrder`: an existing item's quantity becomes
      `Math.max(0, current - requested)`; a missing item is skipped. */
  function ReserveOne(items: map<nat, Item>, line: Line): map<nat, Item> {
    if line.itemId in items
    then items[line.itemId := items[line.itemId].(quantity := Max(0, items[line.itemId].quantity - line.quantity))]
    else items
  }

  /** All lines of `createOrder`, one after the other. */
  function ReserveAll(items: map<nat, Item>, lines: seq<Line>): map<nat, Item>
    decreases |lines|
  {
    if lines == [] then items else ReserveOne(ReserveAll(items, lines[..|lines| - 1]), lines[|lines| - 1])
  }

  /** The "out of stock" fan-out for one line: sent when the item exists and its
      quantity goes from above 0 to 0 or below. */
  function CrossingNotices(items: map<nat, Item>, line: Line, admins: seq<string>): seq<Notification> {
    if line.itemId in items && items[line.itemId].quantity > 0
       && Max(0, items[line.itemId].quantity - line.quantity) <= 0
    then FanOut(admins, OutOfStockMessage(line.name), InventoryNotice, Some(line.itemId))
    else []
  }

  /** All "out of stock" notices of `createOrder`, each line seeing the stock the
      earlier lines left. */
  function StockNotices(items: map<nat, Item>, lines: seq<Line>, admins: seq<string>): seq<Notification>
    decreases |lines|
  {
    if lines == [] then []
    else
      var init := lines[..|lines| - 1];
      StockNotices(items, init, admins) + CrossingNotices(ReserveAll(items, init), lines[|lines| - 1], admins)
  }

  /** The reservation of the first `j = i + 1` lines is that of the first `i`
      followed by line `i`, and so are its notices. */
  lemma ReservePrefixStep(items: map<nat, Item>, lines: seq<Line>, i: nat, j: nat, admins: seq<string>)
    requires i < |lines| && j == i + 1
    ensures ReserveAll(items, lines[..j]) == ReserveOne(ReserveAll(items, lines[..i]), lines[i])
    ensures StockNotices(items, lines[..j], admins) == StockNotices(items, lines[..i], admins)
              + CrossingNotices(ReserveAll(items, lines[..i]), lines[i], admins)
  {
    assert lines[..j][..i] == lines[..i];
  }

  /** One line of `cancelOrder`: an existing item gets the line's quantity back. */
  function ReleaseOne(items: map<nat, Item>, line: Line): map<nat, Item> {
    if line.itemId in items
    then items[line.itemId := items[line.itemId].(quantity := items[line.itemId].quantity + line.quantity)]
    else items
  }

  function ReleaseAll(items: map<nat, Item>, lines: seq<Line>): map<nat, Item>
    decreases |lines|
  {
    if lines == [] then items else ReleaseOne(ReleaseAll(items, lines[..|lines| - 1]), lines[|lines| - 1])
  }

  /** What the reservation does when no item appears twice: each existing listed
      item drops to `max(0, old - requested)`, everything else is unchanged. */
  lemma {:induction false} ReserveAllEffect(items: map<nat, Item>, lines: seq<Line>)
    requires DistinctItems(lines)
    ensures ReserveAll(items, lines).Keys == items.Keys
    ensures forall k :: k in items ==>
      ReserveAll(items, lines)[k] == items[k].(quantity :=
        if k in ItemIds(lines) then Max(0, items[k].quantity - Requested(lines, k)) else items[k].quantity)
    decreases |lines|
  {
    if lines != [] {
      var init, x := lines[..|lines| - 1], lines[|lines| - 1];
      assert lines == init + [x];
      ItemIdsSnoc(init, x);
      DistinctSnoc(ItemIds(init), x.itemId);
      ReserveAllEffect(items, init);
      RequestedUnmentioned(init, x.itemId);
    }
  }

  /** What the return of stock does: every existing item gets back the total the
      lines name for it; no item appears or disappears. */
  lemma {:induction false} ReleaseAllEffect(items: map<nat, Item>, lines: seq<Line>)
    ensures ReleaseAll(items, lines).Keys == items.Keys
    ensures forall k :: k in items ==>
      ReleaseAll(items, lines)[k] == items[k].(quantity := items[k].quantity + Requested(lines, k))
    decreases |lines|
  {
    if lines != [] {
      ReleaseAllEffect(items, lines[..|lines| - 1]);
    }
  }

  /** Placing and then cancelling an order restores the stock exactly, provided
      no item appears twice and every existing item had at least the requested
      quantity (so that the clamp at 0 never applied). */
  lemma ReserveThenRelease(items: map<nat, Item>, lines: seq<Line>)
    requires DistinctItems(lines)
    requires forall i :: 0 <= i < |lines| && lines[i].itemId in items ==> lines[i].quantity <= items[lines[i].itemId].quantity
    ensures ReleaseAll(ReserveAll(items, lines), lines) == items
  {
    var reserved := ReserveAll(items, lines);
    ReserveAllEffect(items, lines);
    ReleaseAllEffect(reserved, lines);
    var back := ReleaseAll(reserved, lines);
    forall k | k in items ensures back[k] == items[k] {
      if k in ItemIds(lines) {
        var i :| 0 <= i < |lines| && ItemIds(lines)[i] == k;
        RequestedSingle(lines, i);
        assert lines[i].quantity <= items[k].quantity;
        assert reserved[k].quantity == items[k].quantity - lines[i].quantity;
      } else {
        RequestedUnmentioned(lines, k);
      }
      assert k in reserved;
    }
  }

  /** With distinct items, the total requested of a listed item is its one line. */
  lemma {:induction false} RequestedSingle(lines: seq<Line>, i: nat)
    requires DistinctItems(lines)
    requires i < |lines|
    ensures Requested(lines, lines[i].itemId) == lines[i].quantity
    decreases |lines|
  {
    var init, x := lines[..|lines| - 1], lines[|lines| - 1];
    assert lines == init + [x];
    ItemIdsSnoc(init, x);
    DistinctSnoc(ItemIds(init), x.itemId);
    if i == |lines| - 1 {
      RequestedUnmentioned(init, x.itemId);
    } else {
      assert ItemIds(init)[i] == lines[i].itemId;
      RequestedSingle(init, i);
    }
  }

  /** Without the sufficient-stock condition the round trip can gain stock: the
      clamp at 0 forgets how much was missing, so a line asking for more than
      the stock of an existing item leaves that item with the line's whole
      quantity, more than it had. */
  lemma ClampBreaksRoundTrip(items: map<nat, Item>, line: Line)
    requires line.itemId in items && items[line.itemId].quantity < line.quantity
    ensures line.itemId in ReleaseAll(ReserveAll(items, [line]), [line])
    ensures ReleaseAll(ReserveAll(items, [line]), [line])[line.itemId].quantity == line.quantity
    ensures line.quantity > items[line.itemId].quantity
  {
    assert [line][..0] == [];
    assert ReserveAll(items, [line]) == ReserveOne(items, line);
  }

  /** Every item quantity is at least 0. */
  predicate StockNonNegative(items: map<nat, Item>) {
    forall k :: k in items ==> items[k].quantity >= 0
  }

  /** The reservation never makes a quantity negative (it clamps at 0), whatever
      the lines ask. */
  lemma {:induction false} ReserveKeepsStockNonNegative(items: map<nat, Item>, lines: seq<Line>)
    requires StockNonNegative(items)
    ensures StockNonNegative(ReserveAll(items, lines))
    ensures ReserveAll(items, lines).Keys == items.Keys
    decreases |lines|
  {
    if lines != [] {
      ReserveKeepsStockNonNegative(items, lines[..|lines| - 1]);
    }
  }

  /** Returning stock keeps quantities non-negative when no line quantity is
      negative (cart lines start at 1 and never drop below 1). */
  lemma {:induction false} ReleaseKeepsStockNonNegative(items: map<nat, Item>, lines: seq<Line>)
    requires StockNonNegative(items)
    requires forall i :: 0 <= i < |lines| ==> lines[i].quantity >= 0
    ensures StockNonNegative(ReleaseAll(items, lines))
    decreases |lines|
  {
    if lines != [] {
      ReleaseKeepsStockNonNegative(items, lines[..|lines| - 1]);
    }
  }

  /** Closed form of the crossing test: with the stock as it was before the
      order, an item runs out iff it exists, had some stock, and the line asks
      for at least all of it. */
  predicate RunsOut(items: map<nat, Item>, line: Line) {
    line.itemId in items && 0 < items[line.itemId].quantity <= line.quantity
  }

  /** Reference definition of the "out of stock" notices for distinct lines:
      every line is judged against the ORIGINAL stock. */
  function RunOutNotices(items: map<nat, Item>, lines: seq<Line>, admins: seq<string>): seq<Notification>
    decreases |lines|
  {
    if lines == [] then []
    else
      var x := lines[|lines| - 1];
      RunOutNotices(items, lines[..|lines| - 1], admins)
        + (if RunsOut(items, x) then FanOut(admins, OutOfStockMessage(x.name), InventoryNotice, Some(x.itemId)) else [])
  }

  /** When no item appears twice, `createOrder` sends one "out of stock" notice
      per admin for exactly the lines whose item runs out, in line order. */
  lemma {:induction false} StockNoticesAreRunOuts(items: map<nat, Item>, lines: seq<Line>, admins: seq<string>)
    requires DistinctItems(lines)
    ensures StockNotices(items, lines, admins) == RunOutNotices(items, lines, admins)
    decreases |lines|
  {
    if lines != [] {
      var init, x := lines[..|lines| - 1], lines[|lines| - 1];
      assert lines == init + [x];
      ItemIdsSnoc(init, x);
      DistinctSnoc(ItemIds(init), x.itemId);
      StockNoticesAreRunOuts(items, init, admins);
      ReserveAllEffect(items, init);
    }
  }

  /** Every "out of stock" notice of `createOrder` goes to an admin, is unread,
      and names an item the order touched. */
  lemma {:induction false} StockNoticesShape(items: map<nat, Item>, lines: seq<Line>, admins: seq<string>)
    ensures forall n :: n in StockNotices(items, lines, admins) ==>
      n.userId in admins && !n.read && n.kind == InventoryNotice
      && n.relatedId.Some? && n.relatedId.value in ItemIds(lines) && n.relatedId.value in items
    decreases |lines|
  {
    if lines != [] {
      var init, x := lines[..|lines| - 1], lines[|lines| - 1];
      StockNoticesShape(items, init, admins);
      ItemIdsSnoc(init, x);
      assert lines == init + [x];
      ReserveKeepsKeys(items, init);
    }
  }

  lemma {:induction false} ReserveKeepsKeys(items: map<nat, Item>, lines: seq<Line>)
    ensures ReserveAll(items, lines).Keys == items.Keys
    decreases |lines|
  {
    if lines != [] {
      ReserveKeepsKeys(items, lines[..|lines| - 1]);
    }
  }

  // ----- Token balances -------------------------------------------------------

  /** `increment(amount)` on an existing user's balance. */
  function Credit(users: map<string, User>, uid: string, amount: int): (r: map<string, User>)
    requires uid in users
    ensures r.Keys == users.Keys
    ensures r[uid] == users[uid].(tokenBalance := users[uid].tokenBalance + amount)
    ensures forall u :: u in users && u != uid ==> r[u] == users[u]
  {
    users[uid := users[uid].(tokenBalance := users[uid].tokenBalance + amount)]
  }

  /** A credit changes no role, so the role queries list the same users. */
  lemma CreditKeepsRoles(uids: seq<string>, users: map<string, User>, uid: string, amount: int, role: Role)
    requires uid in users
    ensures WithRole(uids, Credit(users, uid, amount), role) == WithRole(uids, users, role)
  {
    FilterAgree(HasRole(Credit(users, uid, amount), role), HasRole(users, role), uids);
  }

  /** A debit followed by a refund of the same amount restores every balance. */
  lemma DebitThenRefund(users: map<string, User>, uid: string, debit: int, amount: int)
    requires uid in users && debit == -amount
    ensures Credit(Credit(users, uid, debit), uid, amount) == users
  {
  }

  /** `resetWeeklyTokens`: every student's balance overwritten with the quota;
      admins untouched. */
  function ResetBalances(users: map<string, User>): (r: map<string, User>)
    ensures r.Keys == users.Keys
    ensures forall u :: u in users && users[u].role == Student ==> r[u] == users[u].(tokenBalance := WeeklyQuota)
    ensures forall u :: u in users && users[u].role == Admin ==> r[u] == users[u]
  {
    map u | u in users :: if users[u].role == Student then users[u].(tokenBalance := WeeklyQuota) else users[u]
  }

  /** The balances after the reset loop has handled the users in `done`. */
  function ResetSome(users: map<string, User>, done: seq<string>): (r: map<string, User>)
    ensures r.Keys == users.Keys
  {
    map u | u in users :: if u in done then users[u].(tokenBalance := WeeklyQuota) else users[u]
  }

  /** One more step of the reset loop. */
  lemma ResetSomeSnoc(users: map<string, User>, done: seq<string>, s: string)
    requires s in users
    ensures ResetSome(users, done + [s]) == ResetSome(users, done)[s := users[s].(tokenBalance := WeeklyQuota)]
  {
  }

  /** The loop that walks exactly the students performs the reset. */
  lemma ResetSomeStudents(users: map<string, User>, students: seq<string>)
    requires forall u :: u in users ==> (u in students <==> users[u].role == Student)
    ensures ResetSome(users, students) == ResetBalances(users)
  {
  }

  /** Running the reset twice leaves the balances the first run left. */
  lemma ResetIdempotent(users: map<string, User>)
    ensures ResetBalances(ResetBalances(users)) == ResetBalances(users)
  {
  }

  /** Two user tables that differ only in balances reset to the same table iff
      they agree on the admins: a student's earlier balance is forgotten. */
  lemma ResetForgetsHistory(a: map<string, User>, b: map<string, User>)
    requires a.Keys == b.Keys
    requires forall u :: u in a ==> a[u] == b[u].(tokenBalance := a[u].tokenBalance)
    ensures ResetBalances(a) == ResetBalances(b) <==> forall u :: u in a && a[u].role == Admin ==> a[u] == b[u]
  {
    if ResetBalances(a) == ResetBalances(b) {
      forall u | u in a && a[u].role == Admin ensures a[u] == b[u] {
        assert ResetBalances(a)[u] == ResetBalances(b)[u];
      }
    }
  }

  // ----- Notifications ----------------------------------------------------------

  /** A notification after `markAllNotificationsAsRead(uid)`. */
  function MarkedFor(n: Notification, uid: string): (r: Notification)
    ensures r.userId == n.userId && r.message == n.message && r.kind == n.kind && r.relatedId == n.relatedId
    ensures r.read == (n.read || n.userId == uid)
  {
    if n.userId == uid then n.(read := true) else n
  }

  /** `markAllNotificationsAsRead(uid)` over the whole log. */
  function MarkAllRead(ns: seq<Notification>, uid: string): (r: seq<Notification>)
    ensures |r| == |ns|
    ensures forall i :: 0 <= i < |ns| ==> r[i] == MarkedFor(ns[i], uid)
  {
    seq(|ns|, i requires 0 <= i < |ns| => MarkedFor(ns[i], uid))
  }

  /** Marking all read twice is marking all read once. */
  lemma MarkAllReadIdempotent(ns: seq<Notification>, uid: string)
    ensures MarkAllRead(MarkAllRead(ns, uid), uid) == MarkAllRead(ns, uid)
  {
  }

  /** After marking, the user has no unread notification, and nobody else's
      notification changed. */
  lemma MarkAllReadEffect(ns: seq<Notification>, uid: string)
    ensures forall n :: n in MarkAllRead(ns, uid) && n.userId == uid ==> n.read
    ensures forall i :: 0 <= i < |ns| && ns[i].userId != uid ==> MarkAllRead(ns, uid)[i] == ns[i]
  {
  }

  // ----- Item queries (getOutOfStockItems, getLowStockItems, getItems) ----------

  /** `where("quantity", "<=", 0)`. */
  function OutOfStockItems(items: map<nat, Item>): (r: map<nat, Item>)
    ensures forall k :: k in r <==> k in items && items[k].quantity <= 0
    ensures forall k :: k in r ==> r[k] == items[k]
  {
    map k | k in items && items[k].quantity <= 0 :: items[k]
  }

  /** `where("quantity", ">", 0), where("quantity", "<=", threshold)`. */
  function LowStockItems(items: map<nat, Item>, threshold: int := LowStockThreshold): (r: map<nat, Item>)
    ensures forall k :: k in r <==> k in items && 0 < items[k].quantity <= threshold
    ensures forall k :: k in r ==> r[k] == items[k]
  {
    map k | k in items && 0 < items[k].quantity <= threshold :: items[k]
  }

  /** `getItems(categoryFilter)`: every item for an empty filter, otherwise those
      of that category. */
  function ItemsInCategory(items: map<nat, Item>, categoryFilter: string): (r: map<nat, Item>)
    ensures categoryFilter == "" ==> r == items
    ensures categoryFilter != "" ==> forall k :: k in r <==> k in items && items[k].category == categoryFilter
    ensures forall k :: k in r ==> r[k] == items[k]
  {
    if categoryFilter == "" then items else map k | k in items && items[k].category == categoryFilter :: items[k]
  }

  /** The two stock queries never overlap, and together with the items above
      the threshold they cover the whole inventory. */
  lemma StockQueriesPartition(items: map<nat, Item>, threshold: int, k: nat)
    requires k in items
    ensures !(k in OutOfStockItems(items) && k in LowStockItems(items, threshold))
    ensures k in OutOfStockItems(items) || k in LowStockItems(items, threshold) || items[k].quantity > threshold
  {
  }

  /** The category query picks out a sub-map: a category filter never shows an
      item the unfiltered query does not. */
  lemma CategoryQueryIsSubset(items: map<nat, Item>, c: string)
    ensures ItemsInCategory(items, c).Keys <= ItemsInCategory(items, "").Keys
  {
  }

  /** `getUserTokenRequests(uid)`: the user's requests, newest first. */
  function RequestsOf(requests: seq<TokenRequest>, uid: string): seq<TokenRequest> {
    Reverse(Filter(RequestBy(uid), requests))
  }

  function RequestBy(uid: string): TokenRequest -> bool {
    (r: TokenRequest) => r.userId == uid
  }

  /** The user's request list holds exactly the user's requests. */
  lemma RequestsOfMembership(requests: seq<TokenRequest>, uid: string, r: TokenRequest)
    ensures r in RequestsOf(requests, uid) <==> r in requests && r.userId == uid
  {
    ReverseMembership(Filter(RequestBy(uid), requests), r);
    FilterMembership(RequestBy(uid), requests, r);
  }
}
