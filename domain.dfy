/** The documents of the market's store (the `Item`, `Order`, `TokenRequest` and
    `Notification` types of lib/firebase/firestore-utils.ts and the user profile),
    and the outcome of a store call. Identifiers that the store generates are
    natural numbers; user identifiers come from the identity provider and are
    strings. */
module Domain {

  datatype Option<+T> = None | Some(value: T)

  /** `"student" | "admin"`. */
  datatype Role = Student | Admin

  /** `Order["status"]`. */
  datatype OrderStatus = Pending | Ready | Completed | Cancelled

  /** `TokenRequest["status"]`. */
  datatype RequestStatus = RequestPending | Approved | Rejected

  /** The status argument of `updateTokenRequest`: `"approved" | "rejected"`. */
  datatype Decision = Approve | Reject {
    function Status(): (s: RequestStatus)
      ensures s != RequestPending
      ensures s == Approved <==> this == Approve
    {
      if Approve? then Approved else Rejected
    }
  }

  /** `Notification["type"]`: `"order" | "inventory" | "token" | "system"`. */
  datatype NoticeKind = OrderNotice | InventoryNotice | TokenNotice | SystemNotice

  /** An item document; its identifier is the key it is stored under. */
  datatype Item = Item(name: string, description: string, category: string, imageUrl: string, quantity: int)

  /** The `data` argument of `updateItem`: `Partial<Item>`, each field present
      (`Some`) or left out (`None`). */
  datatype ItemPatch = ItemPatch(
    name: Option<string>,
    description: Option<string>,
    category: Option<string>,
    imageUrl: Option<string>,
    quantity: Option<int>)

  /** An item together with its identifier, as the pages list it. */
  datatype ItemEntry = ItemEntry(id: nat, item: Item)

  /** A user document: profile fields, role and token balance. */
  datatype User = User(email: string, role: Role, firstName: string, lastName: string, tokenBalance: int)

  /** One line of an order: item identifier, name snapshot, quantity. */
  datatype Line = Line(itemId: nat, name: string, quantity: int)

  datatype Order = Order(
    id: nat,
    userId: string,
    userEmail: string,
    userName: Option<string>,
    items: seq<Line>,
    status: OrderStatus,
    pickupTime: string,
    tokensUsed: int)

  datatype TokenRequest = TokenRequest(
    id: nat,
    userId: string,
    userEmail: string,
    userName: Option<string>,
    reason: string,
    tokensRequested: int,
    status: RequestStatus)

  /** A notification document; its identifier is its position in the log. */
  datatype Notification = Notification(
    userId: string,
    message: string,
    kind: NoticeKind,
    read: bool,
    relatedId: Option<nat>)

  /** The profile names the signed-in session carries. */
  datatype Profile = Profile(firstName: string, lastName: string)

  /** The signed-in user a page sees: uid, email (`""` when there is none, as
      the pages' `email || ""` makes it) and the profile, when it has loaded. */
  datatype SessionUser = SessionUser(uid: string, email: string, profile: Option<Profile>)

  /** Why a store call raised an error ("... not found", an update of a
      document that does not exist, or an `addDoc` of a document with a field
      set to `undefined`, which Firestore refuses unless told to ignore such
      fields). */
  datatype Failure = OrderNotFound | ItemNotFound | UserNotFound | RequestNotFound | NotificationNotFound
                   | UndefinedField

  /** A resolved (`Ok`) or rejected (`Err`) `Promise<void>`. */
  datatype Outcome = Ok | Err(failure: Failure)

  function Max(a: int, b: int): (m: int)
    ensures m >= a && m >= b && (m == a || m == b)
  {
    if a >= b then a else b
  }
}
