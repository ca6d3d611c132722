/** The cart of lib/hooks/use-cart.tsx: a list of lines kept in component
    state, which each operation checks and then replaces (appending one line,
    mapping one line or filtering lines out). The stock lookup `getItem` is the
    `stock` parameter: the item documents as they are when the call reads them. */
module CartHook {
  import opened Domain
  import opened Seqs

  /** Most units a cart may hold, summed over its lines. */
  const MaxCartTotal := 3

  /** `CartItem`. */
  datatype CartLine = CartLine(id: nat, name: string, imageUrl: string, quantity: int)

  /** Which toast `addToCart` shows. */
  datatype AddOutcome = Added | LimitReached | AlreadyInCart | OutOfStock

  /** Which toast `updateQuantity` shows; `Ignored` is the silent return for a
      quantity below 1. */
  datatype UpdateOutcome = Updated | Ignored | UpdateLimitReached | NotEnoughInventory

  /** `lines.reduce((sum, i) => sum + i.quantity, 0)`. */
  function Total(lines: seq<CartLine>): int
    decreases |lines|
  {
    if lines == [] then 0 else Total(lines[..|lines| - 1]) + lines[|lines| - 1].quantity
  }

  /** Summed quantity of the lines for item `id`. */
  function QuantityOf(lines: seq<CartLine>, id: nat): int
    decreases |lines|
  {
    if lines == [] then 0
    else QuantityOf(lines[..|lines| - 1], id) + (if lines[|lines| - 1].id == id then lines[|lines| - 1].quantity else 0)
  }

  /** `lines.some(l => l.id === id)`. */
  predicate Contains(lines: seq<CartLine>, id: nat) {
    exists i :: 0 <= i < |lines| && lines[i].id == id
  }

  /** No item is on two lines. */
  predicate DistinctIds(lines: seq<CartLine>) {
    forall i, j :: 0 <= i < j < |lines| ==> lines[i].id != lines[j].id
  }

  /** What the cart rules keep true: at most three units, one line per item,
      every line at least 1. */
  predicate WellFormed(lines: seq<CartLine>) {
    && Total(lines) <= MaxCartTotal
    && DistinctIds(lines)
    && forall i :: 0 <= i < |lines| ==> lines[i].quantity >= 1
  }

  function OtherThan(id: nat): CartLine -> bool {
    (l: CartLine) => l.id != id
  }

  /** `lines.filter(l => l.id !== id)`. */
  function WithoutId(lines: seq<CartLine>, id: nat): seq<CartLine> {
    Filter(OtherThan(id), lines)
  }

  /** `lines.map(l => l.id === id ? { ...l, quantity } : l)`. */
  function SetQuantity(lines: seq<CartLine>, id: nat, quantity: int): (r: seq<CartLine>)
    ensures |r| == |lines|
    ensures forall i :: 0 <= i < |lines| ==> r[i] == if lines[i].id == id then lines[i].(quantity := quantity) else lines[i]
  {
    seq(|lines|, i requires 0 <= i < |lines| => if lines[i].id == id then lines[i].(quantity := quantity) else lines[i])
  }

  /** `lines.find(l => l.id === id)`: the first line for the item, if any. */
  function FindLine(lines: seq<CartLine>, id: nat): Option<CartLine>
    decreases |lines|
  {
    if lines == [] then None
    else if lines[0].id == id then Some(lines[0])
    else FindLine(lines[1..], id)
  }

  /** `find` answers nothing iff the item is not in the cart, and otherwise the
      first line for the item. */
  lemma {:induction false} FindLineSpec(lines: seq<CartLine>, id: nat)
    ensures FindLine(lines, id).None? <==> !Contains(lines, id)
    ensures FindLine(lines, id).Some? ==>
      exists i :: 0 <= i < |lines| && lines[i] == FindLine(lines, id).value && lines[i].id == id
        && forall j :: 0 <= j < i ==> lines[j].id != id
    decreases |lines|
  {
    if lines != [] && lines[0].id != id {
      var rest := lines[1..];
      FindLineSpec(rest, id);
      if Contains(lines, id) {
        var i :| 0 <= i < |lines| && lines[i].id == id;
        assert rest[i - 1] == lines[i];
      }
      if FindLine(rest, id).Some? {
        var i :| 0 <= i < |rest| && rest[i] == FindLine(rest, id).value && rest[i].id == id
          && forall j :: 0 <= j < i ==> rest[j].id != id;
        assert lines[i + 1] == rest[i];
        forall j | 0 <= j < i + 1 ensures lines[j].id != id {
          if j > 0 { assert lines[j] == rest[j - 1]; }
        }
      }
    } else if lines != [] {
      assert lines[0].id == id;
    }
  }

  /** The total splits into the item's own lines and all the others. */
  lemma {:induction false} TotalSplit(lines: seq<CartLine>, id: nat)
    ensures Total(lines) == Total(WithoutId(lines, id)) + QuantityOf(lines, id)
    decreases |lines|
  {
    if lines != [] {
      var init, x := lines[..|lines| - 1], lines[|lines| - 1];
      assert lines == init + [x];
      FilterSnoc(OtherThan(id), init, x);
      TotalSplit(init, id);
      if x.id != id {
        assert WithoutId(lines, id) == WithoutId(init, id) + [x];
        TotalSnoc(WithoutId(init, id), x);
      } else {
        assert WithoutId(lines, id) == WithoutId(init, id);
      }
    }
  }

  lemma TotalSnoc(lines: seq<CartLine>, x: CartLine)
    ensures Total(lines + [x]) == Total(lines) + x.quantity
  {
    assert (lines + [x])[..|lines|] == lines;
  }

  /** Without the item, a line's total contribution is 0. */
  lemma {:induction false} QuantityOfAbsent(lines: seq<CartLine>, id: nat)
    requires !Contains(lines, id)
    ensures QuantityOf(lines, id) == 0
    decreases |lines|
  {
    if lines != [] {
      var init := lines[..|lines| - 1];
      QuantityOfAbsent(init, id);
    }
  }

  /** With one line per item, the item's quantity after the mapping is the new
      quantity, or 0 when the item is not in the cart. */
  lemma {:induction false} QuantityOfSet(lines: seq<CartLine>, id: nat, q: int)
    requires DistinctIds(lines)
    ensures QuantityOf(SetQuantity(lines, id, q), id) == if Contains(lines, id) then q else 0
    decreases |lines|
  {
    var r := SetQuantity(lines, id, q);
    if lines != [] {
      var init, x := lines[..|lines| - 1], lines[|lines| - 1];
      assert r[..|r| - 1] == SetQuantity(init, id, q);
      assert DistinctIds(init);
      QuantityOfSet(init, id, q);
      if x.id == id {
        assert !Contains(init, id);
      } else {
        assert Contains(lines, id) <==> Contains(init, id) by {
          if Contains(lines, id) {
            var i :| 0 <= i < |lines| && lines[i].id == id;
            assert i < |init| && init[i] == lines[i];
          }
        }
      }
    } else {
      assert !Contains(lines, id);
    }
  }

  /** The mapping leaves every other line as it is. */
  lemma {:induction false} WithoutIdSet(lines: seq<CartLine>, id: nat, q: int)
    ensures WithoutId(SetQuantity(lines, id, q), id) == WithoutId(lines, id)
    decreases |lines|
  {
    if lines != [] {
      var init, x := lines[..|lines| - 1], lines[|lines| - 1];
      var r := SetQuantity(lines, id, q);
      assert r == SetQuantity(init, id, q) + [r[|r| - 1]];
      assert lines == init + [x];
      FilterSnoc(OtherThan(id), SetQuantity(init, id, q), r[|r| - 1]);
      FilterSnoc(OtherThan(id), init, x);
      WithoutIdSet(init, id, q);
    }
  }

  /** Filtering lines out keeps one line per item. */
  lemma {:induction false} WithoutIdDistinct(lines: seq<CartLine>, id: nat)
    requires DistinctIds(lines)
    ensures DistinctIds(WithoutId(lines, id))
    decreases |lines|
  {
    if lines != [] {
      var init, x := lines[..|lines| - 1], lines[|lines| - 1];
      assert lines == init + [x];
      assert DistinctIds(init);
      WithoutIdDistinct(init, id);
      FilterSnoc(OtherThan(id), init, x);
      var f := WithoutId(init, id);
      forall i | 0 <= i < |f| ensures f[i].id != x.id {
        FilterMembership(OtherThan(id), init, f[i]);
        var k :| 0 <= k < |init| && init[k] == f[i];
        assert lines[k] == f[i];
      }
    }
  }

  /** Lines that are all at least 1 have a total of at least their number. */
  lemma {:induction false} TotalAtLeastLines(lines: seq<CartLine>)
    requires forall i :: 0 <= i < |lines| ==> lines[i].quantity >= 1
    ensures Total(lines) >= |lines|
    decreases |lines|
  {
    if lines != [] {
      TotalAtLeastLines(lines[..|lines| - 1]);
    }
  }

  /** Line `k` adds its whole quantity to the total, every other line at
      least 1. */
  lemma {:induction false} TotalAtLeastLine(lines: seq<CartLine>, k: nat)
    requires forall i :: 0 <= i < |lines| ==> lines[i].quantity >= 1
    requires k < |lines|
    ensures Total(lines) >= |lines| - 1 + lines[k].quantity
    decreases |lines|
  {
    var init := lines[..|lines| - 1];
    if k == |lines| - 1 {
      TotalAtLeastLines(init);
    } else {
      assert init[k] == lines[k];
      TotalAtLeastLine(init, k);
    }
  }

  /** An item on a line whose quantity is at least 1 has a quantity of at least 1. */
  lemma {:induction false} QuantityOfPresent(lines: seq<CartLine>, id: nat)
    requires forall i :: 0 <= i < |lines| ==> lines[i].quantity >= 1
    requires Contains(lines, id)
    ensures QuantityOf(lines, id) >= 1
    decreases |lines|
  {
    var init, x := lines[..|lines| - 1], lines[|lines| - 1];
    if x.id == id {
      QuantityOfNonNegative(init, id);
    } else {
      var i :| 0 <= i < |lines| && lines[i].id == id;
      assert init[i] == lines[i];
      QuantityOfPresent(init, id);
    }
  }

  /** A quantity of items zero or more. */
  lemma {:induction false} QuantityOfNonNegative(lines: seq<CartLine>, id: nat)
    requires forall i :: 0 <= i < |lines| ==> lines[i].quantity >= 1
    ensures QuantityOf(lines, id) >= 0
    decreases |lines|
  {
    if lines != [] {
      QuantityOfNonNegative(lines[..|lines| - 1], id);
    }
  }

  /** Dropping position `k` of `init + [x]` is dropping it from `init`, then
      appending `x`. */
  lemma SpliceSnoc(init: seq<CartLine>, x: CartLine, k: nat)
    requires k < |init|
    ensures (init + [x])[..k] + (init + [x])[k + 1..] == (init[..k] + init[k + 1..]) + [x]
  {
    assert (init + [x])[..k] == init[..k];
    assert (init + [x])[k + 1..] == init[k + 1..] + [x];
  }

  /** With one line per item, removing the item at position `k` removes
      exactly that line and keeps the others in order. */
  lemma {:induction false} RemovePresent(lines: seq<CartLine>, k: nat)
    requires DistinctIds(lines)
    requires k < |lines|
    ensures WithoutId(lines, lines[k].id) == lines[..k] + lines[k + 1..]
    decreases |lines|
  {
    var id := lines[k].id;
    var init, x := lines[..|lines| - 1], lines[|lines| - 1];
    assert lines == init + [x];
    FilterSnoc(OtherThan(id), init, x);
    if k == |lines| - 1 {
      FilterKeepsAll(OtherThan(id), init);
      assert lines[..k] + lines[k + 1..] == init;
    } else {
      assert DistinctIds(init);
      assert init[k] == lines[k];
      RemovePresent(init, k);
      assert x.id != id;
      SpliceSnoc(init, x, k);
    }
  }

  /** Setting an item to a quantity of at least 1 that the other lines leave
      room for keeps the cart rules. */
  lemma SetQuantityKeepsRules(lines: seq<CartLine>, id: nat, quantity: int)
    requires WellFormed(lines)
    requires quantity >= 1 && Total(WithoutId(lines, id)) + quantity <= MaxCartTotal
    ensures WellFormed(SetQuantity(lines, id, quantity))
  {
    var r := SetQuantity(lines, id, quantity);
    TotalSplit(r, id);
    WithoutIdSet(lines, id, quantity);
    QuantityOfSet(lines, id, quantity);
    assert DistinctIds(r);
  }

  /** A cart keeping the rules has at most as many lines as units: checkout's
      one token per line never charges more than the units taken. */
  lemma LinesAtMostUnits(lines: seq<CartLine>)
    requires WellFormed(lines)
    ensures |lines| <= Total(lines) <= MaxCartTotal
  {
    TotalAtLeastLines(lines);
  }

  class Cart {
    /** The `items` state of `CartProvider`. */
    var lines: seq<CartLine>

    ghost predicate Valid()
      reads this
    {
      WellFormed(lines)
    }

    constructor ()
      ensures Valid()
      ensures lines == []
    {
      lines := [];
    }

    /** `addToCart`: refused, with the cart unchanged, when it already holds 3
        units, when the item is already in it, or when the stored item is
        missing or has no stock; otherwise one line of quantity 1 is appended. */
    method AddToCart(item: ItemEntry, stock: map<nat, Item>) returns (out: AddOutcome)
      modifies this
      ensures out == LimitReached <==> Total(old(lines)) >= MaxCartTotal
      ensures out == AlreadyInCart <==> Total(old(lines)) < MaxCartTotal && Contains(old(lines), item.id)
      ensures out == OutOfStock <==>
        (Total(old(lines)) < MaxCartTotal && !Contains(old(lines), item.id)
         && (item.id !in stock || stock[item.id].quantity < 1))
      ensures out == Added ==> lines == old(lines) + [CartLine(item.id, item.item.name, item.item.imageUrl, 1)]
      ensures out != Added ==> lines == old(lines)
      ensures old(Valid()) ==> Valid()
    {
      if Total(lines) >= MaxCartTotal {
        return LimitReached;
      }
      if Contains(lines, item.id) {
        return AlreadyInCart;
      }
      if item.id !in stock || stock[item.id].quantity < 1 {
        return OutOfStock;
      }
      var line := CartLine(item.id, item.item.name, item.item.imageUrl, 1);
      TotalSnoc(lines, line);
      lines := lines + [line];
      out := Added;
    }

    /** `removeFromCart`: drops the item's lines, keeping the rest in order. */
    method RemoveFromCart(itemId: nat)
      modifies this
      ensures lines == WithoutId(old(lines), itemId)
      ensures forall l :: l in lines <==> l in old(lines) && l.id != itemId
      ensures old(Valid()) ==> Valid()
    {
      if Valid() {
        TotalSplit(lines, itemId);
        QuantityOfNonNegative(lines, itemId);
        WithoutIdDistinct(lines, itemId);
        FilterAllSatisfyLines(lines, itemId);
      }
      forall l ensures l in WithoutId(lines, itemId) <==> l in lines && l.id != itemId {
        FilterMembership(OtherThan(itemId), lines, l);
      }
      lines := WithoutId(lines, itemId);
    }

    /** `updateQuantity`: a quantity below 1 is ignored; refused when the other
        lines plus the new quantity exceed 3, or when the quantity goes up and
        the stored item is missing or has less stock than the new quantity;
        otherwise the item's line gets the new quantity. */
    method UpdateQuantity(itemId: nat, quantity: int, stock: map<nat, Item>) returns (out: UpdateOutcome)
      modifies this
      ensures out == Ignored <==> quantity < 1
      ensures out == UpdateLimitReached <==> quantity >= 1 && Total(WithoutId(old(lines), itemId)) + quantity > MaxCartTotal
      ensures out == NotEnoughInventory <==>
        && quantity >= 1 && Total(WithoutId(old(lines), itemId)) + quantity <= MaxCartTotal
        && FindLine(old(lines), itemId).Some? && quantity > FindLine(old(lines), itemId).value.quantity
        && (itemId !in stock || stock[itemId].quantity < quantity)
      ensures out == Updated ==> lines == SetQuantity(old(lines), itemId, quantity)
      ensures out != Updated ==> lines == old(lines)
      ensures old(Valid()) ==> Valid()
    {
      if quantity < 1 {
        return Ignored;
      }
      var otherTotal := Total(WithoutId(lines, itemId));
      if otherTotal + quantity > MaxCartTotal {
        return UpdateLimitReached;
      }
      var current := FindLine(lines, itemId);
      if current.Some? && quantity > current.value.quantity {
        if itemId !in stock || stock[itemId].quantity < quantity {
          return NotEnoughInventory;
        }
      }
      if Valid() {
        SetQuantityKeepsRules(lines, itemId, quantity);
      }
      lines := SetQuantity(lines, itemId, quantity);
      out := Updated;
    }

    /** `clearCart`. */
    method ClearCart()
      modifies this
      ensures lines == []
      ensures Valid()
    {
      lines := [];
    }

    /** `itemCount`: the number of lines, not the units. */
    function ItemCount(): (n: nat)
      reads this
      ensures n == |lines|
    {
      |lines|
    }

    /** `isInCart`. */
    function IsInCart(itemId: nat): (b: bool)
      reads this
      ensures b <==> exists i :: 0 <= i < |lines| && lines[i].id == itemId
    {
      Contains(lines, itemId)
    }

    /** `itemCount` counts lines, not units: in a cart keeping the rules it is
        at most the summed quantity (so at most 3), and strictly less as soon
        as one line holds two units or more. */
    lemma ItemCountVsUnits()
      requires Valid()
      ensures ItemCount() <= Total(lines) <= MaxCartTotal
      ensures (exists i :: 0 <= i < |lines| && lines[i].quantity >= 2) ==> ItemCount() < Total(lines)
    {
      LinesAtMostUnits(lines);
      if exists i :: 0 <= i < |lines| && lines[i].quantity >= 2 {
        var k :| 0 <= k < |lines| && lines[k].quantity >= 2;
        TotalAtLeastLine(lines, k);
      }
    }

    /** In a cart keeping the rules, `isInCart` holds exactly when the item's
        summed quantity is at least 1, and exactly when `find` has a line for
        it. */
    lemma IsInCartIff(itemId: nat)
      requires Valid()
      ensures IsInCart(itemId) <==> QuantityOf(lines, itemId) >= 1
      ensures IsInCart(itemId) <==> FindLine(lines, itemId).Some?
    {
      FindLineSpec(lines, itemId);
      if Contains(lines, itemId) {
        QuantityOfPresent(lines, itemId);
      } else {
        QuantityOfAbsent(lines, itemId);
      }
    }
  }

  /** The lines left by the filter all keep quantities of at least 1. */
  lemma FilterAllSatisfyLines(lines: seq<CartLine>, id: nat)
    requires forall i :: 0 <= i < |lines| ==> lines[i].quantity >= 1
    ensures forall i :: 0 <= i < |WithoutId(lines, id)| ==> WithoutId(lines, id)[i].quantity >= 1
  {
    var f := WithoutId(lines, id);
    forall i | 0 <= i < |f| ensures f[i].quantity >= 1 {
      FilterMembership(OtherThan(id), lines, f[i]);
    }
  }
}
