/** The staff inventory page of components/admin/inventory-manager.tsx: the
    search over the page's copy of the items, the add, edit and delete
    dialogs, their checks, and the store calls behind them. The copy is proved
    to keep agreeing with the store's items through every action. */
module Inventory {
  import opened Domain
  import opened Seqs
  import opened Text
  import opened StoreSpec
  import opened Store

  /** `defaultItemForm`: empty texts, category "food", one unit. */
  const DefaultForm := Item("", "", "food", "", 1)

  /** How `handleAddItem` ends. */
  datatype AddResult = NameRequired | CategoryRequired | NegativeQuantity | ItemAdded(id: nat)

  /** How `handleEditItem` ends. */
  datatype EditResult = NothingSelected | InvalidForm | Saved(outcome: Outcome)

  /** The add dialog's checks, in order: a name that is not only white space,
      a category, and a quantity that is not negative. */
  function AddCheck(form: Item): (r: Option<AddResult>)
    ensures r == None <==> !IsBlank(form.name) && form.category != "" && form.quantity >= 0
    ensures r.Some? ==> !r.value.ItemAdded?
  {
    if IsBlank(form.name) then Some(NameRequired)
    else if form.category == "" then Some(CategoryRequired)
    else if form.quantity < 0 then Some(NegativeQuantity)
    else None
  }

  /** The edit dialog's check: the name is tested as typed, not trimmed, so a
      name of only spaces passes here although the add dialog refuses it. */
  predicate EditFormValid(form: Item) {
    !(form.name == "" || form.category == "" || form.quantity < 0)
  }

  /** The two dialogs judge a form differently exactly when its name is
      whitespace but not empty (and the rest of the form is fine): the edit
      dialog accepts it and the add dialog refuses it for its name. */
  lemma EditAcceptsWhatAddRefuses(form: Item)
    ensures (EditFormValid(form) && AddCheck(form).Some?) <==>
      IsBlank(form.name) && form.name != "" && form.category != "" && form.quantity >= 0
    ensures IsBlank(form.name) && form.name != "" && form.category != "" && form.quantity >= 0 ==>
      AddCheck(form) == Some(NameRequired)
  {
  }

  /** A name of one space is such a form. */
  lemma SpaceNameSplitsDialogs()
    ensures EditFormValid(Item(" ", "", "food", "", 1)) && AddCheck(Item(" ", "", "food", "", 1)) == Some(NameRequired)
  {
    assert IsWhitespace(" "[0]);
    EditAcceptsWhatAddRefuses(Item(" ", "", "food", "", 1));
  }

  /** Every form the add dialog accepts, the edit dialog accepts too. */
  lemma AddValidIsEditValid(form: Item)
    requires AddCheck(form) == None
    ensures EditFormValid(form)
  {
  }

  // ----- The page's copy of the items -----------------------------------------

  /** No two entries of the copy share an id. */
  predicate DistinctEntries(list: seq<ItemEntry>) {
    forall i, j :: 0 <= i < j < |list| ==> list[i].id != list[j].id
  }

  /** The copy agrees with the store: one entry per stored item, each with the
      stored contents. */
  predicate Mirrors(list: seq<ItemEntry>, items: map<nat, Item>) {
    && DistinctEntries(list)
    && (forall e :: e in list ==> e.id in items && items[e.id] == e.item)
    && (forall k :: k in items ==> ItemEntry(k, items[k]) in list)
  }

  /** `setItems(prev => [...prev, newItem])` after `addItem`. */
  lemma MirrorsAfterAdd(list: seq<ItemEntry>, items: map<nat, Item>, id: nat, item: Item)
    requires Mirrors(list, items)
    requires id !in items
    ensures Mirrors(list + [ItemEntry(id, item)], items[id := item])
  {
    var list' := list + [ItemEntry(id, item)];
    var items' := items[id := item];
    forall i, j | 0 <= i < j < |list'| ensures list'[i].id != list'[j].id {
      if j == |list| {
        assert list[i] in list;
      }
    }
    forall k | k in items' ensures ItemEntry(k, items'[k]) in list' {
      if k == id {
        assert list'[|list|] == ItemEntry(id, item);
      } else {
        assert ItemEntry(k, items[k]) in list;
      }
    }
  }

  /** `prev.map(item => item.id === id ? { ...item, ...formData } : item)`. */
  function WithContents(list: seq<ItemEntry>, id: nat, form: Item): (r: seq<ItemEntry>)
    ensures |r| == |list|
    ensures forall i :: 0 <= i < |list| ==> r[i] == if list[i].id == id then ItemEntry(id, form) else list[i]
  {
    seq(|list|, i requires 0 <= i < |list| => if list[i].id == id then ItemEntry(id, form) else list[i])
  }

  /** The local edit after `updateItem` with every field of the form. */
  lemma MirrorsAfterEdit(list: seq<ItemEntry>, items: map<nat, Item>, id: nat, form: Item)
    requires Mirrors(list, items)
    requires id in items
    ensures Mirrors(WithContents(list, id, form), items[id := Patched(items[id], FullPatch(form))])
  {
    PatchLaws(items[id], form, FullPatch(form));
    var list' := WithContents(list, id, form);
    var items' := items[id := form];
    forall e | e in list' ensures e.id in items' && items'[e.id] == e.item {
      var i :| 0 <= i < |list'| && list'[i] == e;
      assert list[i] in list;
    }
    forall k | k in items' ensures ItemEntry(k, items'[k]) in list' {
      assert ItemEntry(k, items[k]) in list;
      var i :| 0 <= i < |list| && list[i] == ItemEntry(k, items[k]);
      assert list'[i] == ItemEntry(k, items'[k]);
    }
  }

  function OtherThan(id: nat): ItemEntry -> bool {
    (e: ItemEntry) => e.id != id
  }

  /** `prev.filter(item => item.id !== id)`. */
  function WithoutEntry(list: seq<ItemEntry>, id: nat): seq<ItemEntry> {
    Filter(OtherThan(id), list)
  }

  /** The local removal after `deleteItem`. */
  lemma {:induction false} MirrorsAfterDelete(list: seq<ItemEntry>, items: map<nat, Item>, id: nat)
    requires Mirrors(list, items)
    ensures Mirrors(WithoutEntry(list, id), items - {id})
  {
    var list' := WithoutEntry(list, id);
    forall e ensures e in list' <==> e in list && e.id != id {
      FilterMembership(OtherThan(id), list, e);
    }
    FilterDistinctEntries(list, id);
  }

  lemma {:induction false} FilterDistinctEntries(list: seq<ItemEntry>, id: nat)
    requires DistinctEntries(list)
    ensures DistinctEntries(WithoutEntry(list, id))
    decreases |list|
  {
    if list != [] {
      var init := list[..|list| - 1];
      var x := list[|list| - 1];
      assert list == init + [x];
      FilterDistinctEntries(init, id);
      FilterSnoc(OtherThan(id), init, x);
      var rest := WithoutEntry(init, id);
      if x.id != id {
        forall i | 0 <= i < |rest| ensures rest[i].id != x.id {
          assert rest[i] in rest;
          FilterMembership(OtherThan(id), init, rest[i]);
          var j :| 0 <= j < |init| && init[j] == rest[i];
          assert list[j] == init[j];
        }
      }
    }
  }

  // ----- Search ----------------------------------------------------------------

  /** The lower-cased query in the lower-cased name, description or category. */
  predicate ItemMatches(e: ItemEntry, query: string) {
    || Includes(Lower(e.item.name), Lower(query))
    || Includes(Lower(e.item.description), Lower(query))
    || Includes(Lower(e.item.category), Lower(query))
  }

  function MatchesQuery(query: string): ItemEntry -> bool {
    (e: ItemEntry) => ItemMatches(e, query)
  }

  /** `filteredItems`: every item for an empty query, else the matching ones. */
  function VisibleItems(list: seq<ItemEntry>, query: string): seq<ItemEntry> {
    if query == "" then list else Filter(MatchesQuery(query), list)
  }

  /** An item is listed iff it is in the copy and matches the query; the empty
      query matches everything. */
  lemma VisibleItemsMembership(list: seq<ItemEntry>, query: string, e: ItemEntry)
    ensures e in VisibleItems(list, query) <==> e in list && ItemMatches(e, query)
  {
    if query == "" {
      IncludesEmpty(Lower(e.item.name));
      assert Lower(query) == "";
    } else {
      FilterMembership(MatchesQuery(query), list, e);
    }
  }

  // ----- Store calls -----------------------------------------------------------

  /** `addItem` with the form, and the local append. */
  method AddToStore(form: Item, list: seq<ItemEntry>, market: Market) returns (id: nat, list': seq<ItemEntry>)
    requires market.Valid()
    modifies market
    ensures market.Valid()
    ensures id !in old(market.items) && market.items == old(market.items)[id := form]
    ensures market.users == old(market.users) && market.uids == old(market.uids)
    ensures market.orders == old(market.orders) && market.requests == old(market.requests)
    ensures market.notifications == old(market.notifications)
    ensures list' == list + [ItemEntry(id, form)]
    ensures Mirrors(list, old(market.items)) ==> Mirrors(list', market.items)
  {
    id := market.AddItem(form);
    list' := list + [ItemEntry(id, form)];
    if Mirrors(list, old(market.items)) {
      MirrorsAfterAdd(list, old(market.items), id, form);
    }
  }

  /** `updateItem` with every field of the form, and the local edit on success. */
  method EditInStore(id: nat, form: Item, list: seq<ItemEntry>, market: Market)
    returns (out: Outcome, list': seq<ItemEntry>)
    requires market.Valid()
    modifies market
    ensures market.Valid()
    ensures UpdateItemEffect(old(market.State()), market.State(), id, FullPatch(form), out)
    ensures out == Ok ==> list' == WithContents(list, id, form) && market.items == old(market.items)[id := form]
    ensures out != Ok ==> list' == list
    ensures Mirrors(list, old(market.items)) ==> Mirrors(list', market.items)
  {
    out := market.UpdateItem(id, FullPatch(form));
    list' := list;
    if out == Ok {
      list' := WithContents(list, id, form);
      PatchLaws(old(market.items)[id], form, FullPatch(form));
      if Mirrors(list, old(market.items)) {
        MirrorsAfterEdit(list, old(market.items), id, form);
      }
    }
  }

  /** `deleteItem`, and the local removal. */
  method DeleteFromStore(id: nat, list: seq<ItemEntry>, market: Market) returns (list': seq<ItemEntry>)
    requires market.Valid()
    modifies market
    ensures market.Valid()
    ensures market.items == old(market.items) - {id}
    ensures market.users == old(market.users) && market.uids == old(market.uids)
    ensures market.orders == old(market.orders) && market.requests == old(market.requests)
    ensures market.notifications == old(market.notifications)
    ensures list' == WithoutEntry(list, id)
    ensures Mirrors(list, old(market.items)) ==> Mirrors(list', market.items)
  {
    market.DeleteItem(id);
    list' := WithoutEntry(list, id);
    if Mirrors(list, old(market.items)) {
      MirrorsAfterDelete(list, old(market.items), id);
    }
  }

  class InventoryManager {
    /** The page's copy of the items, in the order they were loaded or added. */
    var items: seq<ItemEntry>
    var searchQuery: string
    /** `formData`, shared by the add and edit dialogs. */
    var form: Item
    var selected: Option<ItemEntry>
    var addOpen: bool
    var editOpen: bool
    var deleteOpen: bool

    constructor (loaded: seq<ItemEntry>)
      ensures items == loaded && searchQuery == "" && form == DefaultForm && selected == None
      ensures !addOpen && !editOpen && !deleteOpen
    {
      items, searchQuery, form, selected := loaded, "", DefaultForm, None;
      addOpen, editOpen, deleteOpen := false, false, false;
    }

    /** The form fields and the category select. */
    method EditForm(f: Item)
      modifies this
      ensures form == f
      ensures items == old(items) && searchQuery == old(searchQuery) && selected == old(selected)
      ensures addOpen == old(addOpen) && editOpen == old(editOpen) && deleteOpen == old(deleteOpen)
    {
      form := f;
    }

    /** `openEditDialog(item)`: selects the item and copies it into the form. */
    method OpenEditDialog(e: ItemEntry)
      modifies this
      ensures selected == Some(e) && form == e.item && editOpen
      ensures items == old(items) && searchQuery == old(searchQuery)
      ensures addOpen == old(addOpen) && deleteOpen == old(deleteOpen)
    {
      selected, form, editOpen := Some(e), e.item, true;
    }

    /** `openDeleteDialog(item)`. */
    method OpenDeleteDialog(e: ItemEntry)
      modifies this
      ensures selected == Some(e) && deleteOpen
      ensures items == old(items) && searchQuery == old(searchQuery) && form == old(form)
      ensures addOpen == old(addOpen) && editOpen == old(editOpen)
    {
      selected, deleteOpen := Some(e), true;
    }

    /** `handleAddItem`: a refused form changes nothing. An accepted one is
        stored, appended to the copy under its new id, and the form returns to
        its defaults as the dialog closes. */
    method HandleAddItem(market: Market) returns (out: AddResult)
      requires market.Valid()
      modifies this, market
      ensures market.Valid()
      ensures AddCheck(old(form)).Some? ==>
        && out == AddCheck(old(form)).value && unchanged(market) && items == old(items)
        && form == old(form) && addOpen == old(addOpen)
      ensures AddCheck(old(form)) == None ==>
        && out.ItemAdded?
        && out.id !in old(market.items) && market.items == old(market.items)[out.id := old(form)]
        && market.users == old(market.users) && market.uids == old(market.uids)
        && market.orders == old(market.orders) && market.requests == old(market.requests)
        && market.notifications == old(market.notifications)
        && items == old(items) + [ItemEntry(out.id, old(form))]
        && form == DefaultForm && !addOpen
      ensures Mirrors(old(items), old(market.items)) ==> Mirrors(items, market.items)
      ensures StockNonNegative(old(market.items)) ==> StockNonNegative(market.items)
      ensures searchQuery == old(searchQuery) && selected == old(selected)
      ensures editOpen == old(editOpen) && deleteOpen == old(deleteOpen)
    {
      var refused := AddCheck(form);
      if refused.Some? {
        return refused.value;
      }
      var id, list := AddToStore(form, items, market);
      items := list;
      form, addOpen := DefaultForm, false;
      out := ItemAdded(id);
    }

    /** `handleEditItem`: nothing without a selected item, nothing for an
        invalid form; otherwise every field of the form is written to the
        store. Only if that succeeds does the copy take the form's contents
        and the dialog close with the selection and the form reset. */
    method HandleEditItem(market: Market) returns (out: EditResult)
      requires market.Valid()
      modifies this, market
      ensures market.Valid()
      ensures out == NothingSelected <==> old(selected).None?
      ensures out == InvalidForm <==> old(selected).Some? && !EditFormValid(old(form))
      ensures out == NothingSelected || out == InvalidForm ==>
        && unchanged(market) && items == old(items) && form == old(form)
        && selected == old(selected) && editOpen == old(editOpen)
      ensures old(selected).Some? && EditFormValid(old(form)) ==>
        var id := old(selected).value.id;
        && out.Saved?
        && UpdateItemEffect(old(market.State()), market.State(), id, FullPatch(old(form)), out.outcome)
        && (out.outcome == Ok ==>
              items == WithContents(old(items), id, old(form)) && form == DefaultForm && selected == None && !editOpen)
        && (out.outcome != Ok ==>
              items == old(items) && form == old(form) && selected == old(selected) && editOpen == old(editOpen))
      ensures Mirrors(old(items), old(market.items)) ==> Mirrors(items, market.items)
      ensures StockNonNegative(old(market.items)) ==> StockNonNegative(market.items)
      ensures searchQuery == old(searchQuery) && addOpen == old(addOpen) && deleteOpen == old(deleteOpen)
    {
      if selected.None? {
        return NothingSelected;
      }
      if form.name == "" || form.category == "" || form.quantity < 0 {
        return InvalidForm;
      }
      var r, list := EditInStore(selected.value.id, form, items, market);
      if r == Ok {
        items := list;
        form, selected, editOpen := DefaultForm, None, false;
      }
      out := Saved(r);
    }

    /** `handleDeleteItem`: nothing without a selected item; otherwise the item
        leaves the store and the copy, and the dialog closes. */
    method HandleDeleteItem(market: Market) returns (deleted: bool)
      requires market.Valid()
      modifies this, market
      ensures market.Valid()
      ensures deleted <==> old(selected).Some?
      ensures !deleted ==> unchanged(market) && items == old(items) && selected == old(selected) && deleteOpen == old(deleteOpen)
      ensures deleted ==>
        var id := old(selected).value.id;
        && market.items == old(market.items) - {id}
        && market.users == old(market.users) && market.uids == old(market.uids)
        && market.orders == old(market.orders) && market.requests == old(market.requests)
        && market.notifications == old(market.notifications)
        && items == WithoutEntry(old(items), id) && selected == None && !deleteOpen
      ensures Mirrors(old(items), old(market.items)) ==> Mirrors(items, market.items)
      ensures searchQuery == old(searchQuery) && form == old(form)
      ensures addOpen == old(addOpen) && editOpen == old(editOpen)
    {
      if selected.None? {
        return false;
      }
      items := DeleteFromStore(selected.value.id, items, market);
      selected, deleteOpen := None, false;
      deleted := true;
    }
  }
}
