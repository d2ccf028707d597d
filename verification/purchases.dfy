/** Supplier purchase invoices (`purchase_create`, `purchase_update`,
    `purchase_delete`): receiving items raises part stock, editing an item moves
    stock by the change in quantity, and removing items takes their quantity back
    out, floored at zero. The item forms reach the views already cleaned; the
    folds below run over the first `n` forms of a request, in the order the
    views handle them. */
module Purchases {
  import opened Common
  import opened Records
  import opened Ledger
  import opened InventoryForms

  // ---------------------------------------------------------------------
  // Item bookkeeping shared by the three views
  // ---------------------------------------------------------------------

  /** The item's store, or the fallback when it has none. */
  function ItemStore(fallback: Option<StoreId>, item: ItemInput): Option<StoreId>
  {
    if item.store.None? then fallback else item.store
  }

  /** quantity × unit price of one item. */
  function LineTotal(item: ItemInput): real
  {
    item.quantity * item.unitPrice
  }

  /** Σ quantity × unit price over the first n items. */
  function Total(items: seq<ItemInput>, n: nat): real
    requires n <= |items|
  {
    if n == 0 then 0.0 else Total(items, n - 1) + LineTotal(items[n - 1])
  }

  /** The stock increase one received item causes: its quantity, when it has a part and a store. */
  function Restock(fallback: Option<StoreId>, item: ItemInput): seq<Move>
  {
    if item.part.Some? && ItemStore(fallback, item).Some? then [Move(item.part.value, item.quantity)] else []
  }

  /** The stock increases of the first n received items. */
  function Restocks(fallback: Option<StoreId>, items: seq<ItemInput>, n: nat): seq<Move>
    requires n <= |items|
  {
    if n == 0 then [] else Restocks(fallback, items, n - 1) + Restock(fallback, items[n - 1])
  }

  /** The item row `item.save()` writes for purchase `pid`. */
  function SavedItem(pid: Id, fallback: Option<StoreId>, item: ItemInput): PurchaseItem
  {
    PurchaseItem(pid, ItemStore(fallback, item), item.part, item.description, item.quantity, item.unitPrice)
  }

  /** The first n new item rows, saved one after another with consecutive keys from `firstId`. */
  function SavedItems(table: map<Id, PurchaseItem>, firstId: Id, pid: Id, fallback: Option<StoreId>, items: seq<ItemInput>, n: nat): map<Id, PurchaseItem>
    requires n <= |items|
  {
    if n == 0 then table
    else SavedItems(table, firstId, pid, fallback, items, n - 1)[firstId + n - 1 := SavedItem(pid, fallback, items[n - 1])]
  }

  /** Item k of the received items is stored under key firstId + k, and no
      other key of the table changes. */
  lemma {:induction false} SavedItemsAt(table: map<Id, PurchaseItem>, firstId: Id, pid: Id, fallback: Option<StoreId>, items: seq<ItemInput>, n: nat)
    requires n <= |items|
    ensures forall x :: firstId <= x < firstId + n ==>
      x in SavedItems(table, firstId, pid, fallback, items, n) &&
      SavedItems(table, firstId, pid, fallback, items, n)[x] == SavedItem(pid, fallback, items[x - firstId])
    ensures forall x :: x in table && !(firstId <= x < firstId + n) ==>
      x in SavedItems(table, firstId, pid, fallback, items, n) && SavedItems(table, firstId, pid, fallback, items, n)[x] == table[x]
    ensures forall x :: x in SavedItems(table, firstId, pid, fallback, items, n) ==> x in table || firstId <= x < firstId + n
    decreases n
  {
    if n > 0 {
      SavedItemsAt(table, firstId, pid, fallback, items, n - 1);
    }
  }

  /** The part table after the first n received items, each saving its part
      from the row in `copy`, over the table `base` the loop started from. */
  function Received(base: map<Id, Part>, copy: map<Id, Part>, fallback: Option<StoreId>, items: seq<ItemInput>, n: nat): (r: map<Id, Part>)
    requires n <= |items|
    ensures r.Keys == base.Keys
  {
    if n == 0 then base
    else
      var before := Received(base, copy, fallback, items, n - 1);
      var m := Restock(fallback, items[n - 1]);
      if m == [] then before else SaveCopy(before, copy, m[0])
  }

  /** Receiving items one by one is the ledger's save-from-copy fold over their restocks. */
  lemma {:induction false} ReceivedIsSaveCopies(current: map<Id, Part>, copy: map<Id, Part>, prior: seq<Move>, fallback: Option<StoreId>, items: seq<ItemInput>, n: nat)
    requires n <= |items|
    ensures Received(SaveCopies(current, copy, prior), copy, fallback, items, n) == SaveCopies(current, copy, prior + Restocks(fallback, items, n))
    decreases n
  {
    if n == 0 {
      assert prior + [] == prior;
    } else {
      ReceivedIsSaveCopies(current, copy, prior, fallback, items, n - 1);
      var done := prior + Restocks(fallback, items, n - 1);
      var m := Restock(fallback, items[n - 1]);
      assert prior + Restocks(fallback, items, n) == done + m;
      SaveCopiesStep(current, copy, done, m);
    }
  }

  /** The loop that saves new items one after another, raising each received
      part's stock from its row in `copy` (the rows loaded with the forms) after
      the `prior` saves of the request, and returns the items' total. */
  method ReceiveItems(db: Database, pid: Id, fallback: Option<StoreId>, copy: map<Id, Part>, ghost prior: seq<Move>, items: seq<ItemInput>) returns (total: real)
    requires db.Valid() && pid in db.purchases && PartsKnown(copy, items)
    requires copy.Keys == db.parts.Keys && db.parts == SaveCopies(copy, copy, prior)
    modifies db`parts, db`purchaseItems, db`nextId
    ensures db.Valid() && db.purchases == old(db.purchases)
    ensures total == Total(items, |items|)
    ensures db.parts == SaveCopies(copy, copy, prior + Restocks(fallback, items, |items|))
    ensures db.purchaseItems == SavedItems(old(db.purchaseItems), old(db.nextId), pid, fallback, items, |items|)
    ensures db.nextId == old(db.nextId) + |items|
  {
    var base, items0, first := db.parts, db.purchaseItems, db.nextId;
    total := 0.0;
    var i := 0;
    while i < |items|
      invariant 0 <= i <= |items|
      invariant total == Total(items, i)
      invariant db.parts == Received(base, copy, fallback, items, i)
      invariant db.parts.Keys == copy.Keys
      invariant db.purchaseItems == SavedItems(items0, first, pid, fallback, items, i)
      invariant db.nextId == first + i
      invariant db.purchases == old(db.purchases)
      invariant db.Valid()
    {
      ReceiveItem(db, pid, fallback, copy, items[i]);
      total := total + LineTotal(items[i]);
      i := i + 1;
    }
    ReceivedIsSaveCopies(copy, copy, prior, fallback, items, |items|);
  }

  /** One pass of the receiving loop: the item's part, when it has one and a
      store, is saved from its loaded row with the quantity added, and the item
      is saved under the next key. */
  method ReceiveItem(db: Database, pid: Id, fallback: Option<StoreId>, copy: map<Id, Part>, item: ItemInput)
    requires db.Valid() && pid in db.purchases && copy.Keys == db.parts.Keys
    requires item.part.Some? ==> item.part.value in copy
    modifies db`parts, db`purchaseItems, db`nextId
    ensures db.Valid() && db.purchases == old(db.purchases)
    ensures db.parts == if item.part.Some? && ItemStore(fallback, item).Some? then SaveCopy(old(db.parts), copy, Move(item.part.value, item.quantity)) else old(db.parts)
    ensures db.purchaseItems == old(db.purchaseItems)[old(db.nextId) := SavedItem(pid, fallback, item)]
    ensures db.nextId == old(db.nextId) + 1
  {
    // a missing store falls back to the purchase's store
    var store := if item.store.None? then fallback else item.store;
    if item.part.Some? && store.Some? {
      var p := item.part.value;
      db.SavePart(p, copy[p].(stock := copy[p].stock + item.quantity));
    }
    var id := db.CreatePurchaseItem(SavedItem(pid, fallback, item));
  }

  // ---------------------------------------------------------------------
  // purchase_create
  // ---------------------------------------------------------------------

  /** Saves the purchase, then its cleaned items: each item without a store
      takes the purchase's store, each item with a part and a store raises that
      part's stock (written from the part row loaded with the form), and the
      total is recomputed. An invalid item set deletes the purchase again, so
      only the key counter has moved. */
  method PurchaseCreate(db: Database, form: Purchase, items: seq<ItemInput>) returns (created: Option<Id>)
    requires db.Valid()
    modifies db`parts, db`purchases, db`purchaseItems, db`nextId
    ensures db.Valid()
    ensures created.Some? <==> ItemSetValid(old(db.parts), items)
    ensures created.Some? ==>
      && PartsKnown(old(db.parts), items)
      && var cleaned := CleanItems(old(db.parts), items);
      && created.value == old(db.nextId)
      && db.nextId == old(db.nextId) + 1 + |items|
      && db.purchases == old(db.purchases)[created.value := form.(totalAmount := Total(items, |items|))]
      && db.parts == SaveCopies(old(db.parts), old(db.parts), Restocks(form.store, cleaned, |items|))
      && db.purchaseItems == SavedItems(old(db.purchaseItems), created.value + 1, created.value, form.store, cleaned, |items|)
    ensures created.None? ==>
      && db.parts == old(db.parts) && db.purchases == old(db.purchases) && db.purchaseItems == old(db.purchaseItems)
      && db.nextId == old(db.nextId) + 1
  {
    var pid := db.CreatePurchase(form);
    assert pid !in old(db.purchases) && db.parts == old(db.parts) && db.purchaseItems == old(db.purchaseItems);
    if !ItemSetValid(db.parts, items) {
      db.DeletePurchase(pid);
      assert db.purchaseItems == old(db.purchaseItems);
      return None;
    }
    SaveItems(db, pid, form, items);
    created := Some(pid);
  }

  /** The valid branch of `purchase_create`: the cleaned items are received
      and the purchase's total is saved. */
  method SaveItems(db: Database, pid: Id, form: Purchase, items: seq<ItemInput>)
    requires db.Valid() && pid in db.purchases && ItemSetValid(db.parts, items)
    modifies db`parts, db`purchases, db`purchaseItems, db`nextId
    ensures db.Valid() && PartsKnown(old(db.parts), items)
    ensures db.nextId == old(db.nextId) + |items|
    ensures db.purchases == old(db.purchases)[pid := form.(totalAmount := Total(items, |items|))]
    ensures db.parts == SaveCopies(old(db.parts), old(db.parts), Restocks(form.store, CleanItems(old(db.parts), items), |items|))
    ensures db.purchaseItems == SavedItems(old(db.purchaseItems), old(db.nextId), pid, form.store, CleanItems(old(db.parts), items), |items|)
  {
    ValidItemsClean(db.parts, items);
    CleanItemsAt(db.parts, items);
    TotalOfCleaned(db.parts, items, |items|);
    var cleaned := CleanItems(db.parts, items);
    var total := ReceiveItems(db, pid, form.store, db.parts, [], cleaned);
    assert [] + Restocks(form.store, cleaned, |items|) == Restocks(form.store, cleaned, |items|);
    db.SavePurchase(pid, form.(totalAmount := total));
  }

  /** Cleaning the descriptions leaves the total alone. */
  lemma {:induction false} TotalOfCleaned(parts: map<Id, Part>, items: seq<ItemInput>, n: nat)
    requires PartsKnown(parts, items) && n <= |items|
    requires forall k :: 0 <= k < |items| ==> CleanItems(parts, items)[k] == CleanItem(parts, items[k])
    ensures Total(CleanItems(parts, items), n) == Total(items, n)
    decreases n
  {
    if n > 0 {
      TotalOfCleaned(parts, items, n - 1);
    }
  }

  /** Cleaning fills in descriptions only, so the cleaned forms restock the
      same parts by the same quantities. */
  lemma {:induction false} RestocksOfCleaned(parts: map<Id, Part>, fallback: Option<StoreId>, items: seq<ItemInput>, n: nat)
    requires PartsKnown(parts, items) && n <= |items|
    requires forall k :: 0 <= k < |items| ==> CleanItems(parts, items)[k] == CleanItem(parts, items[k])
    ensures Restocks(fallback, CleanItems(parts, items), n) == Restocks(fallback, items, n)
    decreases n
  {
    if n > 0 {
      RestocksOfCleaned(parts, fallback, items, n - 1);
      var c := CleanItems(parts, items)[n - 1];
      assert c == CleanItem(parts, items[n - 1]);
      assert Restock(fallback, c) == Restock(fallback, items[n - 1]);
    }
  }

  // ---------------------------------------------------------------------
  // purchase_update
  // ---------------------------------------------------------------------

  /** A changed existing item form: the item's key and its cleaned fields. */
  datatype Edit = Edit(id: Id, input: ItemInput)

  /** The items of purchase `pk`, as `purchase.items.all()` loads them. */
  function OriginalItems(table: map<Id, PurchaseItem>, pk: Id): (r: map<Id, PurchaseItem>)
    ensures forall x :: x in r <==> x in table && table[x].purchase == pk
    ensures forall x :: x in r ==> r[x] == table[x]
  {
    map x | x in table && table[x].purchase == pk :: table[x]
  }

  predicate EditsKnown(parts: map<Id, Part>, edits: seq<Edit>)
  {
    forall i :: 0 <= i < |edits| && edits[i].input.part.Some? ==> edits[i].input.part.value in parts
  }

  /** The changed item forms after `clean`, in order. */
  function CleanEdits(parts: map<Id, Part>, edits: seq<Edit>): (r: seq<Edit>)
    requires EditsKnown(parts, edits)
    ensures |r| == |edits|
    decreases |edits|
  {
    if edits == [] then []
    else
      assert EditsKnown(parts, edits[..|edits| - 1]);
      var e := edits[|edits| - 1];
      CleanEdits(parts, edits[..|edits| - 1]) + [Edit(e.id, CleanItem(parts, e.input))]
  }

  /** Form k of the cleaned edits is form k cleaned on its own, under its own key. */
  lemma {:induction false} CleanEditsAt(parts: map<Id, Part>, edits: seq<Edit>)
    requires EditsKnown(parts, edits)
    ensures forall k :: 0 <= k < |edits| ==> CleanEdits(parts, edits)[k] == Edit(edits[k].id, CleanItem(parts, edits[k].input))
    decreases |edits|
  {
    if edits != [] {
      assert EditsKnown(parts, edits[..|edits| - 1]);
      CleanEditsAt(parts, edits[..|edits| - 1]);
    }
  }

  /** The stock change an edit causes: the change in quantity, applied to the
      part the form now names, when it names a part and a store and the
      quantity changed. */
  function EditMove(original: map<Id, PurchaseItem>, e: Edit): seq<Move>
  {
    if e.id in original && e.input.part.Some? && e.input.store.Some? && e.input.quantity - original[e.id].quantity != 0.0 then
      [Move(e.input.part.value, e.input.quantity - original[e.id].quantity)]
    else []
  }

  /** The stock changes of the first n edits. */
  function EditMoves(original: map<Id, PurchaseItem>, edits: seq<Edit>, n: nat): seq<Move>
    requires n <= |edits|
  {
    if n == 0 then [] else EditMoves(original, edits, n - 1) + EditMove(original, edits[n - 1])
  }

  /** The cleaned edits move stock exactly as the posted ones. */
  lemma {:induction false} EditMovesOfCleaned(parts: map<Id, Part>, original: map<Id, PurchaseItem>, edits: seq<Edit>, n: nat)
    requires EditsKnown(parts, edits) && n <= |edits|
    requires forall k :: 0 <= k < |edits| ==> CleanEdits(parts, edits)[k] == Edit(edits[k].id, CleanItem(parts, edits[k].input))
    ensures EditMoves(original, CleanEdits(parts, edits), n) == EditMoves(original, edits, n)
    decreases n
  {
    if n > 0 {
      EditMovesOfCleaned(parts, original, edits, n - 1);
      var c := CleanEdits(parts, edits)[n - 1];
      assert c == Edit(edits[n - 1].id, CleanItem(parts, edits[n - 1].input));
      assert EditMove(original, c) == EditMove(original, edits[n - 1]);
    }
  }

  /** The part table after the first n edits, each saving its part from the row in `copy`. */
  function Edited(base: map<Id, Part>, copy: map<Id, Part>, original: map<Id, PurchaseItem>, edits: seq<Edit>, n: nat): (r: map<Id, Part>)
    requires n <= |edits|
    ensures r.Keys == base.Keys
  {
    if n == 0 then base
    else
      var before := Edited(base, copy, original, edits, n - 1);
      var m := EditMove(original, edits[n - 1]);
      if |m| == 0 then before else SaveCopy(before, copy, m[0])
  }

  /** Editing items one by one is the ledger's save-from-copy fold over their stock changes. */
  lemma {:induction false} EditedIsSaveCopies(current: map<Id, Part>, copy: map<Id, Part>, original: map<Id, PurchaseItem>, edits: seq<Edit>, n: nat)
    requires n <= |edits|
    ensures Edited(current, copy, original, edits, n) == SaveCopies(current, copy, EditMoves(original, edits, n))
    decreases n
  {
    if n > 0 {
      EditedIsSaveCopies(current, copy, original, edits, n - 1);
      SaveCopiesStep(current, copy, EditMoves(original, edits, n - 1), EditMove(original, edits[n - 1]));
    }
  }

  /** The item table after the first n edits are saved over their rows. */
  function EditedItems(table: map<Id, PurchaseItem>, pk: Id, edits: seq<Edit>, n: nat): map<Id, PurchaseItem>
    requires n <= |edits|
  {
    if n == 0 then table
    else EditedItems(table, pk, edits, n - 1)[edits[n - 1].id := SavedItem(pk, None, edits[n - 1].input)]
  }

  /** One pass of the edit loop: the part moves by the change in quantity (saved
      from its loaded row) and the item row is overwritten, which takes both
      tables one edit further along their folds. */
  method SaveEdit(db: Database, pk: Id, copy: map<Id, Part>, original: map<Id, PurchaseItem>, edits: seq<Edit>, i: nat, ghost items0: map<Id, PurchaseItem>)
    requires db.Valid() && pk in db.purchases && copy.Keys == db.parts.Keys && i < |edits|
    requires edits[i].id in db.purchaseItems && (edits[i].input.part.Some? ==> edits[i].input.part.value in copy)
    requires db.parts == Edited(copy, copy, original, edits, i)
    requires db.purchaseItems == EditedItems(items0, pk, edits, i)
    modifies db`parts, db`purchaseItems
    ensures db.Valid() && db.purchases == old(db.purchases)
    ensures db.parts == Edited(copy, copy, original, edits, i + 1)
    ensures db.purchaseItems == EditedItems(items0, pk, edits, i + 1) && db.purchaseItems.Keys == old(db.purchaseItems.Keys)
  {
    var e := edits[i];
    var item := e.input;
    if e.id in original && item.part.Some? && item.store.Some? {
      var diff := item.quantity - original[e.id].quantity;
      if diff != 0.0 {
        var p := item.part.value;
        db.SavePart(p, copy[p].(stock := copy[p].stock + diff));
      }
    }
    db.SavePurchaseItem(e.id, SavedItem(pk, None, item));
  }

  /** The loop over the changed existing items. */
  method SaveEdits(db: Database, pk: Id, copy: map<Id, Part>, original: map<Id, PurchaseItem>, edits: seq<Edit>)
    requires db.Valid() && pk in db.purchases && copy.Keys == db.parts.Keys && db.parts == copy
    requires EditsKnown(copy, edits)
    requires forall i :: 0 <= i < |edits| ==> edits[i].id in db.purchaseItems
    modifies db`parts, db`purchaseItems
    ensures db.Valid() && db.purchases == old(db.purchases)
    ensures db.parts == SaveCopies(copy, copy, EditMoves(original, edits, |edits|))
    ensures db.purchaseItems == EditedItems(old(db.purchaseItems), pk, edits, |edits|)
  {
    ghost var items0 := db.purchaseItems;
    var i := 0;
    while i < |edits|
      invariant 0 <= i <= |edits|
      invariant db.parts == Edited(copy, copy, original, edits, i)
      invariant db.purchaseItems == EditedItems(items0, pk, edits, i) && db.purchaseItems.Keys == items0.Keys
      invariant db.purchases == old(db.purchases)
      invariant db.Valid()
    {
      SaveEdit(db, pk, copy, original, edits, i, items0);
      i := i + 1;
    }
    EditedIsSaveCopies(copy, copy, original, edits, |edits|);
  }

  /** The stock a removed item gives back: its quantity, when it is one of the
      purchase's items and has a part and a store. */
  function Withdrawal(original: map<Id, PurchaseItem>, id: Id): seq<Move>
  {
    if id in original && original[id].part.Some? && original[id].store.Some? then [Move(original[id].part.value, original[id].quantity)] else []
  }

  /** The withdrawals of the first n removed items. */
  function Withdrawals(original: map<Id, PurchaseItem>, ids: seq<Id>, n: nat): seq<Move>
    requires n <= |ids|
  {
    if n == 0 then [] else Withdrawals(original, ids, n - 1) + Withdrawal(original, ids[n - 1])
  }

  /** The part table after the first n removed items, each withdrawn from a freshly read row. */
  function Withdrawn(base: map<Id, Part>, original: map<Id, PurchaseItem>, ids: seq<Id>, n: nat): (r: map<Id, Part>)
    requires n <= |ids|
    ensures r.Keys == base.Keys
  {
    if n == 0 then base
    else
      var before := Withdrawn(base, original, ids, n - 1);
      var m := Withdrawal(original, ids[n - 1]);
      if m == [] then before else Withdraw(before, m[0])
  }

  /** Removing items one by one is the ledger's floored withdrawal fold. */
  lemma {:induction false} WithdrawnIsFloored(current: map<Id, Part>, original: map<Id, PurchaseItem>, ids: seq<Id>, n: nat)
    requires n <= |ids|
    ensures Withdrawn(current, original, ids, n) == WithdrawFloored(current, Withdrawals(original, ids, n))
    decreases n
  {
    if n > 0 {
      WithdrawnIsFloored(current, original, ids, n - 1);
      WithdrawStep(current, Withdrawals(original, ids, n - 1), Withdrawal(original, ids[n - 1]));
    }
  }

  /** The parts of the given items exist. */
  predicate ItemPartsIn(original: map<Id, PurchaseItem>, parts: map<Id, Part>)
  {
    forall x :: x in original && original[x].part.Some? ==> original[x].part.value in parts
  }

  /** One removed item: its part, read afresh, loses the quantity, floored at zero. */
  method WithdrawItem(db: Database, original: map<Id, PurchaseItem>, id: Id)
    requires db.Valid() && ItemPartsIn(original, db.parts)
    modifies db`parts
    ensures db.Valid()
    ensures db.parts == if Withdrawal(original, id) == [] then old(db.parts) else Withdraw(old(db.parts), Withdrawal(original, id)[0])
  {
    if id in original {
      var item := original[id];
      if item.part.Some? && item.store.Some? {
        var p := item.part.value;
        var part := db.parts[p];
        var stock := part.stock - item.quantity;
        if stock < 0.0 {
          stock := 0.0;
        }
        db.SavePart(p, part.(stock := stock));
      }
    }
  }

  /** The loop over removed items (`formset.deleted_forms` in `purchase_update`,
      every item in `purchase_delete`). */
  method WithdrawItems(db: Database, original: map<Id, PurchaseItem>, ids: seq<Id>)
    requires db.Valid() && ItemPartsIn(original, db.parts)
    modifies db`parts
    ensures db.Valid()
    ensures db.parts == WithdrawFloored(old(db.parts), Withdrawals(original, ids, |ids|))
  {
    var base := db.parts;
    var i := 0;
    while i < |ids|
      invariant 0 <= i <= |ids|
      invariant db.parts == Withdrawn(base, original, ids, i)
      invariant db.Valid()
    {
      WithdrawItem(db, original, ids[i]);
      i := i + 1;
    }
    WithdrawnIsFloored(base, original, ids, |ids|);
  }

  /** The deleted forms of an update: their quantities come back out of the
      stock, then `formset.save()` drops their rows. */
  method RemoveItems(db: Database, original: map<Id, PurchaseItem>, deleted: seq<Id>)
    requires db.Valid() && ItemPartsIn(original, db.parts)
    modifies db`parts, db`purchaseItems
    ensures db.Valid() && db.purchases == old(db.purchases)
    ensures db.parts == WithdrawFloored(old(db.parts), Withdrawals(original, deleted, |deleted|))
    ensures db.purchaseItems == old(db.purchaseItems) - (set x | x in deleted)
  {
    WithdrawItems(db, original, deleted);
    db.DeletePurchaseItems(set x | x in deleted);
  }

  /** The item formset of an update is valid: the chosen parts are offered, and
      at least one item remains (an existing item not deleted, or a new one). */
  predicate UpdateSetValid(parts: map<Id, Part>, table: map<Id, PurchaseItem>, pk: Id, edits: seq<Edit>, added: seq<ItemInput>, deleted: seq<Id>)
  {
    && (forall i :: 0 <= i < |edits| && edits[i].input.part.Some? ==> edits[i].input.part.value in PartChoices(parts, None))
    && (forall i :: 0 <= i < |added| && added[i].part.Some? ==> added[i].part.value in PartChoices(parts, None))
    && (|added| >= 1 || exists x :: x in table && table[x].purchase == pk && x !in deleted)
  }

  /** Saves the posted header first (its total included), whatever the items;
      with a valid item set it then saves the changed items (moving stock by
      each change in quantity), the new items (raising stock), takes the removed
      items' quantities back out of freshly read rows (floored at zero) and
      finally deletes the removed items. Item forms are stored as `clean` left
      them. `deleted` lists the purchase's own items marked for deletion, each
      once, and none of them is among the changed items. */
  method PurchaseUpdate(db: Database, pk: Id, form: Purchase, edits: seq<Edit>, added: seq<ItemInput>, deleted: seq<Id>) returns (applied: bool)
    requires db.Valid() && pk in db.purchases
    requires forall i :: 0 <= i < |edits| ==> edits[i].id in db.purchaseItems && db.purchaseItems[edits[i].id].purchase == pk
    requires forall i :: 0 <= i < |deleted| ==> deleted[i] in db.purchaseItems && db.purchaseItems[deleted[i]].purchase == pk
    requires forall i, j :: 0 <= i < j < |deleted| ==> deleted[i] != deleted[j]
    requires forall i :: 0 <= i < |edits| ==> edits[i].id !in deleted
    modifies db`parts, db`purchases, db`purchaseItems, db`nextId
    ensures db.Valid()
    ensures db.purchases == old(db.purchases)[pk := form]
    ensures applied <==> UpdateSetValid(old(db.parts), old(db.purchaseItems), pk, edits, added, deleted)
    ensures !applied ==> db.parts == old(db.parts) && db.purchaseItems == old(db.purchaseItems) && db.nextId == old(db.nextId)
    ensures applied ==>
      var original := OriginalItems(old(db.purchaseItems), pk);
      && EditsKnown(old(db.parts), edits) && PartsKnown(old(db.parts), added)
      && db.parts == WithdrawFloored(
           SaveCopies(old(db.parts), old(db.parts), EditMoves(original, edits, |edits|) + Restocks(None, added, |added|)),
           Withdrawals(original, deleted, |deleted|))
      && db.purchaseItems == SavedItems(EditedItems(old(db.purchaseItems), pk, CleanEdits(old(db.parts), edits), |edits|),
                                        old(db.nextId), pk, None, CleanItems(old(db.parts), added), |added|)
                             - (set x | x in deleted)
      && db.nextId == old(db.nextId) + |added|
  {
    db.SavePurchase(pk, form);
    if !UpdateSetValid(db.parts, db.purchaseItems, pk, edits, added, deleted) {
      return false;
    }
    assert EditsKnown(db.parts, edits) && PartsKnown(db.parts, added);
    CleanedUpdate(db.parts, db.purchaseItems, OriginalItems(db.purchaseItems, pk), edits, added);
    SaveItemChanges(db, pk, CleanEdits(db.parts, edits), CleanItems(db.parts, added), deleted);
    applied := true;
  }

  /** Cleaning the forms of an update keeps their keys, the parts they name and
      the stock they move. */
  lemma CleanedUpdate(parts: map<Id, Part>, table: map<Id, PurchaseItem>, original: map<Id, PurchaseItem>, edits: seq<Edit>, added: seq<ItemInput>)
    requires EditsKnown(parts, edits) && PartsKnown(parts, added)
    requires forall i :: 0 <= i < |edits| ==> edits[i].id in table
    ensures EditsKnown(parts, CleanEdits(parts, edits)) && PartsKnown(parts, CleanItems(parts, added))
    ensures forall i :: 0 <= i < |edits| ==> CleanEdits(parts, edits)[i].id in table
    ensures EditMoves(original, CleanEdits(parts, edits), |edits|) == EditMoves(original, edits, |edits|)
    ensures Restocks(None, CleanItems(parts, added), |added|) == Restocks(None, added, |added|)
  {
    CleanEditsAt(parts, edits);
    CleanItemsAt(parts, added);
    EditMovesOfCleaned(parts, original, edits, |edits|);
    RestocksOfCleaned(parts, None, added, |added|);
  }

  /** The valid branch of `purchase_update`, on the cleaned forms: the changed
      items, the new items, then the removed items. */
  method SaveItemChanges(db: Database, pk: Id, edits: seq<Edit>, added: seq<ItemInput>, deleted: seq<Id>)
    requires db.Valid() && pk in db.purchases
    requires forall i :: 0 <= i < |edits| ==> edits[i].id in db.purchaseItems
    requires EditsKnown(db.parts, edits) && PartsKnown(db.parts, added)
    modifies db`parts, db`purchaseItems, db`nextId
    ensures db.Valid() && db.purchases == old(db.purchases)
    ensures var original := OriginalItems(old(db.purchaseItems), pk);
      && db.parts == WithdrawFloored(
           SaveCopies(old(db.parts), old(db.parts), EditMoves(original, edits, |edits|) + Restocks(None, added, |added|)),
           Withdrawals(original, deleted, |deleted|))
      && db.purchaseItems == SavedItems(EditedItems(old(db.purchaseItems), pk, edits, |edits|), old(db.nextId), pk, None, added, |added|)
                             - (set x | x in deleted)
      && db.nextId == old(db.nextId) + |added|
  {
    var parts0 := db.parts;
    var original := OriginalItems(db.purchaseItems, pk);
    assert ItemPartsIn(original, parts0);
    SaveEdits(db, pk, parts0, original, edits);
    assert db.nextId == old(db.nextId) && db.parts.Keys == parts0.Keys;
    var _ := ReceiveItems(db, pk, None, parts0, EditMoves(original, edits, |edits|), added);
    RemoveItems(db, original, deleted);
  }

  // ---------------------------------------------------------------------
  // purchase_delete
  // ---------------------------------------------------------------------

  /** `order` lists the purchase's items once each, in the order the query returns them. */
  predicate ListsItemsOf(table: map<Id, PurchaseItem>, pk: Id, order: seq<Id>)
  {
    && (forall i :: 0 <= i < |order| ==> order[i] in table && table[order[i]].purchase == pk)
    && (forall x :: x in table && table[x].purchase == pk ==> x in order)
    && (forall i, j :: 0 <= i < j < |order| ==> order[i] != order[j])
  }

  /** Takes every item's quantity back out of its (freshly read) part, floored
      at zero, then deletes the purchase and, by cascade, its items. */
  method PurchaseDelete(db: Database, pk: Id, order: seq<Id>)
    requires db.Valid() && pk in db.purchases && ListsItemsOf(db.purchaseItems, pk, order)
    modifies db`parts, db`purchases, db`purchaseItems
    ensures db.Valid()
    ensures db.parts == WithdrawFloored(old(db.parts), Withdrawals(OriginalItems(old(db.purchaseItems), pk), order, |order|))
    ensures db.purchases == old(db.purchases) - {pk}
    ensures db.purchaseItems == map x | x in old(db.purchaseItems) && old(db.purchaseItems)[x].purchase != pk :: old(db.purchaseItems)[x]
  {
    var original := OriginalItems(db.purchaseItems, pk);
    WithdrawItems(db, original, order);
    db.DeletePurchase(pk);
  }

  // ---------------------------------------------------------------------
  // What the three views promise together
  // ---------------------------------------------------------------------

  /** Withdrawing the stored items in the order they were saved names the same
      parts and quantities as receiving them did. */
  lemma {:induction false} StoredWithdrawals(table: map<Id, PurchaseItem>, pid: Id, fallback: Option<StoreId>, items: seq<ItemInput>, n: nat)
    requires n <= |items|
    requires forall x :: x in table ==> table[x].purchase != pid
    ensures Withdrawals(OriginalItems(SavedItems(table, pid + 1, pid, fallback, items, |items|), pid), KeyRange(pid + 1, |items|), n)
            == Restocks(fallback, items, n)
    decreases n
  {
    if n > 0 {
      StoredWithdrawals(table, pid, fallback, items, n - 1);
      SavedItemsAt(table, pid + 1, pid, fallback, items, |items|);
      var stored := SavedItems(table, pid + 1, pid, fallback, items, |items|);
      assert pid + 1 + (n - 1) in stored;
    }
  }

  /** Deleting a purchase right after creating it gives every part its stock
      back, when the items name different parts with non-negative quantities
      and no stock was negative. */
  lemma CreateThenDeleteRestores(parts: map<Id, Part>, table: map<Id, PurchaseItem>, pid: Id, fallback: Option<StoreId>, items: seq<ItemInput>)
    requires PartsKnown(parts, items)
    requires forall x :: x in table ==> table[x].purchase != pid
    requires DistinctParts(Restocks(fallback, items, |items|)) && NonNegative(Restocks(fallback, items, |items|))
    requires forall p :: p in parts ==> parts[p].stock >= 0.0
    ensures var received := SaveCopies(parts, parts, Restocks(fallback, items, |items|));
      var stored := SavedItems(table, pid + 1, pid, fallback, items, |items|);
      WithdrawFloored(received, Withdrawals(OriginalItems(stored, pid), KeyRange(pid + 1, |items|), |items|)) == parts
  {
    StoredWithdrawals(table, pid, fallback, items, |items|);
    RestocksCovered(parts, fallback, items, |items|);
    SaveThenWithdraw(parts, Restocks(fallback, items, |items|));
  }

  lemma {:induction false} RestocksCovered(parts: map<Id, Part>, fallback: Option<StoreId>, items: seq<ItemInput>, n: nat)
    requires n <= |items| && PartsKnown(parts, items)
    ensures Covers(parts, Restocks(fallback, items, n))
    decreases n
  {
    if n > 0 {
      RestocksCovered(parts, fallback, items, n - 1);
    }
  }

  /** Removing items never drives a part below zero, and a part ends at its
      stock minus everything withdrawn from it, floored once at zero. */
  lemma RemovedStockFloors(parts: map<Id, Part>, original: map<Id, PurchaseItem>, ids: seq<Id>, p: Id)
    requires ItemPartsIn(original, parts) && p in parts && parts[p].stock >= 0.0
    requires forall x :: x in original ==> original[x].quantity >= 0.0
    ensures var r := WithdrawFloored(parts, Withdrawals(original, ids, |ids|));
      && r[p] == parts[p].(stock := Floor0(parts[p].stock - AmountFor(Withdrawals(original, ids, |ids|), p)))
      && r[p].stock >= 0.0
  {
    WithdrawalsShape(parts, original, ids, |ids|);
    WithdrawFlooredAt(parts, Withdrawals(original, ids, |ids|), p);
  }

  lemma {:induction false} WithdrawalsShape(parts: map<Id, Part>, original: map<Id, PurchaseItem>, ids: seq<Id>, n: nat)
    requires n <= |ids| && ItemPartsIn(original, parts)
    requires forall x :: x in original ==> original[x].quantity >= 0.0
    ensures Covers(parts, Withdrawals(original, ids, n)) && NonNegative(Withdrawals(original, ids, n))
    decreases n
  {
    if n > 0 {
      WithdrawalsShape(parts, original, ids, n - 1);
    }
  }

  /** Two items of the same part in one invoice: each saves the row loaded with
      its own form, so the second save overwrites the first and the part gains
      only the second quantity (10 + 3, not 10 + 5 + 3). */
  lemma RepeatedPartKeepsLastSave()
    ensures var part := Part("BRK-1", "Brake pad", "", 1, 10.0, 2.0, 4.0, "brakes", "A1");
      var items := [ItemInput(Some(1), Some(7), "", 5.0, 4.0), ItemInput(Some(1), Some(7), "", 3.0, 4.0)];
      SaveCopies(map[7 := part], map[7 := part], Restocks(None, items, 2))[7].stock == 13.0
  {
    var part := Part("BRK-1", "Brake pad", "", 1, 10.0, 2.0, 4.0, "brakes", "A1");
    var items := [ItemInput(Some(1), Some(7), "", 5.0, 4.0), ItemInput(Some(1), Some(7), "", 3.0, 4.0)];
    assert Restocks(None, items, 2) == [Move(7, 5.0), Move(7, 3.0)];
    SaveCopiesAt(map[7 := part], map[7 := part], [Move(7, 5.0), Move(7, 3.0)], 7);
  }

  /** The invoice total of two lines, 5 × 10 and 2 × 20. */
  lemma TotalOfTwoLines()
    ensures Total([ItemInput(None, Some(1), "", 5.0, 10.0), ItemInput(None, Some(2), "", 2.0, 20.0)], 2) == 90.0
  {
  }
}
