/** The purchase item form: its part choices, the description it fills in, and
    the item set's minimum of one item. */
module InventoryForms {
  import opened Common
  import opened Records

  /** One item form as posted: its store, part, description, quantity and price. */
  datatype ItemInput = ItemInput(store: Option<StoreId>, part: Option<Id>, description: string, quantity: real, unitPrice: real)

  /** `PurchaseItemForm.clean`: a missing description is derived from the part,
      or is the generic text when there is no part. */
  function CleanedDescription(part: Option<Part>, description: string): (d: string)
    ensures d != ""
    ensures description != "" ==> d == description
  {
    if description != "" then description
    else if part.Some? then part.value.name + " - " + part.value.partNumber
    else "General Purchase Item"
  }

  /** Cleaning an already cleaned item changes nothing, and the description is
      determined by the part alone exactly when none was given. */
  lemma CleanIdempotent(part: Option<Part>, description: string)
    ensures CleanedDescription(part, CleanedDescription(part, description)) == CleanedDescription(part, description)
    ensures description == "" ==>
      CleanedDescription(part, description) == (if part.Some? then part.value.name + " - " + part.value.partNumber else "General Purchase Item")
  {
  }

  /** The part choices of an item form: the given store's parts, or all parts. */
  function PartChoices(parts: map<Id, Part>, store: Option<StoreId>): (r: set<Id>)
    ensures r <= parts.Keys
    ensures store.None? ==> r == parts.Keys
    ensures store.Some? ==> forall q :: q in r ==> parts[q].store == store.value
  {
    set q | q in parts && (store.None? || parts[q].store == store.value)
  }

  /** Every part of a store is offered when that store is chosen, and the
      stores' choices partition the unrestricted choice. */
  lemma ChoicesByStore(parts: map<Id, Part>, q: Id)
    requires q in parts
    ensures q in PartChoices(parts, Some(parts[q].store))
    ensures forall s: StoreId :: s != parts[q].store ==> q !in PartChoices(parts, Some(s))
  {
  }

  /** The chosen parts of the item forms exist. */
  predicate PartsKnown(parts: map<Id, Part>, items: seq<ItemInput>)
  {
    forall i :: 0 <= i < |items| && items[i].part.Some? ==> items[i].part.value in parts
  }

  /** An item form after `clean`: the description filled in from its part. */
  function CleanItem(parts: map<Id, Part>, item: ItemInput): ItemInput
    requires item.part.Some? ==> item.part.value in parts
  {
    var part := if item.part.Some? then Some(parts[item.part.value]) else None;
    item.(description := CleanedDescription(part, item.description))
  }

  /** All item forms after `clean`, in order. */
  function CleanItems(parts: map<Id, Part>, items: seq<ItemInput>): (r: seq<ItemInput>)
    requires PartsKnown(parts, items)
    ensures |r| == |items|
    decreases |items|
  {
    if items == [] then []
    else
      assert PartsKnown(parts, items[..|items| - 1]);
      CleanItems(parts, items[..|items| - 1]) + [CleanItem(parts, items[|items| - 1])]
  }

  /** Form k of the cleaned set is form k cleaned on its own. */
  lemma {:induction false} CleanItemsAt(parts: map<Id, Part>, items: seq<ItemInput>)
    requires PartsKnown(parts, items)
    ensures forall k :: 0 <= k < |items| ==> CleanItems(parts, items)[k] == CleanItem(parts, items[k])
    decreases |items|
  {
    if items != [] {
      assert PartsKnown(parts, items[..|items| - 1]);
      CleanItemsAt(parts, items[..|items| - 1]);
    }
  }

  /** `PurchaseItemFormSet` (min_num=1, validate_min): at least one item, and
      every chosen part is one of the offered parts (the set is built without a store). */
  predicate ItemSetValid(parts: map<Id, Part>, items: seq<ItemInput>)
  {
    && |items| >= 1
    && forall i :: 0 <= i < |items| && items[i].part.Some? ==> items[i].part.value in PartChoices(parts, None)
  }

  /** A valid item set names only existing parts, and cleaning it keeps every
      field but the description; a given description survives cleaning, and a
      missing one is filled in. */
  lemma ValidItemsClean(parts: map<Id, Part>, items: seq<ItemInput>)
    requires ItemSetValid(parts, items)
    ensures PartsKnown(parts, items) && PartsKnown(parts, CleanItems(parts, items))
    ensures forall k :: 0 <= k < |items| ==>
      var c := CleanItems(parts, items)[k];
      && c.store == items[k].store && c.part == items[k].part
      && c.quantity == items[k].quantity && c.unitPrice == items[k].unitPrice
      && c.description != ""
      && (items[k].description != "" ==> c.description == items[k].description)
  {
    CleanItemsAt(parts, items);
  }
}
