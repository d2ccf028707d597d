/** Service job cards (`job_card_create`, `job_card_update`,
    `job_card_delete`): the parts a card uses are taken out of stock when the
    card is created and given back when it is deleted, and the card moves its
    scooter in and out of maintenance. */
module JobCards {
  import opened Common
  import opened Records
  import opened Ledger
  import opened ServiceForms

  /** The job card form as posted (priority, technician, labour and notes are not modelled). */
  datatype CardForm = CardForm(number: string, scooter: Id, store: Option<StoreId>, status: string, actualCompletion: Option<Date>)

  /** One item form that is filled in and not marked for deletion. */
  datatype CardItemInput = CardItemInput(part: Id, quantity: real, unitPrice: real)

  /** An item form of an existing item, with its key. */
  datatype CardEdit = CardEdit(id: Id, input: CardItemInput)

  const Pending := "pending"
  const InProgress := "in_progress"
  const OnHold := "on_hold"

  /** The six checklist items every new card starts with, in this order. */
  const DefaultChecklist: seq<string> := [
    "Brake inspection",
    "Battery check",
    "Tire pressure and condition",
    "Lights and signals testing",
    "Electrical system check",
    "Frame and suspension inspection"]

  // ---------------------------------------------------------------------
  // Scooter status
  // ---------------------------------------------------------------------

  /** A completed card returns its scooter to service, unless it is retired,
      and records the completion date as its last maintenance. */
  function ScooterOnCompletion(s: Scooter, completion: Option<Date>): Scooter
  {
    s.(status := if s.status != Retired then Available else s.status, lastMaintenance := completion)
  }

  /** The scooter as `job_card_create` saves it: completed cards as above, any
      other status puts the scooter into maintenance. */
  function ScooterOnCreate(s: Scooter, status: string, completion: Option<Date>): Scooter
  {
    if status == Completed then ScooterOnCompletion(s, completion) else s.(status := Maintenance)
  }

  /** After a card is created the scooter is available, in maintenance, or
      retired, and it is retired only if it was and the card is completed;
      its store and year never change, and the last maintenance date changes
      only for a completed card. */
  lemma ScooterStatusOnCreate(s: Scooter, status: string, completion: Option<Date>)
    ensures var r := ScooterOnCreate(s, status, completion);
      && (r.status == Available || r.status == Maintenance || r.status == Retired)
      && (r.status == Retired <==> s.status == Retired && status == Completed)
      && (r.status == Available <==> s.status != Retired && status == Completed)
      && (r.status == Maintenance <==> status != Completed)
      && r.store == s.store && r.year == s.year
      && (r.lastMaintenance != s.lastMaintenance ==> status == Completed && r.lastMaintenance == completion)
  {
  }

  /** Applying the completion rule again changes nothing. */
  lemma CompletionIdempotent(s: Scooter, completion: Option<Date>)
    ensures ScooterOnCompletion(ScooterOnCompletion(s, completion), completion) == ScooterOnCompletion(s, completion)
  {
  }

  // ---------------------------------------------------------------------
  // Creation
  // ---------------------------------------------------------------------

  /** The card's store: the one chosen, else the scooter's. */
  function CardStore(form: CardForm, s: Scooter): Option<StoreId>
  {
    if form.store.None? then s.store else form.store
  }

  /** The card `job_card_create` saves for the scooter row s: the store
      falls back to the scooter's, and the scooter's status is remembered. */
  function NewCard(form: CardForm, s: Scooter): JobCard
  {
    JobCard(form.number, form.scooter, CardStore(form, s), form.status, form.actualCompletion, s.status)
  }

  /** The item formset validates: every chosen part is one the item forms offer. */
  predicate ItemsOffered(parts: map<Id, Part>, store: Option<StoreId>, items: seq<CardItemInput>)
  {
    forall i :: 0 <= i < |items| ==> PartOffered(parts, store, items[i].part)
  }

  /** Every line on its own is covered by its part's stock. */
  predicate Stocked(parts: map<Id, Part>, items: seq<CardItemInput>)
  {
    forall i :: 0 <= i < |items| ==> items[i].part in parts && parts[items[i].part].stock >= items[i].quantity
  }

  /** The stock taken by the lines, one move per line. */
  function Consumption(items: seq<CardItemInput>): (r: seq<Move>)
    ensures |r| == |items|
  {
    seq(|items|, i requires 0 <= i < |items| => Move(items[i].part, -items[i].quantity))
  }

  /** The stock check of `job_card_create`: every line is compared with its
      part's stock as loaded by the form, before anything is taken out; the
      first short line stops the check. */
  method CheckStock(parts: map<Id, Part>, items: seq<CardItemInput>) returns (valid: bool, toUpdate: seq<Move>)
    requires forall i :: 0 <= i < |items| ==> items[i].part in parts
    ensures valid <==> Stocked(parts, items)
    ensures valid ==> toUpdate == Consumption(items)
  {
    valid, toUpdate := true, [];
    var i := 0;
    while i < |items|
      invariant 0 <= i <= |items|
      invariant |toUpdate| == i
      invariant forall k :: 0 <= k < i ==> toUpdate[k] == Move(items[k].part, -items[k].quantity)
      invariant forall k :: 0 <= k < i ==> parts[items[k].part].stock >= items[k].quantity
    {
      var part := parts[items[i].part];
      if part.stock >= items[i].quantity {
        toUpdate := toUpdate + [Move(items[i].part, -items[i].quantity)];
      } else {
        valid := false;
        break;
      }
      i := i + 1;
    }
  }

  function CardRow(pk: Id, item: CardItemInput): JobCardItem
  {
    JobCardItem(pk, item.part, item.quantity, item.unitPrice)
  }

  /** The item rows of card pk, in form order. */
  function CardRows(pk: Id, items: seq<CardItemInput>): (r: seq<JobCardItem>)
    ensures |r| == |items|
  {
    seq(|items|, i requires 0 <= i < |items| => CardRow(pk, items[i]))
  }

  /** The checklist rows of a new card pk, unchecked. */
  function ChecklistRows(pk: Id): (r: seq<ChecklistItem>)
    ensures |r| == |DefaultChecklist|
  {
    seq(|DefaultChecklist|, i requires 0 <= i < |DefaultChecklist| => ChecklistItem(pk, DefaultChecklist[i], false))
  }

  /** `formset.save()` for new item forms: the rows are created in order. */
  method CreateCardItems(db: Database, rows: seq<JobCardItem>)
    requires db.Valid()
    requires forall i :: 0 <= i < |rows| ==> rows[i].jobCard in db.jobCards && rows[i].part in db.parts
    modifies db`jobCardItems, db`nextId
    ensures db.Valid() && db.nextId == old(db.nextId) + |rows|
    ensures db.jobCardItems == Appended(old(db.jobCardItems), old(db.nextId), rows, |rows|)
  {
    var i := 0;
    while i < |rows|
      invariant 0 <= i <= |rows|
      invariant db.Valid() && db.nextId == old(db.nextId) + i
      invariant db.jobCardItems == Appended(old(db.jobCardItems), old(db.nextId), rows, i)
    {
      var _ := db.CreateJobCardItem(rows[i]);
      i := i + 1;
    }
  }

  /** The loop creating the default checklist, one row per name in order. */
  method CreateChecklist(db: Database, rows: seq<ChecklistItem>)
    requires db.Valid()
    requires forall i :: 0 <= i < |rows| ==> rows[i].jobCard in db.jobCards
    modifies db`checklist, db`nextId
    ensures db.Valid() && db.nextId == old(db.nextId) + |rows|
    ensures db.checklist == Appended(old(db.checklist), old(db.nextId), rows, |rows|)
  {
    var i := 0;
    while i < |rows|
      invariant 0 <= i <= |rows|
      invariant db.Valid() && db.nextId == old(db.nextId) + i
      invariant db.checklist == Appended(old(db.checklist), old(db.nextId), rows, i)
    {
      var _ := db.CreateChecklistItem(rows[i]);
      i := i + 1;
    }
  }

  /** The successful end of `job_card_create`: take the stock, save the items,
      seed the checklist. */
  method ConsumeAndSeed(db: Database, pk: Id, items: seq<CardItemInput>, toUpdate: seq<Move>)
    requires db.Valid() && pk in db.jobCards
    requires forall i :: 0 <= i < |items| ==> items[i].part in db.parts
    requires toUpdate == Consumption(items)
    modifies db`parts, db`jobCardItems, db`checklist, db`nextId
    ensures db.Valid()
    ensures db.parts == SaveCopies(old(db.parts), old(db.parts), Consumption(items))
    ensures db.jobCardItems == Appended(old(db.jobCardItems), old(db.nextId), CardRows(pk, items), |items|)
    ensures db.checklist == Appended(old(db.checklist), old(db.nextId) + |items|, ChecklistRows(pk), |DefaultChecklist|)
    ensures db.nextId == old(db.nextId) + |items| + |DefaultChecklist|
  {
    ApplySaves(db, db.parts, toUpdate);
    CreateCardItems(db, CardRows(pk, items));
    CreateChecklist(db, ChecklistRows(pk));
  }

  /** The end of `job_card_create` once the card pk is saved: when the item
      forms validate and every line is covered, the stock is taken and the
      items and checklist are saved; otherwise the card is deleted and the
      scooter's status is set back to `previous`. */
  method SaveItemsOrUndo(db: Database, pk: Id, sid: Id, scooter: Scooter, previous: string, store: Option<StoreId>, items: seq<CardItemInput>,
                         ghost cards0: map<Id, JobCard>)
    returns (created: Option<Id>)
    requires db.Valid() && pk in db.jobCards && sid in db.scooters && db.nextId == pk + 1
    requires pk !in cards0 && db.jobCards == cards0[pk := db.jobCards[pk]]
    requires forall i :: i in db.jobCardItems ==> db.jobCardItems[i].jobCard != pk
    requires forall c :: c in db.checklist ==> db.checklist[c].jobCard != pk
    modifies db`parts, db`scooters, db`jobCards, db`jobCardItems, db`checklist, db`nextId
    ensures db.Valid()
    ensures created.Some? <==> ItemsOffered(old(db.parts), store, items) && Stocked(old(db.parts), items)
    ensures created.Some? ==>
      && created.value == pk && db.scooters == old(db.scooters) && db.jobCards == old(db.jobCards)
      && db.parts == SaveCopies(old(db.parts), old(db.parts), Consumption(items))
      && db.jobCardItems == Appended(old(db.jobCardItems), pk + 1, CardRows(pk, items), |items|)
      && db.checklist == Appended(old(db.checklist), pk + 1 + |items|, ChecklistRows(pk), |DefaultChecklist|)
      && db.nextId == pk + 1 + |items| + |DefaultChecklist|
    ensures created.None? ==>
      && db.scooters == old(db.scooters)[sid := scooter.(status := previous)]
      && db.jobCards == cards0
      && db.parts == old(db.parts) && db.jobCardItems == old(db.jobCardItems) && db.checklist == old(db.checklist)
      && db.nextId == old(db.nextId)
  {
    var valid := false;
    var toUpdate: seq<Move> := [];
    if ItemsOffered(db.parts, store, items) {
      valid, toUpdate := CheckStock(db.parts, items);
    }
    if valid {
      ConsumeAndSeed(db, pk, items, toUpdate);
      created := Some(pk);
    } else {
      UndoCard(db, pk, sid, scooter.(status := previous));
      assert db.jobCards == cards0;
      created := None;
    }
  }

  /** A card nothing refers to is deleted alone. */
  lemma NothingCascades<T>(table: map<Id, T>, owner: T -> Id, pk: Id)
    requires forall i :: i in table ==> owner(table[i]) != pk
    ensures (map i | i in table && owner(table[i]) != pk :: table[i]) == table
  {
  }

  /** The compensation of `job_card_create`: `job_card.delete()`, then the
      scooter saved with its status set back. */
  method UndoCard(db: Database, pk: Id, sid: Id, scooter: Scooter)
    requires db.Valid() && sid in db.scooters
    requires forall i :: i in db.jobCardItems ==> db.jobCardItems[i].jobCard != pk
    requires forall c :: c in db.checklist ==> db.checklist[c].jobCard != pk
    modifies db`scooters, db`jobCards, db`jobCardItems, db`checklist
    ensures db.Valid()
    ensures db.scooters == old(db.scooters)[sid := scooter] && db.jobCards == old(db.jobCards) - {pk}
    ensures db.jobCardItems == old(db.jobCardItems) && db.checklist == old(db.checklist)
  {
    NothingCascades(db.jobCardItems, (r: JobCardItem) => r.jobCard, pk);
    NothingCascades(db.checklist, (r: ChecklistItem) => r.jobCard, pk);
    db.DeleteJobCard(pk);
    db.SaveScooter(sid, scooter);
  }

  /** `job_card_create` on a posted form and its item forms. Returns the new
      card's key, or None when the card was not kept: either the form was
      invalid (the scooter is not on offer) and nothing changed, or the card
      was saved and then deleted again because an item failed, leaving only
      the scooter's other fields as `ScooterOnCreate` set them. A kept card
      took each line's stock and received its items and checklist. */
  method JobCardCreate(db: Database, form: CardForm, items: seq<CardItemInput>) returns (created: Option<Id>)
    requires db.Valid()
    modifies db`parts, db`scooters, db`jobCards, db`jobCardItems, db`checklist, db`nextId
    ensures db.Valid()
    ensures !ScooterOffered(old(db.scooters), true, None, form.scooter) ==>
      && created.None?
      && db.parts == old(db.parts) && db.scooters == old(db.scooters) && db.jobCards == old(db.jobCards)
      && db.jobCardItems == old(db.jobCardItems) && db.checklist == old(db.checklist) && db.nextId == old(db.nextId)
    ensures ScooterOffered(old(db.scooters), true, None, form.scooter) ==>
      (created.Some? <==>
        ItemsOffered(old(db.parts), CardStore(form, old(db.scooters)[form.scooter]), items) && Stocked(old(db.parts), items))
    ensures created.Some? ==>
      && created.value == old(db.nextId)
      && db.scooters == old(db.scooters)[form.scooter := ScooterOnCreate(old(db.scooters)[form.scooter], form.status, form.actualCompletion)]
      && db.jobCards == old(db.jobCards)[old(db.nextId) := NewCard(form, old(db.scooters)[form.scooter])]
      && db.parts == SaveCopies(old(db.parts), old(db.parts), Consumption(items))
      && db.jobCardItems == Appended(old(db.jobCardItems), old(db.nextId) + 1, CardRows(old(db.nextId), items), |items|)
      && db.checklist == Appended(old(db.checklist), old(db.nextId) + 1 + |items|, ChecklistRows(old(db.nextId)), |DefaultChecklist|)
    ensures ScooterOffered(old(db.scooters), true, None, form.scooter) && created.None? ==>
      && db.scooters == old(db.scooters)[form.scooter :=
           ScooterOnCreate(old(db.scooters)[form.scooter], form.status, form.actualCompletion).(status := old(db.scooters)[form.scooter].status)]
      && db.parts == old(db.parts) && db.jobCards == old(db.jobCards)
      && db.jobCardItems == old(db.jobCardItems) && db.checklist == old(db.checklist)
  {
    if !ScooterOffered(db.scooters, true, None, form.scooter) {
      return None;
    }
    created := CreateForScooter(db, form, items);
  }

  /** `job_card_create` once the form is valid: the scooter gets its new
      status, the card is saved, and then either the stock is taken and the
      items and checklist are saved, or the card is deleted again because an
      item failed, in which case the scooter's status is put back (a
      completion date it received stays). */
  method CreateForScooter(db: Database, form: CardForm, items: seq<CardItemInput>) returns (created: Option<Id>)
    requires db.Valid() && ScooterOffered(db.scooters, true, None, form.scooter)
    modifies db`parts, db`scooters, db`jobCards, db`jobCardItems, db`checklist, db`nextId
    ensures db.Valid()
    ensures created.Some? <==>
      ItemsOffered(old(db.parts), CardStore(form, old(db.scooters)[form.scooter]), items) && Stocked(old(db.parts), items)
    ensures created.Some? ==>
      && created.value == old(db.nextId)
      && db.scooters == old(db.scooters)[form.scooter := ScooterOnCreate(old(db.scooters)[form.scooter], form.status, form.actualCompletion)]
      && db.jobCards == old(db.jobCards)[old(db.nextId) := NewCard(form, old(db.scooters)[form.scooter])]
      && db.parts == SaveCopies(old(db.parts), old(db.parts), Consumption(items))
      && db.jobCardItems == Appended(old(db.jobCardItems), old(db.nextId) + 1, CardRows(old(db.nextId), items), |items|)
      && db.checklist == Appended(old(db.checklist), old(db.nextId) + 1 + |items|, ChecklistRows(old(db.nextId)), |DefaultChecklist|)
      && db.nextId == old(db.nextId) + 1 + |items| + |DefaultChecklist|
    ensures created.None? ==>
      && db.scooters == old(db.scooters)[form.scooter :=
           ScooterOnCreate(old(db.scooters)[form.scooter], form.status, form.actualCompletion).(status := old(db.scooters)[form.scooter].status)]
      && db.parts == old(db.parts) && db.jobCards == old(db.jobCards)
      && db.jobCardItems == old(db.jobCardItems) && db.checklist == old(db.checklist)
      && db.nextId == old(db.nextId) + 1
  {
    var scooter := db.scooters[form.scooter];
    var previous := scooter.status;
    var store := CardStore(form, scooter);
    scooter := ScooterOnCreate(scooter, form.status, form.actualCompletion);
    var pk := OpenCard(db, form.scooter, scooter, JobCard(form.number, form.scooter, store, form.status, form.actualCompletion, previous));
    assert db.jobCardItems == old(db.jobCardItems) && db.checklist == old(db.checklist) && db.parts == old(db.parts);
    assert db.scooters[form.scooter := scooter.(status := previous)] == old(db.scooters)[form.scooter := scooter.(status := previous)];
    created := SaveItemsOrUndo(db, pk, form.scooter, scooter, previous, store, items, old(db.jobCards));
  }

  /** The first saves of `job_card_create`: the scooter with its new status,
      then the card, which takes the next key. No item or checklist row refers
      to the new card yet. */
  method OpenCard(db: Database, sid: Id, scooter: Scooter, card: JobCard) returns (pk: Id)
    requires db.Valid() && sid in db.scooters && card.scooter == sid
    modifies db`scooters, db`jobCards, db`nextId
    ensures db.Valid() && pk == old(db.nextId) && db.nextId == pk + 1 && pk !in old(db.jobCards)
    ensures db.scooters == old(db.scooters)[sid := scooter] && db.jobCards == old(db.jobCards)[pk := card]
    ensures forall i :: i in db.jobCardItems ==> db.jobCardItems[i].jobCard != pk
    ensures forall c :: c in db.checklist ==> db.checklist[c].jobCard != pk
  {
    db.SaveScooter(sid, scooter);
    pk := db.CreateJobCard(card);
  }

  // ---------------------------------------------------------------------
  // What creation does to the stock
  // ---------------------------------------------------------------------

  /** Every line passed the check, so no part is driven below zero: a part
      named by some line ends at its loaded stock minus the quantity of the
      last line naming it, and the other parts keep their rows. */
  lemma CreateKeepsStockNonNegative(parts: map<Id, Part>, items: seq<CardItemInput>)
    requires Stocked(parts, items)
    requires forall p :: p in parts ==> parts[p].stock >= 0.0
    ensures forall p :: p in parts ==> SaveCopies(parts, parts, Consumption(items))[p].stock >= 0.0
  {
    var moves := Consumption(items);
    assert Covers(parts, moves) by {
      forall i | 0 <= i < |moves| ensures moves[i].part in parts {
        assert moves[i].part == items[i].part;
      }
    }
    forall p | p in parts
      ensures SaveCopies(parts, parts, moves)[p].stock >= 0.0
    {
      SaveCopiesAt(parts, parts, moves, p);
      if LastAmount(moves, p).Some? {
        LastAmountFrom(moves, p);
        var i :| 0 <= i < |moves| && moves[i].part == p && moves[i].amount == LastAmount(moves, p).value;
        assert items[i].part == p && parts[p].stock >= items[i].quantity;
      }
    }
  }

  /** When no part is on two lines, each part's stock drops by exactly the
      quantity of its line, and parts on no line keep their rows. */
  lemma CreateTakesEachLine(parts: map<Id, Part>, items: seq<CardItemInput>)
    requires Stocked(parts, items) && DistinctParts(Consumption(items))
    ensures forall i :: 0 <= i < |items| ==>
      SaveCopies(parts, parts, Consumption(items))[items[i].part]
        == parts[items[i].part].(stock := parts[items[i].part].stock - items[i].quantity)
    ensures forall p :: p in parts && (forall i :: 0 <= i < |items| ==> items[i].part != p) ==>
      SaveCopies(parts, parts, Consumption(items))[p] == parts[p]
  {
    var moves := Consumption(items);
    assert Covers(parts, moves) by {
      forall i | 0 <= i < |moves| ensures moves[i].part in parts {
        assert moves[i].part == items[i].part;
      }
    }
    forall i | 0 <= i < |items|
      ensures SaveCopies(parts, parts, moves)[items[i].part]
        == parts[items[i].part].(stock := parts[items[i].part].stock - items[i].quantity)
    {
      SaveCopiesAt(parts, parts, moves, items[i].part);
      LastOfDistinct(moves, i);
    }
    forall p | p in parts && (forall i :: 0 <= i < |items| ==> items[i].part != p)
      ensures SaveCopies(parts, parts, moves)[p] == parts[p]
    {
      assert forall i :: 0 <= i < |moves| ==> moves[i].part != p by {
        forall i | 0 <= i < |moves| ensures moves[i].part != p {
          assert moves[i].part == items[i].part;
        }
      }
      LastAmountAbsent(moves, p);
      SaveCopiesAt(parts, parts, moves, p);
    }
  }

  /** In moves naming pairwise different parts, the last move naming the part
      of move i is move i. */
  lemma {:induction false} LastOfDistinct(moves: seq<Move>, i: nat)
    requires DistinctParts(moves) && i < |moves|
    ensures LastAmount(moves, moves[i].part) == Some(moves[i].amount)
    decreases |moves|
  {
    if i < |moves| - 1 {
      var init := moves[..|moves| - 1];
      assert DistinctParts(init);
      assert init[i] == moves[i];
      LastOfDistinct(init, i);
    }
  }

  /** Two lines on one part both pass the check against the stock as loaded,
      and the part ends as the last line left it: 5 in stock, lines of 3 and
      of 4, and 1 remains although 7 were used. */
  lemma RepeatedPartLastLineWins()
    ensures var part := Part("BR-1", "Brake pad", "", 1, 5.0, 0.0, 0.0, "", "");
      var parts := map[7 := part];
      var items := [CardItemInput(7, 3.0, 0.0), CardItemInput(7, 4.0, 0.0)];
      && Stocked(parts, items)
      && SaveCopies(parts, parts, Consumption(items))[7].stock == 1.0
  {
    var part := Part("BR-1", "Brake pad", "", 1, 5.0, 0.0, 0.0, "", "");
    var parts := map[7 := part];
    var items := [CardItemInput(7, 3.0, 0.0), CardItemInput(7, 4.0, 0.0)];
    var moves := Consumption(items);
    assert moves == [Move(7, -3.0), Move(7, -4.0)];
    assert moves[..1] == [Move(7, -3.0)];
    assert moves[..1][..0] == [];
  }

  // ---------------------------------------------------------------------
  // Update
  // ---------------------------------------------------------------------

  /** The card as `form.save()` writes it on update; the scooter status saved
      at creation stays. */
  function UpdatedCard(card: JobCard, form: CardForm): JobCard
  {
    JobCard(form.number, form.scooter, form.store, form.status, form.actualCompletion, card.previousScooterStatus)
  }

  /** The existing item forms validate: each one's part is on offer. */
  predicate EditsOffered(parts: map<Id, Part>, store: Option<StoreId>, edits: seq<CardEdit>)
  {
    forall i :: 0 <= i < |edits| ==> PartOffered(parts, store, edits[i].input.part)
  }

  /** The item table after the first n existing item forms were saved. */
  function EditedCardItems(table: map<Id, JobCardItem>, pk: Id, edits: seq<CardEdit>, n: nat): (r: map<Id, JobCardItem>)
    requires n <= |edits|
  {
    if n == 0 then table
    else
      var before := EditedCardItems(table, pk, edits, n - 1);
      before[edits[n - 1].id := CardRow(pk, edits[n - 1].input)]
  }

  /** The input of the last of the first n forms naming item x, if any. */
  function LastEdit(edits: seq<CardEdit>, n: nat, x: Id): Option<CardItemInput>
    requires n <= |edits|
  {
    if n == 0 then None
    else if edits[n - 1].id == x then Some(edits[n - 1].input)
    else LastEdit(edits, n - 1, x)
  }

  /** An item no form names keeps its row; an item the forms name ends as the
      last form naming it wrote it. */
  lemma {:induction false} EditedCardItemsAt(table: map<Id, JobCardItem>, pk: Id, edits: seq<CardEdit>, n: nat, x: Id)
    requires n <= |edits| && x in table
    ensures x in EditedCardItems(table, pk, edits, n)
    ensures LastEdit(edits, n, x).None? ==> EditedCardItems(table, pk, edits, n)[x] == table[x]
    ensures LastEdit(edits, n, x).Some? ==> EditedCardItems(table, pk, edits, n)[x] == CardRow(pk, LastEdit(edits, n, x).value)
    decreases n
  {
    if n > 0 && edits[n - 1].id != x {
      EditedCardItemsAt(table, pk, edits, n - 1, x);
    }
  }

  /** The existing item forms name existing items and parts. */
  predicate EditsKnown(table: map<Id, JobCardItem>, parts: map<Id, Part>, edits: seq<CardEdit>)
  {
    forall i :: 0 <= i < |edits| ==> edits[i].id in table && edits[i].input.part in parts
  }

  /** The loop of `formset.save()` over the existing item forms. */
  method SaveCardEdits(db: Database, pk: Id, edits: seq<CardEdit>)
    requires db.Valid() && pk in db.jobCards
    requires EditsKnown(db.jobCardItems, db.parts, edits)
    modifies db`jobCardItems
    ensures db.Valid() && db.jobCardItems == EditedCardItems(old(db.jobCardItems), pk, edits, |edits|)
  {
    ghost var table0 := db.jobCardItems;
    var i := 0;
    while i < |edits|
      invariant 0 <= i <= |edits|
      invariant db.Valid() && db.jobCardItems == EditedCardItems(table0, pk, edits, i)
      invariant db.jobCardItems.Keys == table0.Keys
    {
      SaveCardEdit(db, pk, edits, i, table0);
      i := i + 1;
    }
  }

  /** One existing item form saved: its row is overwritten, which takes the
      item table one edit further along the fold. */
  method SaveCardEdit(db: Database, pk: Id, edits: seq<CardEdit>, i: nat, ghost table0: map<Id, JobCardItem>)
    requires db.Valid() && pk in db.jobCards && i < |edits|
    requires edits[i].id in db.jobCardItems && edits[i].input.part in db.parts
    requires db.jobCardItems == EditedCardItems(table0, pk, edits, i)
    modifies db`jobCardItems
    ensures db.Valid() && db.jobCardItems == old(db.jobCardItems)[edits[i].id := CardRow(pk, edits[i].input)]
    ensures db.jobCardItems == EditedCardItems(table0, pk, edits, i + 1) && db.jobCardItems.Keys == old(db.jobCardItems).Keys
  {
    db.SaveJobCardItem(edits[i].id, CardRow(pk, edits[i].input));
  }

  /** Every existing item form is validated, changed or not: each item of card
      pk that is neither changed nor marked for deletion must still name a part
      on offer (stock above zero, in the card's store). */
  predicate UntouchedOffered(table: map<Id, JobCardItem>, parts: map<Id, Part>, store: Option<StoreId>, pk: Id,
                             edits: seq<CardEdit>, deleted: set<Id>)
  {
    forall x :: x in table && table[x].jobCard == pk && x !in deleted && (forall i :: 0 <= i < |edits| ==> edits[i].id != x) ==>
      PartOffered(parts, store, table[x].part)
  }

  /** An untouched item whose part has run out (the card itself took the last
      unit, say) makes the whole item formset fail, even with no form changed. */
  lemma UntouchedOutOfStockBlocksSave()
    ensures var parts := map[7 := Part("P-7", "Brake pad", "", 1, 0.0, 0.0, 12.0, "", "")];
            var table := map[10 := JobCardItem(1, 7, 1.0, 12.0)];
            && EditsOffered(parts, Some(1), []) && ItemsOffered(parts, Some(1), [])
            && !UntouchedOffered(table, parts, Some(1), 1, [], {})
  {
    var parts := map[7 := Part("P-7", "Brake pad", "", 1, 0.0, 0.0, 12.0, "", "")];
    var table := map[10 := JobCardItem(1, 7, 1.0, 12.0)];
    assert !PartOffered(parts, Some(1), table[10].part);
  }

  /** The item forms of `job_card_update` once the card is saved. `edits` are
      the changed existing forms, `added` the filled-in new ones, `deleted` the
      card's items marked for deletion. The formset validates when every
      changed or new form names a part on offer and so does every untouched
      item (UntouchedOffered); then the changed items are saved, the new ones
      created and the deleted ones removed. Untouched rows are not rewritten
      and the part stock is never touched. */
  method SaveCardItems(db: Database, pk: Id, store: Option<StoreId>, edits: seq<CardEdit>, added: seq<CardItemInput>, deleted: set<Id>)
    returns (saved: bool)
    requires db.Valid() && pk in db.jobCards
    requires forall i :: 0 <= i < |edits| ==> edits[i].id in db.jobCardItems && db.jobCardItems[edits[i].id].jobCard == pk
    requires forall x :: x in deleted ==> x in db.jobCardItems && db.jobCardItems[x].jobCard == pk
    requires forall i :: 0 <= i < |edits| ==> edits[i].id !in deleted
    modifies db`jobCardItems, db`nextId
    ensures db.Valid()
    ensures saved <==>
      EditsOffered(db.parts, store, edits) && ItemsOffered(db.parts, store, added)
      && UntouchedOffered(old(db.jobCardItems), db.parts, store, pk, edits, deleted)
    ensures saved ==>
      && db.jobCardItems == Appended(EditedCardItems(old(db.jobCardItems), pk, edits, |edits|), old(db.nextId), CardRows(pk, added), |added|) - deleted
      && db.nextId == old(db.nextId) + |added|
    ensures !saved ==> db.jobCardItems == old(db.jobCardItems) && db.nextId == old(db.nextId)
  {
    if !(EditsOffered(db.parts, store, edits) && ItemsOffered(db.parts, store, added)
         && UntouchedOffered(db.jobCardItems, db.parts, store, pk, edits, deleted)) {
      return false;
    }
    SaveCardEdits(db, pk, edits);
    CreateCardItems(db, CardRows(pk, added));
    db.DeleteJobCardItems(deleted);
    saved := true;
  }

  /** `job_card_update` on a posted form and its item forms: `edits` are the
      changed existing item forms, `added` the filled-in new ones, `deleted`
      the keys of the card's items marked for deletion. Returns whether the
      item forms were saved, which also needs every untouched item's part to
      be on offer. An invalid form (a scooter that does
      not exist) changes nothing; a valid one saves the card even when the
      item forms then fail. A completed card returns its scooter to service. */
  method JobCardUpdate(db: Database, pk: Id, form: CardForm, edits: seq<CardEdit>, added: seq<CardItemInput>, deleted: set<Id>)
    returns (saved: bool)
    requires db.Valid() && pk in db.jobCards
    requires forall i :: 0 <= i < |edits| ==> edits[i].id in db.jobCardItems && db.jobCardItems[edits[i].id].jobCard == pk
    requires forall x :: x in deleted ==> x in db.jobCardItems && db.jobCardItems[x].jobCard == pk
    requires forall i :: 0 <= i < |edits| ==> edits[i].id !in deleted
    modifies db`scooters, db`jobCards, db`jobCardItems, db`nextId
    ensures db.Valid() && db.parts == old(db.parts) && db.checklist == old(db.checklist)
    ensures !ScooterOffered(old(db.scooters), false, None, form.scooter) ==>
      && !saved && db.scooters == old(db.scooters) && db.jobCards == old(db.jobCards)
      && db.jobCardItems == old(db.jobCardItems) && db.nextId == old(db.nextId)
    ensures ScooterOffered(old(db.scooters), false, None, form.scooter) ==>
      && db.jobCards == old(db.jobCards)[pk := UpdatedCard(old(db.jobCards)[pk], form)]
      && (saved <==>
           EditsOffered(old(db.parts), form.store, edits) && ItemsOffered(old(db.parts), form.store, added)
           && UntouchedOffered(old(db.jobCardItems), old(db.parts), form.store, pk, edits, deleted))
      && (saved ==>
        && db.jobCardItems == Appended(EditedCardItems(old(db.jobCardItems), pk, edits, |edits|), old(db.nextId), CardRows(pk, added), |added|) - deleted
        && db.nextId == old(db.nextId) + |added|
        && db.scooters == (if form.status == Completed
                           then old(db.scooters)[form.scooter := ScooterOnCompletion(old(db.scooters)[form.scooter], form.actualCompletion)]
                           else old(db.scooters)))
      && (!saved ==> db.scooters == old(db.scooters) && db.jobCardItems == old(db.jobCardItems) && db.nextId == old(db.nextId))
  {
    if !ScooterOffered(db.scooters, false, None, form.scooter) {
      return false;
    }
    db.SaveJobCard(pk, UpdatedCard(db.jobCards[pk], form));
    saved := SaveCardItems(db, pk, form.store, edits, added, deleted);
    if saved && form.status == Completed {
      var scooter := db.scooters[form.scooter];
      db.SaveScooter(form.scooter, ScooterOnCompletion(scooter, form.actualCompletion));
    }
  }

  // ---------------------------------------------------------------------
  // Deletion
  // ---------------------------------------------------------------------

  /** `order` lists every item of card pk once (the order the query returns them in). */
  predicate ListsCardItems(table: map<Id, JobCardItem>, pk: Id, order: seq<Id>)
  {
    && (forall i :: 0 <= i < |order| ==> order[i] in table && table[order[i]].jobCard == pk)
    && (forall x :: x in table && table[x].jobCard == pk ==> x in order)
    && (forall i, j :: 0 <= i < j < |order| ==> order[i] != order[j])
  }

  /** The stock the listed items give back, one move per item. */
  function CardReturns(table: map<Id, JobCardItem>, order: seq<Id>): (r: seq<Move>)
    requires forall i :: 0 <= i < |order| ==> order[i] in table
    ensures |r| == |order|
  {
    seq(|order|, i requires 0 <= i < |order| => Move(table[order[i]].part, table[order[i]].quantity))
  }

  /** The statuses of a card still being worked on. */
  predicate Active(status: string)
  {
    status == Pending || status == InProgress || status == OnHold
  }

  /** The other cards of scooter sid that are still being worked on. */
  function ActiveOthers(jobCards: map<Id, JobCard>, pk: Id, sid: Id): set<Id>
  {
    set j | j in jobCards && j != pk && jobCards[j].scooter == sid && Active(jobCards[j].status)
  }

  /** The year `job_card_delete` takes as the current one. */
  const CurrentYear := 2025

  /** Deleting card pk puts its scooter back into service: no other card of the
      scooter is active, the scooter is in maintenance, and it is not older
      than ten years (older ones are taken to be retired). */
  predicate BackInService(jobCards: map<Id, JobCard>, pk: Id, sid: Id, s: Scooter)
  {
    |ActiveOthers(jobCards, pk, sid)| == 0 && s.status == Maintenance && !(s.year < CurrentYear - 10)
  }

  /** `job_card_delete`: every item's quantity is added back to its part (rows
      loaded with the items, so the last item of a part wins), the scooter may
      go back into service, and the card is deleted with its items and
      checklist. */
  method JobCardDelete(db: Database, pk: Id, order: seq<Id>)
    requires db.Valid() && pk in db.jobCards && ListsCardItems(db.jobCardItems, pk, order)
    modifies db`parts, db`scooters, db`jobCards, db`jobCardItems, db`checklist
    ensures db.Valid()
    ensures db.parts == SaveCopies(old(db.parts), old(db.parts), CardReturns(old(db.jobCardItems), order))
    ensures var sid := old(db.jobCards)[pk].scooter;
      sid in old(db.scooters) &&
      db.scooters == if BackInService(old(db.jobCards), pk, sid, old(db.scooters)[sid])
                     then old(db.scooters)[sid := old(db.scooters)[sid].(status := Available)]
                     else old(db.scooters)
    ensures db.jobCards == old(db.jobCards) - {pk}
    ensures db.jobCardItems == map i | i in old(db.jobCardItems) && old(db.jobCardItems)[i].jobCard != pk :: old(db.jobCardItems)[i]
    ensures db.checklist == map c | c in old(db.checklist) && old(db.checklist)[c].jobCard != pk :: old(db.checklist)[c]
  {
    var given := CardReturns(db.jobCardItems, order);
    ApplySaves(db, db.parts, given);
    var sid := db.jobCards[pk].scooter;
    var scooter := db.scooters[sid];
    var others := ActiveOthers(db.jobCards, pk, sid);
    if |others| == 0 && scooter.status == Maintenance {
      if scooter.year < CurrentYear - 10 {
        // the scooter is taken to be retired and keeps its status
      } else {
        db.SaveScooter(sid, scooter.(status := Available));
      }
    }
    db.DeleteJobCard(pk);
  }

  /** Two items of the card on one part each carry their own copy of the part
      row, so only the last one's quantity comes back: 1 in stock, items of 3
      and of 4, and the part ends at 5 rather than 8. */
  lemma DeleteRepeatedPartLastItemWins()
    ensures var part := Part("BR-1", "Brake pad", "", 1, 1.0, 0.0, 0.0, "", "");
      var parts := map[7 := part];
      var table := map[10 := JobCardItem(1, 7, 3.0, 0.0), 11 := JobCardItem(1, 7, 4.0, 0.0)];
      && ListsCardItems(table, 1, [10, 11])
      && SaveCopies(parts, parts, CardReturns(table, [10, 11]))[7].stock == 5.0
  {
    var table := map[10 := JobCardItem(1, 7, 3.0, 0.0), 11 := JobCardItem(1, 7, 4.0, 0.0)];
    var moves := CardReturns(table, [10, 11]);
    assert moves == [Move(7, 3.0), Move(7, 4.0)];
    assert moves[..1] == [Move(7, 3.0)];
    assert moves[..1][..0] == [];
  }

  /** Deleting a card just created gives every part back what the card took,
      when no part is on two lines: the created items are exactly the card's
      items, listed in the order they were saved, and returning them restores
      the part table. */
  lemma CreateThenDeleteRestoresStock(parts: map<Id, Part>, table: map<Id, JobCardItem>, pk: Id, items: seq<CardItemInput>)
    requires Stocked(parts, items) && DistinctParts(Consumption(items))
    requires forall i :: i in table ==> i <= pk && table[i].jobCard != pk
    ensures var stored := Appended(table, pk + 1, CardRows(pk, items), |items|);
      var order := KeyRange(pk + 1, |items|);
      && ListsCardItems(stored, pk, order)
      && var taken := SaveCopies(parts, parts, Consumption(items));
         SaveCopies(taken, taken, CardReturns(stored, order)) == parts
  {
    var stored := Appended(table, pk + 1, CardRows(pk, items), |items|);
    var order := KeyRange(pk + 1, |items|);
    var moves := Consumption(items);
    AppendedAt(table, pk + 1, CardRows(pk, items), |items|);
    assert ListsCardItems(stored, pk, order) by {
      forall x | x in stored && stored[x].jobCard == pk
        ensures x in order
      {
        assert order[x - (pk + 1)] == x;
      }
    }
    assert CardReturns(stored, order) == Negated(moves) by {
      forall k | 0 <= k < |items|
        ensures CardReturns(stored, order)[k] == Negated(moves)[k]
      {
        assert stored[order[k]] == CardRow(pk, items[k]);
      }
    }
    assert Covers(parts, moves) by {
      forall i | 0 <= i < |moves| ensures moves[i].part in parts {
        assert moves[i].part == items[i].part;
      }
    }
    SaveCopiesUndo(parts, moves);
  }
}
