/** Stock transfers between stores (`stock_transfer_create`,
    `stock_transfer_update`). Creating a transfer takes the quantity out of the
    source part at once; the destination is credited when an update moves the
    transfer into the `completed` status, by finding the destination store's part
    with the same part number or creating it. The clock and the random digits of
    the transfer number are inputs. */
module Transfers {
  import opened Common
  import opened Records

  /** The fields the transfer form posts (the transfer date and notes are not modelled). */
  datatype TransferForm = TransferForm(source: StoreId, destination: StoreId, part: Id, quantity: real, status: string)

  /** The field ranges in which `%Y%m%d` writes four, two and two digits. This
      is only a bound on the stamp's fields; which days a month has is
      Calendar.ValidDate's concern. */
  predicate StampFields(d: Date)
  {
    1000 <= d.year <= 9999 && 1 <= d.month <= 12 && 1 <= d.day <= 31
  }

  /** `strftime('%Y%m%d')`. */
  function DateStamp(d: Date): (s: string)
    requires StampFields(d)
    ensures |s| == 8
  {
    Pow10Table();
    PaddedDecimalWidth(d.year, 4);
    PaddedDecimalWidth(d.month, 2);
    PaddedDecimalWidth(d.day, 2);
    PaddedDecimal(d.year, 4) + PaddedDecimal(d.month, 2) + PaddedDecimal(d.day, 2)
  }

  predicate RandomDigits(digits: seq<nat>)
  {
    |digits| == 4 && forall i :: 0 <= i < |digits| ==> digits[i] < 10
  }

  /** `''.join(str(random.randint(0, 9)) for _ in range(4))`, the draws given. */
  function DigitText(digits: seq<nat>): (s: string)
    requires forall i :: 0 <= i < |digits| ==> digits[i] < 10
    ensures |s| == |digits|
  {
    if digits == [] then [] else [DigitChar(digits[0])] + DigitText(digits[1..])
  }

  /** `TRF-YYYYMMDD-XXXX`. */
  function TransferNumber(today: Date, digits: seq<nat>): (n: string)
    requires StampFields(today) && RandomDigits(digits)
  {
    "TRF-" + DateStamp(today) + "-" + DigitText(digits)
  }

  lemma {:induction false} DigitTextValues(digits: seq<nat>)
    requires forall i :: 0 <= i < |digits| ==> digits[i] < 10
    ensures forall i :: 0 <= i < |digits| ==> DigitValue(DigitText(digits)[i]) == digits[i]
    ensures AllDigits(DigitText(digits))
    decreases |digits|
  {
    if digits != [] {
      DigitTextValues(digits[1..]);
      DigitRoundTrip(digits[0]);
    }
  }

  lemma Pieces3(a: string, b: string, c: string)
    ensures (a + b + c)[..|a|] == a
    ensures (a + b + c)[|a|..|a| + |b|] == b
    ensures (a + b + c)[|a| + |b|..] == c
  {
  }

  lemma DateStampFields(d: Date)
    requires StampFields(d)
    ensures DigitsValue(DateStamp(d)[..4]) == d.year
    ensures DigitsValue(DateStamp(d)[4..6]) == d.month
    ensures DigitsValue(DateStamp(d)[6..]) == d.day
    ensures AllDigits(DateStamp(d))
  {
    var y, m, dd := PaddedDecimal(d.year, 4), PaddedDecimal(d.month, 2), PaddedDecimal(d.day, 2);
    Pow10Table();
    PaddedDecimalWidth(d.year, 4);
    PaddedDecimalWidth(d.month, 2);
    PaddedDecimalWidth(d.day, 2);
    assert DateStamp(d) == y + m + dd;
    Pieces3(y, m, dd);
    PaddedDecimalValue(d.year, 4);
    PaddedDecimalValue(d.month, 2);
    PaddedDecimalValue(d.day, 2);
    ConcatDigits(y, m);
    ConcatDigits(y + m, dd);
  }

  /** The number is 17 characters, `TRF-`, eight date digits, `-` and four
      digits, and the date and the four draws can be read back from it. */
  lemma TransferNumberFormat(today: Date, digits: seq<nat>)
    requires StampFields(today) && RandomDigits(digits)
    ensures var n := TransferNumber(today, digits);
      && |n| == 17 && n[..4] == "TRF-" && n[12] == '-'
      && AllDigits(n[4..12]) && AllDigits(n[13..])
      && DigitsValue(n[4..8]) == today.year && DigitsValue(n[8..10]) == today.month
      && DigitsValue(n[10..12]) == today.day
      && forall i :: 0 <= i < 4 ==> DigitValue(n[13 + i]) == digits[i]
  {
    var stamp, tail := DateStamp(today), DigitText(digits);
    var n := TransferNumber(today, digits);
    assert n == "TRF-" + stamp + "-" + tail;
    assert n[4..12] == stamp && n[13..] == tail;
    assert n[4..8] == stamp[..4] && n[8..10] == stamp[4..6] && n[10..12] == stamp[6..];
    DateStampFields(today);
    DigitTextValues(digits);
  }

  // ---------------------------------------------------------------------
  // Creation: take the quantity out of the source part
  // ---------------------------------------------------------------------

  /** The guard of the create view: the part is kept at the source store and holds enough. */
  predicate CanShip(p: Part, form: TransferForm)
  {
    p.store == form.source && p.stock >= form.quantity
  }

  method StockTransferCreate(db: Database, form: TransferForm, today: Date, digits: seq<nat>) returns (created: Option<Id>)
    requires db.Valid() && form.part in db.parts
    requires StampFields(today) && RandomDigits(digits)
    modifies db`parts, db`transfers, db`nextId
    ensures db.Valid()
    ensures created.Some? <==> CanShip(old(db.parts)[form.part], form)
    ensures created.Some? ==>
      && created.value == old(db.nextId) && db.nextId == old(db.nextId) + 1
      && db.parts == old(db.parts)[form.part := old(db.parts)[form.part].(stock := old(db.parts)[form.part].stock - form.quantity)]
      && db.transfers == old(db.transfers)[created.value :=
           StockTransfer(TransferNumber(today, digits), form.source, form.destination, form.part, form.quantity, form.status)]
    ensures created.None? ==> db.parts == old(db.parts) && db.transfers == old(db.transfers) && db.nextId == old(db.nextId)
  {
    var number := TransferNumber(today, digits);
    var part := db.parts[form.part];
    if part.store == form.source && part.stock >= form.quantity {
      db.parts := db.parts[form.part := part.(stock := part.stock - form.quantity)];
      var id := db.NewId();
      db.transfers := db.transfers[id := StockTransfer(number, form.source, form.destination, form.part, form.quantity, form.status)];
      created := Some(id);
    } else {
      created := None;
    }
  }

  // ---------------------------------------------------------------------
  // Completion: credit the destination store's part of the same number
  // ---------------------------------------------------------------------

  /** The status change that credits the destination. */
  predicate Credits(oldStatus: string, newStatus: string)
  {
    oldStatus != Completed && newStatus == Completed
  }

  /** The rows `Parts.objects.get(part_number=…, store=…)` can return. */
  ghost function Matches(parts: map<Id, Part>, partNumber: string, store: StoreId): set<Id>
  {
    set q | q in parts && parts[q].partNumber == partNumber && parts[q].store == store
  }

  /** An existing destination part: stock raised, descriptive fields copied from the source. */
  function Refreshed(dest: Part, src: Part, quantity: real): Part
  {
    dest.(stock := dest.stock + quantity, name := src.name, description := src.description,
          reorderLevel := src.reorderLevel, unitPrice := src.unitPrice, category := src.category,
          location := src.location)
  }

  /** A destination part created from the source part, holding the transferred quantity. */
  function Opened(src: Part, store: StoreId, quantity: real): Part
  {
    Part(src.partNumber, src.name, src.description, store, quantity, src.reorderLevel, src.unitPrice, src.category, src.location)
  }

  /** The part table after crediting `quantity` of `src` at `store`; None when
      the lookup finds several rows (`MultipleObjectsReturned`). */
  ghost function Credit(parts: map<Id, Part>, src: Part, store: StoreId, quantity: real, freshId: Id): Option<map<Id, Part>>
  {
    var found := Matches(parts, src.partNumber, store);
    if |found| == 0 then Some(parts[freshId := Opened(src, store, quantity)])
    else if |found| == 1 then
      var d :| d in found;
      Some(parts[d := Refreshed(parts[d], src, quantity)])
    else None
  }

  lemma SingletonElement(s: set<Id>, d: Id)
    requires |s| == 1 && d in s
    ensures s == {d}
  {
    if e :| e in s && e != d {
      assert {d, e} <= s;
      assert |{d, e}| == 2;
      SubsetCard({d, e}, s);
    }
  }

  lemma SubsetCard(a: set<Id>, b: set<Id>)
    requires a <= b
    ensures |a| <= |b|
  {
    if a != {} {
      var x :| x in a;
      SubsetCard(a - {x}, b - {x});
    }
  }

  /** While the destination store holds at most one part of that number, the
      credit succeeds; afterwards the store holds exactly one, with the previous
      stock plus the quantity (or just the quantity when it was created), and
      every part outside the match keeps its row. */
  lemma CreditLands(parts: map<Id, Part>, src: Part, store: StoreId, quantity: real, freshId: Id)
    requires freshId !in parts && |Matches(parts, src.partNumber, store)| <= 1
    ensures Credit(parts, src, store, quantity, freshId).Some?
    ensures var r := Credit(parts, src, store, quantity, freshId).value;
      exists d :: Matches(r, src.partNumber, store) == {d} &&
        r[d].stock == quantity + (if d in parts then parts[d].stock else 0.0)
    ensures var r := Credit(parts, src, store, quantity, freshId).value;
      forall x :: x in parts && x !in Matches(parts, src.partNumber, store) ==> x in r && r[x] == parts[x]
  {
    var found := Matches(parts, src.partNumber, store);
    var r := Credit(parts, src, store, quantity, freshId).value;
    if |found| == 0 {
      assert found == {};
      assert Matches(r, src.partNumber, store) == {freshId};
    } else {
      var d :| d in found && r == parts[d := Refreshed(parts[d], src, quantity)];
      SingletonElement(found, d);
      assert Matches(r, src.partNumber, store) == {d};
    }
  }

  method StockTransferUpdate(db: Database, pk: Id, form: TransferForm) returns (saved: bool)
    requires db.Valid() && pk in db.transfers && form.part in db.parts
    modifies db`parts, db`transfers, db`nextId
    ensures db.Valid()
    ensures !Credits(old(db.transfers)[pk].status, form.status) ==> saved && db.parts == old(db.parts) && db.nextId == old(db.nextId)
    ensures Credits(old(db.transfers)[pk].status, form.status) ==>
      var credit := Credit(old(db.parts), old(db.parts)[form.part], form.destination, form.quantity, old(db.nextId));
      && (saved <==> credit.Some?)
      && (saved ==> db.parts == credit.value)
      && (!saved ==> db.parts == old(db.parts))
    ensures saved ==> db.transfers == old(db.transfers)[pk :=
      StockTransfer(old(db.transfers)[pk].number, form.source, form.destination, form.part, form.quantity, form.status)]
    ensures !saved ==> db.transfers == old(db.transfers)
  {
    var oldStatus := db.transfers[pk].status;
    if oldStatus != Completed && form.status == Completed {
      var src := db.parts[form.part];
      var found := set q | q in db.parts && db.parts[q].partNumber == src.partNumber && db.parts[q].store == form.destination;
      if |found| == 0 {
        var id := db.NewId();
        db.parts := db.parts[id := Opened(src, form.destination, form.quantity)];
      } else if |found| == 1 {
        var d :| d in found;
        SingletonElement(found, d);
        db.parts := db.parts[d := Refreshed(db.parts[d], src, form.quantity)];
      } else {
        return false;
      }
    }
    db.transfers := db.transfers[pk := StockTransfer(db.transfers[pk].number, form.source, form.destination, form.part, form.quantity, form.status)];
    saved := true;
  }
}
