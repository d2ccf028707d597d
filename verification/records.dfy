/** The rows the inventory, purchasing and service views read and write, and
    the database that holds them: one map per table from primary key to row,
    and one auto-increment counter that hands out primary keys. Store rows are
    only referred to by their key. Stock, quantities and prices are decimals. */
module Records {
  import opened Common

  type StoreId = nat
  type Id = nat

  datatype Date = Date(year: int, month: int, day: int)

  /** A stock-keeping unit of one store; `stock` may be fractional (litres of oil). */
  datatype Part = Part(
    partNumber: string,
    name: string,
    description: string,
    store: StoreId,
    stock: real,
    reorderLevel: real,
    unitPrice: real,
    category: string,
    location: string)

  datatype Scooter = Scooter(status: string, store: Option<StoreId>, year: int, lastMaintenance: Option<Date>)

  datatype StockTransfer = StockTransfer(
    number: string,
    source: StoreId,
    destination: StoreId,
    part: Id,
    quantity: real,
    status: string)

  datatype Purchase = Purchase(invoiceNumber: string, store: Option<StoreId>, status: string, totalAmount: real, amountPaid: real)

  datatype PurchaseItem = PurchaseItem(
    purchase: Id,
    store: Option<StoreId>,
    part: Option<Id>,
    description: string,
    quantity: real,
    unitPrice: real)

  datatype JobCard = JobCard(
    number: string,
    scooter: Id,
    store: Option<StoreId>,
    status: string,
    actualCompletion: Option<Date>,
    previousScooterStatus: string)

  datatype JobCardItem = JobCardItem(jobCard: Id, part: Id, quantity: real, unitPrice: real)

  datatype ChecklistItem = ChecklistItem(jobCard: Id, name: string, checked: bool)

  const Completed := "completed"
  const Available := "available"
  const Maintenance := "maintenance"
  const Retired := "retired"

  predicate KeysBelow<T>(table: map<Id, T>, bound: nat)
  {
    forall k :: k in table ==> k < bound
  }

  /** The keys `first`, `first + 1`, ..., `first + n - 1`, as the counter hands them out in a row. */
  function KeyRange(first: Id, n: nat): (r: seq<Id>)
    ensures |r| == n && forall k :: 0 <= k < n ==> r[k] == first + k
  {
    seq(n, k requires 0 <= k => first + k)
  }

  /** A table after the first n of `rows` were created one after another,
      taking consecutive keys from `firstId`. */
  function Appended<T>(table: map<Id, T>, firstId: Id, rows: seq<T>, n: nat): map<Id, T>
    requires n <= |rows|
  {
    if n == 0 then table else Appended(table, firstId, rows, n - 1)[firstId + n - 1 := rows[n - 1]]
  }

  /** Row k is stored under key firstId + k, every other key keeps its row, and
      no other key appears. */
  lemma {:induction false} AppendedAt<T>(table: map<Id, T>, firstId: Id, rows: seq<T>, n: nat)
    requires n <= |rows|
    ensures forall x :: firstId <= x < firstId + n ==>
      x in Appended(table, firstId, rows, n) && Appended(table, firstId, rows, n)[x] == rows[x - firstId]
    ensures forall x :: x in table && !(firstId <= x < firstId + n) ==>
      x in Appended(table, firstId, rows, n) && Appended(table, firstId, rows, n)[x] == table[x]
    ensures forall x :: x in Appended(table, firstId, rows, n) ==> x in table || firstId <= x < firstId + n
    decreases n
  {
    if n > 0 {
      AppendedAt(table, firstId, rows, n - 1);
    }
  }

  class Database {
    var parts: map<Id, Part>
    var scooters: map<Id, Scooter>
    var transfers: map<Id, StockTransfer>
    var purchases: map<Id, Purchase>
    var purchaseItems: map<Id, PurchaseItem>
    var jobCards: map<Id, JobCard>
    var jobCardItems: map<Id, JobCardItem>
    var checklist: map<Id, ChecklistItem>
    var nextId: nat

    /** Every key was handed out by the counter. */
    ghost predicate Fresh()
      reads this
    {
      && KeysBelow(parts, nextId) && KeysBelow(scooters, nextId) && KeysBelow(transfers, nextId)
      && KeysBelow(purchases, nextId) && KeysBelow(purchaseItems, nextId) && KeysBelow(jobCards, nextId)
      && KeysBelow(jobCardItems, nextId) && KeysBelow(checklist, nextId)
    }

    /** Foreign keys point at existing rows. */
    ghost predicate Linked()
      reads this
    {
      && (forall t :: t in transfers ==> transfers[t].part in parts)
      && (forall i :: i in purchaseItems ==> purchaseItems[i].purchase in purchases)
      && (forall i :: i in purchaseItems && purchaseItems[i].part.Some? ==> purchaseItems[i].part.value in parts)
      && (forall j :: j in jobCards ==> jobCards[j].scooter in scooters)
      && (forall i :: i in jobCardItems ==> jobCardItems[i].jobCard in jobCards && jobCardItems[i].part in parts)
      && (forall c :: c in checklist ==> checklist[c].jobCard in jobCards)
    }

    ghost predicate Valid()
      reads this
    {
      Fresh() && Linked()
    }

    constructor ()
      ensures Valid() && nextId == 0
      ensures parts == map[] && scooters == map[] && transfers == map[] && purchases == map[]
      ensures purchaseItems == map[] && jobCards == map[] && jobCardItems == map[] && checklist == map[]
    {
      parts, scooters, transfers, purchases := map[], map[], map[], map[];
      purchaseItems, jobCards, jobCardItems, checklist := map[], map[], map[], map[];
      nextId := 0;
    }

    /** The auto-increment counter: a key no table uses yet. */
    method NewId() returns (id: Id)
      requires Fresh()
      modifies this`nextId
      ensures id == old(nextId) && nextId == id + 1 && Fresh()
      ensures id !in parts && id !in scooters && id !in transfers && id !in purchases
      ensures id !in purchaseItems && id !in jobCards && id !in jobCardItems && id !in checklist
    {
      id := nextId;
      nextId := nextId + 1;
    }

    // Row saves. Each is one `save()` or `delete()` of the ORM and keeps the
    // tables consistent; all other tables are left as they are.

    /** `part.save()` on an existing part. */
    method SavePart(k: Id, row: Part)
      requires Valid() && k in parts
      modifies this`parts
      ensures parts == old(parts)[k := row] && Valid()
    {
      parts := parts[k := row];
    }

    /** `Parts.objects.create(...)`. */
    method CreatePart(row: Part) returns (k: Id)
      requires Valid()
      modifies this`parts, this`nextId
      ensures k == old(nextId) && nextId == k + 1
      ensures parts == old(parts)[k := row] && Valid()
    {
      k := NewId();
      parts := parts[k := row];
    }

    method CreateTransfer(row: StockTransfer) returns (k: Id)
      requires Valid() && row.part in parts
      modifies this`transfers, this`nextId
      ensures k == old(nextId) && nextId == k + 1
      ensures transfers == old(transfers)[k := row] && Valid()
    {
      k := NewId();
      transfers := transfers[k := row];
    }

    method SaveTransfer(k: Id, row: StockTransfer)
      requires Valid() && k in transfers && row.part in parts
      modifies this`transfers
      ensures transfers == old(transfers)[k := row] && Valid()
    {
      transfers := transfers[k := row];
    }

    method CreatePurchase(row: Purchase) returns (k: Id)
      requires Valid()
      modifies this`purchases, this`nextId
      ensures k == old(nextId) && nextId == k + 1
      ensures purchases == old(purchases)[k := row] && Valid()
    {
      k := NewId();
      purchases := purchases[k := row];
    }

    method SavePurchase(k: Id, row: Purchase)
      requires Valid() && k in purchases
      modifies this`purchases
      ensures purchases == old(purchases)[k := row] && Valid()
    {
      purchases := purchases[k := row];
    }

    /** `purchase.delete()`: the purchase and, by cascade, its items. */
    method DeletePurchase(k: Id)
      requires Valid()
      modifies this`purchases, this`purchaseItems
      ensures purchases == old(purchases) - {k}
      ensures purchaseItems == map i | i in old(purchaseItems) && old(purchaseItems)[i].purchase != k :: old(purchaseItems)[i]
      ensures Valid()
    {
      purchases := purchases - {k};
      purchaseItems := map i | i in purchaseItems && purchaseItems[i].purchase != k :: purchaseItems[i];
    }

    method CreatePurchaseItem(row: PurchaseItem) returns (k: Id)
      requires Valid() && row.purchase in purchases && (row.part.Some? ==> row.part.value in parts)
      modifies this`purchaseItems, this`nextId
      ensures k == old(nextId) && nextId == k + 1
      ensures purchaseItems == old(purchaseItems)[k := row] && Valid()
    {
      k := NewId();
      purchaseItems := purchaseItems[k := row];
    }

    method SavePurchaseItem(k: Id, row: PurchaseItem)
      requires Valid() && k in purchaseItems && row.purchase in purchases && (row.part.Some? ==> row.part.value in parts)
      modifies this`purchaseItems
      ensures purchaseItems == old(purchaseItems)[k := row] && Valid()
    {
      purchaseItems := purchaseItems[k := row];
    }

    method DeletePurchaseItems(ks: set<Id>)
      requires Valid()
      modifies this`purchaseItems
      ensures purchaseItems == old(purchaseItems) - ks && Valid()
    {
      purchaseItems := purchaseItems - ks;
    }

    method SaveScooter(k: Id, row: Scooter)
      requires Valid() && k in scooters
      modifies this`scooters
      ensures scooters == old(scooters)[k := row] && Valid()
    {
      scooters := scooters[k := row];
    }

    method CreateJobCard(row: JobCard) returns (k: Id)
      requires Valid() && row.scooter in scooters
      modifies this`jobCards, this`nextId
      ensures k == old(nextId) && nextId == k + 1
      ensures jobCards == old(jobCards)[k := row] && Valid()
    {
      k := NewId();
      jobCards := jobCards[k := row];
    }

    method SaveJobCard(k: Id, row: JobCard)
      requires Valid() && k in jobCards && row.scooter in scooters
      modifies this`jobCards
      ensures jobCards == old(jobCards)[k := row] && Valid()
    {
      jobCards := jobCards[k := row];
    }

    /** `job_card.delete()`: the card and, by cascade, its items and checklist. */
    method DeleteJobCard(k: Id)
      requires Valid()
      modifies this`jobCards, this`jobCardItems, this`checklist
      ensures jobCards == old(jobCards) - {k}
      ensures jobCardItems == map i | i in old(jobCardItems) && old(jobCardItems)[i].jobCard != k :: old(jobCardItems)[i]
      ensures checklist == map c | c in old(checklist) && old(checklist)[c].jobCard != k :: old(checklist)[c]
      ensures Valid()
    {
      jobCards := jobCards - {k};
      jobCardItems := map i | i in jobCardItems && jobCardItems[i].jobCard != k :: jobCardItems[i];
      checklist := map c | c in checklist && checklist[c].jobCard != k :: checklist[c];
    }

    method CreateJobCardItem(row: JobCardItem) returns (k: Id)
      requires Valid() && row.jobCard in jobCards && row.part in parts
      modifies this`jobCardItems, this`nextId
      ensures k == old(nextId) && nextId == k + 1
      ensures jobCardItems == old(jobCardItems)[k := row] && Valid()
    {
      k := NewId();
      jobCardItems := jobCardItems[k := row];
    }

    method SaveJobCardItem(k: Id, row: JobCardItem)
      requires Valid() && k in jobCardItems && row.jobCard in jobCards && row.part in parts
      modifies this`jobCardItems
      ensures jobCardItems == old(jobCardItems)[k := row] && Valid()
    {
      jobCardItems := jobCardItems[k := row];
    }

    method DeleteJobCardItems(ks: set<Id>)
      requires Valid()
      modifies this`jobCardItems
      ensures jobCardItems == old(jobCardItems) - ks && Valid()
    {
      jobCardItems := jobCardItems - ks;
    }

    method CreateChecklistItem(row: ChecklistItem) returns (k: Id)
      requires Valid() && row.jobCard in jobCards
      modifies this`checklist, this`nextId
      ensures k == old(nextId) && nextId == k + 1
      ensures checklist == old(checklist)[k := row] && Valid()
    {
      k := NewId();
      checklist := checklist[k := row];
    }
  }
}
