/** The job card form and its item form: which scooters and parts they offer,
    and the job card number they propose for a new card. */
module ServiceForms {
  import opened Common
  import opened Records
  import opened Numbering

  /** `JobCardForm` scooter choices: a new card cannot pick a scooter already in
      maintenance; a given store restricts the choice to that store's scooters. */
  function ScooterChoices(scooters: map<Id, Scooter>, isNew: bool, store: Option<StoreId>): (r: set<Id>)
    ensures r <= scooters.Keys
    ensures forall s :: s in scooters ==>
      (s in r <==> (!isNew || scooters[s].status != Maintenance) && (store.None? || scooters[s].store == store))
  {
    set s | s in scooters && ScooterOffered(scooters, isNew, store, s)
  }

  /** Scooter s is one of the form's choices. */
  predicate ScooterOffered(scooters: map<Id, Scooter>, isNew: bool, store: Option<StoreId>, s: Id)
  {
    s in scooters && (!isNew || scooters[s].status != Maintenance) && (store.None? || scooters[s].store == store)
  }

  /** An existing card may keep any scooter, and without a store a new card may
      pick any scooter that is not in maintenance. */
  lemma ScooterChoicesCases(scooters: map<Id, Scooter>)
    ensures ScooterChoices(scooters, false, None) == scooters.Keys
    ensures forall s :: s in ScooterChoices(scooters, true, None) <==> s in scooters && scooters[s].status != Maintenance
  {
  }

  /** `JobCardItemForm` part choices: parts with stock above zero, of the given
      store when there is one. */
  function JobPartChoices(parts: map<Id, Part>, store: Option<StoreId>): (r: set<Id>)
    ensures r <= parts.Keys
    ensures forall q :: q in parts ==>
      (q in r <==> parts[q].stock > 0.0 && (store.None? || parts[q].store == store.value))
  {
    set q | q in parts && PartOffered(parts, store, q)
  }

  /** Part q is one of the item form's choices. */
  predicate PartOffered(parts: map<Id, Part>, store: Option<StoreId>, q: Id)
  {
    q in parts && parts[q].stock > 0.0 && (store.None? || parts[q].store == store.value)
  }

  /** A store's choices are the unrestricted choices that belong to it. */
  lemma JobPartChoicesByStore(parts: map<Id, Part>, store: StoreId)
    ensures JobPartChoices(parts, Some(store)) == set q | q in JobPartChoices(parts, None) && parts[q].store == store
  {
  }

  const JobCardPrefix := "JC"

  /** For a new card without a number, after `JC` followed by n the form
      proposes `JC` followed by n + 1 in six digits; with no card, or a last
      number that is not `JC` and an integer, it proposes `JC000001`. */
  lemma JobCardNumbers(n: nat, last: Option<string>)
    requires n < 999999
    ensures ProposedNumber(JobCardPrefix, true, "", Some(JobCardPrefix + Format06(n))) == JobCardPrefix + Format06(n + 1)
    ensures |Format06(n + 1)| == 6
    ensures || last.None?
            || !(2 <= |last.value| && last.value[..2] == JobCardPrefix)
            || ParseInt(last.value[2..]).None?
        ==> ProposedNumber(JobCardPrefix, true, "", last) == "JC000001"
  {
    assert ProposedNumber(JobCardPrefix, true, "", Some(JobCardPrefix + Format06(n))) == JobCardPrefix + Format06(n + 1) by {
      SixDigits(n);
      SixDigits(n + 1);
      NextAfter(JobCardPrefix, n);
    }
    SixDigits(n + 1);
    if || last.None? || !(2 <= |last.value| && last.value[..2] == JobCardPrefix) || ParseInt(last.value[2..]).None? {
      RestartAtOne(JobCardPrefix, last);
      FirstIsOne();
    }
  }
}
