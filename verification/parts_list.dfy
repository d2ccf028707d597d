/** The sort order the parts list accepts from its `sort` query parameter. */
module PartsList {
  import opened Common

  /** The part columns the list may be sorted by. */
  const SortFields: seq<string> := ["part_number", "name", "category", "current_stock", "reorder_level", "unit_price"]

  const DefaultSort := "part_number"

  /** A whitelisted column, or one preceded by `-` for descending order. */
  predicate Accepted(s: string)
  {
    s in SortFields || (|s| >= 1 && s[0] == '-' && s[1..] in SortFields)
  }

  /** The ordering `parts_list` applies for the `sort` parameter (None when it
      is absent, which reads as `part_number`): the parameter itself when it
      is accepted, else `part_number`. Nothing outside the whitelist reaches
      the query. */
  function SortField(requested: Option<string>): (r: string)
    ensures Accepted(r)
    ensures requested.Some? && Accepted(requested.value) ==> r == requested.value
    ensures requested.None? || !Accepted(requested.value) ==> r == DefaultSort
  {
    var sortBy := if requested.Some? then requested.value else DefaultSort;
    if |sortBy| >= 1 && sortBy[0] == '-' && sortBy[1..] in SortFields then sortBy
    else if sortBy in SortFields then sortBy
    else DefaultSort
  }

  /** Asking again for the ordering in use keeps it. */
  lemma SortFieldStable(requested: Option<string>)
    ensures SortField(Some(SortField(requested))) == SortField(requested)
  {
  }
}
