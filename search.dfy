/** The case-insensitive substring test that every public list page applies to
    its rows: `field.toLowerCase().includes(searchTerm.toLowerCase())`. */
module Search {
  import opened Base
  import opened JsText
  import opened Lists

  /** A mandatory text field matches the search term. */
  predicate FieldHas(field: string, term: string)
  {
    Includes(Lower(field), Lower(term))
  }

  /** `(field && field.toLowerCase().includes(...))` on an optional field: an
      absent or empty field is falsy and never matches. */
  predicate OptionalFieldHas(field: Option<string>, term: string)
  {
    field.Some? && field.value != "" && FieldHas(field.value, term)
  }

  /** The empty search term occurs in every field. */
  lemma EmptyTermMatches(field: string)
    ensures FieldHas(field, "")
  {
    IncludesEmpty(Lower(field));
  }

  /** The same, for all fields at once. */
  lemma EmptyTermMatchesAll()
    ensures forall field :: FieldHas(field, "")
  {
    forall field ensures FieldHas(field, "") {
      EmptyTermMatches(field);
    }
  }

  /** Matching ignores case on both sides: lower-casing the field or the term
      first changes nothing. */
  lemma MatchIgnoresCase(field: string, term: string)
    ensures FieldHas(Lower(field), term) == FieldHas(field, term)
    ensures FieldHas(field, Lower(term)) == FieldHas(field, term)
  {
    LowerIdempotent(field);
    LowerIdempotent(term);
  }

  /** An optional field that is absent or empty never causes a match, whatever
      the term, even the empty one. */
  lemma AbsentFieldNeverMatches(term: string)
    ensures !OptionalFieldHas(None, term)
    ensures !OptionalFieldHas(Some(""), term)
  {
  }

  /** What every page's search promises of its result: the rows that match,
      in their loaded order, and all rows when every row matches. */
  lemma SearchResult<T>(rows: seq<T>, matches: T -> bool)
    ensures IsSubsequence(Filter(rows, matches), rows)
    ensures (forall i :: 0 <= i < |rows| ==> matches(rows[i])) ==> Filter(rows, matches) == rows
  {
    FilterIsSubsequence(rows, matches);
    if forall i :: 0 <= i < |rows| ==> matches(rows[i]) {
      FilterKeepsAll(rows, matches);
    }
  }
}
