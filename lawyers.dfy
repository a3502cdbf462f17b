/** The public list of licensed lawyers and its search box. */
module LawyersPage {
  import opened Base
  import opened Lists
  import opened Search

  /** A row of the `lawyers` table; the specialization is optional. */
  datatype Lawyer = Lawyer(
    id: string, name: string, licenseNumber: string,
    specialization: Option<string>, contactInfo: Option<string>, isActive: bool)

  /** The name, licence number or (when present) specialization contains the
      term; the contact details are not searched. */
  predicate Matches(l: Lawyer, term: string)
  {
    FieldHas(l.name, term) || FieldHas(l.licenseNumber, term)
    || OptionalFieldHas(l.specialization, term)
  }

  /** The lawyers shown for a search term. */
  function Filtered(lawyers: seq<Lawyer>, term: string): (r: seq<Lawyer>)
    ensures forall l :: l in r <==> l in lawyers && Matches(l, term)
    ensures IsSubsequence(r, lawyers)
    ensures term == "" ==> r == lawyers
  {
    var matches := (l: Lawyer) => Matches(l, term);
    EmptyTermMatchesAll();
    SearchResult(lawyers, matches);
    Filter(lawyers, matches)
  }

  /** A lawyer without a specialization matches exactly when the name or the
      licence number does. */
  lemma AbsentSpecializationNeverMatches(l: Lawyer, term: string)
    requires l.specialization == None
    ensures Matches(l, term) <==> FieldHas(l.name, term) || FieldHas(l.licenseNumber, term)
  {
    AbsentFieldNeverMatches(term);
  }
}
