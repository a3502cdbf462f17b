/** The public register of enterprises and its search box. */
module EnterprisesPage {
  import opened Base
  import opened Lists
  import opened Search

  /** A row of the `enterprises` table; the registration number is optional. */
  datatype Enterprise = Enterprise(
    id: string, name: string, businessType: string, ownerName: string,
    registrationNumber: Option<string>, contactInfo: Option<string>, isActive: bool)

  /** The name, business type, owner or (when present) registration number
      contains the term; the contact details are not searched. */
  predicate Matches(e: Enterprise, term: string)
  {
    FieldHas(e.name, term) || FieldHas(e.businessType, term) || FieldHas(e.ownerName, term)
    || OptionalFieldHas(e.registrationNumber, term)
  }

  /** The enterprises shown for a search term. */
  function Filtered(enterprises: seq<Enterprise>, term: string): (r: seq<Enterprise>)
    ensures forall e :: e in r <==> e in enterprises && Matches(e, term)
    ensures IsSubsequence(r, enterprises)
    ensures term == "" ==> r == enterprises
  {
    var matches := (e: Enterprise) => Matches(e, term);
    EmptyTermMatchesAll();
    SearchResult(enterprises, matches);
    Filter(enterprises, matches)
  }

  /** An enterprise without a registration number matches exactly when its
      three mandatory fields do: the absent field adds nothing. */
  lemma AbsentRegistrationNeverMatches(e: Enterprise, term: string)
    requires e.registrationNumber == None
    ensures Matches(e, term) <==>
      FieldHas(e.name, term) || FieldHas(e.businessType, term) || FieldHas(e.ownerName, term)
  {
    AbsentFieldNeverMatches(term);
  }
}
