/** The public list of laws: a title and a link to the official text. */
module LawsPage {
  import opened Lists
  import opened Search

  /** A row of the `laws` table. */
  datatype Law = Law(id: string, title: string, link: string)

  /** Only the title is searched. */
  predicate Matches(l: Law, term: string)
  {
    FieldHas(l.title, term)
  }

  /** The laws shown for a search term. */
  function Filtered(laws: seq<Law>, term: string): (r: seq<Law>)
    ensures forall l :: l in r <==> l in laws && FieldHas(l.title, term)
    ensures IsSubsequence(r, laws)
    ensures term == "" ==> r == laws
  {
    var matches := (l: Law) => Matches(l, term);
    EmptyTermMatchesAll();
    SearchResult(laws, matches);
    Filter(laws, matches)
  }

  /** The link never decides whether a law is shown: two laws that differ only
      in their links are both kept or both dropped. */
  lemma LinkNeverSearched(laws: seq<Law>, term: string, id: string, title: string, link1: string, link2: string)
    requires Law(id, title, link1) in laws && Law(id, title, link2) in laws
    ensures Law(id, title, link1) in Filtered(laws, term) <==> Law(id, title, link2) in Filtered(laws, term)
  {
  }
}
