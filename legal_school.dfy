/** The public "legal school" page: a searchable list of teaching topics. */
module LegalSchoolPage {
  import opened Base
  import opened Lists
  import opened Search

  /** A row of the `legal_school` table; content and link are optional. */
  datatype Topic = Topic(id: string, title: string, content: Option<string>, link: Option<string>)

  /** The title or (when present) the content contains the term; the link is
      not searched. */
  predicate Matches(t: Topic, term: string)
  {
    FieldHas(t.title, term) || OptionalFieldHas(t.content, term)
  }

  /** The topics shown for a search term. */
  function Filtered(topics: seq<Topic>, term: string): (r: seq<Topic>)
    ensures forall t :: t in r <==> t in topics && Matches(t, term)
    ensures IsSubsequence(r, topics)
    ensures term == "" ==> r == topics
  {
    var matches := (t: Topic) => Matches(t, term);
    EmptyTermMatchesAll();
    SearchResult(topics, matches);
    Filter(topics, matches)
  }

  /** A topic without content matches exactly when its title does. */
  lemma AbsentContentNeverMatches(t: Topic, term: string)
    requires t.content == None
    ensures Matches(t, term) <==> FieldHas(t.title, term)
  {
    AbsentFieldNeverMatches(term);
  }
}
