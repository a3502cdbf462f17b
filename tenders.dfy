/** The public tenders page: a searchable list of tenders and, for tenders that
    carry an application form, the button that opens that form. */
module TendersPage {
  import opened Base
  import opened Lists
  import opened Search

  /** A row of the `tenders` table as the page loads it. */
  datatype Tender = Tender(id: string, title: string, content: string, hasForm: bool)

  /** A tender matches when its title or its content contains the term. */
  predicate Matches(t: Tender, term: string)
  {
    FieldHas(t.title, term) || FieldHas(t.content, term)
  }

  /** The tenders shown for a search term. */
  function Filtered(tenders: seq<Tender>, term: string): (r: seq<Tender>)
    ensures forall t :: t in r <==> t in tenders && Matches(t, term)
    ensures IsSubsequence(r, tenders)
    ensures term == "" ==> r == tenders
  {
    var matches := (t: Tender) => Matches(t, term);
    EmptyTermMatchesAll();
    SearchResult(tenders, matches);
    Filter(tenders, matches)
  }

  /** The shown tenders that get an "apply" button. */
  function ApplyButtons(shown: seq<Tender>): (r: seq<Tender>)
    ensures forall t :: t in r <==> t in shown && t.hasForm
    ensures IsSubsequence(r, shown)
  {
    var withForm := (t: Tender) => t.hasForm;
    FilterIsSubsequence(shown, withForm);
    Filter(shown, withForm)
  }

  /** What pressing "apply" leads to. */
  datatype ApplyResult = RedirectToAuth | FormOpened

  /** The page state: the loaded tenders, the search box, and the tender whose
      application form is open. */
  class TendersView {
    var tenders: seq<Tender>
    var searchTerm: string
    var selected: Option<Tender>
    var showForm: bool

    /** The form flag and the selection are set and cleared together. */
    ghost predicate Valid()
      reads this
    {
      showForm <==> selected.Some?
    }

    constructor ()
      ensures Valid()
      ensures tenders == [] && searchTerm == "" && selected == None && !showForm
    {
      tenders := [];
      searchTerm := "";
      selected := None;
      showForm := false;
    }

    /** The list on screen. */
    function Shown(): (r: seq<Tender>)
      reads this
      ensures forall t :: t in r <==> t in tenders && Matches(t, searchTerm)
      ensures IsSubsequence(r, tenders)
    {
      Filtered(tenders, searchTerm)
    }

    /** The application form is rendered with this tender, if any. */
    function OpenForm(): (r: Option<Tender>)
      reads this
      requires Valid()
      ensures r == selected
    {
      if showForm && selected.Some? then selected else None
    }

    /** The fetched rows replace the list. */
    method Load(rows: seq<Tender>)
      modifies this
      ensures tenders == rows
      ensures searchTerm == old(searchTerm) && selected == old(selected) && showForm == old(showForm)
    {
      tenders := rows;
    }

    /** Typing in the search box. */
    method Search(term: string)
      modifies this
      ensures searchTerm == term
      ensures tenders == old(tenders) && selected == old(selected) && showForm == old(showForm)
    {
      searchTerm := term;
    }

    /** `handleApplyToTender`: without a signed-in user the browser is sent to
        the sign-in page and nothing changes here; otherwise the form opens on
        the tender. */
    method ApplyToTender(user: Option<string>, t: Tender) returns (r: ApplyResult)
      requires Valid()
      modifies this
      ensures Valid()
      ensures r == RedirectToAuth <==> user == None
      ensures user == None ==> selected == old(selected) && showForm == old(showForm)
      ensures user != None ==> selected == Some(t) && showForm
      ensures tenders == old(tenders) && searchTerm == old(searchTerm)
    {
      if user == None {
        return RedirectToAuth;
      }
      selected := Some(t);
      showForm := true;
      r := FormOpened;
    }

    /** Closing the form clears both the flag and the selection. */
    method CloseForm()
      modifies this
      ensures Valid()
      ensures selected == None && !showForm
      ensures tenders == old(tenders) && searchTerm == old(searchTerm)
    {
      showForm := false;
      selected := None;
    }
  }
}
