/** The admin page: a loading message, an access-denied screen, or the tab
    panel whose tabs depend on the user's capabilities. */
module AdminPage {
  import opened UserRole

  datatype Tab =
    | Statistics | Leadership | Laws | LegalSchool | Lawyers
    | Tenders | Enterprises | Feedback | Users

  /** The tab selected when the panel first opens. */
  const DefaultTab: Tab := Statistics

  /** The tab triggers, in the order of the tab list. */
  function Triggers(roles: seq<Role>): (r: seq<Tab>)
    ensures Statistics in r && Feedback in r
    ensures Users in r <==> IsAdmin(roles)
  {
    [Statistics]
    + (if IsAdmin(roles) || CanManageLegal(roles) then [Leadership, Laws, LegalSchool, Lawyers] else [])
    + (if IsAdmin(roles) || CanManageTenders(roles) then [Tenders, Enterprises] else [])
    + [Feedback]
    + (if IsAdmin(roles) then [Users] else [])
  }

  /** Whether the content of a tab is mounted, following the guards written
      around each content block. */
  predicate ContentShown(tab: Tab, roles: seq<Role>)
  {
    match tab
    case Statistics => true
    case Leadership | Laws | LegalSchool | Lawyers => IsAdmin(roles) || CanManageLegal(roles)
    case Tenders | Enterprises => IsAdmin(roles) || CanManageTenders(roles)
    case Feedback => true
    case Users => IsAdmin(roles)
  }

  /** Each trigger is shown under exactly the condition its content is. */
  lemma TriggersMatchContents(roles: seq<Role>, tab: Tab)
    ensures tab in Triggers(roles) <==> ContentShown(tab, roles)
  {
  }

  datatype Screen =
    | LoadingScreen
    | AccessDenied
    | Panel(tabs: seq<Tab>, active: Tab)

  /** What the page renders for the role hook's state. */
  function Render(loading: bool, roles: seq<Role>): (s: Screen)
    ensures loading <==> s == LoadingScreen
    ensures s.Panel? ==> s.active == Statistics && s.active in s.tabs
  {
    if loading then LoadingScreen
    else if !IsAdmin(roles) && !CanManageTenders(roles) && !CanManageLegal(roles) then AccessDenied
    else Panel(Triggers(roles), DefaultTab)
  }

  /** Once loaded, access is denied exactly when none of the three
      capabilities holds, which happens exactly when the user has no role. */
  lemma DeniedIffNoCapability(roles: seq<Role>)
    ensures Render(false, roles) == AccessDenied
        <==> !IsAdmin(roles) && !CanManageTenders(roles) && !CanManageLegal(roles)
    ensures Render(false, roles) == AccessDenied <==> roles == []
  {
    SomeCapabilityIffSomeRole(roles);
  }

  /** The legal-content tabs are offered exactly to admins and law managers. */
  lemma LegalTabsVisibility(roles: seq<Role>, tab: Tab)
    requires tab in {Leadership, Laws, LegalSchool, Lawyers}
    ensures tab in Triggers(roles) <==> Admin in roles || LawManager in roles
  {
  }

  /** The tender and enterprise tabs are offered exactly to admins and licence
      managers. */
  lemma TenderTabsVisibility(roles: seq<Role>, tab: Tab)
    requires tab in {Tenders, Enterprises}
    ensures tab in Triggers(roles) <==> Admin in roles || LicenseManager in roles
  {
  }

  /** Every admitted user sees the statistics and feedback tabs; only admins
      see the users tab. */
  lemma PanelTabs(roles: seq<Role>)
    requires Render(false, roles).Panel?
    ensures Statistics in Render(false, roles).tabs && Feedback in Render(false, roles).tabs
    ensures Users in Render(false, roles).tabs <==> Admin in roles
  {
  }
}
