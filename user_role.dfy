/** The role hook: it loads the signed-in user's rows of `user_roles` and
    answers the capability questions the admin area asks. */
module UserRole {
  import opened Base

  /** The `app_role` enumeration of the database. */
  datatype Role = Admin | LicenseManager | LawManager

  /** `hasRole(role)`: `roles.includes(role)`. */
  predicate HasRole(roles: seq<Role>, role: Role)
  {
    role in roles
  }

  /** `isAdmin()`. */
  predicate IsAdmin(roles: seq<Role>)
  {
    HasRole(roles, Admin)
  }

  /** `canManageTenders()`: admins and licence managers. */
  predicate CanManageTenders(roles: seq<Role>)
  {
    HasRole(roles, Admin) || HasRole(roles, LicenseManager)
  }

  /** `canManageLegal()`: admins and law managers. */
  predicate CanManageLegal(roles: seq<Role>)
  {
    HasRole(roles, Admin) || HasRole(roles, LawManager)
  }

  /** With no role at all, no capability holds. */
  lemma NoRolesNoCapability()
    ensures !IsAdmin([]) && !CanManageTenders([]) && !CanManageLegal([])
  {
  }

  /** An administrator can manage both tenders and legal content. */
  lemma AdminManagesAll(roles: seq<Role>)
    requires IsAdmin(roles)
    ensures CanManageTenders(roles) && CanManageLegal(roles)
  {
  }

  /** Some capability holds exactly when the user has some role: every role of
      the enumeration grants at least one. */
  lemma SomeCapabilityIffSomeRole(roles: seq<Role>)
    ensures IsAdmin(roles) || CanManageTenders(roles) || CanManageLegal(roles) <==> roles != []
  {
    if roles != [] {
      assert roles[0] in roles;
      match roles[0]
      case Admin =>
      case LicenseManager =>
      case LawManager =>
    }
  }

  /** More roles never take a capability away. */
  lemma CapabilitiesMonotone(roles: seq<Role>, more: seq<Role>)
    requires forall r :: r in roles ==> r in more
    ensures IsAdmin(roles) ==> IsAdmin(more)
    ensures CanManageTenders(roles) ==> CanManageTenders(more)
    ensures CanManageLegal(roles) ==> CanManageLegal(more)
  {
  }

  /** The answer of the roles query for the signed-in user. */
  datatype Lookup =
    | Rows(roles: seq<Role>)  // the `role` column of the user's rows
    | QueryError              // the query returned an error
    | Thrown                  // the call itself threw

  /** The roles the hook settles on; anything but a successful lookup for a
      signed-in user gives none, so access fails closed. */
  function SettledRoles(user: Option<string>, lookup: Lookup): (r: seq<Role>)
    ensures r != [] ==> user.Some? && lookup.Rows? && r == lookup.roles
    ensures user.Some? && lookup.Rows? ==> r == lookup.roles
  {
    if user == None then []
    else match lookup
      case Rows(roles) => roles
      case QueryError => []
      case Thrown => []
  }

  /** A failed lookup grants no capability whatever the user. */
  lemma FailedLookupFailsClosed(user: Option<string>, lookup: Lookup)
    requires user == None || !lookup.Rows?
    ensures !IsAdmin(SettledRoles(user, lookup))
    ensures !CanManageTenders(SettledRoles(user, lookup))
    ensures !CanManageLegal(SettledRoles(user, lookup))
  {
  }

  /** The hook's state. */
  class RoleHook {
    var roles: seq<Role>
    var loading: bool

    /** Before the effect runs: no roles, still loading. */
    constructor ()
      ensures roles == [] && loading
    {
      roles := [];
      loading := true;
    }

    /** The effect: with no user the roles are cleared at once; otherwise the
        lookup's rows are taken, and an error or a throw clears them; in every
        case loading ends. */
    method Resolve(user: Option<string>, lookup: Lookup)
      modifies this
      ensures !loading
      ensures roles == SettledRoles(user, lookup)
    {
      if user == None {
        roles := [];
        loading := false;
        return;
      }
      match lookup {
        case Rows(rs) => roles := rs;
        case QueryError => roles := [];
        case Thrown => roles := [];
      }
      loading := false;
    }
  }
}
