/** The admin panel that lists every account with its roles and lets an
    administrator grant a role by e-mail or revoke one. */
module AdminUserRoles {
  import opened Base
  import opened Lists

  /** An account as the authentication service lists it. */
  datatype AuthUser = AuthUser(id: string, email: Option<string>)

  /** A row of the `user_roles` table. */
  datatype RoleRow = RoleRow(userId: string, role: string)

  /** An entry of the panel's list. */
  datatype UserWithRoles = UserWithRoles(id: string, email: string, roles: seq<string>)

  /** The roles of the rows that belong to `userId`, in row order. */
  function RolesOf(rows: seq<RoleRow>, userId: string): (r: seq<string>)
    ensures |r| <= |rows|
    ensures forall role :: role in r <==> RoleRow(userId, role) in rows
  {
    if rows == [] then []
    else (if rows[0].userId == userId then [rows[0].role] else []) + RolesOf(rows[1..], userId)
  }

  /** A user without rows has no roles. */
  lemma {:induction false} NoRowsNoRoles(rows: seq<RoleRow>, userId: string)
    requires forall i :: 0 <= i < |rows| ==> rows[i].userId != userId
    ensures RolesOf(rows, userId) == []
  {
    if rows != [] {
      NoRowsNoRoles(rows[1..], userId);
    }
  }

  /** The list built in `fetchUsers`: one entry per account, in the same
      order, a missing e-mail shown as `''`. */
  function JoinUsers(accounts: seq<AuthUser>, rows: seq<RoleRow>): (r: seq<UserWithRoles>)
    ensures |r| == |accounts|
    ensures forall i :: 0 <= i < |r| ==>
      r[i].id == accounts[i].id && r[i].email == EmptyIfNull(accounts[i].email)
      && r[i].roles == RolesOf(rows, accounts[i].id)
  {
    if accounts == [] then []
    else
      var head := UserWithRoles(accounts[0].id, EmptyIfNull(accounts[0].email), RolesOf(rows, accounts[0].id));
      [head] + JoinUsers(accounts[1..], rows)
  }

  /** The test `u => u.email === email`. */
  function EmailIs(email: string): UserWithRoles -> bool
  {
    (u: UserWithRoles) => u.email == email
  }

  /** `users[k]` is the first entry with that e-mail. */
  predicate FirstWithEmail(users: seq<UserWithRoles>, email: string, k: nat)
    requires k < |users|
  {
    users[k].email == email && forall j :: 0 <= j < k ==> users[j].email != email
  }

  /** `users.find(u => u.email === email)`: the first entry with that e-mail. */
  function FindByEmail(users: seq<UserWithRoles>, email: string): (r: Option<UserWithRoles>)
    ensures r.None? <==> forall j :: 0 <= j < |users| ==> users[j].email != email
    ensures r.Some? ==> r.value.email == email
    ensures r.Some? ==> exists k :: 0 <= k < |users| && FirstWithEmail(users, email, k) && users[k] == r.value
  {
    var k := FindIndex(users, EmailIs(email));
    if k == -1 then None else Some(users[k])
  }

  /** What `handleAddRole` decides before writing. */
  datatype AddRole =
    | UnknownEmail      // no account has that e-mail: no insert
    | AlreadyHasRole    // the account already holds the role: no insert
    | InsertRow(row: RoleRow)

  function DecideAddRole(users: seq<UserWithRoles>, email: string, role: string): (r: AddRole)
    ensures r == UnknownEmail <==> forall i :: 0 <= i < |users| ==> users[i].email != email
    ensures r == AlreadyHasRole ==> exists k :: 0 <= k < |users| && FirstWithEmail(users, email, k) && role in users[k].roles
    ensures r.InsertRow? ==>
      exists k :: 0 <= k < |users| && FirstWithEmail(users, email, k) && role !in users[k].roles && r.row == RoleRow(users[k].id, role)
  {
    match FindByEmail(users, email)
    case None => UnknownEmail
    case Some(u) => if role in u.roles then AlreadyHasRole else InsertRow(RoleRow(u.id, role))
  }

  /** No row of the role table appears twice. */
  predicate NoDuplicateRows(rows: seq<RoleRow>)
  {
    forall i, j :: 0 <= i < j < |rows| ==> rows[i] != rows[j]
  }

  /** When the list was built from the current role table, the guard against
      duplicates works: the inserted row is new, the table stays free of
      duplicates, and the user's roles grow by exactly the new role. */
  lemma InsertIsNew(accounts: seq<AuthUser>, rows: seq<RoleRow>, email: string, role: string)
    requires NoDuplicateRows(rows)
    requires DecideAddRole(JoinUsers(accounts, rows), email, role).InsertRow?
    ensures DecideAddRole(JoinUsers(accounts, rows), email, role).row !in rows
    ensures NoDuplicateRows(rows + [DecideAddRole(JoinUsers(accounts, rows), email, role).row])
    ensures var row := DecideAddRole(JoinUsers(accounts, rows), email, role).row;
      RolesOf(rows + [row], row.userId) == RolesOf(rows, row.userId) + [role]
  {
    var users := JoinUsers(accounts, rows);
    var k := FindIndex(users, EmailIs(email));
    var row := RoleRow(users[k].id, role);
    assert DecideAddRole(users, email, role).row == row;
    assert users[k].roles == RolesOf(rows, users[k].id);
    AppendNewRow(rows, row);
    RolesOfAppend(rows, row, row.userId);
  }

  /** Appending a row that is not in a duplicate-free table keeps it free of
      duplicates. */
  lemma AppendNewRow(rows: seq<RoleRow>, row: RoleRow)
    requires NoDuplicateRows(rows) && row !in rows
    ensures NoDuplicateRows(rows + [row])
  {
  }

  /** The roles of a non-empty table: those of its first row, then the rest. */
  lemma RolesOfCons(rows: seq<RoleRow>, userId: string)
    requires rows != []
    ensures RolesOf(rows, userId)
         == (if rows[0].userId == userId then [rows[0].role] else []) + RolesOf(rows[1..], userId)
  {
  }

  /** Appending a row adds its role at the end of its owner's roles only. */
  lemma {:induction false} RolesOfAppend(rows: seq<RoleRow>, row: RoleRow, userId: string)
    ensures RolesOf(rows + [row], userId)
         == RolesOf(rows, userId) + (if row.userId == userId then [row.role] else [])
  {
    if rows == [] {
      assert [row][1..] == [];
      RolesOfCons([row], userId);
    } else {
      var xs := rows + [row];
      assert xs[0] == rows[0];
      assert xs[1..] == rows[1..] + [row];
      RolesOfAppend(rows[1..], row, userId);
      RolesOfCons(xs, userId);
      RolesOfCons(rows, userId);
    }
  }

  /** The rows that survive `delete().eq('user_id', userId).eq('role', role)`. */
  function RemoveRoleRows(rows: seq<RoleRow>, userId: string, role: string): (r: seq<RoleRow>)
    ensures forall row :: row in r <==> row in rows && row != RoleRow(userId, role)
    ensures IsSubsequence(r, rows)
  {
    if rows == [] then []
    else
      var rest := RemoveRoleRows(rows[1..], userId, role);
      if rows[0] == RoleRow(userId, role) then
        SubsequenceOfTail(rest, rows);
        rest
      else
        assert ([rows[0]] + rest)[1..] == rest;
        [rows[0]] + rest
  }

  /** After the delete the user's roles are the old ones with every copy of
      that role removed, in the same order. */
  lemma {:induction false} RemoveRoleEffect(rows: seq<RoleRow>, userId: string, role: string)
    ensures RolesOf(RemoveRoleRows(rows, userId, role), userId) == RemoveAll(RolesOf(rows, userId), role)
  {
    if rows != [] {
      RemoveRoleEffect(rows[1..], userId, role);
      var tail := RolesOf(rows[1..], userId);
      var rest := RemoveRoleRows(rows[1..], userId, role);
      if rows[0].userId == userId {
        assert RolesOf(rows, userId) == [rows[0].role] + tail;
        RemoveAllCons(rows[0].role, tail, role);
        if rows[0].role != role {
          assert RemoveRoleRows(rows, userId, role) == [rows[0]] + rest;
          assert ([rows[0]] + rest)[1..] == rest;
        }
      } else {
        assert RolesOf(rows, userId) == [] + tail;
        assert RemoveRoleRows(rows, userId, role) == [rows[0]] + rest;
        assert ([rows[0]] + rest)[1..] == rest;
        assert RolesOf([rows[0]] + rest, userId) == [] + RolesOf(rest, userId);
        assert RolesOf(rows, userId) == tail;
        assert RolesOf(RemoveRoleRows(rows, userId, role), userId) == RolesOf(rest, userId);
      }
    }
  }

  /** The delete leaves every other user's roles as they were. */
  lemma {:induction false} RemoveRoleKeepsOthers(rows: seq<RoleRow>, userId: string, role: string, other: string)
    requires other != userId
    ensures RolesOf(RemoveRoleRows(rows, userId, role), other) == RolesOf(rows, other)
  {
    if rows != [] {
      RemoveRoleKeepsOthers(rows[1..], userId, role, other);
      var rest := RemoveRoleRows(rows[1..], userId, role);
      if rows[0] != RoleRow(userId, role) {
        assert RemoveRoleRows(rows, userId, role) == [rows[0]] + rest;
        assert ([rows[0]] + rest)[1..] == rest;
      }
    }
  }

  /** `getRoleLabel`. */
  function RoleLabel(role: string): string
  {
    match role
    case "admin" => "Адміністратор"
    case "law_manager" => "Керівник законів"
    case "license_manager" => "Керівник ліцензій"
    case _ => role
  }

  /** The three known roles get three different labels, none of them a role
      name; any other role is shown as it is. */
  lemma RoleLabels(role: string)
    ensures RoleLabel(role) == role <==> role !in {"admin", "law_manager", "license_manager"}
    ensures RoleLabel("admin") != RoleLabel("law_manager")
    ensures RoleLabel("admin") != RoleLabel("license_manager")
    ensures RoleLabel("law_manager") != RoleLabel("license_manager")
  {
  }

  /** The panel's state. */
  class RolesPanel {
    var users: seq<UserWithRoles>
    var loading: bool
    var formEmail: string
    var formRole: string
    var dialogOpen: bool

    constructor ()
      ensures users == [] && loading && !dialogOpen
      ensures formEmail == "" && formRole == "law_manager"
    {
      users := [];
      loading := true;
      formEmail := "";
      formRole := "law_manager";
      dialogOpen := false;
    }

    /** `fetchUsers`: both lists arrived, or one of the calls failed and the
        list is kept; loading ends either way. */
    method LoadUsers(fetched: Option<(seq<AuthUser>, seq<RoleRow>)>)
      modifies this
      ensures !loading
      ensures users == if fetched.Some? then JoinUsers(fetched.value.0, fetched.value.1) else old(users)
      ensures formEmail == old(formEmail) && formRole == old(formRole) && dialogOpen == old(dialogOpen)
    {
      if fetched.Some? {
        users := JoinUsers(fetched.value.0, fetched.value.1);
      }
      loading := false;
    }

    /** `handleAddRole`: returns the row it inserts, if it gets that far; on a
        successful insert the dialog closes and the form is reset. */
    method AddRole(insert: Outcome) returns (written: Option<RoleRow>)
      modifies this
      ensures var d := DecideAddRole(old(users), old(formEmail), old(formRole));
        written == if d.InsertRow? then Some(d.row) else None
      ensures written.Some? && insert == Ok ==> formEmail == "" && formRole == "law_manager" && !dialogOpen
      ensures written.None? || insert == Err ==>
        formEmail == old(formEmail) && formRole == old(formRole) && dialogOpen == old(dialogOpen)
      ensures users == old(users) && loading == old(loading)
    {
      var d := DecideAddRole(users, formEmail, formRole);
      if !d.InsertRow? {
        return None;
      }
      written := Some(d.row);
      if insert == Ok {
        dialogOpen := false;
        formEmail := "";
        formRole := "law_manager";
      }
    }
  }
}
