/**
 * The authentication dependency and the role gates of `core/auth.py`.
 * Token decoding and UUID parsing are parameters; a user is a row of the
 * users table.
 */
module Auth {
  import opened Wrappers
  import opened PyJson
  import opened Models
  import opened SqlStore
  import opened Database

  /** `jwt.decode(token, …)`: the payload, or `None` for a JWTError. */
  type Decode = string -> Option<map<string, Value>>

  /** `UUID(text)`: the id, or `None` when the text is not a UUID (a ValueError). */
  type ParseUuid = string -> Option<Value>

  const CredentialsError := Http(401, "Could not validate credentials")
  const NotEnoughPermissions := Http(403, "Not enough permissions")

  /** The role a user row holds, read as the `UserRole` enumeration. */
  function RoleOf(u: Row): Option<UserRole> {
    match Col(u, "role")
    case Str(s) => ParseUserRole(s)
    case _ => None
  }

  /** `user.role == role`, comparing the stored text with the enumeration value. */
  predicate HasRole(u: Row, role: UserRole) {
    Col(u, "role") == Str(UserRoleValue(role))
  }

  predicate IsActive(u: Row) {
    Truthy(Col(u, "is_active"))
  }

  lemma HasRoleMeansRoleOf(u: Row, role: UserRole)
    ensures HasRole(u, role) <==> RoleOf(u) == Some(role)
  {
    UserRoleRoundTrip(role);
  }

  /** `get_current_user`. */
  function GetCurrentUser(db: Db, token: string, decode: Decode, parseUuid: ParseUuid): (r: Result<Row, Error>)
    ensures decode(token).None? ==> r == Err(CredentialsError)
    ensures decode(token).Some? && Get(decode(token).value, "sub", Null) == Null ==> r == Err(CredentialsError)
    ensures r.Ok? ==> r.value in db.users && IsActive(r.value)
    ensures r.Ok? ==> decode(token).Some? && Get(decode(token).value, "sub", Null).Str?
    ensures r.Ok? ==> parseUuid(Get(decode(token).value, "sub", Null).s) == Some(IdOf(r.value))
    ensures r.Err? && r.error.Http? ==> r.error == CredentialsError
  {
    if decode(token).None? then Err(CredentialsError)
    else
      var sub := Get(decode(token).value, "sub", Null);
      if sub == Null then Err(CredentialsError)
      else if !sub.Str? then Err(AttributeError("replace"))
      else if parseUuid(sub.s).None? then Err(ValueError("badly formed hexadecimal UUID string"))
      else
        match GetRow(UsersTable(db), parseUuid(sub.s).value)
        case None => Err(CredentialsError)
        case Some(user) => if !IsActive(user) then Err(CredentialsError) else Ok(user)
  }

  /** A well-formed token naming an active user yields that user. */
  lemma CurrentUserOfValidToken(db: Db, token: string, decode: Decode, parseUuid: ParseUuid, text: string, user: Row)
    requires decode(token).Some? && Get(decode(token).value, "sub", Null) == Str(text)
    requires parseUuid(text).Some?
    requires GetRow(UsersTable(db), parseUuid(text).value) == Some(user) && IsActive(user)
    ensures GetCurrentUser(db, token, decode, parseUuid) == Ok(user)
  {
  }

  /** `get_active_user`. */
  function ActiveUser(u: Row): (r: Result<Row, Error>)
    ensures r.Ok? <==> IsActive(u)
    ensures r.Ok? ==> r.value == u
    ensures r.Err? ==> r.error == Http(403, "Inactive user")
  {
    if !IsActive(u) then Err(Http(403, "Inactive user")) else Ok(u)
  }

  /** The current user has already passed the activity check, so the 403 never fires behind it. */
  lemma ActiveUserAfterCurrentUser(db: Db, token: string, decode: Decode, parseUuid: ParseUuid)
    requires GetCurrentUser(db, token, decode, parseUuid).Ok?
    ensures ActiveUser(GetCurrentUser(db, token, decode, parseUuid).value).Ok?
  {
  }

  const SuperAdminRoles: set<UserRole> := {SuperAdmin}
  const GroupAdminRoles: set<UserRole> := {SuperAdmin, GroupAdmin}
  const EditorRoles: set<UserRole> := {SuperAdmin, GroupAdmin, Editor}

  /** `get_group_admin_user`. */
  function GroupAdminUser(u: Row): (r: Result<Row, Error>)
    ensures r.Ok? <==> IsActive(u) && RoleOf(u).Some? && RoleOf(u).value in GroupAdminRoles
    ensures r.Ok? ==> r.value == u
    ensures r.Err? ==> r.error == Http(403, "Inactive user") || r.error == NotEnoughPermissions
  {
    HasRoleMeansRoleOf(u, SuperAdmin);
    HasRoleMeansRoleOf(u, GroupAdmin);
    var user :- ActiveUser(u);
    if !(HasRole(user, SuperAdmin) || HasRole(user, GroupAdmin)) then Err(NotEnoughPermissions) else Ok(user)
  }

  /** `get_super_admin_user`. */
  function SuperAdminUser(u: Row): (r: Result<Row, Error>)
    ensures r.Ok? <==> IsActive(u) && RoleOf(u).Some? && RoleOf(u).value in SuperAdminRoles
    ensures r.Ok? ==> r.value == u
    ensures r.Err? ==> r.error == Http(403, "Inactive user") || r.error == NotEnoughPermissions
  {
    HasRoleMeansRoleOf(u, SuperAdmin);
    var user :- ActiveUser(u);
    if !HasRole(user, SuperAdmin) then Err(NotEnoughPermissions) else Ok(user)
  }

  /** `get_editor_user`. */
  function EditorUser(u: Row): (r: Result<Row, Error>)
    ensures r.Ok? <==> IsActive(u) && RoleOf(u).Some? && RoleOf(u).value in EditorRoles
    ensures r.Ok? ==> r.value == u
    ensures r.Err? ==> r.error == Http(403, "Inactive user") || r.error == NotEnoughPermissions
  {
    HasRoleMeansRoleOf(u, SuperAdmin);
    HasRoleMeansRoleOf(u, GroupAdmin);
    HasRoleMeansRoleOf(u, Editor);
    var user :- ActiveUser(u);
    if !(HasRole(user, SuperAdmin) || HasRole(user, GroupAdmin) || HasRole(user, Editor)) then Err(NotEnoughPermissions) else Ok(user)
  }

  /** The gates nest: whoever passes the super-admin gate passes the group-admin gate, and so on; a viewer passes none. */
  lemma GatesNest(u: Row)
    ensures SuperAdminUser(u).Ok? ==> GroupAdminUser(u).Ok?
    ensures GroupAdminUser(u).Ok? ==> EditorUser(u).Ok?
    ensures RoleOf(u) == Some(Viewer) ==> EditorUser(u).Err?
    ensures IsActive(u) && RoleOf(u) == Some(GroupAdmin) ==> GroupAdminUser(u).Ok? && SuperAdminUser(u).Err?
    ensures IsActive(u) && RoleOf(u) == Some(Editor) ==> EditorUser(u).Ok? && GroupAdminUser(u).Err?
  {
  }
}
