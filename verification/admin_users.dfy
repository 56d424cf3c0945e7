/**
 * The user-administration routes. Every route sits behind the group-admin
 * gate and then applies its permission rules; each access decision returns
 * the target the route would go on to change, or the HTTP error it raises
 * first. A granted request then calls `get_users_in_group`,
 * `update_user_role` or `update_user_password` on `UserService`, which
 * defines none of them, so it ends in AttributeError.
 */
module AdminUsers {
  import opened Wrappers
  import opened PyJson
  import opened Models
  import opened SqlStore
  import opened Database
  import opened Auth

  const InvalidRole := Http(400, "Invalid role. Must be one of: super_admin, group_admin, editor, viewer")
  const UserNotFound := Http(404, "User not found")
  const OtherGroup := Http(403, "Can only update users in your own group")
  const ManagesSuperAdmin := Http(403, "Group admins cannot manage super admins")

  /** `list_users_in_group` up to the listing itself. */
  function ListAccess(current: Row, groupId: Value): (r: Result<Row, Error>)
    ensures GroupAdminUser(current).Err? ==> r == Err(GroupAdminUser(current).error)
    ensures r.Ok? ==> GroupAdminUser(current).Ok? && r.value == current
  {
    var u :- GroupAdminUser(current);
    if !HasRole(u, SuperAdmin) && Col(u, "group_id") != groupId then
      Err(Http(403, "You can only view users in your own group"))
    else Ok(u)
  }

  /** A group admin sees only their own group; a super admin sees any. */
  lemma ListAccessRule(current: Row, groupId: Value)
    requires GroupAdminUser(current).Ok?
    ensures RoleOf(current) == Some(SuperAdmin) ==> ListAccess(current, groupId).Ok?
    ensures RoleOf(current) == Some(GroupAdmin) ==> (ListAccess(current, groupId).Ok? <==> Col(current, "group_id") == groupId)
  {
    HasRoleMeansRoleOf(current, SuperAdmin);
  }

  /** `update_user_role` up to the change itself: the target and the new role. */
  function RoleChangeAccess(db: Db, current: Row, userId: Value, roleText: string): (r: Result<(Row, UserRole), Error>)
    ensures GroupAdminUser(current).Err? ==> r == Err(GroupAdminUser(current).error)
    ensures GroupAdminUser(current).Ok? && ParseUserRole(roleText).None? ==> r == Err(InvalidRole)
    ensures GroupAdminUser(current).Ok? && ParseUserRole(roleText).Some? && !HasId(UsersTable(db), userId) ==> r == Err(UserNotFound)
    ensures r.Ok? ==> r.value.0 in db.users && IdOf(r.value.0) == userId && Some(r.value.1) == ParseUserRole(roleText)
  {
    var u :- GroupAdminUser(current);
    match ParseUserRole(roleText)
    case None => Err(InvalidRole)
    case Some(newRole) =>
      match GetRow(UsersTable(db), userId)
      case None => Err(UserNotFound)
      case Some(target) =>
        if HasRole(u, SuperAdmin) then
          if HasRole(target, SuperAdmin) && IdOf(u) != IdOf(target) then
            Err(Http(403, "Cannot change the role of another super admin"))
          else Ok((target, newRole))
        else if Col(target, "group_id") != Col(u, "group_id") then Err(OtherGroup)
        else if HasRole(target, SuperAdmin) || newRole == SuperAdmin then Err(ManagesSuperAdmin)
        else if userId == IdOf(u) then Err(Http(403, "Cannot change your own role"))
        else Ok((target, newRole))
  }

  /** `update_user_password` up to the change itself: the target. */
  function PasswordChangeAccess(db: Db, current: Row, userId: Value): (r: Result<Row, Error>)
    ensures GroupAdminUser(current).Err? ==> r == Err(GroupAdminUser(current).error)
    ensures GroupAdminUser(current).Ok? && !HasId(UsersTable(db), userId) ==> r == Err(UserNotFound)
    ensures r.Ok? ==> r.value in db.users && IdOf(r.value) == userId
  {
    var u :- GroupAdminUser(current);
    match GetRow(UsersTable(db), userId)
    case None => Err(UserNotFound)
    case Some(target) =>
      if HasRole(u, SuperAdmin) then
        if HasRole(target, SuperAdmin) && IdOf(u) != IdOf(target) then
          Err(Http(403, "Cannot change another super admin's password"))
        else Ok(target)
      else if Col(target, "group_id") != Col(u, "group_id") then Err(OtherGroup)
      else if HasRole(target, SuperAdmin) then Err(ManagesSuperAdmin)
      else Ok(target)
  }

  /** The super admin's rule: anyone but another super admin, for both the role and the password. */
  lemma SuperAdminRule(db: Db, current: Row, userId: Value, roleText: string, target: Row)
    requires IsActive(current) && RoleOf(current) == Some(SuperAdmin)
    requires GetRow(UsersTable(db), userId) == Some(target)
    ensures ParseUserRole(roleText).Some? ==>
      (RoleChangeAccess(db, current, userId, roleText).Ok? <==> RoleOf(target) != Some(SuperAdmin) || IdOf(current) == userId)
    ensures PasswordChangeAccess(db, current, userId).Ok? <==> RoleOf(target) != Some(SuperAdmin) || IdOf(current) == userId
  {
    HasRoleMeansRoleOf(current, SuperAdmin);
    HasRoleMeansRoleOf(target, SuperAdmin);
  }

  /**
   * The group admin's rule: only users of their own group, never a super
   * admin, never granting super admin, and never their own role; their own
   * password they may change.
   */
  lemma GroupAdminRule(db: Db, current: Row, userId: Value, roleText: string, target: Row)
    requires IsActive(current) && RoleOf(current) == Some(GroupAdmin)
    requires GetRow(UsersTable(db), userId) == Some(target)
    ensures ParseUserRole(roleText).Some? ==>
      (RoleChangeAccess(db, current, userId, roleText).Ok? <==>
        && Col(target, "group_id") == Col(current, "group_id")
        && RoleOf(target) != Some(SuperAdmin)
        && ParseUserRole(roleText) != Some(SuperAdmin)
        && userId != IdOf(current))
    ensures PasswordChangeAccess(db, current, userId).Ok? <==>
      Col(target, "group_id") == Col(current, "group_id") && RoleOf(target) != Some(SuperAdmin)
  {
    HasRoleMeansRoleOf(current, SuperAdmin);
    HasRoleMeansRoleOf(target, SuperAdmin);
  }

  /** A group admin acting on themself: the role change is refused, the password change allowed. */
  lemma GroupAdminOnThemself(db: Db, current: Row, roleText: string)
    requires IsActive(current) && RoleOf(current) == Some(GroupAdmin)
    requires current in db.users && Valid(UsersTable(db))
    requires ParseUserRole(roleText).Some?
    ensures RoleChangeAccess(db, current, IdOf(current), roleText) ==
      (if roleText == "super_admin" then Err(ManagesSuperAdmin) else Err(Http(403, "Cannot change your own role")))
    ensures PasswordChangeAccess(db, current, IdOf(current)) == Ok(current)
  {
    HasRoleMeansRoleOf(current, SuperAdmin);
    var k :| 0 <= k < |db.users| && db.users[k] == current;
    var target := GetRow(UsersTable(db), IdOf(current)).value;
    assert target == current;
  }

  /**
   * The `GET /group/{group_id}` route as written: a refusal is the access
   * decision's error; a granted listing calls the missing
   * `get_users_in_group`.
   */
  function ListUsersInGroup(current: Row, groupId: Value): (r: Result<seq<Row>, Error>)
    ensures r.Err?
    ensures ListAccess(current, groupId).Err? ==> r.error == ListAccess(current, groupId).error
    ensures ListAccess(current, groupId).Ok? ==> r.error == AttributeError("get_users_in_group")
  {
    var _ :- ListAccess(current, groupId);
    Err(AttributeError("get_users_in_group"))
  }

  /**
   * The `PATCH /{user_id}/role` route as written: a refusal is the access
   * decision's error; a granted change calls the missing `update_user_role`.
   */
  function UpdateUserRole(db: Db, current: Row, userId: Value, roleText: string): (r: Result<Row, Error>)
    ensures r.Err?
    ensures RoleChangeAccess(db, current, userId, roleText).Err? ==> r.error == RoleChangeAccess(db, current, userId, roleText).error
    ensures RoleChangeAccess(db, current, userId, roleText).Ok? ==> r.error == AttributeError("update_user_role")
  {
    var _ :- RoleChangeAccess(db, current, userId, roleText);
    Err(AttributeError("update_user_role"))
  }

  /**
   * The `PATCH /{user_id}/password` route as written: a refusal is the
   * access decision's error; a granted change calls the missing
   * `update_user_password`.
   */
  function UpdateUserPassword(db: Db, current: Row, userId: Value, password: string): (r: Result<bool, Error>)
    ensures r.Err?
    ensures PasswordChangeAccess(db, current, userId).Err? ==> r.error == PasswordChangeAccess(db, current, userId).error
    ensures PasswordChangeAccess(db, current, userId).Ok? ==> r.error == AttributeError("update_user_password")
  {
    var _ :- PasswordChangeAccess(db, current, userId);
    Err(AttributeError("update_user_password"))
  }
}
