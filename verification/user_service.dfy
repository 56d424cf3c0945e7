/**
 * `UserService`: lookup by email, password authentication, account
 * creation and the last-login stamp. Password hashing and checking are the
 * parameters `hash` and `verify`.
 */
module UserService {
  import opened Wrappers
  import opened PyJson
  import opened Models
  import opened SqlStore
  import opened Database

  type Hash = string -> string
  type Verify = (string, string) -> bool

  /** The request body of `create_user`. */
  datatype UserCreate = UserCreate(email: string, name: Value, role: Value, groupId: Value, password: string)

  /** A user row whose email column holds `email`. */
  predicate HasEmail(u: Row, email: string) {
    "email" in u && u["email"] == Str(email)
  }

  lemma EmailFilterMeansHasEmail(u: Row, email: string)
    ensures Matches(UsersSchema, u, map["email" := Str(email)]) <==> HasEmail(u, email)
  {
    assert "email" in map["email" := Str(email)];
  }

  /** `get_user_by_email`: the first user with that email, or `None`. */
  function GetUserByEmail(db: Db, email: string): (r: Option<Row>)
    ensures r.Some? ==> r.value in db.users && HasEmail(r.value, email)
    ensures r.None? <==> forall u :: u in db.users ==> !HasEmail(u, email)
    ensures r.Some? ==> exists i :: 0 <= i < |db.users| && db.users[i] == r.value && NoEmailBefore(db.users, i, email)
  {
    forall u ensures Matches(UsersSchema, u, map["email" := Str(email)]) <==> HasEmail(u, email) {
      EmailFilterMeansHasEmail(u, email);
    }
    FirstMatch(UsersTable(db), map["email" := Str(email)])
  }

  predicate NoEmailBefore(us: seq<Row>, i: nat, email: string)
    requires i <= |us|
  {
    forall j :: 0 <= j < i ==> !HasEmail(us[j], email)
  }

  /** The stored hash of a user, as text. */
  function HashedPassword(u: Row): string {
    match Col(u, "hashed_password")
    case Str(h) => h
    case _ => ""
  }

  /** `authenticate_user`. */
  function AuthenticateUser(db: Db, email: string, password: string, verify: Verify): (r: Option<Row>)
    ensures GetUserByEmail(db, email).None? ==> r.None?
    ensures r.Some? <==> GetUserByEmail(db, email).Some? && verify(password, HashedPassword(GetUserByEmail(db, email).value))
    ensures r.Some? ==> r.value in db.users && HasEmail(r.value, email)
  {
    var user :- GetUserByEmail(db, email);
    if !verify(password, HashedPassword(user)) then None else Some(user)
  }

  /** `user_create.model_dump(exclude={"password"})` with the hash added. */
  function UserData(u: UserCreate, hash: Hash): (r: Row)
    ensures "password" !in r
    ensures Col(r, "hashed_password") == Str(hash(u.password)) && HasEmail(r, u.email)
  {
    map["email" := Str(u.email), "name" := u.name, "role" := u.role, "group_id" := u.groupId,
        "hashed_password" := Str(hash(u.password))]
  }

  /** `create_user`: the group is checked before the email. */
  function CreateUser(db: Db, u: UserCreate, hash: Hash, freshId: Value): (r: Result<(Db, Row), Error>)
    ensures !HasId(GroupsTable(db), u.groupId) ==> r == Err(ValueError("Group not found"))
    ensures HasId(GroupsTable(db), u.groupId) && GetUserByEmail(db, u.email).Some? ==> r == Err(ValueError("Email already registered"))
    ensures r.Ok? ==> HasId(GroupsTable(db), u.groupId) && GetUserByEmail(db, u.email).None?
    ensures r.Ok? ==> r.value.0 == db.(users := db.users + [r.value.1])
    ensures r.Ok? ==> "password" !in r.value.1 && Col(r.value.1, "hashed_password") == Str(hash(u.password)) && HasEmail(r.value.1, u.email)
  {
    if GetRow(GroupsTable(db), u.groupId).None? then Err(ValueError("Group not found"))
    else if GetUserByEmail(db, u.email).Some? then Err(ValueError("Email already registered"))
    else
      var (t, row) :- Create(UsersTable(db), UserData(u, hash), freshId);
      Ok((db.(users := t.rows), row))
  }

  /** No two users share an email. */
  predicate EmailsUnique(us: seq<Row>) {
    forall i, j :: 0 <= i < j < |us| ==> Col(us[i], "email") != Col(us[j], "email")
  }

  /** A successful create keeps emails unique. */
  lemma CreateUserKeepsEmailsUnique(db: Db, u: UserCreate, hash: Hash, freshId: Value)
    requires EmailsUnique(db.users)
    requires CreateUser(db, u, hash, freshId).Ok?
    ensures EmailsUnique(CreateUser(db, u, hash, freshId).value.0.users)
  {
    var (db', row) := CreateUser(db, u, hash, freshId).value;
    assert forall x :: x in db.users ==> !HasEmail(x, u.email);
    assert Col(row, "email") == Str(u.email);
    forall i | 0 <= i < |db.users|
      ensures Col(db.users[i], "email") != Col(row, "email")
    {
      assert db.users[i] in db.users;
    }
    EmailsUniqueSnoc(db.users, row);
  }

  lemma EmailsUniqueSnoc(us: seq<Row>, row: Row)
    requires EmailsUnique(us)
    requires forall i :: 0 <= i < |us| ==> Col(us[i], "email") != Col(row, "email")
    ensures EmailsUnique(us + [row])
  {
    var vs := us + [row];
    forall i, j | 0 <= i < j < |vs|
      ensures Col(vs[i], "email") != Col(vs[j], "email")
    {
      assert vs[i] == us[i];
      if j < |us| {
        assert vs[j] == us[j];
      }
    }
  }

  /** `update_last_login`: the stamp is the parameter `now`. */
  function UpdateLastLogin(db: Db, userId: Value, now: Value): (r: Result<Db, Error>)
    ensures !HasId(UsersTable(db), userId) ==> r == Ok(db)
    ensures r.Ok? ==> r.value == db.(users := r.value.users) && |r.value.users| == |db.users|
  {
    var (t, _) :- Update(UsersTable(db), userId, map["last_login" := now]);
    Ok(db.(users := t.rows))
  }

  /** Only `last_login` changes: every other column of every user keeps its value. */
  lemma UpdateLastLoginChangesOnlyLastLogin(db: Db, userId: Value, now: Value, c: string)
    requires Valid(UsersTable(db))
    requires c != "last_login"
    requires UpdateLastLogin(db, userId, now).Ok?
    ensures forall i :: 0 <= i < |db.users| ==> c in db.users[i] ==>
      c in UpdateLastLogin(db, userId, now).value.users[i] && UpdateLastLogin(db, userId, now).value.users[i][c] == db.users[i][c]
  {
    var data := map["last_login" := now];
    var u := Update(UsersTable(db), userId, data);
    var users := UpdateLastLogin(db, userId, now).value.users;
    assert users == u.value.0.rows;
    if u.value.1.Some? {
      UpdateChangesOnlyNamedFields(UsersTable(db), userId, data, c);
    }
  }
}
