/**
 * Patient self-registration and the common login (backend/routes/auth_routes.py).
 *
 * Passwords are kept as the text the request carried: `set_password` and
 * `check_password` are taken to store a hash and to compare against it,
 * which for the model is equality of the texts; a truthy password that is
 * not a string makes the hashing call raise (500).
 */
module AuthRoutes {
  import opened Common
  import opened Json
  import opened Models
  import AdminRoutes

  // ---------------------------------------------------------------------
  // register_user
  // ---------------------------------------------------------------------

  datatype Registration = Registration(username: string, email: string, password: string,
                                       fullName: string, phone: string, address: string)

  /** None of the five `.strip()` reads raises: each field is missing or a string. */
  predicate FieldsAreText(body: Body) {
    GetStripped(body, "username").Some? && GetStripped(body, "email").Some? &&
    GetStripped(body, "full_name").Some? && GetStripped(body, "phone").Some? &&
    GetStripped(body, "address").Some?
  }

  /** Username, email and full name are non-empty after strip, and the password is truthy. */
  predicate RequiredGiven(body: Body)
    requires FieldsAreText(body)
  {
    GetStripped(body, "username").value != [] && GetStripped(body, "email").value != [] &&
    Truthy(GetOr(body, "password", JStr(""))) && GetStripped(body, "full_name").value != []
  }

  /**
   * The checks of POST /api/auth/register in order: the five text fields
   * read with `data.get(k, "").strip()` (500 when a present value is not a
   * string, null included), username, email, password and full name all
   * given (400), no user with the username or the email (400), a text
   * password for the hash (500).
   */
  function RegisterRequest(users: map<nat, User>, body: Body): (r: Verdict<Registration>)
    ensures !FieldsAreText(body) ==> r == Reject(500)
    ensures FieldsAreText(body) && !RequiredGiven(body) ==> r == Reject(400)
    ensures FieldsAreText(body) && RequiredGiven(body) &&
            NameTaken(users, GetStripped(body, "username").value, GetStripped(body, "email").value) ==>
              r == Reject(400)
    ensures FieldsAreText(body) && RequiredGiven(body) &&
            !NameTaken(users, GetStripped(body, "username").value, GetStripped(body, "email").value) ==>
              (GetOr(body, "password", JStr("")).JStr? <==> r.Accept?) &&
              (!GetOr(body, "password", JStr("")).JStr? ==> r == Reject(500))
    ensures r.Accept? ==>
              var g := r.value;
              Some(g.username) == GetStripped(body, "username") && g.username != [] &&
              Some(g.email) == GetStripped(body, "email") && g.email != [] &&
              Some(g.fullName) == GetStripped(body, "full_name") && g.fullName != [] &&
              Some(g.phone) == GetStripped(body, "phone") &&
              Some(g.address) == GetStripped(body, "address") &&
              GetOr(body, "password", JStr("")) == JStr(g.password) && g.password != [] &&
              !NameTaken(users, g.username, g.email)
    ensures r.Reject? ==> r.code == 400 || r.code == 500
  {
    if !FieldsAreText(body) then Reject(500)
    else if !RequiredGiven(body) then Reject(400)
    else
      var username := GetStripped(body, "username").value;
      var email := GetStripped(body, "email").value;
      var password := GetOr(body, "password", JStr(""));
      if NameTaken(users, username, email) then Reject(400)
      else if !password.JStr? then Reject(500)
      else
        assert password.s != [] by { assert Truthy(password); }
        Accept(Registration(username, email, password.s, GetStripped(body, "full_name").value,
                            GetStripped(body, "phone").value, GetStripped(body, "address").value))
  }

  function PatientAccount(id: nat, g: Registration): User {
    User(id, g.username, g.email, g.password, "patient", true)
  }

  /** Unlike the admin form, phone and address are stored as given, empty text included. */
  function PatientProfile(id: nat, g: Registration): Patient {
    Patient(id, Some(g.fullName), Some(g.phone), Some(g.address), None, None, None, None)
  }

  /** The tables after a successful registration. */
  function Registered(t: Tables, g: Registration): Tables {
    var t1 := WithUser(t, PatientAccount(t.nextUserId, g));
    t1.(patients := t1.patients[t.nextUserId := PatientProfile(t.nextUserId, g)])
  }

  lemma RegisteredValid(t: Tables, g: Registration)
    requires ValidTables(t) && !NameTaken(t.users, g.username, g.email)
    ensures ValidTables(Registered(t, g))
  {
    WithUserValid(t, PatientAccount(t.nextUserId, g));
    PatientRowValid(WithUser(t, PatientAccount(t.nextUserId, g)), PatientProfile(t.nextUserId, g));
  }

  /** POST /api/auth/register: the user is committed, then the patient profile. */
  method Register(db: Db, body: Body) returns (code: int, id: nat)
    requires db.Valid()
    modifies db
    ensures db.Valid()
    ensures RegisterRequest(old(db.users), body).Reject? ==>
              code == RegisterRequest(old(db.users), body).code && db.Snapshot() == old(db.Snapshot())
    ensures RegisterRequest(old(db.users), body).Accept? ==>
              code == 201 && id == old(db.nextUserId) &&
              db.Snapshot() == Registered(old(db.Snapshot()), RegisterRequest(old(db.users), body).value)
  {
    var r := RegisterRequest(db.users, body);
    if r.Reject? { return r.code, 0; }
    var g := r.value;
    id := db.nextUserId;
    var t := db.Snapshot();
    WithUserValid(t, PatientAccount(id, g));
    var t1 := WithUser(t, PatientAccount(id, g));
    db.Commit(t1);
    PatientRowValid(t1, PatientProfile(id, g));
    db.Commit(t1.(patients := t1.patients[id := PatientProfile(id, g)]));
    return 201, id;
  }

  // ---------------------------------------------------------------------
  // login_user
  // ---------------------------------------------------------------------

  /** `User.query.filter_by(username=...).first()`; usernames are unique, so at most one row matches. */
  ghost function UserNamed(users: map<nat, User>, username: string): (r: Option<nat>)
    ensures r.Some? ==> r.value in users && users[r.value].username == username
    ensures r.None? ==> forall id :: id in users ==> users[id].username != username
  {
    if exists id :: id in users && users[id].username == username then
      var id :| id in users && users[id].username == username; Some(id)
    else None
  }

  /** Both credentials given: a non-empty stripped username and a truthy password. */
  predicate LoginGiven(body: Body) {
    GetStripped(body, "username").Some? && GetStripped(body, "username").value != [] &&
    Truthy(GetOr(body, "password", JStr("")))
  }

  /** The signed token's content: its identity, its role claim and its lifetime in seconds. */
  datatype Grant = Grant(identity: string, role: string, expiresIn: nat)

  datatype LoginReply = LoginReply(token: Grant, id: nat, role: string, username: string)

  /** Eight hours. */
  const TokenLifetime: nat := 8 * 60 * 60

  /**
   * The found user's password check and active flag: 500 when the password
   * is not a string, 401 when it does not match, 403 for a deactivated
   * user, else a token naming the user's id and carrying their role.
   */
  function PasswordVerdict(u: User, id: nat, password: Json): (r: Verdict<LoginReply>)
    ensures !password.JStr? ==> r == Reject(500)
    ensures password.JStr? && password.s != u.password ==> r == Reject(401)
    ensures password == JStr(u.password) && !u.isActive ==> r == Reject(403)
    ensures r.Accept? <==> password == JStr(u.password) && u.isActive
    ensures r.Accept? ==> r.value.id == id && r.value.role == u.role && r.value.username == u.username &&
                          r.value.token == Grant(NatToString(id), u.role, TokenLifetime)
  {
    if !password.JStr? then Reject(500)
    else if password.s != u.password then Reject(401)
    else if !u.isActive then Reject(403)
    else Accept(LoginReply(Grant(NatToString(id), u.role, TokenLifetime), id, u.role, u.username))
  }

  /**
   * POST /api/auth/login: 500 for a present non-string username, 400 when
   * the username or the password is missing, 401 for an unknown user or a
   * wrong password, 403 for a deactivated user, else a token naming the
   * user's id and carrying their role.
   */
  ghost function LoginResult(t: Tables, body: Body): (r: Verdict<LoginReply>)
    ensures GetStripped(body, "username").None? ==> r == Reject(500)
    ensures GetStripped(body, "username").Some? && !LoginGiven(body) ==> r == Reject(400)
    ensures LoginGiven(body) && UserNamed(t.users, GetStripped(body, "username").value).None? ==> r == Reject(401)
    ensures LoginGiven(body) && UserNamed(t.users, GetStripped(body, "username").value).Some? ==>
              var id := UserNamed(t.users, GetStripped(body, "username").value).value;
              var pw := GetOr(body, "password", JStr(""));
              (!pw.JStr? ==> r == Reject(500)) &&
              (pw.JStr? && pw.s != t.users[id].password ==> r == Reject(401)) &&
              (pw == JStr(t.users[id].password) && !t.users[id].isActive ==> r == Reject(403)) &&
              (pw == JStr(t.users[id].password) && t.users[id].isActive ==> r.Accept? && r.value.id == id)
    ensures r.Accept? ==>
              var id := r.value.id;
              id in t.users && GetStripped(body, "username") == Some(t.users[id].username) &&
              GetOr(body, "password", JStr("")) == JStr(t.users[id].password) &&
              t.users[id].isActive && r.value.role == t.users[id].role &&
              r.value.username == t.users[id].username &&
              r.value.token == Grant(NatToString(id), t.users[id].role, TokenLifetime)
    ensures r.Reject? ==> r.code == 400 || r.code == 401 || r.code == 403 || r.code == 500
  {
    var username := GetStripped(body, "username");
    var password := GetOr(body, "password", JStr(""));
    if username.None? then Reject(500)
    else if username.value == [] || !Truthy(password) then Reject(400)
    else
      var found := UserNamed(t.users, username.value);
      if found.None? then Reject(401) else PasswordVerdict(t.users[found.value], found.value, password)
  }

  /** A user is the only one with their username. */
  lemma UserNamedUnique(t: Tables, id: nat)
    requires ValidTables(t) && id in t.users
    ensures UserNamed(t.users, t.users[id].username) == Some(id)
  {
  }

  /** The body that registered a patient logs that patient in, with the patient role. */
  lemma RegisterThenLogin(t: Tables, body: Body)
    requires ValidTables(t) && RegisterRequest(t.users, body).Accept?
    ensures var t2 := Registered(t, RegisterRequest(t.users, body).value);
            LoginResult(t2, body).Accept? &&
            LoginResult(t2, body).value.id == t.nextUserId &&
            LoginResult(t2, body).value.role == "patient"
  {
    var g := RegisterRequest(t.users, body).value;
    var t2 := Registered(t, g);
    RegisteredValid(t, g);
    UserNamedUnique(t2, t.nextUserId);
  }

  /** Once deactivated, a user gets no token whatever the body. */
  lemma DeactivatedCannotLogin(t: Tables, id: nat, body: Body)
    requires ValidTables(t) && id in t.users
    ensures var r := LoginResult(AdminRoutes.Deactivated(t, id), body);
            r.Accept? ==> r.value.id != id
  {
  }

  /** A correct password gets no token for someone else's account either. */
  lemma LoginNamesTheUser(t: Tables, id: nat, body: Body)
    requires ValidTables(t) && id in t.users
    requires GetStripped(body, "username") == Some(t.users[id].username)
    requires LoginResult(t, body).Accept?
    ensures LoginResult(t, body).value.id == id
  {
    UserNamedUnique(t, id);
  }
}
