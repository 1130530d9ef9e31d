/**
 * The admin handlers (backend/routes/admin_routes.py): the role guard, the
 * age shown for a patient, creating, updating and deactivating doctors and
 * patients, and the unguarded appointment status overwrite.
 *
 * The guard as written admits nobody (see `RequireAdminAsWritten`); the
 * handlers below are modelled past a guard that admits admins, each the way
 * the rest of its body is written.
 */
module AdminRoutes {
  import opened Common
  import opened Json
  import opened Dates
  import opened CacheUtils
  import opened Models
  import DoctorRoutes

  // ---------------------------------------------------------------------
  // _require_admin and the callers' four-name unpacking
  // ---------------------------------------------------------------------

  /** The tuple `_require_admin` returns: how many items it has, and its `ok` item. */
  datatype GuardTuple = GuardTuple(arity: nat, ok: bool)

  /** As written: four items when the role is not admin, three when it is. */
  function RequireAdminAsWritten(role: string): (g: GuardTuple)
    ensures g.ok <==> role == "admin"
    ensures g.arity == 4 <==> role != "admin"
  {
    if role != "admin" then GuardTuple(4, false) else GuardTuple(3, true)
  }

  /**
   * `ok, identity, resp, status = _require_admin()` then `if not ok: return
   * resp, status`: a tuple of any other length raises ValueError (500).
   */
  function UnpackGuard(g: GuardTuple): (r: Verdict<()>)
    ensures g.arity != 4 ==> r == Reject(500)
    ensures g.arity == 4 ==> (r.Accept? <==> g.ok)
    ensures r.Reject? ==> r.code == 500 || r.code == 403
  {
    if g.arity != 4 then Reject(500) else if !g.ok then Reject(403) else Accept(())
  }

  /** As written, every admin handler fails: 403 for other roles, 500 for admins. */
  lemma AdminGuardAdmitsNobody(role: string)
    ensures UnpackGuard(RequireAdminAsWritten(role)).Reject?
    ensures role == "admin" ==> UnpackGuard(RequireAdminAsWritten(role)) == Reject(500)
    ensures role != "admin" ==> UnpackGuard(RequireAdminAsWritten(role)) == Reject(403)
  {
  }

  /** The evident intent: four items on both paths (with the response slots None on success). */
  function RequireAdmin(role: string): (g: GuardTuple)
    ensures g.arity == 4 && (g.ok <==> role == "admin")
  {
    GuardTuple(4, role == "admin")
  }

  /** The guard the handlers below go through. */
  function AdminGuard(role: string): (r: Verdict<()>)
    ensures r.Accept? <==> role == "admin"
    ensures r.Reject? ==> r.code == 403
  {
    UnpackGuard(RequireAdmin(role))
  }

  /** The intended guard admits exactly the admin role and answers 403 to the rest. */
  lemma AdminGuardAdmitsAdmins(role: string)
    ensures AdminGuard(role).Accept? <==> role == "admin"
    ensures AdminGuard(role).Reject? ==> AdminGuard(role).code == 403
  {
  }

  // ---------------------------------------------------------------------
  // _calculate_age
  // ---------------------------------------------------------------------

  /** The age shown for a stored `dob`: None when it is missing, empty or not YYYY-MM-DD. */
  function CalculateAge(dob: Option<string>, today: Date): (r: Option<int>)
    ensures r.Some? <==> dob.Some? && dob.value != [] && Strptime(dob.value).Some?
    ensures r.Some? ==> r.value == Age(Strptime(dob.value).value, today)
  {
    if dob.None? || dob.value == [] then None
    else match Strptime(dob.value)
      case None => None
      case Some(d) => Some(Age(d, today))
  }

  /**
   * For a birth date no later than today the age is never negative, and
   * from one day to the next it rises by one exactly on the birthday.
   */
  lemma CalculateAgeStep(dob: string, today: Date)
    requires Strptime(dob).Some? && ValidDate(today) && OnOrBefore(Strptime(dob).value, today)
    ensures CalculateAge(Some(dob), today).Some? && CalculateAge(Some(dob), today).value >= 0
    ensures today != MaxDate ==>
              var d := Strptime(dob).value;
              CalculateAge(Some(dob), NextDay(today).value).value ==
                CalculateAge(Some(dob), today).value + (if CelebratesOn(d, NextDay(today).value) then 1 else 0)
  {
    var d := Strptime(dob).value;
    AgeNonNegative(d, today);
    if today != MaxDate { AgeStep(d, today); }
  }

  // ---------------------------------------------------------------------
  // Shared by create_doctor and create_patient
  // ---------------------------------------------------------------------

  /** `data.get("password") or default`, which the hashing call needs to be text. */
  function PasswordOr(body: Body, default: string): (r: Option<string>)
    ensures Truthy(Get(body, "password")) ==> (r.Some? <==> Get(body, "password").JStr?)
    ensures Truthy(Get(body, "password")) && Get(body, "password").JStr? ==> r == Some(Get(body, "password").s)
    ensures !Truthy(Get(body, "password")) ==> r == Some(default)
  {
    match PyOr(Get(body, "password"), JStr(default))
    case JStr(s) => Some(s)
    case _ => None
  }

  const DoctorPrefixes := ["admin_stats", "admin_doctors", "patient_doctors"]
  const PatientPrefixes := ["admin_stats", "admin_patients"]

  // ---------------------------------------------------------------------
  // create_doctor
  // ---------------------------------------------------------------------

  datatype NewDoctor = NewDoctor(fullName: string, username: string, email: string,
                                 specialization: string, experience: Json, password: string)

  /** None of the four `(v or "").strip()` reads raises. */
  predicate DoctorFieldsText(body: Body) {
    StripOr(Get(body, "full_name")).Some? && StripOr(Get(body, "username")).Some? &&
    StripOr(Get(body, "email")).Some? && StripOr(Get(body, "specialization")).Some?
  }

  /** Full name, username, e-mail and specialization are all non-empty after strip. */
  predicate DoctorFieldsGiven(body: Body)
    requires DoctorFieldsText(body)
  {
    StripOr(Get(body, "full_name")).value != [] && StripOr(Get(body, "username")).value != [] &&
    StripOr(Get(body, "email")).value != [] && StripOr(Get(body, "specialization")).value != []
  }

  /**
   * The checks of POST /api/admin/doctors in order: the four text fields
   * (500 for a non-string), none empty after strip (400), no user with the
   * username or the email (400), a text password or the default one (500).
   */
  function NewDoctorRequest(users: map<nat, User>, body: Body): (r: Verdict<NewDoctor>)
    ensures !DoctorFieldsText(body) ==> r == Reject(500)
    ensures DoctorFieldsText(body) && !DoctorFieldsGiven(body) ==> r == Reject(400)
    ensures (DoctorFieldsText(body) && DoctorFieldsGiven(body) &&
             NameTaken(users, StripOr(Get(body, "username")).value, StripOr(Get(body, "email")).value)) ==>
              r == Reject(400)
    ensures (DoctorFieldsText(body) && DoctorFieldsGiven(body) &&
             !NameTaken(users, StripOr(Get(body, "username")).value, StripOr(Get(body, "email")).value)) ==>
              (r.Accept? <==> PasswordOr(body, "doctor123").Some?) &&
              (PasswordOr(body, "doctor123").None? ==> r == Reject(500))
    ensures r.Accept? ==>
              var f := r.value;
              Some(f.fullName) == StripOr(Get(body, "full_name")) && f.fullName != [] &&
              Some(f.username) == StripOr(Get(body, "username")) && f.username != [] &&
              Some(f.email) == StripOr(Get(body, "email")) && f.email != [] &&
              Some(f.specialization) == StripOr(Get(body, "specialization")) && f.specialization != [] &&
              !NameTaken(users, f.username, f.email) &&
              f.experience == GetOr(body, "experience_years", JNum(0)) &&
              Some(f.password) == PasswordOr(body, "doctor123")
    ensures r.Reject? ==> r.code == 400 || r.code == 500
  {
    var fullName := StripOr(Get(body, "full_name"));
    var username := StripOr(Get(body, "username"));
    var email := StripOr(Get(body, "email"));
    var specialization := StripOr(Get(body, "specialization"));
    if fullName.None? || username.None? || email.None? || specialization.None? then Reject(500)
    else if fullName.value == [] || username.value == [] || email.value == [] || specialization.value == [] then
      Reject(400)
    else if NameTaken(users, username.value, email.value) then Reject(400)
    else match PasswordOr(body, "doctor123")
      case None => Reject(500)
      case Some(password) =>
        Accept(NewDoctor(fullName.value, username.value, email.value, specialization.value,
                         GetOr(body, "experience_years", JNum(0)), password))
  }

  /** An existing username or email is refused whatever the other fields say. */
  lemma CreateDoctorRejectsTaken(users: map<nat, User>, body: Body, id: nat)
    requires id in users
    requires StripOr(Get(body, "username")) == Some(users[id].username) ||
             StripOr(Get(body, "email")) == Some(users[id].email)
    ensures NewDoctorRequest(users, body).Reject?
    ensures DoctorFieldsText(body) && DoctorFieldsGiven(body) ==> NewDoctorRequest(users, body) == Reject(400)
  {
  }

  function DoctorUser(id: nat, f: NewDoctor): User {
    User(id, f.username, f.email, f.password, "doctor", true)
  }

  /**
   * POST /api/admin/doctors. The user row is committed before the doctor
   * row, so an `experience_years` the driver refuses leaves a doctor user
   * without a doctor profile and answers 500.
   */
  method CreateDoctor(db: Db, cache: CacheStore, role: string, body: Body) returns (code: int, id: nat)
    requires db.Valid()
    modifies db, cache
    ensures db.Valid()
    ensures AdminGuard(role).Reject? ==>
              code == 403 && db.Snapshot() == old(db.Snapshot()) && cache.entries == old(cache.entries)
    ensures AdminGuard(role).Accept? ==>
              var r := NewDoctorRequest(old(db.users), body);
              (r.Reject? ==> code == r.code && db.Snapshot() == old(db.Snapshot()) &&
                             cache.entries == old(cache.entries)) &&
              (r.Accept? ==>
                 var t1 := WithUser(old(db.Snapshot()), DoctorUser(old(db.nextUserId), r.value));
                 var exp := PyOr(r.value.experience, JNum(0));
                 id == old(db.nextUserId) &&
                 (DriverAccepts(exp) ==>
                    code == 201 &&
                    db.Snapshot() == t1.(doctors := t1.doctors[id := Doctor(id, Some(r.value.fullName),
                                                                      Some(r.value.specialization), exp)]) &&
                    cache.entries == DeleteAll(old(cache.entries), Patterns(DoctorPrefixes))) &&
                 (!DriverAccepts(exp) ==>
                    code == 500 && db.Snapshot() == t1 && cache.entries == old(cache.entries)))
  {
    var guard := AdminGuard(role);
    if guard.Reject? { return guard.code, 0; }
    var r := NewDoctorRequest(db.users, body);
    if r.Reject? { return r.code, 0; }
    code, id := InsertDoctor(db, cache, r.value);
  }

  /** The two commits of a checked request: the user row, then the doctor profile and the cache flush. */
  method InsertDoctor(db: Db, cache: CacheStore, f: NewDoctor) returns (code: int, id: nat)
    requires db.Valid() && !NameTaken(db.users, f.username, f.email)
    modifies db, cache
    ensures db.Valid() && id == old(db.nextUserId)
    ensures var t1 := WithUser(old(db.Snapshot()), DoctorUser(old(db.nextUserId), f));
            var exp := PyOr(f.experience, JNum(0));
            (DriverAccepts(exp) ==>
               code == 201 &&
               db.Snapshot() == t1.(doctors := t1.doctors[id := Doctor(id, Some(f.fullName), Some(f.specialization), exp)]) &&
               cache.entries == DeleteAll(old(cache.entries), Patterns(DoctorPrefixes))) &&
            (!DriverAccepts(exp) ==> code == 500 && db.Snapshot() == t1 && cache.entries == old(cache.entries))
  {
    id := db.nextUserId;
    var t1 := WithUser(db.Snapshot(), DoctorUser(id, f));
    WithUserValid(db.Snapshot(), DoctorUser(id, f));
    db.Commit(t1);
    var exp := PyOr(f.experience, JNum(0));
    if !DriverAccepts(exp) { return 500, id; }
    var d := Doctor(id, Some(f.fullName), Some(f.specialization), exp);
    DoctorRowValid(t1, d);
    db.Commit(t1.(doctors := t1.doctors[id := d]));
    cache.DeletePatterns(Patterns(DoctorPrefixes));
    return 201, id;
  }

  // ---------------------------------------------------------------------
  // update_doctor and delete_doctor
  // ---------------------------------------------------------------------

  /** The user row is a doctor's and has a doctor profile. */
  predicate DoctorFound(t: Tables, id: nat) {
    id in t.users && t.users[id].role == "doctor" && id in t.doctors
  }

  /** `(data[k] or "").strip()` for a key that is present, else the current value. */
  function StrippedField(body: Body, k: string, current: string): (r: Option<string>)
    ensures k !in body ==> r == Some(current)
    ensures k in body ==> r == StripOr(body[k])
  {
    if k in body then StripOr(body[k]) else Some(current)
  }

  /** The same for a nullable column. */
  function StrippedOptional(body: Body, k: string, current: Option<string>): (r: Option<Option<string>>)
    ensures k !in body ==> r == Some(current)
    ensures k in body ==> (r.Some? <==> StripOr(body[k]).Some?)
    ensures k in body && StripOr(body[k]).Some? ==> r == Some(Some(StripOr(body[k]).value))
  {
    if k in body then
      match StripOr(body[k])
      case None => None
      case Some(s) => Some(Some(s))
    else Some(current)
  }

  /** `(data[k] or "").strip() or None` for a key that is present, else the current value. */
  function StrippedOrNone(body: Body, k: string, current: Option<string>): (r: Option<Option<string>>)
    ensures k !in body ==> r == Some(current)
    ensures k in body ==> (r.Some? <==> StripOr(body[k]).Some?)
    ensures k in body && StripOr(body[k]).Some? ==>
              r == Some(if StripOr(body[k]).value == [] then None else Some(StripOr(body[k]).value))
  {
    if k in body then
      match StripOr(body[k])
      case None => None
      case Some(s) => Some(if s == [] then None else Some(s))
    else Some(current)
  }

  /** `user.is_active = bool(data["is_active"])` when the key is present. */
  function ActiveField(body: Body, current: bool): (r: bool)
    ensures "is_active" !in body ==> r == current
    ensures "is_active" in body ==> r == Truthy(body["is_active"])
  {
    if "is_active" in body then Truthy(body["is_active"]) else current
  }

  /**
   * The rows after PUT /api/admin/doctors/<id>: each present key replaces
   * its column, every absent one keeps it; None when a value raises or the
   * driver refuses the new `experience_years` (500).
   */
  function DoctorUpdate(u: User, d: Doctor, body: Body): (r: Option<(User, Doctor)>)
    ensures r.Some? ==>
              var (u2, d2) := r.value;
              u2 == u.(email := u2.email, isActive := u2.isActive) &&
              d2 == d.(fullName := d2.fullName, specialization := d2.specialization,
                       experienceYears := d2.experienceYears) &&
              Some(u2.email) == StrippedField(body, "email", u.email) &&
              u2.isActive == ActiveField(body, u.isActive) &&
              Some(d2.fullName) == StrippedOptional(body, "full_name", d.fullName) &&
              Some(d2.specialization) == StrippedOptional(body, "specialization", d.specialization) &&
              ("experience_years" !in body ==> d2.experienceYears == d.experienceYears) &&
              ("experience_years" in body ==> d2.experienceYears == PyOr(body["experience_years"], JNum(0)))
    ensures r.None? <==>
              StrippedField(body, "email", u.email).None? ||
              StrippedOptional(body, "full_name", d.fullName).None? ||
              StrippedOptional(body, "specialization", d.specialization).None? ||
              ("experience_years" in body && !DriverAccepts(PyOr(body["experience_years"], JNum(0))))
  {
    var email := StrippedField(body, "email", u.email);
    var fullName := StrippedOptional(body, "full_name", d.fullName);
    var specialization := StrippedOptional(body, "specialization", d.specialization);
    var exp := if "experience_years" in body then PyOr(body["experience_years"], JNum(0)) else d.experienceYears;
    if email.None? || fullName.None? || specialization.None? then None
    else if "experience_years" in body && !DriverAccepts(exp) then None
    else Some((u.(email := email.value, isActive := ActiveField(body, u.isActive)),
               d.(fullName := fullName.value, specialization := specialization.value, experienceYears := exp)))
  }

  /** A body with none of the five keys changes nothing. */
  lemma DoctorUpdateEmptyBody(u: User, d: Doctor, body: Body)
    requires "email" !in body && "is_active" !in body && "full_name" !in body
    requires "specialization" !in body && "experience_years" !in body
    ensures DoctorUpdate(u, d, body) == Some((u, d))
  {
  }

  /** An update that keeps ids and usernames keeps every constraint. */
  lemma ProfileEditValid(t: Tables, id: nat, u: User)
    requires ValidTables(t) && id in t.users && u.id == id && u.username == t.users[id].username
    ensures ValidTables(t.(users := t.users[id := u]))
  {
    var users := t.users[id := u];
    assert forall k :: k in users ==> users[k].username == t.users[k].username;
  }

  /** Editing a doctor's user row and profile in place keeps the tables valid. */
  lemma DoctorEditValid(t: Tables, id: nat, u: User, d: Doctor)
    requires ValidTables(t) && id in t.users && id in t.doctors && u.id == id && d.id == id
    requires u.username == t.users[id].username
    ensures ValidTables(t.(users := t.users[id := u], doctors := t.doctors[id := d]))
  {
    ProfileEditValid(t, id, u);
  }

  method UpdateDoctor(db: Db, cache: CacheStore, role: string, doctorId: nat, body: Body) returns (code: int)
    requires db.Valid()
    modifies db, cache
    ensures db.Valid()
    ensures AdminGuard(role).Reject? ==> code == 403
    ensures AdminGuard(role).Accept? && !DoctorFound(old(db.Snapshot()), doctorId) ==> code == 404
    ensures AdminGuard(role).Accept? && DoctorFound(old(db.Snapshot()), doctorId) ==>
              var r := DoctorUpdate(old(db.users[doctorId]), old(db.doctors[doctorId]), body);
              (r.None? ==> code == 500) &&
              (r.Some? ==>
                 code == 200 &&
                 db.Snapshot() == old(db.Snapshot()).(users := old(db.users)[doctorId := r.value.0],
                                                      doctors := old(db.doctors)[doctorId := r.value.1]) &&
                 cache.entries == DeleteAll(old(cache.entries), Patterns(DoctorPrefixes)))
    ensures code != 200 ==> db.Snapshot() == old(db.Snapshot()) && cache.entries == old(cache.entries)
  {
    var guard := AdminGuard(role);
    if guard.Reject? { return guard.code; }
    if !DoctorFound(db.Snapshot(), doctorId) { return 404; }
    var r := DoctorUpdate(db.users[doctorId], db.doctors[doctorId], body);
    if r.None? { return 500; }
    var t := db.Snapshot();
    var t2 := t.(users := t.users[doctorId := r.value.0], doctors := t.doctors[doctorId := r.value.1]);
    DoctorEditValid(t, doctorId, r.value.0, r.value.1);
    db.Commit(t2);
    cache.DeletePatterns(Patterns(DoctorPrefixes));
    return 200;
  }

  /** Deactivation: the one user's `is_active` becomes false and no row goes away. */
  function Deactivated(t: Tables, id: nat): (r: Tables)
    requires id in t.users
    ensures r.users.Keys == t.users.Keys && r.doctors == t.doctors && r.patients == t.patients
    ensures r.appointments == t.appointments && r.treatments == t.treatments
    ensures !r.users[id].isActive
    ensures forall k :: k in t.users && k != id ==> r.users[k] == t.users[k]
  {
    t.(users := t.users[id := t.users[id].(isActive := false)])
  }

  /** DELETE /api/admin/doctors/<id>: a doctor user is needed, a doctor profile is not. */
  method DeleteDoctor(db: Db, cache: CacheStore, role: string, doctorId: nat) returns (code: int)
    requires db.Valid()
    modifies db, cache
    ensures db.Valid()
    ensures AdminGuard(role).Reject? ==> code == 403
    ensures AdminGuard(role).Accept? ==>
              (code == 200 <==> doctorId in old(db.users) && old(db.users[doctorId].role) == "doctor") &&
              (code != 200 ==> code == 404)
    ensures code == 200 ==>
              db.Snapshot() == Deactivated(old(db.Snapshot()), doctorId) &&
              cache.entries == DeleteAll(old(cache.entries), Patterns(DoctorPrefixes))
    ensures code != 200 ==> db.Snapshot() == old(db.Snapshot()) && cache.entries == old(cache.entries)
  {
    var guard := AdminGuard(role);
    if guard.Reject? { return guard.code; }
    if doctorId !in db.users || db.users[doctorId].role != "doctor" { return 404; }
    ProfileEditValid(db.Snapshot(), doctorId, db.users[doctorId].(isActive := false));
    db.users := db.users[doctorId := db.users[doctorId].(isActive := false)];
    cache.DeletePatterns(Patterns(DoctorPrefixes));
    return 200;
  }

  // ---------------------------------------------------------------------
  // create_patient, update_patient and delete_patient
  // ---------------------------------------------------------------------

  /** The seven text fields of the create-patient form, each `(value or "").strip()`. */
  datatype PatientForm = PatientForm(fullName: string, username: string, email: string, phone: string,
                                     address: string, gender: string, dob: string)

  /** The form, or None when some present field is a truthy non-string (500). */
  function ReadPatientForm(body: Body): (r: Option<PatientForm>)
    ensures r.None? <==>
              StripOr(Get(body, "full_name")).None? || StripOr(Get(body, "username")).None? ||
              StripOr(Get(body, "email")).None? || StripOr(Get(body, "phone")).None? ||
              StripOr(Get(body, "address")).None? || StripOr(Get(body, "gender")).None? ||
              StripOr(Get(body, "dob")).None?
    ensures r.Some? ==>
              Some(r.value.fullName) == StripOr(Get(body, "full_name")) &&
              Some(r.value.username) == StripOr(Get(body, "username")) &&
              Some(r.value.email) == StripOr(Get(body, "email")) &&
              Some(r.value.phone) == StripOr(Get(body, "phone")) &&
              Some(r.value.address) == StripOr(Get(body, "address")) &&
              Some(r.value.gender) == StripOr(Get(body, "gender")) &&
              Some(r.value.dob) == StripOr(Get(body, "dob"))
  {
    var fullName := StripOr(Get(body, "full_name"));
    var username := StripOr(Get(body, "username"));
    var email := StripOr(Get(body, "email"));
    var phone := StripOr(Get(body, "phone"));
    var address := StripOr(Get(body, "address"));
    var gender := StripOr(Get(body, "gender"));
    var dob := StripOr(Get(body, "dob"));
    if fullName.None? || username.None? || email.None? || phone.None? || address.None? ||
       gender.None? || dob.None? then None
    else Some(PatientForm(fullName.value, username.value, email.value, phone.value, address.value,
                          gender.value, dob.value))
  }

  datatype NewPatient = NewPatient(form: PatientForm, password: string)

  function NoneIfEmpty(s: string): (r: Option<string>)
    ensures r.None? <==> s == []
    ensures r.Some? ==> r.value == s
  {
    if s == [] then None else Some(s)
  }

  /**
   * The checks of POST /api/admin/patients in order: the seven text fields
   * (500 for a non-string), full name, username and email not empty after
   * strip (400), no user with the username or the email (400), a text
   * password or the default one (500).
   */
  function NewPatientRequest(users: map<nat, User>, body: Body): (r: Verdict<NewPatient>)
    ensures ReadPatientForm(body).None? ==> r == Reject(500)
    ensures ReadPatientForm(body).Some? ==>
              var f := ReadPatientForm(body).value;
              ((f.fullName == [] || f.username == [] || f.email == []) ==> r == Reject(400)) &&
              (f.fullName != [] && f.username != [] && f.email != [] && NameTaken(users, f.username, f.email) ==>
                 r == Reject(400)) &&
              (f.fullName != [] && f.username != [] && f.email != [] && !NameTaken(users, f.username, f.email) ==>
                 (r.Accept? <==> PasswordOr(body, "patient123").Some?) &&
                 (PasswordOr(body, "patient123").None? ==> r == Reject(500))) &&
              (r.Accept? ==>
                 r.value.form == f && f.fullName != [] && f.username != [] && f.email != [] &&
                 !NameTaken(users, f.username, f.email) &&
                 Some(r.value.password) == PasswordOr(body, "patient123"))
    ensures r.Accept? ==> ReadPatientForm(body).Some?
    ensures r.Reject? ==> r.code == 400 || r.code == 500
  {
    match ReadPatientForm(body)
    case None => Reject(500)
    case Some(f) =>
      if f.fullName == [] || f.username == [] || f.email == [] then Reject(400)
      else if NameTaken(users, f.username, f.email) then Reject(400)
      else match PasswordOr(body, "patient123")
        case None => Reject(500)
        case Some(password) => Accept(NewPatient(f, password))
  }

  /** Empty phone and address are stored as NULL, as are an empty gender and dob. */
  function PatientRow(id: nat, f: PatientForm): Patient {
    Patient(id, Some(f.fullName), NoneIfEmpty(f.phone), NoneIfEmpty(f.address),
            NoneIfEmpty(f.gender), NoneIfEmpty(f.dob), None, None)
  }

  function PatientUser(id: nat, f: NewPatient): User {
    User(id, f.form.username, f.form.email, f.password, "patient", true)
  }

  /** The tables with the new patient user and its patient row, both under the next user id. */
  function PatientCreated(t: Tables, f: NewPatient): Tables {
    var t1 := WithUser(t, PatientUser(t.nextUserId, f));
    t1.(patients := t1.patients[t.nextUserId := PatientRow(t.nextUserId, f.form)])
  }

  lemma PatientCreatedValid(t: Tables, f: NewPatient)
    requires ValidTables(t) && !NameTaken(t.users, f.form.username, f.form.email)
    ensures ValidTables(PatientCreated(t, f))
  {
    var t1 := WithUser(t, PatientUser(t.nextUserId, f));
    WithUserValid(t, PatientUser(t.nextUserId, f));
    PatientRowValid(t1, PatientRow(t.nextUserId, f.form));
  }

  /** POST /api/admin/patients: the user and the patient row are committed together. */
  method CreatePatient(db: Db, cache: CacheStore, role: string, body: Body) returns (code: int, id: nat)
    requires db.Valid()
    modifies db, cache
    ensures db.Valid()
    ensures AdminGuard(role).Reject? ==> code == 403
    ensures AdminGuard(role).Accept? ==>
              var r := NewPatientRequest(old(db.users), body);
              (r.Reject? ==> code == r.code) &&
              (r.Accept? ==>
                 code == 201 && id == old(db.nextUserId) &&
                 db.Snapshot() == PatientCreated(old(db.Snapshot()), r.value) &&
                 cache.entries == DeleteAll(old(cache.entries), Patterns(PatientPrefixes)))
    ensures code != 201 ==> db.Snapshot() == old(db.Snapshot()) && cache.entries == old(cache.entries)
  {
    var guard := AdminGuard(role);
    if guard.Reject? { return guard.code, 0; }
    var r := NewPatientRequest(db.users, body);
    if r.Reject? { return r.code, 0; }
    id := InsertPatient(db, cache, r.value);
    return 201, id;
  }

  /** The commit of a checked request and the cache flush after it. */
  method InsertPatient(db: Db, cache: CacheStore, f: NewPatient) returns (id: nat)
    requires db.Valid() && !NameTaken(db.users, f.form.username, f.form.email)
    modifies db, cache
    ensures db.Valid() && id == old(db.nextUserId)
    ensures db.Snapshot() == PatientCreated(old(db.Snapshot()), f)
    ensures cache.entries == DeleteAll(old(cache.entries), Patterns(PatientPrefixes))
  {
    id := db.nextUserId;
    PatientCreatedValid(db.Snapshot(), f);
    db.Commit(PatientCreated(db.Snapshot(), f));
    cache.DeletePatterns(Patterns(PatientPrefixes));
  }

  predicate PatientFound(t: Tables, id: nat) {
    id in t.users && t.users[id].role == "patient" && id in t.patients
  }

  /**
   * The rows after PUT /api/admin/patients/<id>: each present key replaces
   * its column (gender and dob become None when empty), every absent one
   * keeps it; None when a present value is a truthy non-string (500).
   */
  function PatientUpdate(u: User, p: Patient, body: Body): (r: Option<(User, Patient)>)
    ensures r.Some? ==>
              var (u2, p2) := r.value;
              u2 == u.(email := u2.email, isActive := u2.isActive) &&
              p2 == p.(fullName := p2.fullName, phone := p2.phone, address := p2.address,
                       gender := p2.gender, dob := p2.dob) &&
              Some(u2.email) == StrippedField(body, "email", u.email) &&
              u2.isActive == ActiveField(body, u.isActive) &&
              Some(p2.fullName) == StrippedOptional(body, "full_name", p.fullName) &&
              Some(p2.phone) == StrippedOptional(body, "phone", p.phone) &&
              Some(p2.address) == StrippedOptional(body, "address", p.address) &&
              Some(p2.gender) == StrippedOrNone(body, "gender", p.gender) &&
              Some(p2.dob) == StrippedOrNone(body, "dob", p.dob)
    ensures r.None? <==>
              StrippedField(body, "email", u.email).None? ||
              StrippedOptional(body, "full_name", p.fullName).None? ||
              StrippedOptional(body, "phone", p.phone).None? ||
              StrippedOptional(body, "address", p.address).None? ||
              StrippedOrNone(body, "gender", p.gender).None? ||
              StrippedOrNone(body, "dob", p.dob).None?
  {
    var email := StrippedField(body, "email", u.email);
    var fullName := StrippedOptional(body, "full_name", p.fullName);
    var phone := StrippedOptional(body, "phone", p.phone);
    var address := StrippedOptional(body, "address", p.address);
    var gender := StrippedOrNone(body, "gender", p.gender);
    var dob := StrippedOrNone(body, "dob", p.dob);
    if email.None? || fullName.None? || phone.None? || address.None? || gender.None? || dob.None? then None
    else Some((u.(email := email.value, isActive := ActiveField(body, u.isActive)),
               p.(fullName := fullName.value, phone := phone.value, address := address.value,
                  gender := gender.value, dob := dob.value)))
  }

  /** The same for a patient's user row and patient row. */
  lemma PatientEditValid(t: Tables, id: nat, u: User, p: Patient)
    requires ValidTables(t) && id in t.users && id in t.patients && u.id == id && p.id == id
    requires u.username == t.users[id].username
    ensures ValidTables(t.(users := t.users[id := u], patients := t.patients[id := p]))
  {
    ProfileEditValid(t, id, u);
  }

  method UpdatePatient(db: Db, cache: CacheStore, role: string, patientId: nat, body: Body) returns (code: int)
    requires db.Valid()
    modifies db, cache
    ensures db.Valid()
    ensures AdminGuard(role).Reject? ==> code == 403
    ensures AdminGuard(role).Accept? && !PatientFound(old(db.Snapshot()), patientId) ==> code == 404
    ensures AdminGuard(role).Accept? && PatientFound(old(db.Snapshot()), patientId) ==>
              var r := PatientUpdate(old(db.users[patientId]), old(db.patients[patientId]), body);
              (r.None? ==> code == 500) &&
              (r.Some? ==>
                 code == 200 &&
                 db.Snapshot() == old(db.Snapshot()).(users := old(db.users)[patientId := r.value.0],
                                                      patients := old(db.patients)[patientId := r.value.1]) &&
                 cache.entries == DeleteAll(old(cache.entries), Patterns(PatientPrefixes)))
    ensures code != 200 ==> db.Snapshot() == old(db.Snapshot()) && cache.entries == old(cache.entries)
  {
    var guard := AdminGuard(role);
    if guard.Reject? { return guard.code; }
    if !PatientFound(db.Snapshot(), patientId) { return 404; }
    var r := PatientUpdate(db.users[patientId], db.patients[patientId], body);
    if r.None? { return 500; }
    var t := db.Snapshot();
    var t2 := t.(users := t.users[patientId := r.value.0], patients := t.patients[patientId := r.value.1]);
    PatientEditValid(t, patientId, r.value.0, r.value.1);
    db.Commit(t2);
    cache.DeletePatterns(Patterns(PatientPrefixes));
    return 200;
  }

  /** DELETE /api/admin/patients/<id>: a patient user is needed, a patient row is not. */
  method DeletePatient(db: Db, cache: CacheStore, role: string, patientId: nat) returns (code: int)
    requires db.Valid()
    modifies db, cache
    ensures db.Valid()
    ensures AdminGuard(role).Reject? ==> code == 403
    ensures AdminGuard(role).Accept? ==>
              (code == 200 <==> patientId in old(db.users) && old(db.users[patientId].role) == "patient") &&
              (code != 200 ==> code == 404)
    ensures code == 200 ==>
              db.Snapshot() == Deactivated(old(db.Snapshot()), patientId) &&
              cache.entries == DeleteAll(old(cache.entries), Patterns(PatientPrefixes))
    ensures code != 200 ==> db.Snapshot() == old(db.Snapshot()) && cache.entries == old(cache.entries)
  {
    var guard := AdminGuard(role);
    if guard.Reject? { return guard.code; }
    if patientId !in db.users || db.users[patientId].role != "patient" { return 404; }
    ProfileEditValid(db.Snapshot(), patientId, db.users[patientId].(isActive := false));
    db.users := db.users[patientId := db.users[patientId].(isActive := false)];
    cache.DeletePatterns(Patterns(PatientPrefixes));
    return 200;
  }

  // ---------------------------------------------------------------------
  // admin_update_appointment_status
  // ---------------------------------------------------------------------

  const AdminStatusPrefixes := ["admin_stats", "admin_appointments", "doctor_dashboard", "doctor_appointments",
                                "patient_appointments", "patient_history", "patient_slots"]

  /**
   * The checks in order: the status text (500 for a non-string), one of the
   * three statuses once uppercased (400), the appointment (404). The
   * current status is never looked at.
   */
  function AdminStatusCode(appts: map<nat, Appointment>, role: string, id: nat, body: Body): (code: int)
    ensures AdminGuard(role).Reject? ==> code == 403
    ensures AdminGuard(role).Accept? ==>
              match OrEmpty(Get(body, "status"))
              case None => code == 500
              case Some(s) =>
                (!IsStatus(Upper(s)) ==> code == 400) &&
                (IsStatus(Upper(s)) && id !in appts ==> code == 404) &&
                (code == 200 <==> IsStatus(Upper(s)) && id in appts)
  {
    if AdminGuard(role).Reject? then AdminGuard(role).code
    else match OrEmpty(Get(body, "status"))
      case None => 500
      case Some(s) => if !IsStatus(Upper(s)) then 400 else if id !in appts then 404 else 200
  }

  /**
   * Unlike the doctor's guarded change, the admin can move a completed
   * appointment back to BOOKED.
   */
  lemma AdminRevivesCompleted(appts: map<nat, Appointment>, id: nat, body: Body)
    requires id in appts && appts[id].status == Completed
    requires Get(body, "status") == JStr("booked")
    ensures AdminStatusCode(appts, "admin", id, body) == 200
    ensures DoctorRoutes.StatusChangeCode(appts, "doctor", appts[id].doctorId, id, body) == 400
  {
    assert Upper("booked") == Booked;
  }

  /** PUT /api/admin/appointments/<id>/status: overwrite the status and delete the seven patterns. */
  method AdminUpdateAppointmentStatus(db: Db, cache: CacheStore, role: string, id: nat, body: Body)
    returns (code: int)
    requires db.Valid()
    modifies db, cache
    ensures db.Valid()
    ensures code == AdminStatusCode(old(db.appointments), role, id, body)
    ensures code == 200 ==>
              db.Snapshot() == old(db.Snapshot()).(appointments :=
                old(db.appointments)[id := old(db.appointments[id]).(status := Upper(OrEmpty(Get(body, "status")).value))]) &&
              cache.entries == DeleteAll(old(cache.entries), Patterns(AdminStatusPrefixes))
    ensures code != 200 ==> db.Snapshot() == old(db.Snapshot()) && cache.entries == old(cache.entries)
  {
    var guard := AdminGuard(role);
    if guard.Reject? { return guard.code; }
    var text := OrEmpty(Get(body, "status"));
    if text.None? { return 500; }
    var newStatus := Upper(text.value);
    if !IsStatus(newStatus) { return 400; }
    if id !in db.appointments { return 404; }
    ghost var before := db.Snapshot();
    DoctorRoutes.StatusChangeKeepsKeys(before, id, newStatus);
    db.appointments := db.appointments[id := db.appointments[id].(status := newStatus)];
    assert db.Snapshot() == before.(appointments := before.appointments[id := before.appointments[id].(status := newStatus)]);
    cache.DeletePatterns(Patterns(AdminStatusPrefixes));
    return 200;
  }
}
