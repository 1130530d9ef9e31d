/**
 * The database rows (backend/models.py), the store as a whole with its
 * unique constraints as the invariant every handler keeps, and the derived
 * views the handlers return: the doctor name fallback of `to_patient_dict`,
 * the `tests` list of `Treatment.to_dict`, and the "latest treatment" pick.
 */
module Models {
  import opened Common
  import opened Json

  const Booked := "BOOKED"
  const Completed := "COMPLETED"
  const Cancelled := "CANCELLED"

  /** The three statuses the handlers accept. */
  predicate IsStatus(s: string) {
    s == Booked || s == Completed || s == Cancelled
  }

  /** A handler's decision: an error answer, or the values it goes on with. */
  datatype Verdict<T> = Reject(code: int) | Accept(value: T)

  /** Status of a new appointment when none is given (column default). */
  const DefaultStatus := Booked

  /** Availability of a new override row when none is given (column default). */
  const DefaultAvailable := true

  /** `password_hash` is kept as the password itself: hashing is a foreign call. */
  datatype User = User(id: nat, username: string, email: string, password: string,
                       role: string, isActive: bool)

  datatype Patient = Patient(id: nat, fullName: Option<string>, phone: Option<string>,
                             address: Option<string>, gender: Option<string>, dob: Option<string>,
                             bloodGroup: Option<string>, isDisabled: Option<bool>)

  /** `experience_years` holds whatever value the request gave (SQLite keeps it loosely typed). */
  datatype Doctor = Doctor(id: nat, fullName: Option<string>, specialization: Option<string>,
                           experienceYears: Json)

  /** Dates and times are the raw strings the request carried. */
  datatype Appointment = Appointment(id: nat, patientId: nat, doctorId: nat, date: string,
                                     time: string, status: string, reason: Option<string>,
                                     createdAt: Option<nat>)

  datatype Treatment = Treatment(id: nat, appointmentId: nat, visitType: Option<string>,
                                 testsText: Option<string>, diagnosis: Option<string>,
                                 prescription: Option<string>, precautions: Option<string>,
                                 notes: Option<string>, followUpDate: Option<string>,
                                 createdAt: Option<nat>)

  /** The unique key `uq_doctor_date_slot` of a DoctorAvailability row. */
  datatype AvKey = AvKey(doctorId: nat, date: string, slot: string)

  /** The unique key `uq_doctor_date_time` of an Appointment row. */
  datatype SlotKey = SlotKey(doctorId: nat, date: string, time: string)

  function SlotOf(a: Appointment): SlotKey {
    SlotKey(a.doctorId, a.date, a.time)
  }

  /** At most one appointment row per (doctor, date, time), whatever its status. */
  ghost predicate UniqueSlots(appts: map<nat, Appointment>) {
    forall a, b :: a in appts && b in appts && SlotOf(appts[a]) == SlotOf(appts[b]) ==> a == b
  }

  ghost predicate UniqueUsernames(users: map<nat, User>) {
    forall a, b :: a in users && b in users && users[a].username == users[b].username ==> a == b
  }

  /** The contents of all tables at one moment. */
  datatype Tables = Tables(users: map<nat, User>, patients: map<nat, Patient>,
                           doctors: map<nat, Doctor>, appointments: map<nat, Appointment>,
                           treatments: seq<Treatment>, availability: map<AvKey, bool>,
                           nextUserId: nat, nextAppointmentId: nat, nextTreatmentId: nat)

  /** The schema's keys and unique constraints. */
  ghost predicate ValidTables(t: Tables) {
    (forall id :: id in t.users ==> t.users[id].id == id && id < t.nextUserId) &&
    UniqueUsernames(t.users) &&
    (forall id :: id in t.patients ==> t.patients[id].id == id && id < t.nextUserId) &&
    (forall id :: id in t.doctors ==> t.doctors[id].id == id && id < t.nextUserId) &&
    (forall id :: id in t.appointments ==> t.appointments[id].id == id && id < t.nextAppointmentId) &&
    UniqueSlots(t.appointments) &&
    (forall i :: 0 <= i < |t.treatments| ==> t.treatments[i].id < t.nextTreatmentId) &&
    (forall i, j :: 0 <= i < j < |t.treatments| ==> t.treatments[i].id < t.treatments[j].id)
  }

  /** The overrides carry no constraint beyond their map key. */
  lemma AvailabilityFree(t: Tables, av: map<AvKey, bool>)
    requires ValidTables(t)
    ensures ValidTables(t.(availability := av))
  {
  }

  /** The tables. Row ids come from per-table counters, as SQLite's rowids do. */
  class Db {
    var users: map<nat, User>
    var patients: map<nat, Patient>
    var doctors: map<nat, Doctor>
    var appointments: map<nat, Appointment>
    /** In id order, the order `filter_by(...).first()` and relationship lists see. */
    var treatments: seq<Treatment>
    /** One boolean per unique (doctor, date, slot) key. */
    var availability: map<AvKey, bool>
    var nextUserId: nat
    var nextAppointmentId: nat
    var nextTreatmentId: nat

    function Snapshot(): Tables
      reads this
    {
      Tables(users, patients, doctors, appointments, treatments, availability,
             nextUserId, nextAppointmentId, nextTreatmentId)
    }

    ghost predicate Valid()
      reads this
    {
      ValidTables(Snapshot())
    }

    /** `session.commit()`: the pending changes of one request become the stored tables. */
    method Commit(t: Tables)
      requires ValidTables(t)
      modifies this
      ensures Valid() && Snapshot() == t
    {
      users, patients, doctors, appointments := t.users, t.patients, t.doctors, t.appointments;
      treatments, availability := t.treatments, t.availability;
      nextUserId, nextAppointmentId, nextTreatmentId := t.nextUserId, t.nextAppointmentId, t.nextTreatmentId;
    }

    constructor()
      ensures Valid()
      ensures Snapshot() == Tables(map[], map[], map[], map[], [], map[], 1, 1, 1)
    {
      users, patients, doctors, appointments := map[], map[], map[], map[];
      treatments, availability := [], map[];
      nextUserId, nextAppointmentId, nextTreatmentId := 1, 1, 1;
    }
  }

  /** Some user already has this username or this email. */
  predicate NameTaken(users: map<nat, User>, username: string, email: string) {
    exists id :: id in users && (users[id].username == username || users[id].email == email)
  }

  /** The tables with one more user, under the next free id. */
  function WithUser(t: Tables, u: User): Tables {
    t.(users := t.users[u.id := u], nextUserId := u.id + 1)
  }

  lemma WithUserValid(t: Tables, u: User)
    requires ValidTables(t) && u.id == t.nextUserId
    requires !NameTaken(t.users, u.username, u.email)
    ensures ValidTables(WithUser(t, u))
    ensures u.id !in t.users && u.id !in t.doctors && u.id !in t.patients
  {
  }

  /** A profile row for an id below the user counter keeps every constraint. */
  lemma DoctorRowValid(t: Tables, d: Doctor)
    requires ValidTables(t) && d.id < t.nextUserId
    ensures ValidTables(t.(doctors := t.doctors[d.id := d]))
  {
  }

  lemma PatientRowValid(t: Tables, p: Patient)
    requires ValidTables(t) && p.id < t.nextUserId
    ensures ValidTables(t.(patients := t.patients[p.id := p]))
  {
  }

  /** Some appointment other than a cancelled one holds this (doctor, date, time). */
  predicate SlotHeld(appts: map<nat, Appointment>, k: SlotKey) {
    exists id :: id in appts && SlotOf(appts[id]) == k && appts[id].status != Cancelled
  }

  /** Some appointment row, of any status, has this (doctor, date, time). */
  predicate SlotRowExists(appts: map<nat, Appointment>, k: SlotKey) {
    exists id :: id in appts && SlotOf(appts[id]) == k
  }

  /** A doctor row whose user has the doctor role and is active (the join the patient side uses). */
  predicate ActiveDoctor(t: Tables, id: int) {
    id >= 0 && id in t.doctors && id in t.users && t.users[id].role == "doctor" && t.users[id].isActive
  }

  /** The caller is a user with the patient role that has a patient row. */
  predicate CurrentPatient(t: Tables, userId: nat) {
    userId in t.users && t.users[userId].role == "patient" && userId in t.patients
  }

  // ---------------------------------------------------------------------
  // Appointment.to_patient_dict: doctor_name
  // ---------------------------------------------------------------------

  /** The doctor's full name when set, else the doctor user's username, else None. */
  function DoctorName(doctor: Option<Doctor>, doctorUser: Option<User>): (r: Option<string>)
    ensures doctor.Some? && doctor.value.fullName.Some? && doctor.value.fullName.value != [] ==>
              r == doctor.value.fullName
    ensures !(doctor.Some? && doctor.value.fullName.Some? && doctor.value.fullName.value != []) ==>
              r == (if doctor.Some? && doctorUser.Some? then Some(doctorUser.value.username) else None)
  {
    var user := if doctor.Some? && doctorUser.Some? then doctorUser else None;
    if doctor.Some? && doctor.value.fullName.Some? && doctor.value.fullName.value != [] then
      doctor.value.fullName
    else if user.Some? then Some(user.value.username)
    else None
  }

  // ---------------------------------------------------------------------
  // Treatment.to_dict: tests
  // ---------------------------------------------------------------------

  function StripAll(parts: seq<string>): (r: seq<string>)
    ensures |r| == |parts|
    ensures forall i :: 0 <= i < |parts| ==> r[i] == Strip(parts[i])
  {
    if parts == [] then [] else [Strip(parts[0])] + StripAll(parts[1..])
  }

  function NonEmpty(parts: seq<string>): (r: seq<string>)
    ensures forall i :: 0 <= i < |r| ==> r[i] != [] && r[i] in parts
    ensures forall x :: x in parts && x != [] ==> x in r
  {
    if parts == [] then []
    else (if parts[0] != [] then [parts[0]] else []) + NonEmpty(parts[1..])
  }

  /** Text after `replace("\r", "").replace("\n", ",")`. */
  function NormaliseBreaks(text: string): (r: string)
    ensures '\r' !in r && '\n' !in r
  {
    ReplaceChar(RemoveChar(text, '\r'), '\n', ',')
  }

  /** No item separator and no line break. */
  predicate NoBreak(x: string) {
    ',' !in x && '\r' !in x && '\n' !in x
  }

  /** The parts of the normalised text, stripped, empty ones dropped. */
  function TestItems(text: string): seq<string> {
    NonEmpty(StripAll(Split(NormaliseBreaks(text), ',')))
  }

  /**
   * `tests`: None for no text; otherwise the comma-separated items (line
   * breaks count as commas), each stripped, empty ones dropped.
   */
  function TestsList(testsText: Option<string>): (r: Option<seq<string>>)
    ensures r.None? <==> testsText.None? || testsText.value == []
    ensures r.Some? ==> forall i :: 0 <= i < |r.value| ==> r.value[i] != [] && NoBreak(r.value[i])
  {
    if testsText.None? || testsText.value == [] then None
    else
      TestItemsClean(testsText.value);
      Some(TestItems(testsText.value))
  }

  lemma {:induction false} SplitAvoids(s: string, c: char, x: char)
    requires x !in s
    ensures forall i :: 0 <= i < |Split(s, c)| ==> x !in Split(s, c)[i]
    decreases |s|
  {
    match IndexOf(s, c)
    case None =>
    case Some(i) =>
      assert s == s[..i] + [c] + s[i + 1..];
      assert x !in s[..i] && x !in s[i + 1..];
      var rest := Split(s[i + 1..], c);
      SplitAvoids(s[i + 1..], c, x);
      assert Split(s, c) == [s[..i]] + rest;
  }

  lemma TestItemsClean(text: string)
    ensures forall i :: 0 <= i < |TestItems(text)| ==> TestItems(text)[i] != [] && NoBreak(TestItems(text)[i])
  {
    var t := NormaliseBreaks(text);
    var parts := Split(t, ',');
    SplitAvoids(t, ',', '\r');
    SplitAvoids(t, ',', '\n');
    var stripped := StripAll(parts);
    forall k | 0 <= k < |stripped| ensures NoBreak(stripped[k]) {
      StripKeepsAbsent(parts[k]);
    }
  }

  lemma StripKeepsAbsent(s: string)
    requires NoBreak(s)
    ensures NoBreak(Strip(s))
  {
    StripContents(s);
  }

  /** A well-formed item carries no comma or line break and no white space at either end. */
  predicate CleanItem(x: string) {
    x != [] && NoBreak(x) && !IsSpace(x[0]) && !IsSpace(x[|x| - 1])
  }

  /** Writing clean items joined by commas and reading the tests back gives the items. */
  lemma TestsRoundTrip(items: seq<string>)
    requires items != []
    requires forall i :: 0 <= i < |items| ==> CleanItem(items[i])
    ensures TestsList(Some(Join(items, ","))) == Some(items)
  {
    var text := Join(items, ",");
    JoinFirst(items, ",");
    NoBreaksInJoin(items, ",");
    RemoveAbsent(text, '\r');
    ReplaceAbsent(text, '\n', ',');
    assert NormaliseBreaks(text) == text;
    SplitJoin(items, ',');
    StripAllClean(items);
    NonEmptyKeepsAll(items);
    assert TestItems(text) == items;
  }

  lemma StripAllClean(items: seq<string>)
    requires forall i :: 0 <= i < |items| ==> CleanItem(items[i])
    ensures StripAll(items) == items
  {
    var r := StripAll(items);
    forall i | 0 <= i < |items| ensures r[i] == items[i] {
      StripUnpadded(items[i]);
    }
    assert |r| == |items|;
  }

  lemma JoinFirst(items: seq<string>, sep: string)
    requires items != []
    ensures items[0] != [] ==> Join(items, sep) != []
  {
    if |items| > 1 { assert Join(items, sep) == items[0] + sep + Join(items[1..], sep); }
  }

  lemma {:induction false} NoBreaksInJoin(items: seq<string>, sep: string)
    requires forall i :: 0 <= i < |items| ==> '\r' !in items[i] && '\n' !in items[i]
    requires '\r' !in sep && '\n' !in sep
    ensures '\r' !in Join(items, sep) && '\n' !in Join(items, sep)
    decreases |items|
  {
    if |items| > 1 { NoBreaksInJoin(items[1..], sep); }
  }

  lemma {:induction false} RemoveAbsent(s: string, c: char)
    requires c !in s
    ensures RemoveChar(s, c) == s
    decreases |s|
  {
    if s != [] {
      assert c !in s[1..];
      RemoveAbsent(s[1..], c);
      assert s == [s[0]] + s[1..];
    }
  }

  lemma ReplaceAbsent(s: string, a: char, b: char)
    requires a !in s
    ensures ReplaceChar(s, a, b) == s
  {
  }

  lemma {:induction false} NonEmptyKeepsAll(items: seq<string>)
    requires forall i :: 0 <= i < |items| ==> items[i] != []
    ensures NonEmpty(items) == items
    decreases |items|
  {
    if items != [] {
      NonEmptyKeepsAll(items[1..]);
      assert items == [items[0]] + items[1..];
    }
  }

  // ---------------------------------------------------------------------
  // max(treatments, key=lambda x: x.created_at or datetime.min)
  // ---------------------------------------------------------------------

  /** The sort key: timestamps count from `datetime.min`, which a missing one ranks as. */
  function CreatedRank(t: Treatment): nat {
    match t.createdAt case None => 0 case Some(n) => n
  }

  /** Index of the first treatment with the greatest rank (Python's `max` keeps the first). */
  function LatestIndex(ts: seq<Treatment>): (i: nat)
    requires ts != []
    ensures i < |ts|
    ensures forall k :: 0 <= k < |ts| ==> CreatedRank(ts[k]) <= CreatedRank(ts[i])
    ensures forall k :: 0 <= k < i ==> CreatedRank(ts[k]) < CreatedRank(ts[i])
  {
    if |ts| == 1 then 0
    else
      var j := LatestIndex(ts[..|ts| - 1]);
      assert forall k :: 0 <= k < |ts| - 1 ==> ts[..|ts| - 1][k] == ts[k];
      if CreatedRank(ts[|ts| - 1]) > CreatedRank(ts[j]) then |ts| - 1 else j
  }

  /** The treatments of one appointment, in id order. */
  function TreatmentsOf(ts: seq<Treatment>, appointmentId: nat): (r: seq<Treatment>)
    ensures forall i :: 0 <= i < |r| ==> r[i] in ts && r[i].appointmentId == appointmentId
    ensures forall t :: t in ts && t.appointmentId == appointmentId ==> t in r
    ensures |r| <= |ts|
  {
    if ts == [] then []
    else (if ts[0].appointmentId == appointmentId then [ts[0]] else []) + TreatmentsOf(ts[1..], appointmentId)
  }

  lemma {:induction false} TreatmentsOfAppend(ts: seq<Treatment>, t: Treatment, a: nat)
    ensures TreatmentsOf(ts + [t], a) == TreatmentsOf(ts, a) + (if t.appointmentId == a then [t] else [])
    decreases |ts|
  {
    if ts != [] {
      assert (ts + [t])[1..] == ts[1..] + [t];
      TreatmentsOfAppend(ts[1..], t, a);
    }
  }

  /** Replacing one treatment by one for the same appointment keeps every appointment's count. */
  lemma {:induction false} TreatmentsOfUpdate(ts: seq<Treatment>, i: nat, t: Treatment, a: nat)
    requires i < |ts| && ts[i].appointmentId == t.appointmentId
    ensures |TreatmentsOf(ts[i := t], a)| == |TreatmentsOf(ts, a)|
    ensures a != t.appointmentId ==> TreatmentsOf(ts[i := t], a) == TreatmentsOf(ts, a)
    decreases |ts|
  {
    if i > 0 {
      assert ts[i := t][1..] == ts[1..][i - 1 := t];
      TreatmentsOfUpdate(ts[1..], i - 1, t, a);
    } else {
      assert ts[i := t][1..] == ts[1..];
    }
  }

  lemma {:induction false} TreatmentsOfNone(ts: seq<Treatment>, a: nat)
    requires forall k :: 0 <= k < |ts| ==> ts[k].appointmentId != a
    ensures TreatmentsOf(ts, a) == []
    decreases |ts|
  {
    if ts != [] { TreatmentsOfNone(ts[1..], a); }
  }
}
