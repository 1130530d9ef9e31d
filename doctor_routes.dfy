/**
 * The doctor's side of the scheduling engine (backend/routes/doctor_routes.py):
 * the schedule grid, the status-transition guard, the treatment upsert that
 * completes a visit, the 7-day availability grid, the bulk and single-slot
 * availability writes, and the dashboard's "assigned patients" fold.
 *
 * The caller's role and user id stand for the JWT claims; "today" and "now"
 * are parameters; each handler answers with its HTTP status code.
 */
module DoctorRoutes {
  import opened Common
  import opened Json
  import opened Dates
  import opened CacheUtils
  import opened Models

  // ---------------------------------------------------------------------
  // DEFAULT_TIME_SLOTS
  // ---------------------------------------------------------------------

  /** Half-hour slots from 09:00 to 16:30 with the 13:00-14:00 lunch break left out. */
  const DefaultTimeSlots: seq<string> := [
    "09:00", "09:30", "10:00", "10:30", "11:00", "11:30", "12:00", "12:30",
    "14:00", "14:30", "15:00", "15:30", "16:00", "16:30"]

  /** Minutes after midnight of the i-th grid slot. */
  function GridMinute(i: nat): (m: nat)
    requires i < 14
    ensures 540 <= m <= 990
  {
    540 + 30 * i + (if i >= 8 then 60 else 0)
  }

  lemma GridLabels()
    ensures |DefaultTimeSlots| == 14
    ensures forall i :: 0 <= i < 14 ==> DefaultTimeSlots[i] == Label(GridMinute(i))
  {
    forall i | 0 <= i < 14 ensures DefaultTimeSlots[i] == Label(GridMinute(i)) {
      GridLabelAt(i);
    }
  }

  lemma GridLabelAt(i: nat)
    requires i < 14
    ensures DefaultTimeSlots[i] == Label(GridMinute(i))
  {
    if i < 4 { GridLabelAt0(i); }
    else if i < 8 { GridLabelAt4(i); }
    else if i < 11 { GridLabelAt8(i); }
    else { GridLabelAt11(i); }
  }

  lemma GridLabelAt0(i: nat)
    requires 0 <= i < 4
    ensures DefaultTimeSlots[i] == Label(GridMinute(i))
  {
    if i == 0 {
      LabelText(540, 9, 0, "09:00"); Pad2Of(9); Pad2Of(0);
    } else if i == 1 {
      LabelText(570, 9, 30, "09:30"); Pad2Of(9); Pad2Of(30);
    } else if i == 2 {
      LabelText(600, 10, 0, "10:00"); Pad2Of(10); Pad2Of(0);
    } else {
      LabelText(630, 10, 30, "10:30"); Pad2Of(10); Pad2Of(30);
    }
  }

  lemma GridLabelAt4(i: nat)
    requires 4 <= i < 8
    ensures DefaultTimeSlots[i] == Label(GridMinute(i))
  {
    if i == 4 {
      LabelText(660, 11, 0, "11:00"); Pad2Of(11); Pad2Of(0);
    } else if i == 5 {
      LabelText(690, 11, 30, "11:30"); Pad2Of(11); Pad2Of(30);
    } else if i == 6 {
      LabelText(720, 12, 0, "12:00"); Pad2Of(12); Pad2Of(0);
    } else {
      LabelText(750, 12, 30, "12:30"); Pad2Of(12); Pad2Of(30);
    }
  }

  lemma GridLabelAt8(i: nat)
    requires 8 <= i < 11
    ensures DefaultTimeSlots[i] == Label(GridMinute(i))
  {
    if i == 8 {
      LabelText(840, 14, 0, "14:00"); Pad2Of(14); Pad2Of(0);
    } else if i == 9 {
      LabelText(870, 14, 30, "14:30"); Pad2Of(14); Pad2Of(30);
    } else {
      LabelText(900, 15, 0, "15:00"); Pad2Of(15); Pad2Of(0);
    }
  }

  lemma GridLabelAt11(i: nat)
    requires 11 <= i < 14
    ensures DefaultTimeSlots[i] == Label(GridMinute(i))
  {
    if i == 11 {
      LabelText(930, 15, 30, "15:30"); Pad2Of(15); Pad2Of(30);
    } else if i == 12 {
      LabelText(960, 16, 0, "16:00"); Pad2Of(16); Pad2Of(0);
    } else {
      LabelText(990, 16, 30, "16:30"); Pad2Of(16); Pad2Of(30);
    }
  }

  /** The two digits of a number below 100. */
  lemma Pad2Of(n: nat)
    requires n < 100
    ensures Pad2(n) == [DigitChar(n / 10), DigitChar(n % 10)]
  {
  }

  lemma GridLabelsNonEmpty(j: nat)
    requires j < |DefaultTimeSlots|
    ensures DefaultTimeSlots[j] != []
  {
    GridLabels();
  }

  /** The grid's labels strictly increase, so each appears once, and the lunch hour is absent. */
  lemma GridShape()
    ensures |DefaultTimeSlots| == 14
    ensures forall i, j :: 0 <= i < j < 14 ==> StrLt(DefaultTimeSlots[i], DefaultTimeSlots[j])
    ensures forall i, j :: 0 <= i < j < 14 ==> DefaultTimeSlots[i] != DefaultTimeSlots[j]
    ensures "13:00" !in DefaultTimeSlots && "13:30" !in DefaultTimeSlots
  {
    GridLabels();
    forall i, j | 0 <= i < j < 14
      ensures StrLt(DefaultTimeSlots[i], DefaultTimeSlots[j])
      ensures DefaultTimeSlots[i] != DefaultTimeSlots[j]
    {
      LabelOrder(GridMinute(i), GridMinute(j));
      StrLtIrreflexive(DefaultTimeSlots[i]);
    }
    assert Label(780) == "13:00" && Label(810) == "13:30";
    forall i | 0 <= i < 14 ensures DefaultTimeSlots[i] != "13:00" && DefaultTimeSlots[i] != "13:30" {
      if DefaultTimeSlots[i] == "13:00" { LabelInjective(GridMinute(i), 780); }
      if DefaultTimeSlots[i] == "13:30" { LabelInjective(GridMinute(i), 810); }
    }
  }

  /** `ts in DEFAULT_TIME_SLOTS` for a JSON value: only a string can be equal to a label. */
  predicate OnGrid(ts: Json) {
    ts.JStr? && ts.s in DefaultTimeSlots
  }

  // ---------------------------------------------------------------------
  // _parse_date_param
  // ---------------------------------------------------------------------

  /**
   * A query-string date: a missing, empty or malformed value gives today
   * when `defaultToday` is set and None otherwise.
   */
  function ParseDateParam(value: Option<string>, defaultToday: bool, today: Date): (r: Option<Date>)
    ensures value.Some? && Strptime(value.value).Some? ==> r == Strptime(value.value)
    ensures !(value.Some? && Strptime(value.value).Some?) ==> r == (if defaultToday then Some(today) else None)
    ensures ValidDate(today) && defaultToday ==> r.Some? && ValidDate(r.value)
  {
    if value.None? || value.value == [] then (if defaultToday then Some(today) else None)
    else match Strptime(value.value)
      case Some(d) => Some(d)
      case None => if defaultToday then Some(today) else None
  }

  /** A canonical date string in the query string is read back exactly. */
  lemma ParseDateParamIso(d: Date, defaultToday: bool, today: Date)
    requires ValidDate(d)
    ensures ParseDateParam(Some(FormatIso(d)), defaultToday, today) == Some(d)
  {
    StrptimeFormatIso(d);
  }

  // ---------------------------------------------------------------------
  // Cache invalidation sets
  // ---------------------------------------------------------------------

  /** Prefixes invalidated after a status change. */
  const StatusPrefixes := ["doctor_dashboard", "doctor_appointments", "doctor_patient_history",
                           "admin_stats", "admin_appointments", "patient_appointments",
                           "patient_history", "patient_slots"]

  /** Prefixes invalidated after a treatment is saved. */
  const TreatmentPrefixes := ["doctor_dashboard", "doctor_appointments", "doctor_patient_history",
                              "doctor_treatment", "patient_appointments", "patient_history",
                              "admin_stats", "admin_appointments"]

  /** Prefixes invalidated after an availability write. */
  const AvailabilityPrefixes := ["doctor_availability", "patient_slots"]

  // ---------------------------------------------------------------------
  // doctor_update_appointment_status
  // ---------------------------------------------------------------------

  /** The guard on a doctor's status change: no way back to BOOKED, and no no-op. */
  predicate DoctorMayMove(current: string, requested: string) {
    IsStatus(requested) &&
    !(current == Completed && requested == Booked) &&
    !(current == Cancelled && requested == Booked) &&
    current != requested
  }

  /** Between the three statuses, exactly these four moves pass, COMPLETED and CANCELLED into each other included. */
  lemma DoctorMoves(current: string, requested: string)
    requires IsStatus(current) && IsStatus(requested)
    ensures DoctorMayMove(current, requested) <==>
              (current == Booked && requested == Completed) ||
              (current == Booked && requested == Cancelled) ||
              (current == Completed && requested == Cancelled) ||
              (current == Cancelled && requested == Completed)
  {
  }

  /**
   * The answer to a status change request, in the order the handler checks:
   * role (403), appointment (404), ownership (403), a non-string status
   * (500), an unknown status (400), then the transition guard (400).
   */
  function StatusChangeCode(appts: map<nat, Appointment>, role: string, userId: nat,
                            appointmentId: nat, body: Body): (code: int)
    ensures role != "doctor" ==> code == 403
    ensures role == "doctor" && appointmentId !in appts ==> code == 404
    ensures role == "doctor" && appointmentId in appts && appts[appointmentId].doctorId != userId ==>
              code == 403
    ensures role == "doctor" && appointmentId in appts && appts[appointmentId].doctorId == userId ==>
              match OrEmpty(Get(body, "status"))
              case None => code == 500
              case Some(s) =>
                (!IsStatus(Upper(s)) ==> code == 400) &&
                (code == 200 <==> DoctorMayMove(appts[appointmentId].status, Upper(s))) &&
                (code != 200 ==> code == 400)
  {
    if role != "doctor" then 403
    else if appointmentId !in appts then 404
    else if appts[appointmentId].doctorId != userId then 403
    else match OrEmpty(Get(body, "status"))
      case None => 500
      case Some(s) => if DoctorMayMove(appts[appointmentId].status, Upper(s)) then 200 else 400
  }

  /** A status change keeps every appointment's (doctor, date, time), so the unique key still holds. */
  lemma StatusChangeKeepsKeys(t: Tables, id: nat, s: string)
    requires ValidTables(t) && id in t.appointments
    ensures ValidTables(t.(appointments := t.appointments[id := t.appointments[id].(status := s)]))
  {
    var appts := t.appointments[id := t.appointments[id].(status := s)];
    assert forall k :: k in appts ==> SlotOf(appts[k]) == SlotOf(t.appointments[k]);
  }

  /**
   * POST .../appointments/<id>/status. On 200 only the appointment's status
   * changes and the eight listed patterns are deleted from the cache; on
   * any other answer nothing changes.
   */
  method UpdateAppointmentStatus(db: Db, cache: CacheStore, role: string, userId: nat,
                                 appointmentId: nat, body: Body) returns (code: int)
    requires db.Valid()
    modifies db, cache
    ensures db.Valid()
    ensures code == StatusChangeCode(old(db.appointments), role, userId, appointmentId, body)
    ensures code == 200 ==>
              var a := old(db.appointments)[appointmentId];
              db.Snapshot() == old(db.Snapshot()).(appointments :=
                old(db.appointments)[appointmentId := a.(status := Upper(OrEmpty(Get(body, "status")).value))]) &&
              cache.entries == DeleteAll(old(cache.entries), Patterns(StatusPrefixes))
    ensures code != 200 ==> db.Snapshot() == old(db.Snapshot()) && cache.entries == old(cache.entries)
  {
    if role != "doctor" { return 403; }
    if appointmentId !in db.appointments { return 404; }
    var appt := db.appointments[appointmentId];
    if appt.doctorId != userId { return 403; }
    var text := OrEmpty(Get(body, "status"));
    if text.None? { return 500; }
    var newStatus := Upper(text.value);
    if !IsStatus(newStatus) { return 400; }
    if appt.status == Completed && newStatus == Booked { return 400; }
    if appt.status == Cancelled && newStatus == Booked { return 400; }
    if appt.status == newStatus { return 400; }
    ghost var before := db.Snapshot();
    StatusChangeKeepsKeys(before, appointmentId, newStatus);
    db.appointments := db.appointments[appointmentId := appt.(status := newStatus)];
    assert db.Snapshot() == before.(appointments := before.appointments[appointmentId := appt.(status := newStatus)]);
    cache.DeletePatterns(Patterns(StatusPrefixes));
    return 200;
  }

  // ---------------------------------------------------------------------
  // doctor_save_treatment
  // ---------------------------------------------------------------------

  /** The seven columns a save overwrites, as the text columns store them. */
  datatype TreatmentFields = TreatmentFields(visitType: Option<string>, testsText: Option<string>,
                                             diagnosis: Option<string>, prescription: Option<string>,
                                             precautions: Option<string>, notes: Option<string>,
                                             followUpDate: Option<string>)

  /**
   * `follow_up_date`: a falsy value is stored as None; a truthy string must
   * pass `strptime("%Y-%m-%d")` (400 otherwise); any other truthy value
   * makes `strptime` raise a TypeError, which the handler does not catch.
   */
  function FollowUp(j: Json): (r: Verdict<Option<string>>)
    ensures !Truthy(j) ==> r == Accept(None)
    ensures Truthy(j) && j.JStr? ==> r == (if Strptime(j.s).Some? then Accept(Some(j.s)) else Reject(400))
    ensures Truthy(j) && !j.JStr? ==> r == Reject(500)
  {
    if !Truthy(j) then Accept(None)
    else if !j.JStr? then Reject(500)
    else if Strptime(j.s).Some? then Accept(Some(j.s))
    else Reject(400)
  }

  /** Every column value the driver can bind; a list or object fails the commit. */
  predicate Bindable(body: Body) {
    SqlText(Get(body, "visit_type")).Some? &&
    SqlText(PyOr(Get(body, "tests_done"), Get(body, "tests"))).Some? &&
    SqlText(Get(body, "diagnosis")).Some? && SqlText(Get(body, "medicines")).Some? &&
    SqlText(Get(body, "precautions")).Some? && SqlText(Get(body, "notes")).Some?
  }

  /**
   * The body of a save: the follow-up date is checked first; then every
   * field is written, an absent one as None, `tests_done` taking precedence
   * over `tests` and `medicines` going to `prescription`.
   */
  function TreatmentRequest(body: Body): (r: Verdict<TreatmentFields>)
    ensures FollowUp(Get(body, "follow_up_date")).Reject? ==> r == Reject(FollowUp(Get(body, "follow_up_date")).code)
    ensures FollowUp(Get(body, "follow_up_date")).Accept? && !Bindable(body) ==> r == Reject(500)
    ensures r.Accept? <==> FollowUp(Get(body, "follow_up_date")).Accept? && Bindable(body)
    ensures r.Accept? ==>
              r.value.followUpDate == FollowUp(Get(body, "follow_up_date")).value &&
              r.value.visitType == SqlText(Get(body, "visit_type")).value &&
              r.value.testsText == SqlText(PyOr(Get(body, "tests_done"), Get(body, "tests"))).value &&
              r.value.diagnosis == SqlText(Get(body, "diagnosis")).value &&
              r.value.prescription == SqlText(Get(body, "medicines")).value &&
              r.value.precautions == SqlText(Get(body, "precautions")).value &&
              r.value.notes == SqlText(Get(body, "notes")).value
    ensures r.Accept? && "tests_done" !in body && "tests" !in body ==> r.value.testsText.None?
  {
    match FollowUp(Get(body, "follow_up_date"))
    case Reject(c) => Reject(c)
    case Accept(followUp) =>
      if !Bindable(body) then Reject(500)
      else Accept(TreatmentFields(
        SqlText(Get(body, "visit_type")).value,
        SqlText(PyOr(Get(body, "tests_done"), Get(body, "tests"))).value,
        SqlText(Get(body, "diagnosis")).value, SqlText(Get(body, "medicines")).value,
        SqlText(Get(body, "precautions")).value, SqlText(Get(body, "notes")).value,
        followUp))
  }

  /** `filter_by(appointment_id=...).first()`: the first treatment of the appointment in id order. */
  function FirstTreatment(ts: seq<Treatment>, appointmentId: nat): (r: Option<nat>)
    ensures r.None? <==> forall k :: 0 <= k < |ts| ==> ts[k].appointmentId != appointmentId
    ensures r.Some? ==> r.value < |ts| && ts[r.value].appointmentId == appointmentId &&
                        forall k :: 0 <= k < r.value ==> ts[k].appointmentId != appointmentId
  {
    if ts == [] then None
    else if ts[0].appointmentId == appointmentId then Some(0)
    else match FirstTreatment(ts[1..], appointmentId)
      case None => None
      case Some(i) => Some(i + 1)
  }

  function WithFields(t: Treatment, f: TreatmentFields): (r: Treatment)
    ensures r.id == t.id && r.appointmentId == t.appointmentId && r.createdAt == t.createdAt
  {
    t.(visitType := f.visitType, testsText := f.testsText, diagnosis := f.diagnosis,
       prescription := f.prescription, precautions := f.precautions, notes := f.notes,
       followUpDate := f.followUpDate)
  }

  function FieldsOf(t: Treatment): TreatmentFields {
    TreatmentFields(t.visitType, t.testsText, t.diagnosis, t.prescription, t.precautions,
                    t.notes, t.followUpDate)
  }

  /** The first treatment of the appointment takes the fields; without one, a new row is added. */
  function UpsertTreatment(ts: seq<Treatment>, appointmentId: nat, f: TreatmentFields,
                           newId: nat, now: nat): (r: seq<Treatment>)
    ensures |r| == |ts| || |r| == |ts| + 1
    ensures forall i :: 0 <= i < |ts| && ts[i].appointmentId != appointmentId ==> r[i] == ts[i]
  {
    match FirstTreatment(ts, appointmentId)
    case Some(i) => ts[i := WithFields(ts[i], f)]
    case None =>
      ts + [WithFields(Treatment(newId, appointmentId, None, None, None, None, None, None, None, Some(now)), f)]
  }

  /**
   * After an upsert the appointment's first treatment carries exactly the
   * saved fields, it has one treatment if it had none and as many as before
   * otherwise, and no other appointment's treatments change.
   */
  lemma UpsertTreatmentEffect(ts: seq<Treatment>, appointmentId: nat, f: TreatmentFields,
                              newId: nat, now: nat)
    ensures var r := UpsertTreatment(ts, appointmentId, f, newId, now);
            FirstTreatment(r, appointmentId).Some? &&
            FieldsOf(r[FirstTreatment(r, appointmentId).value]) == f &&
            |TreatmentsOf(r, appointmentId)| == (if |TreatmentsOf(ts, appointmentId)| == 0 then 1
                                                 else |TreatmentsOf(ts, appointmentId)|) &&
            forall b :: b != appointmentId ==> TreatmentsOf(r, b) == TreatmentsOf(ts, b)
  {
    match FirstTreatment(ts, appointmentId)
    case Some(i) => UpdateFirstEffect(ts, appointmentId, i, WithFields(ts[i], f));
    case None =>
      var t := WithFields(Treatment(newId, appointmentId, None, None, None, None, None, None, None, Some(now)), f);
      AppendFirstEffect(ts, appointmentId, t);
  }

  /** Rewriting the first treatment of an appointment in place. */
  lemma UpdateFirstEffect(ts: seq<Treatment>, appointmentId: nat, i: nat, t: Treatment)
    requires FirstTreatment(ts, appointmentId) == Some(i) && t.appointmentId == appointmentId
    ensures var r := ts[i := t];
            FirstTreatment(r, appointmentId) == Some(i) &&
            |TreatmentsOf(r, appointmentId)| == |TreatmentsOf(ts, appointmentId)| &&
            |TreatmentsOf(ts, appointmentId)| != 0 &&
            forall b :: b != appointmentId ==> TreatmentsOf(r, b) == TreatmentsOf(ts, b)
  {
    var r := ts[i := t];
    forall b ensures |TreatmentsOf(r, b)| == |TreatmentsOf(ts, b)|
      ensures b != appointmentId ==> TreatmentsOf(r, b) == TreatmentsOf(ts, b)
    {
      TreatmentsOfUpdate(ts, i, t, b);
    }
    assert ts[i] in ts;
    FirstIs(r, appointmentId, i);
  }

  /** The first index with the appointment id is the one FirstTreatment finds. */
  lemma FirstIs(ts: seq<Treatment>, appointmentId: nat, i: nat)
    requires i < |ts| && ts[i].appointmentId == appointmentId
    requires forall k :: 0 <= k < i ==> ts[k].appointmentId != appointmentId
    ensures FirstTreatment(ts, appointmentId) == Some(i)
  {
    var r := FirstTreatment(ts, appointmentId);
    assert r.Some?;
    assert !(r.value < i) && !(i < r.value);
  }

  /** Appending the first treatment of an appointment that had none. */
  lemma AppendFirstEffect(ts: seq<Treatment>, appointmentId: nat, t: Treatment)
    requires FirstTreatment(ts, appointmentId).None? && t.appointmentId == appointmentId
    ensures var r := ts + [t];
            FirstTreatment(r, appointmentId) == Some(|ts|) &&
            |TreatmentsOf(r, appointmentId)| == 1 && |TreatmentsOf(ts, appointmentId)| == 0 &&
            forall b :: b != appointmentId ==> TreatmentsOf(r, b) == TreatmentsOf(ts, b)
  {
    var r := ts + [t];
    forall b ensures TreatmentsOf(r, b) == TreatmentsOf(ts, b) + (if b == appointmentId then [t] else []) {
      TreatmentsOfAppend(ts, t, b);
    }
    TreatmentsOfNone(ts, appointmentId);
    assert r[|ts|] == t;
  }

  /** `if (appt.status or "").upper() == "BOOKED": appt.status = "COMPLETED"`. */
  function AutoComplete(status: string): (r: string)
    ensures Upper(status) == Booked ==> r == Completed
    ensures Upper(status) != Booked ==> r == status
  {
    if Upper(status) == Booked then Completed else status
  }

  /** The answer to a save, in the handler's order: role, appointment, ownership, then the body. */
  function SaveTreatmentCode(appts: map<nat, Appointment>, role: string, userId: nat,
                             appointmentId: nat, body: Body): (code: int)
    ensures role != "doctor" ==> code == 403
    ensures role == "doctor" && appointmentId !in appts ==> code == 404
    ensures role == "doctor" && appointmentId in appts && appts[appointmentId].doctorId != userId ==>
              code == 403
    ensures role == "doctor" && appointmentId in appts && appts[appointmentId].doctorId == userId ==>
              code == (match TreatmentRequest(body) case Reject(c) => c case Accept(_) => 200)
  {
    if role != "doctor" then 403
    else if appointmentId !in appts then 404
    else if appts[appointmentId].doctorId != userId then 403
    else match TreatmentRequest(body) case Reject(c) => c case Accept(_) => 200
  }

  /** The tables after a successful save. */
  function SavedTables(t: Tables, appointmentId: nat, f: TreatmentFields, now: nat): Tables
    requires appointmentId in t.appointments
  {
    var a := t.appointments[appointmentId];
    var inserted := FirstTreatment(t.treatments, appointmentId).None?;
    t.(treatments := UpsertTreatment(t.treatments, appointmentId, f, t.nextTreatmentId, now),
       appointments := t.appointments[appointmentId := a.(status := AutoComplete(a.status))],
       nextTreatmentId := if inserted then t.nextTreatmentId + 1 else t.nextTreatmentId)
  }

  lemma SavedTablesValid(t: Tables, appointmentId: nat, f: TreatmentFields, now: nat)
    requires ValidTables(t) && appointmentId in t.appointments
    ensures ValidTables(SavedTables(t, appointmentId, f, now))
  {
    var a := t.appointments[appointmentId];
    var t1 := t.(appointments := t.appointments[appointmentId := a.(status := AutoComplete(a.status))]);
    StatusChangeKeepsKeys(t, appointmentId, AutoComplete(a.status));
    var r := SavedTables(t, appointmentId, f, now);
    match FirstTreatment(t.treatments, appointmentId)
    case Some(i) =>
      assert r.treatments == t.treatments[i := WithFields(t.treatments[i], f)];
      assert forall k :: 0 <= k < |r.treatments| ==> r.treatments[k].id == t.treatments[k].id;
    case None =>
  }

  /**
   * POST .../appointments/<id>/treatment. On 200 the treatment is upserted,
   * a BOOKED visit becomes COMPLETED, and the eight listed patterns are
   * deleted; on any other answer nothing changes.
   */
  method SaveTreatment(db: Db, cache: CacheStore, role: string, userId: nat, appointmentId: nat,
                       body: Body, now: nat) returns (code: int)
    requires db.Valid()
    modifies db, cache
    ensures db.Valid()
    ensures code == SaveTreatmentCode(old(db.appointments), role, userId, appointmentId, body)
    ensures code == 200 ==>
              appointmentId in old(db.appointments) && TreatmentRequest(body).Accept? &&
              db.Snapshot() == SavedTables(old(db.Snapshot()), appointmentId, TreatmentRequest(body).value, now) &&
              cache.entries == DeleteAll(old(cache.entries), Patterns(TreatmentPrefixes))
    ensures code != 200 ==> db.Snapshot() == old(db.Snapshot()) && cache.entries == old(cache.entries)
  {
    if role != "doctor" { return 403; }
    if appointmentId !in db.appointments { return 404; }
    var appt := db.appointments[appointmentId];
    if appt.doctorId != userId { return 403; }
    var request := TreatmentRequest(body);
    if request.Reject? { return request.code; }
    StoreTreatment(db, cache, appointmentId, request.value, now);
    return 200;
  }

  /** The commit of an accepted treatment form and the cache flush after it. */
  method StoreTreatment(db: Db, cache: CacheStore, appointmentId: nat, f: TreatmentFields, now: nat)
    requires db.Valid() && appointmentId in db.appointments
    modifies db, cache
    ensures db.Valid()
    ensures db.Snapshot() == SavedTables(old(db.Snapshot()), appointmentId, f, now)
    ensures cache.entries == DeleteAll(old(cache.entries), Patterns(TreatmentPrefixes))
  {
    var before := db.Snapshot();
    SavedTablesValid(before, appointmentId, f, now);
    db.Commit(SavedTables(before, appointmentId, f, now));
    cache.DeletePatterns(Patterns(TreatmentPrefixes));
  }

  // ---------------------------------------------------------------------
  // doctor_availability: the 7-day grid
  // ---------------------------------------------------------------------

  datatype GridSlot = GridSlot(timeSlot: string, isAvailable: bool, bookingStatus: Option<string>)
  datatype GridDay = GridDay(date: string, slots: seq<GridSlot>)

  /** A slot's availability: its override when one exists, else the column default (available). */
  function Effective(av: map<AvKey, bool>, k: AvKey): (r: bool)
    ensures k !in av ==> r == DefaultAvailable
    ensures k in av ==> r == av[k]
  {
    if k in av then av[k] else DefaultAvailable
  }

  /** A non-cancelled appointment with this status holds the slot. */
  predicate HeldWith(appts: map<nat, Appointment>, k: SlotKey, status: string) {
    exists id :: id in appts && SlotOf(appts[id]) == k && appts[id].status != Cancelled &&
                 appts[id].status == status
  }

  /** The doctor's overrides dated between `lo` and `hi` as text, keyed by (date, slot). */
  function OverridesBetween(av: map<AvKey, bool>, doctorId: nat, lo: string, hi: string)
    : map<(string, string), bool>
  {
    map k | k in av && k.doctorId == doctorId && StrLe(lo, k.date) && StrLe(k.date, hi)
      :: (k.date, k.slot) := av[k]
  }

  /** Whether a row of the appointments query of `doctor_availability` passes its filter and the comprehension's guard. */
  predicate GridBooking(a: Appointment, doctorId: nat, lo: string, hi: string) {
    a.doctorId == doctorId && StrLe(lo, a.date) && StrLe(a.date, hi) && a.status != Cancelled &&
    a.date != [] && a.time != []
  }

  /** The doctor's non-cancelled bookings dated between `lo` and `hi`, keyed by (date, time). */
  function BookingsBetween(appts: map<nat, Appointment>, doctorId: nat, lo: string, hi: string)
    : map<(string, string), string>
    requires UniqueSlots(appts)
  {
    map id | id in appts && GridBooking(appts[id], doctorId, lo, hi)
      :: (appts[id].date, appts[id].time) := appts[id].status
  }

  function GridCell(overrides: map<(string, string), bool>, bookings: map<(string, string), string>,
                    d: string, ts: string): GridSlot
  {
    GridSlot(ts, if (d, ts) in overrides then overrides[(d, ts)] else true,
             if (d, ts) in bookings then Some(bookings[(d, ts)]) else None)
  }

  /** What a grid cell must show for this doctor, date string and slot. */
  predicate CellFor(c: GridSlot, db: Tables, doctorId: nat, d: string, ts: string) {
    c.timeSlot == ts &&
    c.isAvailable == Effective(db.availability, AvKey(doctorId, d, ts)) &&
    (c.bookingStatus.None? <==> !SlotHeld(db.appointments, SlotKey(doctorId, d, ts))) &&
    (c.bookingStatus.Some? ==> HeldWith(db.appointments, SlotKey(doctorId, d, ts), c.bookingStatus.value))
  }

  lemma OverrideFromFiltered(av: map<AvKey, bool>, doctorId: nat, lo: string, hi: string,
                             d: string, ts: string)
    requires StrLe(lo, d) && StrLe(d, hi)
    ensures var ov := OverridesBetween(av, doctorId, lo, hi);
            (if (d, ts) in ov then ov[(d, ts)] else true) == Effective(av, AvKey(doctorId, d, ts))
  {
    var ov := OverridesBetween(av, doctorId, lo, hi);
    var k := AvKey(doctorId, d, ts);
    if k in av { assert (d, ts) in ov && ov[(d, ts)] == av[k]; }
  }

  lemma BookingFromFiltered(appts: map<nat, Appointment>, doctorId: nat, lo: string, hi: string,
                            d: string, ts: string)
    requires UniqueSlots(appts)
    requires StrLe(lo, d) && StrLe(d, hi) && d != [] && ts != []
    ensures var bk := BookingsBetween(appts, doctorId, lo, hi);
            var sk := SlotKey(doctorId, d, ts);
            ((d, ts) in bk <==> SlotHeld(appts, sk)) &&
            ((d, ts) in bk ==> HeldWith(appts, sk, bk[(d, ts)]))
  {
    var bk := BookingsBetween(appts, doctorId, lo, hi);
    var sk := SlotKey(doctorId, d, ts);
    if SlotHeld(appts, sk) {
      var id :| id in appts && SlotOf(appts[id]) == sk && appts[id].status != Cancelled;
      assert GridBooking(appts[id], doctorId, lo, hi);
      assert (appts[id].date, appts[id].time) == (d, ts);
    }
    if (d, ts) in bk {
      var id :| id in appts && GridBooking(appts[id], doctorId, lo, hi) &&
                (appts[id].date, appts[id].time) == (d, ts);
      assert bk[(d, ts)] == appts[id].status;
      assert SlotOf(appts[id]) == sk;
    }
  }

  /**
   * The date-range filters lose nothing: for a date string inside the
   * range, the cell read from the filtered maps is the one the tables give.
   */
  lemma CellFromFiltered(db: Tables, doctorId: nat, lo: string, hi: string, d: string, ts: string)
    requires UniqueSlots(db.appointments)
    requires StrLe(lo, d) && StrLe(d, hi) && d != [] && ts != []
    ensures CellFor(GridCell(OverridesBetween(db.availability, doctorId, lo, hi),
                             BookingsBetween(db.appointments, doctorId, lo, hi), d, ts),
                    db, doctorId, d, ts)
  {
    OverrideFromFiltered(db.availability, doctorId, lo, hi, d, ts);
    BookingFromFiltered(db.appointments, doctorId, lo, hi, d, ts);
  }

  /** Day i of the week starting at `start` lies in the week's text range. */
  lemma WeekDayInRange(start: Date, i: nat)
    requires ValidDate(start) && i <= 6 && AddDays(start, 6).Some?
    ensures AddDays(start, i).Some?
    ensures StrLe(FormatIso(start), FormatIso(AddDays(start, i).value))
    ensures StrLe(FormatIso(AddDays(start, i).value), FormatIso(AddDays(start, 6).value))
  {
    if i < 6 {
      AddDaysMonotone(start, i, 6);
    }
    var d := AddDays(start, i).value;
    AddDaysNotBefore(start, i);
    IsoOrderLe(start, d);
    IsoOrderLe(d, AddDays(start, 6).value);
  }

  /** The grid's answer code: role, then the end of the week must exist (an OverflowError otherwise). */
  function GridCode(role: string, start: Date): (code: int)
    requires ValidDate(start)
    ensures code == 200 || code == 403 || code == 500
    ensures code == 200 <==> role == "doctor" && AddDays(start, 6).Some?
  {
    if role != "doctor" then 403 else if AddDays(start, 6).None? then 500 else 200
  }

  /** The loop of `doctor_availability` over the default time slots of one day: one cell per grid slot, in grid order. */
  method GridRow(overrides: map<(string, string), bool>, bookings: map<(string, string), string>,
                 d: string) returns (slots: seq<GridSlot>)
    ensures |slots| == |DefaultTimeSlots|
    ensures forall j :: 0 <= j < |slots| ==> slots[j] == GridCell(overrides, bookings, d, DefaultTimeSlots[j])
  {
    slots := [];
    var j := 0;
    while j < |DefaultTimeSlots|
      invariant 0 <= j <= |DefaultTimeSlots| && |slots| == j
      invariant forall k :: 0 <= k < j ==> slots[k] == GridCell(overrides, bookings, d, DefaultTimeSlots[k])
    {
      var ts := DefaultTimeSlots[j];
      var isAvailable := if (d, ts) in overrides then overrides[(d, ts)] else true;
      var bookingStatus := if (d, ts) in bookings then Some(bookings[(d, ts)]) else None;
      slots := slots + [GridSlot(ts, isAvailable, bookingStatus)];
      j := j + 1;
    }
  }

  /** A whole row read from the filtered maps is the row the tables give. */
  lemma RowFromFiltered(db: Tables, doctorId: nat, lo: string, hi: string, d: string,
                        ov: map<(string, string), bool>, bk: map<(string, string), string>,
                        slots: seq<GridSlot>)
    requires UniqueSlots(db.appointments)
    requires ov == OverridesBetween(db.availability, doctorId, lo, hi)
    requires bk == BookingsBetween(db.appointments, doctorId, lo, hi)
    requires StrLe(lo, d) && StrLe(d, hi) && d != []
    requires |slots| == |DefaultTimeSlots|
    requires forall j :: 0 <= j < |slots| ==> slots[j] == GridCell(ov, bk, d, DefaultTimeSlots[j])
    ensures forall j :: 0 <= j < |slots| ==> CellFor(slots[j], db, doctorId, d, DefaultTimeSlots[j])
  {
    forall j | 0 <= j < |slots| ensures CellFor(slots[j], db, doctorId, d, DefaultTimeSlots[j]) {
      GridLabelsNonEmpty(j);
      CellFromFiltered(db, doctorId, lo, hi, d, DefaultTimeSlots[j]);
    }
  }

  /** What day i of the grid must hold. */
  predicate DayFor(g: GridDay, db: Tables, doctorId: nat, start: Date, i: nat)
    requires ValidDate(start)
  {
    AddDays(start, i).Some? &&
    g.date == FormatIso(AddDays(start, i).value) &&
    |g.slots| == |DefaultTimeSlots| &&
    forall j :: 0 <= j < |DefaultTimeSlots| ==> CellFor(g.slots[j], db, doctorId, g.date, DefaultTimeSlots[j])
  }

  /** One day of the grid, `start + timedelta(days=i)`, read from the filtered maps. */
  method GridDayAt(db: Db, userId: nat, start: Date, i: nat, lo: string, hi: string,
                   overrides: map<(string, string), bool>, bookings: map<(string, string), string>)
    returns (day: GridDay)
    requires ValidDate(start) && i <= 6 && AddDays(start, 6).Some?
    requires lo == FormatIso(start) && hi == FormatIso(AddDays(start, 6).value)
    requires UniqueSlots(db.appointments)
    requires overrides == OverridesBetween(db.availability, userId, lo, hi)
    requires bookings == BookingsBetween(db.appointments, userId, lo, hi)
    ensures DayFor(day, db.Snapshot(), userId, start, i)
  {
    ghost var t := db.Snapshot();
    WeekDayInRange(start, i);
    var dStr := FormatIso(AddDays(start, i).value);
    var slots := GridRow(overrides, bookings, dStr);
    RowFromFiltered(t, userId, lo, hi, dStr, overrides, bookings, slots);
    day := GridDay(dStr, slots);
  }

  lemma AppendDay(days: seq<GridDay>, day: GridDay, t: Tables, userId: nat, start: Date)
    requires ValidDate(start)
    requires forall k :: 0 <= k < |days| ==> DayFor(days[k], t, userId, start, k)
    requires DayFor(day, t, userId, start, |days|)
    ensures forall k :: 0 <= k < |days| + 1 ==> DayFor((days + [day])[k], t, userId, start, k)
  {
    forall k | 0 <= k < |days| + 1 ensures DayFor((days + [day])[k], t, userId, start, k) {
      if k < |days| { assert (days + [day])[k] == days[k]; }
    }
  }

  /**
   * GET /api/doctor/availability. Seven consecutive days from the requested
   * start (today when it is missing or malformed); each day lists every grid
   * slot once, in grid order, with its effective availability and the status
   * of the non-cancelled appointment holding it.
   */
  method AvailabilityGrid(db: Db, role: string, userId: nat, startArg: Option<string>, today: Date)
    returns (code: int, days: seq<GridDay>)
    requires db.Valid() && ValidDate(today)
    ensures var start := ParseDateParam(startArg, true, today).value;
            code == GridCode(role, start) &&
            (code != 200 ==> days == []) &&
            (code == 200 ==> |days| == 7 && forall i :: 0 <= i < 7 ==> DayFor(days[i], db.Snapshot(), userId, start, i))
  {
    var start := ParseDateParam(startArg, true, today).value;
    if role != "doctor" { return 403, []; }
    var endDate := AddDays(start, 6);
    if endDate.None? { return 500, []; }
    var startStr, endStr := FormatIso(start), FormatIso(endDate.value);
    var overrides := OverridesBetween(db.availability, userId, startStr, endStr);
    var bookings := BookingsBetween(db.appointments, userId, startStr, endStr);
    days := [];
    var i := 0;
    while i < 7
      invariant 0 <= i <= 7 && |days| == i
      invariant forall k :: 0 <= k < i ==> DayFor(days[k], db.Snapshot(), userId, start, k)
    {
      var day := GridDayAt(db, userId, start, i, startStr, endStr, overrides, bookings);
      AppendDay(days, day, db.Snapshot(), userId, start);
      days := days + [day];
      i := i + 1;
    }
    return 200, days;
  }

  // ---------------------------------------------------------------------
  // doctor_update_availability: bulk upsert for one date
  // ---------------------------------------------------------------------

  /** An entry the loop writes: an object with an on-grid `time_slot` and a boolean `is_available`. */
  predicate Writes(e: Json) {
    e.JObj? && OnGrid(Get(e.fields, "time_slot")) && Get(e.fields, "is_available").JBool?
  }

  function EntrySlot(e: Json): string
    requires Writes(e)
  {
    Get(e.fields, "time_slot").s
  }

  function EntryValue(e: Json): bool
    requires Writes(e)
  {
    Get(e.fields, "is_available").b
  }

  predicate WritesSlot(e: Json, ts: string) {
    Writes(e) && EntrySlot(e) == ts
  }

  /** The value of the last entry that writes `ts`, if any does. */
  function LastWrite(entries: seq<Json>, ts: string): (r: Option<bool>)
    ensures r.None? <==> forall i :: 0 <= i < |entries| ==> !WritesSlot(entries[i], ts)
    ensures r.Some? ==> exists i :: 0 <= i < |entries| && WritesSlot(entries[i], ts) &&
                          EntryValue(entries[i]) == r.value &&
                          forall k :: i < k < |entries| ==> !WritesSlot(entries[k], ts)
  {
    if entries == [] then None
    else
      var init := entries[..|entries| - 1];
      var e := entries[|entries| - 1];
      assert forall i :: 0 <= i < |init| ==> init[i] == entries[i];
      if WritesSlot(e, ts) then Some(EntryValue(e)) else LastWrite(init, ts)
  }

  /** How many entries write `ts`. */
  function WriteCount(entries: seq<Json>, ts: string): nat {
    if entries == [] then 0
    else WriteCount(entries[..|entries| - 1], ts) + (if WritesSlot(entries[|entries| - 1], ts) then 1 else 0)
  }

  /**
   * Rows created in the loop are not added to `row_map`, so a slot with no
   * row yet that two entries write is inserted twice and the commit fails.
   */
  predicate InsertsTwice(av: map<AvKey, bool>, doctorId: nat, date: string, entries: seq<Json>) {
    exists ts :: ts in DefaultTimeSlots && AvKey(doctorId, date, ts) !in av && WriteCount(entries, ts) >= 2
  }

  /** The rows after the loop: every written slot of that doctor and date takes its last value. */
  function BulkResult(av: map<AvKey, bool>, doctorId: nat, date: string, entries: seq<Json>)
    : (r: map<AvKey, bool>)
    ensures forall k: AvKey :: k.doctorId != doctorId || k.date != date ==>
              (k in r <==> k in av) && (k in r ==> r[k] == av[k])
    ensures forall ts :: LastWrite(entries, ts).Some? ==>
              AvKey(doctorId, date, ts) in r && r[AvKey(doctorId, date, ts)] == LastWrite(entries, ts).value
    ensures forall ts :: LastWrite(entries, ts).None? ==>
              (AvKey(doctorId, date, ts) in r <==> AvKey(doctorId, date, ts) in av) &&
              (AvKey(doctorId, date, ts) in r ==> r[AvKey(doctorId, date, ts)] == av[AvKey(doctorId, date, ts)])
  {
    if entries == [] then av
    else
      var init := entries[..|entries| - 1];
      var e := entries[|entries| - 1];
      var before := BulkResult(av, doctorId, date, init);
      assert entries == init + [e];
      assert forall ts :: LastWrite(entries, ts) == LastWrite(init + [e], ts);
      if Writes(e) then before[AvKey(doctorId, date, EntrySlot(e)) := EntryValue(e)] else before
  }

  lemma LastWriteStep(entries: seq<Json>, e: Json, ts: string)
    ensures LastWrite(entries + [e], ts) == if WritesSlot(e, ts) then Some(EntryValue(e)) else LastWrite(entries, ts)
  {
    assert (entries + [e])[..|entries|] == entries;
  }

  /** One more entry: a writing entry sets its slot, any other entry leaves the rows alone. */
  lemma BulkResultStep(av: map<AvKey, bool>, doctorId: nat, date: string, entries: seq<Json>, e: Json)
    ensures BulkResult(av, doctorId, date, entries + [e]) ==
              if Writes(e) then BulkResult(av, doctorId, date, entries)[AvKey(doctorId, date, EntrySlot(e)) := EntryValue(e)]
              else BulkResult(av, doctorId, date, entries)
  {
    assert (entries + [e])[..|entries|] == entries;
  }

  lemma WriteCountStep(entries: seq<Json>, e: Json, ts: string)
    ensures WriteCount(entries + [e], ts) == WriteCount(entries, ts) + (if WritesSlot(e, ts) then 1 else 0)
  {
    assert (entries + [e])[..|entries|] == entries;
  }

  /** A written slot has an entry writing it; a slot with no entry writing it has none. */
  lemma WriteCountLast(entries: seq<Json>, ts: string)
    ensures WriteCount(entries, ts) == 0 <==> LastWrite(entries, ts).None?
  {
    if entries != [] {
      var init := entries[..|entries| - 1];
      WriteCountLast(init, ts);
      assert forall i :: 0 <= i < |init| ==> init[i] == entries[i];
    }
  }

  lemma InsertsTwiceStep(av: map<AvKey, bool>, doctorId: nat, date: string, entries: seq<Json>, e: Json)
    ensures InsertsTwice(av, doctorId, date, entries + [e]) <==>
              InsertsTwice(av, doctorId, date, entries) ||
              (Writes(e) && AvKey(doctorId, date, EntrySlot(e)) !in av && WriteCount(entries, EntrySlot(e)) >= 1)
  {
    forall ts ensures WriteCount(entries + [e], ts) == WriteCount(entries, ts) + (if WritesSlot(e, ts) then 1 else 0) {
      WriteCountStep(entries, e, ts);
    }
    if Writes(e) && AvKey(doctorId, date, EntrySlot(e)) !in av && WriteCount(entries, EntrySlot(e)) >= 1 {
      assert EntrySlot(e) in DefaultTimeSlots;
      assert WriteCount(entries + [e], EntrySlot(e)) >= 2;
    }
  }

  /** Every submitted entry is an object, so `s.get` raises for none of them. */
  predicate AllObjects(entries: seq<Json>) {
    forall i :: 0 <= i < |entries| ==> entries[i].JObj?
  }

  /** A doctor's request with a parseable date text and a non-empty list of slots. */
  predicate BulkShaped(role: string, body: Body) {
    role == "doctor" && Get(body, "date").JStr? && Get(body, "date").s != [] &&
    Strptime(Get(body, "date").s).Some? &&
    GetOr(body, "slots", JList([])).JList? && GetOr(body, "slots", JList([])).items != []
  }

  /** The answer to a bulk update, in the handler's order. */
  function BulkCode(role: string, body: Body, av: map<AvKey, bool>, userId: nat): (code: int)
    ensures role != "doctor" ==> code == 403
    ensures role == "doctor" && !Truthy(Get(body, "date")) ==> code == 400
    ensures role == "doctor" && Truthy(Get(body, "date")) && !Get(body, "date").JStr? ==> code == 500
    ensures (role == "doctor" && Truthy(Get(body, "date")) && Get(body, "date").JStr? &&
             Strptime(Get(body, "date").s).None?) ==> code == 400
    ensures (role == "doctor" && Get(body, "date").JStr? && Get(body, "date").s != [] &&
             Strptime(Get(body, "date").s).Some? &&
             !(GetOr(body, "slots", JList([])).JList? && GetOr(body, "slots", JList([])).items != [])) ==>
              code == 400
    ensures BulkShaped(role, body) && !AllObjects(GetOr(body, "slots", JList([])).items) ==> code == 500
    ensures (BulkShaped(role, body) && AllObjects(GetOr(body, "slots", JList([])).items) &&
             InsertsTwice(av, userId, Get(body, "date").s, GetOr(body, "slots", JList([])).items)) ==>
              code == 500
    ensures code == 200 <==>
              BulkShaped(role, body) && AllObjects(GetOr(body, "slots", JList([])).items) &&
              !InsertsTwice(av, userId, Get(body, "date").s, GetOr(body, "slots", JList([])).items)
    ensures code != 200 ==> code == 400 || code == 403 || code == 500
  {
    var date := Get(body, "date");
    var slots := GetOr(body, "slots", JList([]));
    if role != "doctor" then 403
    else if !Truthy(date) then 400
    else if !date.JStr? then 500
    else if Strptime(date.s).None? then 400
    else if !slots.JList? || slots.items == [] then 400
    else if !AllObjects(slots.items) then 500
    else if InsertsTwice(av, userId, date.s, slots.items) then 500
    else 200
  }

  /**
   * Writing the same request again changes nothing: every slot it writes
   * has a row now, so nothing is inserted twice, and each gets the same value.
   */
  lemma BulkIdempotent(role: string, body: Body, av: map<AvKey, bool>, userId: nat)
    requires BulkCode(role, body, av, userId) == 200
    ensures var date := Get(body, "date").s;
            var entries := GetOr(body, "slots", JList([])).items;
            var r := BulkResult(av, userId, date, entries);
            BulkCode(role, body, r, userId) == 200 && BulkResult(r, userId, date, entries) == r
  {
    var date := Get(body, "date").s;
    var entries := GetOr(body, "slots", JList([])).items;
    var r := BulkResult(av, userId, date, entries);
    assert BulkShaped(role, body) && AllObjects(entries);
    assert !InsertsTwice(r, userId, date, entries) by {
      forall ts | ts in DefaultTimeSlots && WriteCount(entries, ts) >= 2
        ensures AvKey(userId, date, ts) in r
      {
        WriteCountLast(entries, ts);
      }
    }
    assert BulkCode(role, body, r, userId) == 200;
    var r2 := BulkResult(r, userId, date, entries);
    assert r2 == r by {
      assert forall k :: k in r2 <==> k in r;
      assert forall k :: k in r2 ==> r2[k] == r[k];
    }
  }

  /**
   * The loop of `doctor_update_availability` over the submitted slots, run
   * against the session's copy of the rows:
   * it stops at the first entry that is not an object (`s.get` raises), and
   * notes when a slot without a row is inserted a second time.
   */
  method UpsertSlots(existing: map<AvKey, bool>, userId: nat, date: string, entries: seq<Json>)
    returns (allObjects: bool, twice: bool, work: map<AvKey, bool>)
    ensures allObjects <==> forall k :: 0 <= k < |entries| ==> entries[k].JObj?
    ensures allObjects ==> twice == InsertsTwice(existing, userId, date, entries)
    ensures allObjects ==> work == BulkResult(existing, userId, date, entries)
  {
    work := existing;
    twice := false;
    var i := 0;
    while i < |entries|
      invariant 0 <= i <= |entries|
      invariant forall k :: 0 <= k < i ==> entries[k].JObj?
      invariant work == BulkResult(existing, userId, date, entries[..i])
      invariant twice <==> InsertsTwice(existing, userId, date, entries[..i])
    {
      var e := entries[i];
      if !e.JObj? { return false, twice, work; }
      assert entries[..i + 1] == entries[..i] + [e];
      work, twice := UpsertOne(existing, userId, date, entries[..i], e, work, twice);
      i := i + 1;
    }
    assert entries[..|entries|] == entries;
    return true, twice, work;
  }

  /** One turn of that loop, for an entry that is an object. */
  method UpsertOne(existing: map<AvKey, bool>, userId: nat, date: string, done: seq<Json>, e: Json,
                   work0: map<AvKey, bool>, twice0: bool)
    returns (work: map<AvKey, bool>, twice: bool)
    requires e.JObj?
    requires work0 == BulkResult(existing, userId, date, done)
    requires twice0 <==> InsertsTwice(existing, userId, date, done)
    ensures work == BulkResult(existing, userId, date, done + [e])
    ensures twice <==> InsertsTwice(existing, userId, date, done + [e])
  {
    BulkResultStep(existing, userId, date, done, e);
    InsertsTwiceStep(existing, userId, date, done, e);
    work, twice := work0, twice0;
    var ts := Get(e.fields, "time_slot");
    var isAvailable := Get(e.fields, "is_available");
    if OnGrid(ts) && isAvailable.JBool? {
      var key := AvKey(userId, date, ts.s);
      WriteCountLast(done, ts.s);
      // No row before the loop, yet one pending from an earlier entry: a second insert.
      twice := twice || (key !in existing && key in work);
      work := work[key := isAvailable.b];
    }
  }

  /**
   * POST /api/doctor/availability/bulk. On 200 the rows become
   * `BulkResult` of the old rows and the two availability patterns are
   * deleted; on any other answer nothing changes.
   */
  method BulkUpdateAvailability(db: Db, cache: CacheStore, role: string, userId: nat, body: Body)
    returns (code: int)
    requires db.Valid()
    modifies db, cache
    ensures db.Valid()
    ensures code == BulkCode(role, body, old(db.availability), userId)
    ensures code == 200 ==>
              db.Snapshot() == old(db.Snapshot()).(availability :=
                BulkResult(old(db.availability), userId, Get(body, "date").s, GetOr(body, "slots", JList([])).items)) &&
              cache.entries == DeleteAll(old(cache.entries), Patterns(AvailabilityPrefixes))
    ensures code != 200 ==> db.Snapshot() == old(db.Snapshot()) && cache.entries == old(cache.entries)
  {
    if role != "doctor" { return 403; }
    var dateArg := Get(body, "date");
    var slotsArg := GetOr(body, "slots", JList([]));
    if !Truthy(dateArg) { return 400; }
    if !dateArg.JStr? { return 500; }
    if Strptime(dateArg.s).None? { return 400; }
    if !slotsArg.JList? || slotsArg.items == [] { return 400; }
    var date, entries := dateArg.s, slotsArg.items;
    var allObjects, twice, work := UpsertSlots(db.availability, userId, date, entries);
    if !allObjects { return 500; }
    if twice { return 500; }
    StoreAvailability(db, cache, work);
    return 200;
  }

  /** The commit of the new override rows and the flush of both availability patterns. */
  method StoreAvailability(db: Db, cache: CacheStore, av: map<AvKey, bool>)
    requires db.Valid()
    modifies db, cache
    ensures db.Valid()
    ensures db.Snapshot() == old(db.Snapshot()).(availability := av)
    ensures cache.entries == DeleteAll(old(cache.entries), Patterns(AvailabilityPrefixes))
  {
    AvailabilityFree(db.Snapshot(), av);
    db.Commit(db.Snapshot().(availability := av));
    cache.DeletePatterns(Patterns(AvailabilityPrefixes));
  }

  // ---------------------------------------------------------------------
  // doctor_toggle_availability
  // ---------------------------------------------------------------------

  /** The answer to a toggle: role, both fields present, a parsable date, an on-grid slot. */
  function ToggleCode(role: string, body: Body): (code: int)
    ensures role != "doctor" ==> code == 403
    ensures role == "doctor" && (!Truthy(Get(body, "date")) || !Truthy(Get(body, "time_slot"))) ==> code == 400
    ensures code == 200 <==>
              role == "doctor" && Get(body, "date").JStr? && Get(body, "date").s != [] &&
              Strptime(Get(body, "date").s).Some? && OnGrid(Get(body, "time_slot"))
    ensures code != 200 ==> code == 400 || code == 403 || code == 500
  {
    var date := Get(body, "date");
    var slot := Get(body, "time_slot");
    if role != "doctor" then 403
    else if !Truthy(date) || !Truthy(slot) then 400
    else if !date.JStr? then 500
    else if Strptime(date.s).None? then 400
    else if !OnGrid(slot) then 400
    else 200
  }

  /**
   * The slot's new value: a boolean in the body sets it; otherwise an
   * existing row flips, and a missing row is created unavailable unless the
   * body gives some other non-null value, whose truthiness is taken.
   */
  function ToggleValue(av: map<AvKey, bool>, k: AvKey, requested: Json): (r: bool)
    ensures requested.JBool? ==> r == requested.b
    ensures requested.JNull? ==> r == !Effective(av, k)
    ensures k in av && !requested.JBool? ==> r == !av[k]
    ensures k !in av && !requested.JNull? ==> r == Truthy(requested)
  {
    if k in av then (if requested.JBool? then requested.b else !av[k])
    else if requested.JNull? then false else Truthy(requested)
  }

  /**
   * POST /api/doctor/availability/toggle. On 200 the slot's row holds the
   * returned value and the two availability patterns are deleted; on any
   * other answer nothing changes.
   */
  method ToggleAvailability(db: Db, cache: CacheStore, role: string, userId: nat, body: Body)
    returns (code: int, value: bool)
    requires db.Valid()
    modifies db, cache
    ensures db.Valid()
    ensures code == ToggleCode(role, body)
    ensures code == 200 ==>
              var k := AvKey(userId, Get(body, "date").s, Get(body, "time_slot").s);
              value == ToggleValue(old(db.availability), k, Get(body, "is_available")) &&
              db.Snapshot() == old(db.Snapshot()).(availability := old(db.availability)[k := value]) &&
              cache.entries == DeleteAll(old(cache.entries), Patterns(AvailabilityPrefixes))
    ensures code != 200 ==> db.Snapshot() == old(db.Snapshot()) && cache.entries == old(cache.entries)
  {
    if role != "doctor" { return 403, false; }
    var date := Get(body, "date");
    var slot := Get(body, "time_slot");
    var requested := Get(body, "is_available");
    if !Truthy(date) || !Truthy(slot) { return 400, false; }
    if !date.JStr? { return 500, false; }
    if Strptime(date.s).None? { return 400, false; }
    if !OnGrid(slot) { return 400, false; }
    var k := AvKey(userId, date.s, slot.s);
    if k in db.availability {
      value := if requested.JBool? then requested.b else !db.availability[k];
    } else {
      value := if requested.JNull? then false else Truthy(requested);
    }
    ghost var before := db.Snapshot();
    AvailabilityFree(before, db.availability[k := value]);
    db.availability := db.availability[k := value];
    assert db.Snapshot() == before.(availability := before.availability[k := value]);
    cache.DeletePatterns(Patterns(AvailabilityPrefixes));
    return 200, value;
  }

  /** A toggle without `is_available` negates the slot's effective availability, whose default is available. */
  lemma ToggleNegates(av: map<AvKey, bool>, k: AvKey)
    ensures Effective(av[k := ToggleValue(av, k, JNull)], k) == !Effective(av, k)
    ensures k !in av ==> !Effective(av[k := ToggleValue(av, k, JNull)], k)
  {
  }

  // ---------------------------------------------------------------------
  // doctor_dashboard_summary: latest visit per patient, ten latest first
  // ---------------------------------------------------------------------

  /** One entry of the insertion-ordered `last_visits` dict. */
  datatype Visit = Visit(patientId: nat, lastVisit: string)

  /** An appointment with a patient and a date takes part in the fold. */
  predicate Counts(a: Appointment) {
    a.patientId != 0 && a.date != []
  }

  function VisitIndex(vs: seq<Visit>, pid: nat): (r: Option<nat>)
    ensures r.Some? ==> r.value < |vs| && vs[r.value].patientId == pid
    ensures r.None? ==> forall k :: 0 <= k < |vs| ==> vs[k].patientId != pid
  {
    if vs == [] then None
    else if vs[0].patientId == pid then Some(0)
    else match VisitIndex(vs[1..], pid)
      case None => None
      case Some(k) => Some(k + 1)
  }

  /** One loop turn: a new patient is appended, a later date replaces the kept one. */
  function VisitStep(vs: seq<Visit>, a: Appointment): seq<Visit> {
    if !Counts(a) then vs
    else match VisitIndex(vs, a.patientId)
      case None => vs + [Visit(a.patientId, a.date)]
      case Some(k) => if StrLt(vs[k].lastVisit, a.date) then vs[k := Visit(a.patientId, a.date)] else vs
  }

  /** The dict after the loop has seen `recent`. */
  function VisitsOf(recent: seq<Appointment>): (r: seq<Visit>)
    ensures |r| <= |recent|
  {
    if recent == [] then [] else VisitStep(VisitsOf(recent[..|recent| - 1]), recent[|recent| - 1])
  }

  /** The loop over the doctor's recent appointments that builds `last_visits`. */
  method LastVisits(recent: seq<Appointment>) returns (visits: seq<Visit>)
    ensures visits == VisitsOf(recent)
  {
    visits := [];
    var i := 0;
    while i < |recent|
      invariant 0 <= i <= |recent|
      invariant visits == VisitsOf(recent[..i])
    {
      var a := recent[i];
      assert recent[..i + 1][..i] == recent[..i];
      if a.patientId != 0 && a.date != [] {
        var k := VisitIndex(visits, a.patientId);
        if k.None? {
          visits := visits + [Visit(a.patientId, a.date)];
        } else if StrLt(visits[k.value].lastVisit, a.date) {
          visits := visits[k.value := Visit(a.patientId, a.date)];
        }
      }
      i := i + 1;
    }
    assert recent[..|recent|] == recent;
  }

  /** The visit's date is the date of one of that patient's appointments. */
  predicate Attained(recent: seq<Appointment>, v: Visit) {
    exists j :: 0 <= j < |recent| && Counts(recent[j]) && recent[j].patientId == v.patientId &&
                recent[j].date == v.lastVisit
  }

  /** The patient of `a` has an entry no earlier than `a`'s date. */
  predicate Covered(vs: seq<Visit>, a: Appointment) {
    exists k :: 0 <= k < |vs| && vs[k].patientId == a.patientId && StrLe(a.date, vs[k].lastVisit)
  }

  predicate DistinctPatients(vs: seq<Visit>) {
    forall i, j :: 0 <= i < j < |vs| ==> vs[i].patientId != vs[j].patientId
  }

  /**
   * The fold keeps one entry per patient seen, and its date is that
   * patient's latest: it is one of their dates and is no earlier than any.
   */
  lemma {:induction false} VisitsOfLatest(recent: seq<Appointment>)
    ensures DistinctPatients(VisitsOf(recent))
    ensures forall k :: 0 <= k < |VisitsOf(recent)| ==> Attained(recent, VisitsOf(recent)[k])
    ensures forall j :: 0 <= j < |recent| && Counts(recent[j]) ==> Covered(VisitsOf(recent), recent[j])
    decreases |recent|
  {
    if recent != [] {
      var init := recent[..|recent| - 1];
      var a := recent[|recent| - 1];
      assert recent == init + [a];
      VisitsOfLatest(init);
      var vs := VisitsOf(init);
      VisitStepKeeps(vs, a, init);
      forall j | 0 <= j < |init| && Counts(init[j]) ensures Covered(VisitStep(vs, a), init[j]) {
        CoveredStep(vs, a, init[j]);
      }
    }
  }

  lemma AttainedAppend(init: seq<Appointment>, a: Appointment, v: Visit)
    requires Attained(init, v)
    ensures Attained(init + [a], v)
  {
    var j :| 0 <= j < |init| && Counts(init[j]) && init[j].patientId == v.patientId && init[j].date == v.lastVisit;
    assert (init + [a])[j] == init[j];
  }

  /** An appointment with an entry keeps one after the next loop turn. */
  lemma CoveredStep(vs: seq<Visit>, a: Appointment, b: Appointment)
    requires DistinctPatients(vs) && Covered(vs, b)
    ensures Covered(VisitStep(vs, a), b)
  {
    var k :| 0 <= k < |vs| && vs[k].patientId == b.patientId && StrLe(b.date, vs[k].lastVisit);
    var ws := VisitStep(vs, a);
    if Counts(a) {
      match VisitIndex(vs, a.patientId)
      case None =>
        assert ws[k] == vs[k];
      case Some(m) =>
        if StrLt(vs[m].lastVisit, a.date) && m == k {
          StrLeTransitive(b.date, vs[k].lastVisit, a.date);
          assert ws[k] == Visit(a.patientId, a.date);
        } else {
          assert ws[k] == vs[k];
        }
    }
  }

  /** The next loop turn keeps the patients distinct and the entries attained, and covers the new appointment. */
  lemma VisitStepKeeps(vs: seq<Visit>, a: Appointment, init: seq<Appointment>)
    requires DistinctPatients(vs)
    requires forall k :: 0 <= k < |vs| ==> Attained(init, vs[k])
    ensures DistinctPatients(VisitStep(vs, a))
    ensures Counts(a) ==> Covered(VisitStep(vs, a), a)
    ensures forall k :: 0 <= k < |VisitStep(vs, a)| ==> Attained(init + [a], VisitStep(vs, a)[k])
  {
    var ws := VisitStep(vs, a);
    forall k | 0 <= k < |vs| ensures Attained(init + [a], vs[k]) {
      AttainedAppend(init, a, vs[k]);
    }
    if Counts(a) {
      assert Attained(init + [a], Visit(a.patientId, a.date)) by {
        assert (init + [a])[|init|] == a;
      }
      match VisitIndex(vs, a.patientId)
      case None =>
        assert ws[|vs|] == Visit(a.patientId, a.date);
        assert forall k :: 0 <= k < |vs| ==> ws[k] == vs[k];
      case Some(m) =>
        if StrLt(vs[m].lastVisit, a.date) {
          assert ws[m] == Visit(a.patientId, a.date);
          assert forall k :: 0 <= k < |vs| && k != m ==> ws[k] == vs[k];
        } else {
          StrLtTotal(vs[m].lastVisit, a.date);
          assert StrLe(a.date, ws[m].lastVisit);
        }
    }
  }

  function LastVisitKey(v: Visit): string { v.lastVisit }

  /** `sorted(..., key=last_visit, reverse=True)[:10]`. */
  function TopVisits(vs: seq<Visit>): (r: seq<Visit>)
    ensures |r| == if |vs| < 10 then |vs| else 10
    ensures multiset(r) <= multiset(vs)
    ensures SortedDescBy(r, LastVisitKey)
  {
    var sorted := SortDescBy(vs, LastVisitKey);
    var n := if |vs| < 10 then |vs| else 10;
    assert sorted == sorted[..n] + sorted[n..];
    sorted[..n]
  }

  /** Every visit the top ten leave out is no later than any they keep. */
  lemma TopVisitsLatest(vs: seq<Visit>, v: Visit, i: nat)
    requires v in multiset(vs) - multiset(TopVisits(vs)) && i < |TopVisits(vs)|
    ensures StrLe(v.lastVisit, TopVisits(vs)[i].lastVisit)
  {
    var sorted := SortDescBy(vs, LastVisitKey);
    var n := |TopVisits(vs)|;
    var top, rest := sorted[..n], sorted[n..];
    assert sorted == top + rest;
    assert TopVisits(vs) == top;
    assert multiset(vs) == multiset(top) + multiset(rest);
    assert v in multiset(rest);
    var m :| 0 <= m < |rest| && rest[m] == v;
    assert sorted[n + m] == v && sorted[i] == top[i];
    assert StrLe(LastVisitKey(sorted[n + m]), LastVisitKey(sorted[i]));
  }

  /** One `assigned_patients` entry. */
  datatype AssignedPatient = AssignedPatient(patientId: nat, fullName: Option<string>, lastVisit: string)

  /** The patient's full name, or `Patient #<id>` when no patient row has that id. */
  function AssignedName(patients: map<nat, Patient>, pid: nat): (r: Option<string>)
    ensures pid in patients ==> r == patients[pid].fullName
    ensures pid !in patients ==> r == Some("Patient #" + NatToString(pid))
  {
    if pid in patients then patients[pid].fullName else Some("Patient #" + NatToString(pid))
  }

  function Named(patients: map<nat, Patient>, vs: seq<Visit>): (r: seq<AssignedPatient>)
    ensures |r| == |vs|
    ensures forall i :: 0 <= i < |vs| ==>
              r[i] == AssignedPatient(vs[i].patientId, AssignedName(patients, vs[i].patientId), vs[i].lastVisit)
  {
    if vs == [] then []
    else [AssignedPatient(vs[0].patientId, AssignedName(patients, vs[0].patientId), vs[0].lastVisit)] +
         Named(patients, vs[1..])
  }

  /** `assigned_patients` of the dashboard, from the doctor's recent appointments. */
  function AssignedPatients(patients: map<nat, Patient>, recent: seq<Appointment>): (r: seq<AssignedPatient>)
    ensures |r| <= 10
    ensures forall i, j :: 0 <= i < j < |r| ==> StrLe(r[j].lastVisit, r[i].lastVisit)
    ensures forall i, j :: 0 <= i < j < |r| ==> r[i].patientId != r[j].patientId
  {
    var top := TopVisits(VisitsOf(recent));
    VisitsOfLatest(recent);
    TopDistinct(VisitsOf(recent));
    Named(patients, top)
  }

  /** Taking the top ten of distinct patients keeps them distinct. */
  lemma TopDistinct(vs: seq<Visit>)
    requires DistinctPatients(vs)
    ensures DistinctPatients(TopVisits(vs))
  {
    var r := TopVisits(vs);
    forall i, j | 0 <= i < j < |r| ensures r[i].patientId != r[j].patientId {
      assert r[i] in multiset(vs) && r[j] in multiset(vs);
      var a :| 0 <= a < |vs| && vs[a] == r[i];
      var b :| 0 <= b < |vs| && vs[b] == r[j];
      if a == b {
        CountTwice(r, i, j);
        assert multiset(r)[r[i]] <= multiset(vs)[r[i]];
        DistinctCountOne(vs, a);
      }
    }
  }

  /** With distinct patients, each entry occurs once. */
  lemma DistinctCountOne(vs: seq<Visit>, a: nat)
    requires DistinctPatients(vs) && a < |vs|
    ensures multiset(vs)[vs[a]] == 1
  {
    assert vs == vs[..a] + [vs[a]] + vs[a + 1..];
    assert vs[a] !in vs[..a] by {
      forall k | 0 <= k < a ensures vs[..a][k] != vs[a] { assert vs[..a][k] == vs[k]; }
    }
    var tail := vs[a + 1..];
    assert vs[a] !in tail by {
      forall k | 0 <= k < |tail| ensures tail[k] != vs[a] { assert tail[k] == vs[a + 1 + k]; }
    }
    assert multiset(vs) == multiset(vs[..a]) + multiset{vs[a]} + multiset(vs[a + 1..]);
  }
}
