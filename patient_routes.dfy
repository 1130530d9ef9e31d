/**
 * The patient's side of the scheduling engine (backend/routes/patient_routes.py):
 * the free/booked slot view, booking, cancelling, the latest-treatment pick
 * of the visit history and the profile update.
 *
 * The caller's user id stands for the JWT identity; "today" and "now" are
 * parameters. None of these handlers deletes a cache key, so none of the
 * methods below is given the cache.
 */
module PatientRoutes {
  import opened Common
  import opened Json
  import opened Dates
  import opened Models
  import DoctorRoutes

  // ---------------------------------------------------------------------
  // patient_available_slots
  // ---------------------------------------------------------------------

  /** The `while current_dt < end_dt` loop: half hours from 09:00 until 17:00. */
  method DaySlots() returns (slots: seq<string>)
    ensures slots == WorkingHalfHours()
  {
    slots := [];
    var current := 540;
    while current < 1020
      invariant 540 <= current <= 1020 && (current - 540) % 30 == 0
      invariant |slots| == (current - 540) / 30
      invariant forall k :: 0 <= k < |slots| ==> slots[k] == Label(540 + 30 * k)
    {
      slots := slots + [Label(current)];
      current := current + 30;
    }
  }

  /**
   * The patient grid is the doctor grid with the lunch hour put back: the
   * two views of one day disagree about 13:00 and 13:30.
   */
  lemma TwoGrids()
    ensures |WorkingHalfHours()| == 16 && |DoctorRoutes.DefaultTimeSlots| == 14
    ensures DoctorRoutes.DefaultTimeSlots == WorkingHalfHours()[..8] + WorkingHalfHours()[10..]
    ensures "13:00" in WorkingHalfHours() && "13:00" !in DoctorRoutes.DefaultTimeSlots
    ensures "13:30" in WorkingHalfHours() && "13:30" !in DoctorRoutes.DefaultTimeSlots
  {
    WorkingHalfHoursShape();
    DoctorRoutes.GridShape();
    var w := WorkingHalfHours();
    var g := DoctorRoutes.DefaultTimeSlots;
    var joined := w[..8] + w[10..];
    DoctorRoutes.GridLabels();
    forall i | 0 <= i < 14 ensures g[i] == joined[i] {
      if i < 8 { assert joined[i] == w[i]; } else { assert joined[i] == w[i + 2]; }
    }
  }

  datatype SlotState = SlotState(time: string, booked: bool)

  /** The times held by an appointment of that doctor on that exact date string that is not cancelled. */
  function BookedTimes(appts: map<nat, Appointment>, doctorId: nat, date: string): (r: set<string>)
    ensures forall s :: s in r <==> SlotHeld(appts, SlotKey(doctorId, date, s))
  {
    set id | id in appts && appts[id].doctorId == doctorId && appts[id].date == date &&
             appts[id].status != Cancelled :: appts[id].time
  }

  function Labelled(grid: seq<string>, booked: set<string>): (r: seq<SlotState>)
    ensures |r| == |grid|
    ensures forall k :: 0 <= k < |grid| ==> r[k].time == grid[k] && (r[k].booked <==> grid[k] in booked)
  {
    if grid == [] then [] else [SlotState(grid[0], grid[0] in booked)] + Labelled(grid[1..], booked)
  }

  /** The slot list of a successful answer: the 16 half hours, each free or booked. */
  function SlotView(t: Tables, doctorId: nat, date: string): (r: seq<SlotState>)
    ensures |r| == 16
    ensures forall k :: 0 <= k < 16 ==>
              r[k].time == WorkingHalfHours()[k] &&
              (r[k].booked <==> SlotHeld(t.appointments, SlotKey(doctorId, date, r[k].time)))
  {
    Labelled(WorkingHalfHours(), BookedTimes(t.appointments, doctorId, date))
  }

  /**
   * The checks in order: both parameters (400), an active doctor (404), a
   * date `datetime.fromisoformat` accepts (400), not before today (400).
   */
  function SlotsCode(t: Tables, doctorId: Option<int>, date: Option<string>, today: Date): (code: int)
    ensures (doctorId.None? || doctorId.value == 0 || date.None? || date.value == []) ==> code == 400
    ensures (doctorId.Some? && doctorId.value != 0 && date.Some? && date.value != [] &&
             !ActiveDoctor(t, doctorId.value)) ==> code == 404
    ensures (doctorId.Some? && doctorId.value != 0 && date.Some? && date.value != [] &&
             ActiveDoctor(t, doctorId.value) && ParseIso(date.value).None?) ==> code == 400
    ensures (doctorId.Some? && doctorId.value != 0 && date.Some? && date.value != [] &&
             ActiveDoctor(t, doctorId.value) && ParseIso(date.value).Some? &&
             Before(ParseIso(date.value).value, today)) ==> code == 400
    ensures (doctorId.Some? && doctorId.value != 0 && date.Some? && date.value != [] &&
             ActiveDoctor(t, doctorId.value) && code != 200) ==> code == 400
    ensures code == 200 <==>
              doctorId.Some? && doctorId.value != 0 && date.Some? && ActiveDoctor(t, doctorId.value) &&
              ParseIso(date.value).Some? && !Before(ParseIso(date.value).value, today)
    ensures code == 200 || code == 400 || code == 404
  {
    if doctorId.None? || doctorId.value == 0 || date.None? || date.value == [] then 400
    else if !ActiveDoctor(t, doctorId.value) then 404
    else if ParseIso(date.value).None? then 400
    else if Before(ParseIso(date.value).value, today) then 400
    else 200
  }

  /** GET /api/patient/available-slots. `doctorId` is the query value after its integer conversion. */
  method AvailableSlots(db: Db, doctorId: Option<int>, date: Option<string>, today: Date)
    returns (code: int, slots: seq<SlotState>)
    ensures code == SlotsCode(db.Snapshot(), doctorId, date, today)
    ensures code == 200 ==> slots == SlotView(db.Snapshot(), doctorId.value as nat, date.value)
    ensures code != 200 ==> slots == []
  {
    code := SlotsCode(db.Snapshot(), doctorId, date, today);
    if code != 200 { return code, []; }
    var grid := DaySlots();
    var booked := BookedTimes(db.appointments, doctorId.value as nat, date.value);
    slots := Labelled(grid, booked);
  }

  /** The patient view never consults the availability overrides. */
  lemma SlotViewIgnoresOverrides(t: Tables, av: map<AvKey, bool>, doctorId: nat, date: string,
                                 arg: Option<int>, dateArg: Option<string>, today: Date)
    ensures SlotView(t.(availability := av), doctorId, date) == SlotView(t, doctorId, date)
    ensures SlotsCode(t.(availability := av), arg, dateArg, today) == SlotsCode(t, arg, dateArg, today)
  {
  }

  // ---------------------------------------------------------------------
  // create_patient_appointment
  // ---------------------------------------------------------------------

  /**
   * `(data.get("reason") or "").strip() or None`: None when a truthy
   * non-string raises; otherwise the stripped text, an empty one as None.
   */
  function ReasonText(j: Json): (r: Option<Option<string>>)
    ensures r.None? <==> Truthy(j) && !j.JStr?
    ensures r.Some? && r.value.Some? ==> j.JStr? && r.value.value == Strip(j.s) && r.value.value != []
    ensures j.JStr? && Strip(j.s) != [] ==> r == Some(Some(Strip(j.s)))
  {
    if !Truthy(j) then Some(None)
    else if !j.JStr? then None
    else if Strip(j.s) == [] then Some(None)
    else Some(Some(Strip(j.s)))
  }

  /** A patient caller whose reason text does not raise, with doctor, date and time all truthy. */
  predicate BookingFieldsGiven(t: Tables, userId: nat, body: Body) {
    CurrentPatient(t, userId) && ReasonText(Get(body, "reason")).Some? &&
    Truthy(Get(body, "doctor_id")) && Truthy(Get(body, "appointment_date")) && Truthy(Get(body, "time_slot"))
  }

  /** ... and the doctor id names an active doctor. */
  predicate BookingDoctorFound(t: Tables, userId: nat, body: Body) {
    BookingFieldsGiven(t, userId, body) && SqlIntKey(Get(body, "doctor_id")).Some? &&
    SqlIntKey(Get(body, "doctor_id")).value.Some? && ActiveDoctor(t, SqlIntKey(Get(body, "doctor_id")).value.value)
  }

  /** ... and the date is ISO text for today or a later day. */
  predicate BookingDateAccepted(t: Tables, userId: nat, body: Body, today: Date) {
    BookingDoctorFound(t, userId, body) && Get(body, "appointment_date").JStr? &&
    ParseIso(Get(body, "appointment_date").s).Some? &&
    !Before(ParseIso(Get(body, "appointment_date").s).value, today)
  }

  /** ... and the time slot can be bound as text. */
  predicate BookingTimeBound(t: Tables, userId: nat, body: Body, today: Date) {
    BookingDateAccepted(t, userId, body, today) && SqlText(Get(body, "time_slot")).Some? &&
    SqlText(Get(body, "time_slot")).value.Some?
  }

  /** The (doctor, date, time) a request that passed every field check asks for. */
  function RequestedSlot(t: Tables, userId: nat, body: Body, today: Date): SlotKey
    requires BookingTimeBound(t, userId, body, today)
  {
    SlotKey(SqlIntKey(Get(body, "doctor_id")).value.value as nat, Get(body, "appointment_date").s,
            SqlText(Get(body, "time_slot")).value.value)
  }

  /**
   * The booking checks in order, and the row a successful booking adds.
   * The reason is computed before the required fields are looked at; the
   * doctor id is compared with the integer key as SQLite does; the time
   * is any truthy value, stored as SQLite's text for it; a slot held only
   * by a cancelled row passes the pre-check and then violates the unique
   * key, which fails the commit (500).
   */
  function BookingRequest(t: Tables, userId: nat, body: Body, today: Date, now: nat): (r: Verdict<Appointment>)
    ensures !CurrentPatient(t, userId) ==> r == Reject(404)
    ensures CurrentPatient(t, userId) && ReasonText(Get(body, "reason")).None? ==> r == Reject(500)
    ensures (CurrentPatient(t, userId) && ReasonText(Get(body, "reason")).Some? &&
             (!Truthy(Get(body, "doctor_id")) || !Truthy(Get(body, "appointment_date")) ||
              !Truthy(Get(body, "time_slot")))) ==> r == Reject(400)
    ensures BookingFieldsGiven(t, userId, body) && SqlIntKey(Get(body, "doctor_id")).None? ==> r == Reject(500)
    ensures (BookingFieldsGiven(t, userId, body) && SqlIntKey(Get(body, "doctor_id")).Some? &&
             !BookingDoctorFound(t, userId, body)) ==> r == Reject(404)
    ensures BookingDoctorFound(t, userId, body) &&
            (!Get(body, "appointment_date").JStr? || ParseIso(Get(body, "appointment_date").s).None?) ==>
              r == Reject(400)
    ensures (BookingDoctorFound(t, userId, body) && Get(body, "appointment_date").JStr? &&
             ParseIso(Get(body, "appointment_date").s).Some? &&
             Before(ParseIso(Get(body, "appointment_date").s).value, today)) ==> r == Reject(400)
    ensures BookingDateAccepted(t, userId, body, today) && SqlText(Get(body, "time_slot")).None? ==> r == Reject(500)
    ensures (BookingTimeBound(t, userId, body, today) &&
             SlotHeld(t.appointments, RequestedSlot(t, userId, body, today))) ==> r == Reject(409)
    ensures (BookingTimeBound(t, userId, body, today) &&
             !SlotHeld(t.appointments, RequestedSlot(t, userId, body, today)) &&
             SlotRowExists(t.appointments, RequestedSlot(t, userId, body, today))) ==> r == Reject(500)
    ensures r.Accept? <==>
              BookingTimeBound(t, userId, body, today) &&
              !SlotRowExists(t.appointments, RequestedSlot(t, userId, body, today))
    ensures r.Accept? ==>
              var a := r.value;
              CurrentPatient(t, userId) && a.id == t.nextAppointmentId && a.patientId == userId &&
              a.status == Booked && a.createdAt == Some(now) &&
              SqlIntKey(Get(body, "doctor_id")) == Some(Some(a.doctorId as int)) && ActiveDoctor(t, a.doctorId) &&
              Get(body, "appointment_date") == JStr(a.date) && ParseIso(a.date).Some? &&
              !Before(ParseIso(a.date).value, today) &&
              SqlText(Get(body, "time_slot")) == Some(Some(a.time)) &&
              Some(a.reason) == ReasonText(Get(body, "reason")) &&
              SlotOf(a) == RequestedSlot(t, userId, body, today) &&
              !SlotRowExists(t.appointments, SlotOf(a))
    ensures r.Reject? ==> r.code == 400 || r.code == 404 || r.code == 409 || r.code == 500
  {
    var doctorArg := Get(body, "doctor_id");
    var date := Get(body, "appointment_date");
    var time := Get(body, "time_slot");
    var reason := ReasonText(Get(body, "reason"));
    if !CurrentPatient(t, userId) then Reject(404)
    else if reason.None? then Reject(500)
    else if !Truthy(doctorArg) || !Truthy(date) || !Truthy(time) then Reject(400)
    else if SqlIntKey(doctorArg).None? then Reject(500)
    else if !BookingDoctorFound(t, userId, body) then Reject(404)
    else if !date.JStr? || ParseIso(date.s).None? then Reject(400)
    else if Before(ParseIso(date.s).value, today) then Reject(400)
    else if SqlText(time).None? then Reject(500)
    else
      assert SqlText(time).value.Some? by { assert !time.JNull?; }
      var k := RequestedSlot(t, userId, body, today);
      if SlotHeld(t.appointments, k) then Reject(409)
      else if SlotRowExists(t.appointments, k) then Reject(500)
      else Accept(Appointment(t.nextAppointmentId, userId, k.doctorId, k.date, k.time, Booked, reason.value, Some(now)))
  }

  /** The tables after a booking. */
  function WithBooking(t: Tables, a: Appointment): Tables {
    t.(appointments := t.appointments[a.id := a], nextAppointmentId := a.id + 1)
  }

  /**
   * A booking keeps every constraint: the new row takes a fresh id and a
   * (doctor, date, time) no row has, so afterwards no two appointments share
   * one, and in particular at most one that is not cancelled.
   */
  lemma BookingKeepsValid(t: Tables, userId: nat, body: Body, today: Date, now: nat)
    requires ValidTables(t)
    requires BookingRequest(t, userId, body, today, now).Accept?
    ensures ValidTables(WithBooking(t, BookingRequest(t, userId, body, today, now).value))
    ensures var a := BookingRequest(t, userId, body, today, now).value;
            a.id !in t.appointments && WithBooking(t, a).appointments.Keys == t.appointments.Keys + {a.id}
  {
    var a := BookingRequest(t, userId, body, today, now).value;
    FreshBookingValid(t, a);
  }

  /** A row under the next id whose (doctor, date, time) no row has keeps the tables valid. */
  lemma FreshBookingValid(t: Tables, a: Appointment)
    requires ValidTables(t) && a.id == t.nextAppointmentId && !SlotRowExists(t.appointments, SlotOf(a))
    ensures ValidTables(WithBooking(t, a))
    ensures a.id !in t.appointments && WithBooking(t, a).appointments.Keys == t.appointments.Keys + {a.id}
  {
    var t2 := WithBooking(t, a);
    assert a.id !in t.appointments;
    forall x, y | x in t2.appointments && y in t2.appointments && SlotOf(t2.appointments[x]) == SlotOf(t2.appointments[y])
      ensures x == y
    {
    }
  }

  /**
   * Rebooking a slot whose only row is cancelled passes the route's own
   * check and still fails, on the unique key that covers every status.
   */
  lemma RebookCancelledSlotFails(t: Tables, userId: nat, body: Body, today: Date, now: nat,
                                 doctorId: nat, date: string, time: string)
    requires CurrentPatient(t, userId) && ActiveDoctor(t, doctorId)
    requires Get(body, "reason") == JNull && Get(body, "doctor_id") == JNum(doctorId)
    requires Get(body, "appointment_date") == JStr(date) && Get(body, "time_slot") == JStr(time)
    requires date != [] && time != [] && doctorId != 0
    requires ParseIso(date).Some? && !Before(ParseIso(date).value, today)
    requires SlotRowExists(t.appointments, SlotKey(doctorId, date, time))
    requires !SlotHeld(t.appointments, SlotKey(doctorId, date, time))
    ensures BookingRequest(t, userId, body, today, now) == Reject(500)
  {
  }

  /** A well-formed request for a slot no row has, from a patient to an active doctor, is booked. */
  lemma FreeSlotIsBooked(t: Tables, userId: nat, body: Body, today: Date, now: nat,
                         doctorId: nat, date: string, time: string)
    requires CurrentPatient(t, userId) && ActiveDoctor(t, doctorId)
    requires Get(body, "reason") == JNull && Get(body, "doctor_id") == JNum(doctorId)
    requires Get(body, "appointment_date") == JStr(date) && Get(body, "time_slot") == JStr(time)
    requires date != [] && time != [] && doctorId != 0 && InInt64(doctorId)
    requires ParseIso(date).Some? && !Before(ParseIso(date).value, today)
    requires !SlotRowExists(t.appointments, SlotKey(doctorId, date, time))
    ensures BookingRequest(t, userId, body, today, now) ==
              Accept(Appointment(t.nextAppointmentId, userId, doctorId, date, time, Booked, None, Some(now)))
  {
  }

  /** POST /api/patient/appointments: 201 with the new row's id, or an error answer that changes nothing. */
  method CreateAppointment(db: Db, userId: nat, body: Body, today: Date, now: nat)
    returns (code: int, id: nat)
    requires db.Valid()
    modifies db
    ensures db.Valid()
    ensures var r := BookingRequest(old(db.Snapshot()), userId, body, today, now);
            (r.Reject? ==> code == r.code && db.Snapshot() == old(db.Snapshot())) &&
            (r.Accept? ==> code == 201 && id == r.value.id && db.Snapshot() == WithBooking(old(db.Snapshot()), r.value))
  {
    var r := BookingRequest(db.Snapshot(), userId, body, today, now);
    if r.Reject? { return r.code, 0; }
    var a := r.value;
    FreshBookingValid(db.Snapshot(), a);
    db.Commit(WithBooking(db.Snapshot(), a));
    return 201, a.id;
  }

  // ---------------------------------------------------------------------
  // cancel_patient_appointment
  // ---------------------------------------------------------------------

  /**
   * The cancel checks in order: the caller's own appointment (404), already
   * cancelled (200, nothing to do), completed (400), a date that parses and
   * lies before today (400); a date that does not parse counts as not past.
   */
  function CancelCode(t: Tables, userId: nat, id: nat, today: Date): (code: int)
    ensures !CurrentPatient(t, userId) || id !in t.appointments || t.appointments[id].patientId != userId ==>
              code == 404
    ensures code == 200 <==>
              CurrentPatient(t, userId) && id in t.appointments && t.appointments[id].patientId == userId &&
              (t.appointments[id].status == Cancelled ||
               (t.appointments[id].status != Completed &&
                !(ParseIso(t.appointments[id].date).Some? && Before(ParseIso(t.appointments[id].date).value, today))))
    ensures code == 200 || code == 400 || code == 404
  {
    if !CurrentPatient(t, userId) || id !in t.appointments || t.appointments[id].patientId != userId then 404
    else
      var a := t.appointments[id];
      if a.status == Cancelled then 200
      else if a.status == Completed then 400
      else match ParseIso(a.date)
        case Some(d) => if Before(d, today) then 400 else 200
        case None => 200
  }

  /** The tables after a cancel that writes: the one status becomes CANCELLED. */
  function WithCancel(t: Tables, id: nat): Tables
    requires id in t.appointments
  {
    t.(appointments := t.appointments[id := t.appointments[id].(status := Cancelled)])
  }

  lemma CancelKeepsValid(t: Tables, id: nat)
    requires ValidTables(t) && id in t.appointments
    ensures ValidTables(WithCancel(t, id))
    ensures WithCancel(t, id).appointments.Keys == t.appointments.Keys
  {
    var t2 := WithCancel(t, id);
    assert forall x :: x in t2.appointments ==> SlotOf(t2.appointments[x]) == SlotOf(t.appointments[x]);
  }

  /** POST /api/patient/appointments/<id>/cancel. */
  method CancelAppointment(db: Db, userId: nat, id: nat, today: Date) returns (code: int)
    requires db.Valid()
    modifies db
    ensures db.Valid()
    ensures code == CancelCode(old(db.Snapshot()), userId, id, today)
    ensures code == 200 ==> id in db.appointments && db.appointments[id].status == Cancelled
    ensures code == 200 && old(db.appointments[id].status) != Cancelled ==>
              db.Snapshot() == WithCancel(old(db.Snapshot()), id)
    ensures code != 200 || old(db.appointments[id].status) == Cancelled ==> db.Snapshot() == old(db.Snapshot())
  {
    code := CancelCode(db.Snapshot(), userId, id, today);
    if code != 200 || db.appointments[id].status == Cancelled { return; }
    ghost var before := db.Snapshot();
    CancelKeepsValid(before, id);
    db.appointments := db.appointments[id := db.appointments[id].(status := Cancelled)];
    assert db.Snapshot() == WithCancel(before, id);
  }

  // ---------------------------------------------------------------------
  // get_patient_history: the treatment of each visit
  // ---------------------------------------------------------------------

  datatype VisitTreatments = VisitTreatments(treatment: Option<Treatment>, allTreatments: seq<Treatment>)

  /**
   * `treatment` is the first treatment with the latest `created_at`, a
   * missing one counting as the earliest; `all_treatments` lists them all.
   */
  function HistoryTreatments(ts: seq<Treatment>, appointmentId: nat): (r: VisitTreatments)
    ensures r.allTreatments == TreatmentsOf(ts, appointmentId)
    ensures r.treatment.None? <==> r.allTreatments == []
    ensures r.treatment.Some? ==>
              r.treatment.value in r.allTreatments && r.treatment.value.appointmentId == appointmentId &&
              forall t :: t in r.allTreatments ==> CreatedRank(t) <= CreatedRank(r.treatment.value)
  {
    var all := TreatmentsOf(ts, appointmentId);
    if all == [] then VisitTreatments(None, [])
    else VisitTreatments(Some(all[LatestIndex(all)]), all)
  }

  /**
   * Per appointment, there is no treatment exactly when none of the
   * treatments refers to it; a treatment dated later than every other is
   * the one reported.
   */
  lemma HistoryPicksLatest(ts: seq<Treatment>, appointmentId: nat, i: nat)
    requires i < |ts| && ts[i].appointmentId == appointmentId
    requires forall k :: 0 <= k < |ts| && k != i && ts[k].appointmentId == appointmentId ==>
               CreatedRank(ts[k]) < CreatedRank(ts[i])
    ensures HistoryTreatments(ts, appointmentId).treatment == Some(ts[i])
  {
    var all := TreatmentsOf(ts, appointmentId);
    assert ts[i] in all;
    var j := LatestIndex(all);
    assert all[j] in ts;
    var m :| 0 <= m < |all| && all[m] == ts[i];
    assert CreatedRank(ts[i]) <= CreatedRank(all[j]);
    assert exists k :: 0 <= k < |ts| && ts[k] == all[j];
  }

  // ---------------------------------------------------------------------
  // update_patient_profile
  // ---------------------------------------------------------------------

  /**
   * `data.get(k, current)` written to a text column: a key that is absent
   * keeps the current value, a present one is stored as SQLite's text for
   * it; None when the driver refuses the value.
   */
  function ProfileText(body: Body, k: string, current: Option<string>): (r: Option<Option<string>>)
    ensures k !in body ==> r == Some(current)
    ensures k in body ==> r == SqlText(body[k])
  {
    if k in body then SqlText(body[k]) else Some(current)
  }

  /** `is_disabled` changes only to a boolean or None given in the body. */
  function DisabledUpdate(body: Body, current: Option<bool>): (r: Option<bool>)
    ensures "is_disabled" in body && body["is_disabled"].JBool? ==> r == Some(body["is_disabled"].b)
    ensures "is_disabled" in body && body["is_disabled"].JNull? ==> r == None
    ensures !("is_disabled" in body && (body["is_disabled"].JBool? || body["is_disabled"].JNull?)) ==> r == current
  {
    if "is_disabled" in body then
      match body["is_disabled"]
      case JBool(b) => Some(b)
      case JNull => None
      case _ => current
    else current
  }

  /** The patient row after the update, or None when a text field cannot be stored (the commit fails, 500). */
  function UpdatedProfile(p: Patient, body: Body): (r: Option<Patient>)
    ensures r.Some? ==> r.value.id == p.id && r.value.isDisabled == DisabledUpdate(body, p.isDisabled)
    ensures r.Some? ==>
              Some(r.value.fullName) == ProfileText(body, "full_name", p.fullName) &&
              Some(r.value.address) == ProfileText(body, "address", p.address) &&
              Some(r.value.phone) == ProfileText(body, "phone", p.phone) &&
              Some(r.value.gender) == ProfileText(body, "gender", p.gender) &&
              Some(r.value.dob) == ProfileText(body, "dob", p.dob) &&
              Some(r.value.bloodGroup) == ProfileText(body, "blood_group", p.bloodGroup)
    ensures r.None? <==>
              exists k :: k in ["full_name", "address", "phone", "gender", "dob", "blood_group"] &&
                          k in body && SqlText(body[k]).None?
  {
    var fullName := ProfileText(body, "full_name", p.fullName);
    var address := ProfileText(body, "address", p.address);
    var phone := ProfileText(body, "phone", p.phone);
    var gender := ProfileText(body, "gender", p.gender);
    var dob := ProfileText(body, "dob", p.dob);
    var bloodGroup := ProfileText(body, "blood_group", p.bloodGroup);
    if fullName.None? || address.None? || phone.None? || gender.None? || dob.None? || bloodGroup.None? then None
    else Some(p.(fullName := fullName.value, address := address.value, phone := phone.value,
                 gender := gender.value, dob := dob.value, bloodGroup := bloodGroup.value,
                 isDisabled := DisabledUpdate(body, p.isDisabled)))
  }

  /** A body without any of the profile keys leaves the row as it is. */
  lemma EmptyUpdateKeepsProfile(p: Patient, body: Body)
    requires forall k :: k in body ==> k !in ["full_name", "address", "phone", "gender", "dob", "blood_group", "is_disabled"]
    ensures UpdatedProfile(p, body) == Some(p)
  {
    assert "full_name" !in body && "address" !in body && "phone" !in body && "gender" !in body;
    assert "dob" !in body && "blood_group" !in body && "is_disabled" !in body;
  }

  /** PUT /api/patient/profile: 404 for a caller that is not a patient, 500 for a value SQLite refuses, else 200. */
  method UpdateProfile(db: Db, userId: nat, body: Body) returns (code: int)
    requires db.Valid()
    modifies db
    ensures db.Valid()
    ensures !CurrentPatient(old(db.Snapshot()), userId) ==> code == 404 && db.Snapshot() == old(db.Snapshot())
    ensures CurrentPatient(old(db.Snapshot()), userId) ==>
              var r := UpdatedProfile(old(db.patients[userId]), body);
              (r.None? ==> code == 500 && db.Snapshot() == old(db.Snapshot())) &&
              (r.Some? ==> code == 200 && db.Snapshot() == old(db.Snapshot()).(patients := old(db.patients)[userId := r.value]))
  {
    if !CurrentPatient(db.Snapshot(), userId) { return 404; }
    var r := UpdatedProfile(db.patients[userId], body);
    if r.None? { return 500; }
    db.patients := db.patients[userId := r.value];
    return 200;
  }
}
