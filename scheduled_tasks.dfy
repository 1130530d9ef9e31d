/**
 * The two periodic jobs (backend/tasks/scheduled_tasks.py): the daily
 * appointment reminders and the monthly doctor reports.
 *
 * Composing and rendering the mails is out of scope; a mail is modelled
 * by its recipient and the values it shows. The clock is the `today`
 * parameter, the scans of the appointment and doctor tables are the
 * `appointments` and `doctors` sequences (rows in table order), and which
 * sends raise is an input (`raises`).
 */
module ScheduledTasks {
  import opened Common
  import opened Dates
  import opened Models
  import DoctorRoutes

  /** The patient's full name when set, else "Patient" (a User row has no `fullname`). */
  function PatientLabel(p: Patient): string {
    if p.fullName.Some? && p.fullName.value != [] then p.fullName.value else "Patient"
  }

  /** The doctor's full name when set, else "Doctor" (a Doctor row has no `name`). */
  function DoctorLabel(d: Doctor): string {
    if d.fullName.Some? && d.fullName.value != [] then d.fullName.value else "Doctor"
  }

  // ---------------------------------------------------------------------
  // send_daily_appointment_reminders
  // ---------------------------------------------------------------------

  /** `Appointment.date == today` (the date is bound as its ISO text) and `status == "BOOKED"`. */
  predicate DueToday(a: Appointment, today: Date)
    requires ValidDate(today)
  {
    a.date == FormatIso(today) && a.status == Booked
  }

  function DueAppointments(appointments: seq<Appointment>, today: Date): (r: seq<Appointment>)
    requires ValidDate(today)
    ensures |r| <= |appointments|
    ensures forall a :: a in r ==> DueToday(a, today)
    decreases |appointments|
  {
    if appointments == [] then []
    else
      var a := appointments[|appointments| - 1];
      DueAppointments(appointments[..|appointments| - 1], today) + (if DueToday(a, today) then [a] else [])
  }

  datatype Reminder = Reminder(appointmentId: nat, recipient: string, doctorName: string,
                               patientName: string, time: string)

  /** What one due appointment contributes. */
  datatype Step<T> = Skip | Send(mail: T) | Crash

  /**
   * An appointment without its patient or doctor row is skipped; a patient
   * without a user row makes `patient_user.email` raise, which ends the
   * task.
   */
  function ReminderStep(t: Tables, a: Appointment): Step<Reminder> {
    if a.patientId !in t.patients || a.doctorId !in t.doctors then Skip
    else if a.patientId !in t.users then Crash
    else
      Send(Reminder(a.id, t.users[a.patientId].email, DoctorLabel(t.doctors[a.doctorId]),
                    PatientLabel(t.patients[a.patientId]),
                    if a.time != [] then a.time else "your scheduled time"))
  }

  /** The reminders handed over successfully, or None when the task raises. */
  function Reminders(t: Tables, due: seq<Appointment>, raises: set<nat>): (r: Option<seq<Reminder>>)
    ensures r.Some? ==> |r.value| <= |due|
    decreases |due|
  {
    if due == [] then Some([])
    else
      match Reminders(t, due[..|due| - 1], raises)
      case None => None
      case Some(sent) =>
        var a := due[|due| - 1];
        match ReminderStep(t, a)
        case Skip => Some(sent)
        case Crash => None
        case Send(m) => if a.id in raises then Some(sent) else Some(sent + [m])
  }

  datatype ReminderOutcome = NoAppointments | RemindersSent(count: nat) | ReminderCrash

  method SendDailyReminders(t: Tables, appointments: seq<Appointment>, today: Date, raises: set<nat>)
    returns (outcome: ReminderOutcome, sent: seq<Reminder>)
    requires ValidDate(today)
    ensures outcome == NoAppointments <==> DueAppointments(appointments, today) == []
    ensures outcome == ReminderCrash <==>
              DueAppointments(appointments, today) != [] && Reminders(t, DueAppointments(appointments, today), raises).None?
    ensures outcome.RemindersSent? ==>
              Some(sent) == Reminders(t, DueAppointments(appointments, today), raises) && outcome.count == |sent|
  {
    var due: seq<Appointment> := [];
    var i := 0;
    while i < |appointments|
      invariant 0 <= i <= |appointments|
      invariant due == DueAppointments(appointments[..i], today)
    {
      assert appointments[..i + 1][..i] == appointments[..i];
      if DueToday(appointments[i], today) { due := due + [appointments[i]]; }
      i := i + 1;
    }
    assert appointments[..i] == appointments;
    if due == [] { return NoAppointments, []; }
    sent := [];
    var j := 0;
    while j < |due|
      invariant 0 <= j <= |due|
      invariant Reminders(t, due[..j], raises) == Some(sent)
    {
      var a := due[j];
      assert due[..j + 1][..j] == due[..j];
      if a.patientId !in t.patients || a.doctorId !in t.doctors {
        j := j + 1;
        continue;
      }
      if a.patientId !in t.users {
        assert Reminders(t, due[..j + 1], raises).None?;
        RemindersCrashSticks(t, due, j + 1, raises);
        return ReminderCrash, [];
      }
      var step := ReminderStep(t, a);
      if a.id !in raises { sent := sent + [step.mail]; }
      j := j + 1;
    }
    assert due[..j] == due;
    return RemindersSent(|sent|), sent;
  }

  /** Once the task has raised, later appointments do not matter. */
  lemma {:induction false} RemindersCrashSticks(t: Tables, due: seq<Appointment>, k: nat, raises: set<nat>)
    requires k <= |due| && Reminders(t, due[..k], raises).None?
    ensures Reminders(t, due, raises).None?
    decreases |due| - k
  {
    if k < |due| {
      assert due[..k + 1][..k] == due[..k];
      RemindersCrashSticks(t, due, k + 1, raises);
    } else {
      assert due[..k] == due;
    }
  }

  /** Only appointments dated today with status BOOKED are considered. */
  lemma {:induction false} DueAreDue(appointments: seq<Appointment>, today: Date)
    requires ValidDate(today)
    ensures forall a :: a in DueAppointments(appointments, today) <==> a in appointments && DueToday(a, today)
    decreases |appointments|
  {
    if appointments != [] {
      var init := appointments[..|appointments| - 1];
      assert appointments == init + [appointments[|appointments| - 1]];
      DueAreDue(init, today);
    }
  }

  /**
   * Each reminder goes to the user of the appointment's patient, for an
   * appointment with both a patient and a doctor row whose send did not
   * raise.
   */
  lemma {:induction false} RemindersSound(t: Tables, due: seq<Appointment>, raises: set<nat>)
    requires Reminders(t, due, raises).Some?
    ensures var sent := Reminders(t, due, raises).value;
            |sent| <= |due| &&
            forall m :: m in sent ==>
              exists a :: a in due && m.appointmentId == a.id && a.id !in raises &&
                          a.patientId in t.patients && a.doctorId in t.doctors && a.patientId in t.users &&
                          m.recipient == t.users[a.patientId].email
    decreases |due|
  {
    if due != [] {
      var init := due[..|due| - 1];
      var a := due[|due| - 1];
      RemindersSound(t, init, raises);
      assert due == init + [a];
      forall m | m in Reminders(t, due, raises).value
        ensures exists b :: b in due && m.appointmentId == b.id && b.id !in raises &&
                            b.patientId in t.patients && b.doctorId in t.doctors && b.patientId in t.users &&
                            m.recipient == t.users[b.patientId].email
      {
        if m in Reminders(t, init, raises).value {
          var b :| b in init && m.appointmentId == b.id && b.id !in raises &&
                   b.patientId in t.patients && b.doctorId in t.doctors && b.patientId in t.users &&
                   m.recipient == t.users[b.patientId].email;
          assert b in due;
        } else {
          assert a in due;
        }
      }
    }
  }

  /** When the due appointments have distinct ids, no appointment gets two reminders. */
  lemma {:induction false} RemindersOnePerAppointment(t: Tables, due: seq<Appointment>, raises: set<nat>)
    requires Reminders(t, due, raises).Some?
    requires forall i, j :: 0 <= i < j < |due| ==> due[i].id != due[j].id
    ensures var sent := Reminders(t, due, raises).value;
            forall i, j :: 0 <= i < j < |sent| ==> sent[i].appointmentId != sent[j].appointmentId
    decreases |due|
  {
    if due != [] {
      var init := due[..|due| - 1];
      var a := due[|due| - 1];
      assert due == init + [a];
      RemindersOnePerAppointment(t, init, raises);
      RemindersSound(t, init, raises);
      var before := Reminders(t, init, raises).value;
      forall m | m in before
        ensures m.appointmentId != a.id
      {
        var b :| b in init && m.appointmentId == b.id && b.id !in raises &&
                 b.patientId in t.patients && b.doctorId in t.doctors && b.patientId in t.users &&
                 m.recipient == t.users[b.patientId].email;
        var k :| 0 <= k < |init| && init[k] == b;
        assert due[k] == b && due[|due| - 1] == a;
      }
      var sent := Reminders(t, due, raises).value;
      forall i, j | 0 <= i < j < |sent|
        ensures sent[i].appointmentId != sent[j].appointmentId
      {
        if j >= |before| {
          assert sent[i] in before;
        }
      }
    }
  }

  /** With every patient linked to a user, every due appointment with both rows and a working send gets its reminder. */
  lemma {:induction false} RemindersComplete(t: Tables, due: seq<Appointment>, raises: set<nat>, a: Appointment)
    requires Reminders(t, due, raises).Some?
    requires a in due && a.patientId in t.patients && a.doctorId in t.doctors && a.id !in raises
    ensures ReminderStep(t, a).Send? && ReminderStep(t, a).mail in Reminders(t, due, raises).value
    decreases |due|
  {
    var init := due[..|due| - 1];
    assert due == init + [due[|due| - 1]];
    if due[|due| - 1] != a {
      RemindersComplete(t, init, raises, a);
    }
  }

  // ---------------------------------------------------------------------
  // generate_and_send_monthly_reports
  // ---------------------------------------------------------------------

  /**
   * The previous calendar month, from its first to its last day; None
   * where Python's date arithmetic overflows (January of year 1).
   */
  function PreviousMonth(today: Date): (r: Option<(Date, Date)>)
    requires ValidDate(today)
    ensures r.None? <==> today.year == 1 && today.month == 1
    ensures r.Some? ==>
              var (start, end) := r.value;
              ValidDate(start) && ValidDate(end) && start.day == 1 &&
              start.year == end.year && start.month == end.month &&
              end.day == DaysInMonth(end.year, end.month) && OnOrBefore(start, end) &&
              NextDay(end) == Some(Date(today.year, today.month, 1))
  {
    var first := Date(today.year, today.month, 1);
    match PrevDay(first)
    case None => None
    case Some(last) => Some((Date(last.year, last.month, 1), last))
  }

  /** A valid date lies in the range exactly when it lies in that month, which is before today's month. */
  lemma PreviousMonthCovers(today: Date, d: Date)
    requires ValidDate(today) && ValidDate(d) && PreviousMonth(today).Some?
    ensures var (start, end) := PreviousMonth(today).value;
            (OnOrBefore(start, d) && OnOrBefore(d, end) <==> d.year == start.year && d.month == start.month) &&
            (d.year == start.year && d.month == start.month ==> Before(d, today))
  {
  }

  /**
   * `start <= Appointment.date <= end` compares the stored text with the
   * ISO forms; on ISO-formatted dates this is the date range test.
   */
  predicate InRangeText(s: string, start: Date, end: Date)
    requires ValidDate(start) && ValidDate(end)
  {
    StrLe(FormatIso(start), s) && StrLe(s, FormatIso(end))
  }

  lemma InRangeTextIsDateRange(d: Date, start: Date, end: Date)
    requires ValidDate(d) && ValidDate(start) && ValidDate(end)
    ensures InRangeText(FormatIso(d), start, end) <==> OnOrBefore(start, d) && OnOrBefore(d, end)
  {
    IsoOrderLe(start, d);
    IsoOrderLe(d, end);
  }

  predicate CompletedFor(a: Appointment, doctorId: nat, start: Date, end: Date)
    requires ValidDate(start) && ValidDate(end)
  {
    a.doctorId == doctorId && a.status == Completed && InRangeText(a.date, start, end)
  }

  function CompletedAppointments(appointments: seq<Appointment>, doctorId: nat, start: Date, end: Date)
    : (r: seq<Appointment>)
    requires ValidDate(start) && ValidDate(end)
    ensures |r| <= |appointments|
    ensures forall a :: a in r ==> CompletedFor(a, doctorId, start, end)
    decreases |appointments|
  {
    if appointments == [] then []
    else
      var a := appointments[|appointments| - 1];
      CompletedAppointments(appointments[..|appointments| - 1], doctorId, start, end) +
        (if CompletedFor(a, doctorId, start, end) then [a] else [])
  }

  lemma {:induction false} CompletedAreCompleted(appointments: seq<Appointment>, doctorId: nat, start: Date, end: Date)
    requires ValidDate(start) && ValidDate(end)
    ensures forall a :: a in CompletedAppointments(appointments, doctorId, start, end) <==>
              a in appointments && CompletedFor(a, doctorId, start, end)
    decreases |appointments|
  {
    if appointments != [] {
      var init := appointments[..|appointments| - 1];
      assert appointments == init + [appointments[|appointments| - 1]];
      CompletedAreCompleted(init, doctorId, start, end);
    }
  }

  datatype ReportRow = ReportRow(appointmentId: nat, date: string, time: string, patientName: string,
                                 diagnosis: Option<string>, prescription: Option<string>, notes: Option<string>)

  /** The row of one completed appointment: its first treatment, if any; None without a patient row. */
  function ReportRowOf(t: Tables, a: Appointment): Option<ReportRow> {
    if a.patientId !in t.patients then None
    else
      var p := t.patients[a.patientId];
      match DoctorRoutes.FirstTreatment(t.treatments, a.id)
      case None => Some(ReportRow(a.id, a.date, a.time, PatientLabel(p), Some(""), Some(""), Some("")))
      case Some(i) =>
        var tr := t.treatments[i];
        Some(ReportRow(a.id, a.date, a.time, PatientLabel(p), tr.diagnosis, tr.prescription, tr.notes))
  }

  function ReportRows(t: Tables, completed: seq<Appointment>): seq<ReportRow>
    decreases |completed|
  {
    if completed == [] then []
    else
      var init := completed[..|completed| - 1];
      ReportRows(t, init) +
        (match ReportRowOf(t, completed[|completed| - 1]) case None => [] case Some(r) => [r])
  }

  method BuildReportRows(t: Tables, completed: seq<Appointment>) returns (rows: seq<ReportRow>)
    ensures rows == ReportRows(t, completed)
  {
    rows := [];
    var i := 0;
    while i < |completed|
      invariant 0 <= i <= |completed|
      invariant rows == ReportRows(t, completed[..i])
    {
      assert completed[..i + 1][..i] == completed[..i];
      var row := ReportRowOf(t, completed[i]);
      if row.Some? { rows := rows + [row.value]; }
      i := i + 1;
    }
    assert completed[..i] == completed;
  }

  /** Every row comes from a listed appointment with a patient row, one per such appointment. */
  lemma {:induction false} ReportRowsFrom(t: Tables, completed: seq<Appointment>)
    ensures |ReportRows(t, completed)| <= |completed|
    ensures forall r :: r in ReportRows(t, completed) ==>
              exists a :: a in completed && a.patientId in t.patients && r.appointmentId == a.id
    ensures (forall a :: a in completed ==> a.patientId !in t.patients) <==> ReportRows(t, completed) == []
    decreases |completed|
  {
    if completed != [] {
      var init := completed[..|completed| - 1];
      var a := completed[|completed| - 1];
      assert completed == init + [a];
      ReportRowsFrom(t, init);
      forall r | r in ReportRows(t, completed)
        ensures exists b :: b in completed && b.patientId in t.patients && r.appointmentId == b.id
      {
        if r in ReportRows(t, init) {
          var b :| b in init && b.patientId in t.patients && r.appointmentId == b.id;
          assert b in completed;
        } else {
          assert a in completed;
        }
      }
    }
  }

  datatype Report = Report(doctorId: nat, recipient: string, doctorName: string, start: Date, end: Date,
                           rows: seq<ReportRow>)

  /**
   * One doctor's report: skipped with no completed appointment in the
   * range or no row left; `doctor_user.email` raises for a doctor without a
   * user row.
   */
  function ReportStep(t: Tables, d: Doctor, appointments: seq<Appointment>, start: Date, end: Date): Step<Report>
    requires ValidDate(start) && ValidDate(end)
  {
    var completed := CompletedAppointments(appointments, d.id, start, end);
    if completed == [] then Skip
    else
      var rows := ReportRows(t, completed);
      if rows == [] then Skip
      else if d.id !in t.users then Crash
      else Send(Report(d.id, t.users[d.id].email, DoctorLabel(d), start, end, rows))
  }

  /** The reports handed over successfully, or None when the task raises. */
  function Reports(t: Tables, doctors: seq<Doctor>, appointments: seq<Appointment>, start: Date, end: Date,
                   raises: set<nat>): (r: Option<seq<Report>>)
    requires ValidDate(start) && ValidDate(end)
    ensures r.Some? ==> |r.value| <= |doctors|
    decreases |doctors|
  {
    if doctors == [] then Some([])
    else
      match Reports(t, doctors[..|doctors| - 1], appointments, start, end, raises)
      case None => None
      case Some(sent) =>
        var d := doctors[|doctors| - 1];
        match ReportStep(t, d, appointments, start, end)
        case Skip => Some(sent)
        case Crash => None
        case Send(r) => if d.id in raises then Some(sent) else Some(sent + [r])
  }

  lemma {:induction false} ReportsCrashSticks(t: Tables, doctors: seq<Doctor>, appointments: seq<Appointment>,
                                              start: Date, end: Date, raises: set<nat>, k: nat)
    requires ValidDate(start) && ValidDate(end)
    requires k <= |doctors| && Reports(t, doctors[..k], appointments, start, end, raises).None?
    ensures Reports(t, doctors, appointments, start, end, raises).None?
    decreases |doctors| - k
  {
    if k < |doctors| {
      assert doctors[..k + 1][..k] == doctors[..k];
      ReportsCrashSticks(t, doctors, appointments, start, end, raises, k + 1);
    } else {
      assert doctors[..k] == doctors;
    }
  }

  datatype ReportOutcome = RangeOverflow | NoDoctors | ReportsSent(count: nat) | ReportCrash

  method GenerateMonthlyReports(t: Tables, doctors: seq<Doctor>, appointments: seq<Appointment>, today: Date,
                                raises: set<nat>) returns (outcome: ReportOutcome, sent: seq<Report>)
    requires ValidDate(today)
    ensures outcome == RangeOverflow <==> PreviousMonth(today).None?
    ensures PreviousMonth(today).Some? ==>
              var (start, end) := PreviousMonth(today).value;
              (outcome == NoDoctors <==> doctors == []) &&
              (outcome == ReportCrash <==>
                 doctors != [] && Reports(t, doctors, appointments, start, end, raises).None?) &&
              (outcome.ReportsSent? ==>
                 Some(sent) == Reports(t, doctors, appointments, start, end, raises) && outcome.count == |sent|)
  {
    var range := PreviousMonth(today);
    if range.None? { return RangeOverflow, []; }
    var (start, end) := range.value;
    if doctors == [] { return NoDoctors, []; }
    sent := [];
    var i := 0;
    while i < |doctors|
      invariant 0 <= i <= |doctors|
      invariant Reports(t, doctors[..i], appointments, start, end, raises) == Some(sent)
    {
      var d := doctors[i];
      assert doctors[..i + 1][..i] == doctors[..i];
      var completed := CollectCompleted(appointments, d.id, start, end);
      if completed == [] {
        i := i + 1;
        continue;
      }
      var rows := BuildReportRows(t, completed);
      if rows == [] {
        i := i + 1;
        continue;
      }
      if d.id !in t.users {
        ReportsCrashSticks(t, doctors, appointments, start, end, raises, i + 1);
        return ReportCrash, [];
      }
      if d.id !in raises {
        sent := sent + [Report(d.id, t.users[d.id].email, DoctorLabel(d), start, end, rows)];
      }
      i := i + 1;
    }
    assert doctors[..i] == doctors;
    return ReportsSent(|sent|), sent;
  }

  /** The per-doctor scan of the appointments: the completed ones in the range, in table order. */
  method CollectCompleted(appointments: seq<Appointment>, doctorId: nat, start: Date, end: Date)
    returns (completed: seq<Appointment>)
    requires ValidDate(start) && ValidDate(end)
    ensures completed == CompletedAppointments(appointments, doctorId, start, end)
  {
    completed := [];
    var k := 0;
    while k < |appointments|
      invariant 0 <= k <= |appointments|
      invariant completed == CompletedAppointments(appointments[..k], doctorId, start, end)
    {
      assert appointments[..k + 1][..k] == appointments[..k];
      if CompletedFor(appointments[k], doctorId, start, end) { completed := completed + [appointments[k]]; }
      k := k + 1;
    }
    assert appointments[..k] == appointments;
  }

  /**
   * Every report sent covers the previous month and lists only that
   * doctor's completed appointments in the range that have a patient row,
   * at least one of them.
   */
  lemma {:induction false} ReportsSound(t: Tables, doctors: seq<Doctor>, appointments: seq<Appointment>,
                                        start: Date, end: Date, raises: set<nat>)
    requires ValidDate(start) && ValidDate(end)
    requires Reports(t, doctors, appointments, start, end, raises).Some?
    ensures var sent := Reports(t, doctors, appointments, start, end, raises).value;
            |sent| <= |doctors| &&
            forall r :: r in sent ==>
              r.start == start && r.end == end && r.rows != [] && r.doctorId !in raises &&
              r.doctorId in t.users && r.recipient == t.users[r.doctorId].email &&
              r.rows == ReportRows(t, CompletedAppointments(appointments, r.doctorId, start, end))
    decreases |doctors|
  {
    if doctors != [] {
      var init := doctors[..|doctors| - 1];
      assert doctors == init + [doctors[|doctors| - 1]];
      ReportsSound(t, init, appointments, start, end, raises);
    }
  }

  /** A row of a report names one of the doctor's completed appointments in the range. */
  lemma ReportRowsCompleted(t: Tables, appointments: seq<Appointment>, doctorId: nat, start: Date, end: Date,
                            r: ReportRow)
    requires ValidDate(start) && ValidDate(end)
    requires r in ReportRows(t, CompletedAppointments(appointments, doctorId, start, end))
    ensures exists a :: a in appointments && a.id == r.appointmentId && a.doctorId == doctorId &&
                        a.status == Completed && InRangeText(a.date, start, end) && a.patientId in t.patients
  {
    var completed := CompletedAppointments(appointments, doctorId, start, end);
    ReportRowsFrom(t, completed);
    CompletedAreCompleted(appointments, doctorId, start, end);
    var a :| a in completed && a.patientId in t.patients && r.appointmentId == a.id;
    assert a in appointments && CompletedFor(a, doctorId, start, end);
  }

  /**
   * Every listed doctor with a user row whose send does not raise, and with
   * at least one completed appointment in the range that has a patient row,
   * gets a report listing all such appointments.
   */
  lemma {:induction false} ReportsComplete(t: Tables, doctors: seq<Doctor>, appointments: seq<Appointment>,
                                           start: Date, end: Date, raises: set<nat>, d: Doctor, a: Appointment)
    requires ValidDate(start) && ValidDate(end)
    requires Reports(t, doctors, appointments, start, end, raises).Some?
    requires d in doctors && d.id in t.users && d.id !in raises
    requires a in appointments && CompletedFor(a, d.id, start, end) && a.patientId in t.patients
    ensures Report(d.id, t.users[d.id].email, DoctorLabel(d), start, end,
                   ReportRows(t, CompletedAppointments(appointments, d.id, start, end)))
              in Reports(t, doctors, appointments, start, end, raises).value
    decreases |doctors|
  {
    var init := doctors[..|doctors| - 1];
    assert doctors == init + [doctors[|doctors| - 1]];
    if doctors[|doctors| - 1] != d {
      ReportsComplete(t, init, appointments, start, end, raises, d, a);
    } else {
      var completed := CompletedAppointments(appointments, d.id, start, end);
      CompletedAreCompleted(appointments, d.id, start, end);
      assert a in completed;
      ReportRowsFrom(t, completed);
    }
  }
}
