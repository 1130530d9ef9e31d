/**
 * The development seeder (backend/seed.py): the slot-time pick, the
 * appointment generator with its no-double-booking set, the treatment
 * generator and the wipe of everything but the admin accounts.
 *
 * Every random choice (`random.choice`, `random.randint`,
 * `random.choices`) is an input: a `Draw` holds the indices one turn of
 * the appointment loop picks, and the treatment counts are given per
 * appointment. "Today" is a parameter.
 */
module Seed {
  import opened Common
  import opened Dates
  import opened Models
  import PatientRoutes

  // ---------------------------------------------------------------------
  // random_slot_time
  // ---------------------------------------------------------------------

  /**
   * The half hours from 09:00 until 17:00 (the same loop as the patient
   * slot view), one of them picked by index.
   */
  method RandomSlotTime(pick: nat) returns (time: string)
    requires pick < 16
    ensures time == WorkingHalfHours()[pick]
  {
    var slots := PatientRoutes.DaySlots();
    time := slots[pick];
  }

  /** Whatever the pick, the label is one of the 16 from 09:00 to 16:30. */
  lemma SlotTimeOnGrid(pick: nat)
    requires pick < 16
    ensures WorkingHalfHours()[pick] in WorkingHalfHours()
    ensures StrLe("09:00", WorkingHalfHours()[pick]) && StrLe(WorkingHalfHours()[pick], "16:30")
  {
    WorkingHalfHoursShape();
    var w := WorkingHalfHours();
    if pick > 0 { StrLtIrreflexive(w[0]); }
    if pick < 15 { StrLtIrreflexive(w[15]); }
  }

  // ---------------------------------------------------------------------
  // seed_appointments
  // ---------------------------------------------------------------------

  /** The indices one turn of the loop draws, and the creation time it computes. */
  datatype Draw = Draw(doctor: nat, patient: nat, offset: nat, slot: nat, status: nat, reason: nat,
                       createdAt: nat)

  const Reasons: seq<string> := [
    "Fever and body pain", "Routine health checkup", "Follow-up visit", "Back pain since 2 weeks",
    "Headache and dizziness", "Diabetes follow-up", "Blood pressure check", "Skin rash and itching",
    "Cough and cold"]

  /** A date after today may be BOOKED or CANCELLED; any other date may also be COMPLETED. */
  function StatusChoices(future: bool): (r: seq<string>)
    ensures forall k :: 0 <= k < |r| ==> IsStatus(r[k]) && (future ==> r[k] != Completed)
  {
    if future then [Booked, Cancelled] else [Booked, Completed, Cancelled]
  }

  /** `date(year, 1, 1) + timedelta(days=offset)`. */
  function DrawDate(year: int, offset: nat): (d: Date)
    requires 1 <= year <= MaxYear && offset < DaysInYear(year)
    ensures ValidDate(d) && d.year == year
  {
    AddDaysWithinYear(year, offset);
    AddDays(Date(year, 1, 1), offset).value
  }

  /** Each index lies in the range its random call draws from. */
  predicate ValidDraw(d: Draw, doctors: nat, patients: nat, today: Date)
    requires ValidDate(today)
  {
    d.doctor < doctors && d.patient < patients && d.offset < DaysInYear(today.year) && d.slot < 16 &&
    d.reason < |Reasons| && d.status < |StatusChoices(Before(today, DrawDate(today.year, d.offset)))|
  }

  predicate ValidDraws(draws: seq<Draw>, doctors: nat, patients: nat, today: Date)
    requires ValidDate(today)
  {
    forall i :: 0 <= i < |draws| ==> ValidDraw(draws[i], doctors, patients, today)
  }

  /** `appt_date.strftime("%Y-%m-%d")`. */
  function DrawDateText(today: Date, d: Draw): string
    requires ValidDate(today) && d.offset < DaysInYear(today.year)
  {
    FormatIso(DrawDate(today.year, d.offset))
  }

  function SlotTime(pick: nat): string
    requires pick < 16
  {
    WorkingHalfHours()[pick]
  }

  function DrawStatus(today: Date, d: Draw): string
    requires ValidDate(today) && d.offset < DaysInYear(today.year)
    requires d.status < |StatusChoices(Before(today, DrawDate(today.year, d.offset)))|
  {
    StatusChoices(Before(today, DrawDate(today.year, d.offset)))[d.status]
  }

  /** The appointment one draw describes. */
  function Candidate(d: Draw, doctors: seq<nat>, patients: seq<nat>, today: Date, id: nat): Appointment
    requires ValidDate(today) && ValidDraw(d, |doctors|, |patients|, today)
  {
    Appointment(id, patients[d.patient], doctors[d.doctor], DrawDateText(today, d), SlotTime(d.slot),
                DrawStatus(today, d), Some(Reasons[d.reason]), Some(d.createdAt))
  }

  /** The `(doctor.id, date_str, time_str)` key of a draw. */
  function TextKey(d: Draw, doctors: seq<nat>, today: Date): SlotKey
    requires ValidDate(today) && d.doctor < |doctors| && d.offset < DaysInYear(today.year) && d.slot < 16
  {
    SlotKey(doctors[d.doctor], DrawDateText(today, d), SlotTime(d.slot))
  }

  /** The loop's state: the appointments so far and `used_slots`. */
  datatype SeedState = SeedState(appts: seq<Appointment>, used: set<SlotKey>)

  /** One turn: a used key is skipped, any other adds its appointment and marks the key. */
  function Step(st: SeedState, d: Draw, doctors: seq<nat>, patients: seq<nat>, today: Date, firstId: nat): SeedState
    requires ValidDate(today) && ValidDraw(d, |doctors|, |patients|, today)
  {
    var key := TextKey(d, doctors, today);
    if key in st.used then st
    else SeedState(st.appts + [Candidate(d, doctors, patients, today, firstId + |st.appts|)], st.used + {key})
  }

  /** The state after the first `k` draws, taken in order. */
  function Run(draws: seq<Draw>, k: nat, doctors: seq<nat>, patients: seq<nat>, today: Date, firstId: nat)
    : (r: SeedState)
    requires ValidDate(today) && ValidDraws(draws, |doctors|, |patients|, today) && k <= |draws|
    ensures |r.appts| == |r.used| && |r.appts| <= k
  {
    if k == 0 then SeedState([], {})
    else Step(Run(draws, k - 1, doctors, patients, today, firstId), draws[k - 1], doctors, patients, today, firstId)
  }

  /** The appointments the first `k` draws produce. */
  function Seeded(draws: seq<Draw>, k: nat, doctors: seq<nat>, patients: seq<nat>, today: Date, firstId: nat)
    : seq<Appointment>
    requires ValidDate(today) && ValidDraws(draws, |doctors|, |patients|, today) && k <= |draws|
  {
    Run(draws, k, doctors, patients, today, firstId).appts
  }

  /**
   * The `while len(appts) < min_count` loop over the given draws. It stops
   * with `min_count` appointments, or earlier only when the draws run out.
   */
  method SeedAppointments(doctors: seq<nat>, patients: seq<nat>, minCount: nat, today: Date,
                          draws: seq<Draw>, firstId: nat) returns (appts: seq<Appointment>, consumed: nat)
    requires ValidDate(today) && ValidDraws(draws, |doctors|, |patients|, today)
    ensures consumed <= |draws|
    ensures appts == Seeded(draws, consumed, doctors, patients, today, firstId)
    ensures |appts| <= minCount
    ensures |appts| < minCount ==> consumed == |draws|
  {
    appts := [];
    var used: set<SlotKey> := {};
    consumed := 0;
    while |appts| < minCount && consumed < |draws|
      invariant consumed <= |draws| && |appts| <= minCount
      invariant SeedState(appts, used) == Run(draws, consumed, doctors, patients, today, firstId)
      decreases |draws| - consumed
    {
      appts, used := SeedTurn(draws, consumed, doctors, patients, today, firstId, appts, used);
      consumed := consumed + 1;
    }
  }

  /** One turn of the loop: draw `k` adds its appointment and marks its key unless the key is used. */
  method SeedTurn(draws: seq<Draw>, k: nat, doctors: seq<nat>, patients: seq<nat>, today: Date, firstId: nat,
                  appts: seq<Appointment>, used: set<SlotKey>) returns (appts': seq<Appointment>, used': set<SlotKey>)
    requires ValidDate(today) && ValidDraws(draws, |doctors|, |patients|, today) && k < |draws|
    requires SeedState(appts, used) == Run(draws, k, doctors, patients, today, firstId)
    ensures SeedState(appts', used') == Run(draws, k + 1, doctors, patients, today, firstId)
    ensures appts' == appts || |appts'| == |appts| + 1
  {
    var d := draws[k];
    assert ValidDraw(d, |doctors|, |patients|, today);
    var key, a := SeedStep(d, doctors, patients, today, firstId + |appts|);
    RunNext(draws, k, doctors, patients, today, firstId, appts, used, key, a);
    if key in used {
      appts', used' := appts, used;
    } else {
      appts', used' := appts + [a], used + {key};
    }
  }

  /** One more draw: the state after `k + 1` draws, named by the key and appointment of draw `k`. */
  lemma RunNext(draws: seq<Draw>, k: nat, doctors: seq<nat>, patients: seq<nat>, today: Date, firstId: nat,
                appts: seq<Appointment>, used: set<SlotKey>, key: SlotKey, a: Appointment)
    requires ValidDate(today) && ValidDraws(draws, |doctors|, |patients|, today) && k < |draws|
    requires SeedState(appts, used) == Run(draws, k, doctors, patients, today, firstId)
    requires key == TextKey(draws[k], doctors, today)
    requires a == Candidate(draws[k], doctors, patients, today, firstId + |appts|)
    ensures Run(draws, k + 1, doctors, patients, today, firstId) ==
            if key in used then SeedState(appts, used) else SeedState(appts + [a], used + {key})
  {
    var st := Run(draws, k, doctors, patients, today, firstId);
    assert ValidDraw(draws[k], |doctors|, |patients|, today);
    StepIs(st, draws[k], doctors, patients, today, firstId, key, a);
    assert Run(draws, k + 1, doctors, patients, today, firstId) == Step(st, draws[k], doctors, patients, today, firstId);
  }

  lemma StepIs(st: SeedState, d: Draw, doctors: seq<nat>, patients: seq<nat>, today: Date, firstId: nat,
               key: SlotKey, a: Appointment)
    requires ValidDate(today) && ValidDraw(d, |doctors|, |patients|, today)
    requires key == TextKey(d, doctors, today) && a == Candidate(d, doctors, patients, today, firstId + |st.appts|)
    ensures Step(st, d, doctors, patients, today, firstId) ==
            if key in st.used then st else SeedState(st.appts + [a], st.used + {key})
  {
  }

  /** The body of one turn, computed as the source does. */
  method SeedStep(d: Draw, doctors: seq<nat>, patients: seq<nat>, today: Date, id: nat)
    returns (key: SlotKey, a: Appointment)
    requires ValidDate(today) && ValidDraw(d, |doctors|, |patients|, today)
    ensures key == TextKey(d, doctors, today) && a == Candidate(d, doctors, patients, today, id)
  {
    var date := DrawDate(today.year, d.offset);
    var dateText := FormatIso(date);
    var time := RandomSlotTime(d.slot);
    key := SlotKey(doctors[d.doctor], dateText, time);
    var status := StatusChoices(Before(today, date))[d.status];
    a := Appointment(id, patients[d.patient], doctors[d.doctor], dateText, time, status,
                     Some(Reasons[d.reason]), Some(d.createdAt));
  }

  lemma CandidateKey(d: Draw, doctors: seq<nat>, patients: seq<nat>, today: Date, id: nat)
    requires ValidDate(today) && ValidDraw(d, |doctors|, |patients|, today)
    ensures SlotOf(Candidate(d, doctors, patients, today, id)) == TextKey(d, doctors, today)
    ensures Candidate(d, doctors, patients, today, id).id == id
  {
  }

  /**
   * No two appointments share (doctor, date, time), `used_slots` holds
   * exactly their keys, and ids are consecutive from `firstId`.
   */
  ghost predicate DistinctSlots(st: SeedState, firstId: nat) {
    (forall i, j :: 0 <= i < j < |st.appts| ==> SlotOf(st.appts[i]) != SlotOf(st.appts[j])) &&
    (forall i :: 0 <= i < |st.appts| ==> st.appts[i].id == firstId + i) &&
    (forall q :: q in st.used <==> exists i :: 0 <= i < |st.appts| && SlotOf(st.appts[i]) == q)
  }

  /** Every turn of the loop keeps the seeded appointments free of double bookings. */
  lemma StepKeepsDistinct(st: SeedState, d: Draw, doctors: seq<nat>, patients: seq<nat>, today: Date, firstId: nat)
    requires ValidDate(today) && ValidDraw(d, |doctors|, |patients|, today)
    requires DistinctSlots(st, firstId)
    ensures DistinctSlots(Step(st, d, doctors, patients, today, firstId), firstId)
  {
    var key := TextKey(d, doctors, today);
    var n := |st.appts|;
    var c := Candidate(d, doctors, patients, today, firstId + n);
    CandidateKey(d, doctors, patients, today, firstId + n);
    if key !in st.used {
      var st2 := Step(st, d, doctors, patients, today, firstId);
      assert st2.appts == st.appts + [c] && st2.used == st.used + {key};
      forall i, j | 0 <= i < j < |st2.appts| ensures SlotOf(st2.appts[i]) != SlotOf(st2.appts[j]) {
        assert st2.appts[i] == st.appts[i];
        if j == n {
          assert SlotOf(st.appts[i]) in st.used;
        } else {
          assert st2.appts[j] == st.appts[j];
        }
      }
      forall q ensures q in st2.used <==> exists i :: 0 <= i < |st2.appts| && SlotOf(st2.appts[i]) == q {
        if q in st.used {
          var i :| 0 <= i < n && SlotOf(st.appts[i]) == q;
          assert st2.appts[i] == st.appts[i];
        } else if q == key {
          assert st2.appts[n] == c;
        }
        if exists i :: 0 <= i < |st2.appts| && SlotOf(st2.appts[i]) == q {
          var i :| 0 <= i < |st2.appts| && SlotOf(st2.appts[i]) == q;
          if i < n { assert st2.appts[i] == st.appts[i]; }
        }
      }
    }
  }

  /** `seed_appointments` never produces two appointments with the same (doctor, date, time). */
  lemma {:induction false} SeededSlotsDistinct(draws: seq<Draw>, k: nat, doctors: seq<nat>, patients: seq<nat>,
                                               today: Date, firstId: nat)
    requires ValidDate(today) && ValidDraws(draws, |doctors|, |patients|, today) && k <= |draws|
    ensures DistinctSlots(Run(draws, k, doctors, patients, today, firstId), firstId)
  {
    if k > 0 {
      SeededSlotsDistinct(draws, k - 1, doctors, patients, today, firstId);
      StepKeepsDistinct(Run(draws, k - 1, doctors, patients, today, firstId), draws[k - 1], doctors, patients,
                        today, firstId);
    }
  }

  /** What every seeded appointment satisfies. */
  predicate SeedRowShape(a: Appointment, doctors: seq<nat>, patients: seq<nat>, today: Date)
    requires ValidDate(today)
  {
    a.doctorId in doctors && a.patientId in patients &&
    ParseIso(a.date).Some? && ParseIso(a.date).value.year == today.year &&
    a.time in WorkingHalfHours() && IsStatus(a.status) &&
    (Before(today, ParseIso(a.date).value) ==> a.status != Completed)
  }

  lemma CandidateShape(d: Draw, doctors: seq<nat>, patients: seq<nat>, today: Date, id: nat)
    requires ValidDate(today) && ValidDraw(d, |doctors|, |patients|, today)
    ensures SeedRowShape(Candidate(d, doctors, patients, today, id), doctors, patients, today)
  {
    ParseFormatIso(DrawDate(today.year, d.offset));
  }

  lemma ShapeOfOneMore(prev: seq<Appointment>, c: Appointment, now: seq<Appointment>,
                       doctors: seq<nat>, patients: seq<nat>, today: Date)
    requires ValidDate(today)
    requires forall a :: a in prev ==> SeedRowShape(a, doctors, patients, today)
    requires SeedRowShape(c, doctors, patients, today)
    requires now == prev || now == prev + [c]
    ensures forall a :: a in now ==> SeedRowShape(a, doctors, patients, today)
  {
    forall a | a in now ensures SeedRowShape(a, doctors, patients, today) {
      if a !in prev { assert a == c; }
    }
  }

  /**
   * Every seeded appointment is for a listed doctor and patient, on a date
   * of the current year written as YYYY-MM-DD, at a grid time, with a
   * valid status, and never COMPLETED when dated after today.
   */
  lemma {:induction false} SeededRows(draws: seq<Draw>, k: nat, doctors: seq<nat>, patients: seq<nat>, today: Date,
                                      firstId: nat)
    requires ValidDate(today) && ValidDraws(draws, |doctors|, |patients|, today) && k <= |draws|
    ensures forall a :: a in Seeded(draws, k, doctors, patients, today, firstId) ==>
              SeedRowShape(a, doctors, patients, today)
  {
    if k > 0 {
      SeededRows(draws, k - 1, doctors, patients, today, firstId);
      var prev := Run(draws, k - 1, doctors, patients, today, firstId);
      var d := draws[k - 1];
      assert ValidDraw(d, |doctors|, |patients|, today);
      var c := Candidate(d, doctors, patients, today, firstId + |prev.appts|);
      CandidateShape(d, doctors, patients, today, firstId + |prev.appts|);
      StepIs(prev, d, doctors, patients, today, firstId, TextKey(d, doctors, today), c);
      var now := Run(draws, k, doctors, patients, today, firstId);
      assert now == Step(prev, d, doctors, patients, today, firstId);
      ShapeOfOneMore(prev.appts, c, now.appts, doctors, patients, today);
    } else {
      assert Run(draws, 0, doctors, patients, today, firstId).appts == [];
    }
  }

  // ---------------------------------------------------------------------
  // seed_treatments
  // ---------------------------------------------------------------------

  /** The appointment id of every treatment created: `counts[i]` for each COMPLETED appointment, in order. */
  function Treated(appts: seq<Appointment>, counts: seq<nat>): (r: seq<nat>)
    requires |counts| == |appts|
    ensures (forall i :: 0 <= i < |appts| ==> appts[i].status != Completed) ==> r == []
    decreases |appts|
  {
    if appts == [] then []
    else
      var n := |appts| - 1;
      Treated(appts[..n], counts[..n]) + (if appts[n].status == Completed then seq(counts[n], _ => appts[n].id) else [])
  }

  /** The nested loops: `random.randint(1, 2)` treatments per COMPLETED appointment. */
  method SeedTreatments(appts: seq<Appointment>, counts: seq<nat>) returns (treated: seq<nat>, count: nat)
    requires |counts| == |appts| && forall i :: 0 <= i < |counts| ==> 1 <= counts[i] <= 2
    ensures treated == Treated(appts, counts) && count == |treated|
  {
    treated, count := [], 0;
    var i := 0;
    while i < |appts|
      invariant 0 <= i <= |appts|
      invariant treated == Treated(appts[..i], counts[..i]) && count == |treated|
    {
      assert appts[..i + 1][..i] == appts[..i] && counts[..i + 1][..i] == counts[..i];
      if appts[i].status != Completed {
        i := i + 1;
        continue;
      }
      var before := treated;
      var k := 0;
      while k < counts[i]
        invariant 0 <= k <= counts[i]
        invariant treated == before + seq(k, _ => appts[i].id) && count == |treated|
      {
        assert seq(k + 1, _ => appts[i].id) == seq(k, _ => appts[i].id) + [appts[i].id];
        treated := treated + [appts[i].id];
        count := count + 1;
        k := k + 1;
      }
      i := i + 1;
    }
    assert appts[..i] == appts && counts[..i] == counts;
  }

  lemma {:induction false} RepeatCount(x: nat, y: nat, n: nat)
    ensures multiset(seq(n, _ => y))[x] == if x == y then n else 0
    decreases n
  {
    if n > 0 {
      assert seq(n, _ => y) == seq(n - 1, _ => y) + [y];
      RepeatCount(x, y, n - 1);
    }
  }

  /**
   * With distinct appointment ids, each COMPLETED appointment gets exactly
   * its drawn number of treatments and every other appointment none.
   */
  lemma {:induction false} TreatedCounts(appts: seq<Appointment>, counts: seq<nat>)
    requires |counts| == |appts|
    requires forall i, j :: 0 <= i < j < |appts| ==> appts[i].id != appts[j].id
    ensures forall i :: 0 <= i < |appts| ==>
              multiset(Treated(appts, counts))[appts[i].id] == if appts[i].status == Completed then counts[i] else 0
    decreases |appts|
  {
    if appts != [] {
      var n := |appts| - 1;
      var last := appts[n];
      TreatedCounts(appts[..n], counts[..n]);
      TreatedOnlyCompleted(appts[..n], counts[..n]);
      forall i | 0 <= i < |appts|
        ensures multiset(Treated(appts, counts))[appts[i].id] == if appts[i].status == Completed then counts[i] else 0
      {
        var x := appts[i].id;
        var before := multiset(Treated(appts[..n], counts[..n]))[x];
        TreatedCountStep(appts, counts, x);
        if i < n {
          assert appts[..n][i] == appts[i] && counts[..n][i] == counts[i];
          assert x != last.id;
          assert before == if appts[i].status == Completed then counts[i] else 0;
        } else {
          assert forall j :: 0 <= j < n ==> appts[..n][j].id != last.id;
          assert last.id !in Treated(appts[..n], counts[..n]);
          assert before == 0;
        }
      }
    }
  }

  /** The last appointment adds its own id `counts[n]` times when COMPLETED, and nothing else. */
  lemma TreatedCountStep(appts: seq<Appointment>, counts: seq<nat>, x: nat)
    requires |counts| == |appts| && appts != []
    ensures var n := |appts| - 1;
            multiset(Treated(appts, counts))[x] ==
              multiset(Treated(appts[..n], counts[..n]))[x] +
              (if appts[n].status == Completed && x == appts[n].id then counts[n] else 0)
  {
    var n := |appts| - 1;
    RepeatCount(x, appts[n].id, counts[n]);
  }

  /** Every treatment belongs to a COMPLETED appointment. */
  lemma {:induction false} TreatedOnlyCompleted(appts: seq<Appointment>, counts: seq<nat>)
    requires |counts| == |appts|
    ensures forall x :: x in Treated(appts, counts) ==>
              exists i :: 0 <= i < |appts| && appts[i].id == x && appts[i].status == Completed
    decreases |appts|
  {
    if appts != [] {
      var n := |appts| - 1;
      var last := appts[n];
      TreatedOnlyCompleted(appts[..n], counts[..n]);
      var tail := if last.status == Completed then seq(counts[n], _ => last.id) else [];
      assert Treated(appts, counts) == Treated(appts[..n], counts[..n]) + tail;
      forall x | x in Treated(appts, counts)
        ensures exists i :: 0 <= i < |appts| && appts[i].id == x && appts[i].status == Completed
      {
        if x in Treated(appts[..n], counts[..n]) {
          var i :| 0 <= i < n && appts[..n][i].id == x && appts[..n][i].status == Completed;
          assert appts[i] == appts[..n][i];
        } else {
          assert x in tail;
        }
      }
    }
  }

  // ---------------------------------------------------------------------
  // wipe_non_admin_data
  // ---------------------------------------------------------------------

  /** Only the admin users survive; every other table is emptied except the availability rows. */
  function Wiped(t: Tables): (r: Tables)
    ensures r.users.Keys <= t.users.Keys
    ensures r.patients == map[] && r.doctors == map[] && r.appointments == map[] && r.treatments == []
    ensures r.availability == t.availability
  {
    t.(users := map id | id in t.users && t.users[id].role == "admin" :: t.users[id],
       patients := map[], doctors := map[], appointments := map[], treatments := [])
  }

  lemma WipedValid(t: Tables)
    requires ValidTables(t)
    ensures ValidTables(Wiped(t))
  {
  }

  method WipeNonAdminData(db: Db)
    requires db.Valid()
    modifies db
    ensures db.Valid() && db.Snapshot() == Wiped(old(db.Snapshot()))
  {
    var t := db.Snapshot();
    WipedValid(t);
    db.Commit(Wiped(t));
  }

  /**
   * The admins survive unchanged and nobody else does; the availability
   * overrides are not deleted; wiping twice is wiping once.
   */
  lemma WipeKeepsAdminsOnly(t: Tables)
    ensures forall id :: id in Wiped(t).users <==> id in t.users && t.users[id].role == "admin"
    ensures forall id :: id in Wiped(t).users ==> Wiped(t).users[id] == t.users[id]
    ensures forall id :: id in Wiped(t).users ==> Wiped(t).users[id].role == "admin"
    ensures Wiped(t).availability == t.availability
    ensures Wiped(Wiped(t)) == Wiped(t)
  {
  }
}
