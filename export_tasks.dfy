/**
 * The visit-history CSV export and the retention of export files
 * (backend/tasks/export_tasks.py).
 *
 * The export directory is a map from file name to modification time in
 * whole seconds. What `os.listdir` returns, the clock, and which removals
 * raise `OSError` are inputs.
 */
module ExportTasks {
  import opened Common
  import opened Dates
  import opened Models
  import PatientRoutes

  const SecondsPerDay: nat := 86400

  /** The export directory: whether it exists, and its files with their mtimes. */
  class ExportDir {
    var present: bool
    var files: map<string, int>

    constructor(present: bool, files: map<string, int>)
      ensures this.present == present && this.files == files
    {
      this.present := present;
      this.files := files;
    }
  }

  // ---------------------------------------------------------------------
  // Removing a list of names, ignoring the removals that raise
  // ---------------------------------------------------------------------

  /**
   * The directory and the success count after trying `os.remove` on each
   * name in turn: a name already gone or listed in `undeletable` raises,
   * which is ignored.
   */
  function Purge(files: map<string, int>, names: seq<string>, undeletable: set<string>): (r: (map<string, int>, nat))
    ensures r.0.Keys <= files.Keys
    ensures r.1 <= |names|
    decreases |names|
  {
    if names == [] then (files, 0)
    else
      var (f, c) := Purge(files, names[..|names| - 1], undeletable);
      var n := names[|names| - 1];
      if n in f && n !in undeletable then (f - {n}, c + 1) else (f, c)
  }

  lemma PurgeSnoc(files: map<string, int>, names: seq<string>, n: string, undeletable: set<string>)
    ensures Purge(files, names + [n], undeletable) ==
              var (f, c) := Purge(files, names, undeletable);
              if n in f && n !in undeletable then (f - {n}, c + 1) else (f, c)
  {
    assert (names + [n])[..|names|] == names;
  }

  /**
   * Exactly the listed files whose removal does not raise are gone, the
   * others keep their mtimes.
   */
  lemma {:induction false} PurgeKeys(files: map<string, int>, names: seq<string>, undeletable: set<string>)
    ensures var after := Purge(files, names, undeletable).0;
            (forall k :: k in after <==> k in files && !(k in names && k !in undeletable)) &&
            (forall k :: k in after ==> after[k] == files[k])
    decreases |names|
  {
    if names != [] {
      var init := names[..|names| - 1];
      assert names == init + [names[|names| - 1]];
      PurgeKeys(files, init, undeletable);
    }
  }

  /** The count is the number of files that went. */
  lemma {:induction false} PurgeCount(files: map<string, int>, names: seq<string>, undeletable: set<string>)
    ensures Purge(files, names, undeletable).1 == |files.Keys - Purge(files, names, undeletable).0.Keys|
    decreases |names|
  {
    if names != [] {
      var init := names[..|names| - 1];
      var n := names[|names| - 1];
      assert names == init + [n];
      PurgeCount(files, init, undeletable);
      PurgeKeys(files, init, undeletable);
      var f := Purge(files, init, undeletable).0;
      if n in f && n !in undeletable {
        assert files.Keys - (f - {n}).Keys == (files.Keys - f.Keys) + {n};
      }
    }
  }

  /** A second pass over the same names removes nothing more. */
  lemma PurgeAgain(files: map<string, int>, names: seq<string>, undeletable: set<string>)
    ensures var after := Purge(files, names, undeletable).0;
            Purge(after, names, undeletable) == (after, 0)
  {
    var after := Purge(files, names, undeletable).0;
    PurgeKeys(files, names, undeletable);
    PurgeKeys(after, names, undeletable);
    PurgeCount(after, names, undeletable);
    var again := Purge(after, names, undeletable).0;
    assert again == after;
    assert after.Keys - again.Keys == {};
  }

  // ---------------------------------------------------------------------
  // _cleanup_old_exports
  // ---------------------------------------------------------------------

  /** `fname.lower().endswith(".csv")`. */
  predicate IsCsvName(n: string) {
    EndsWith(Lower(n), ".csv")
  }

  /** The listed CSV files that exist and were modified strictly before the cutoff, in listing order. */
  function Stale(listing: seq<string>, files: map<string, int>, cutoff: int): (r: seq<string>)
    ensures |r| <= |listing|
    decreases |listing|
  {
    if listing == [] then []
    else
      var n := listing[|listing| - 1];
      assert listing == listing[..|listing| - 1] + [n];
      Stale(listing[..|listing| - 1], files, cutoff) +
        (if IsCsvName(n) && n in files && files[n] < cutoff then [n] else [])
  }

  lemma {:induction false} StaleMembers(listing: seq<string>, files: map<string, int>, cutoff: int)
    ensures forall n :: n in Stale(listing, files, cutoff) <==>
              n in listing && IsCsvName(n) && n in files && files[n] < cutoff
    decreases |listing|
  {
    if listing != [] {
      var init := listing[..|listing| - 1];
      assert listing == init + [listing[|listing| - 1]];
      StaleMembers(init, files, cutoff);
    }
  }

  lemma StaleSnoc(listing: seq<string>, n: string, files: map<string, int>, cutoff: int)
    ensures Stale(listing + [n], files, cutoff) ==
              Stale(listing, files, cutoff) + (if IsCsvName(n) && n in files && files[n] < cutoff then [n] else [])
  {
    assert (listing + [n])[..|listing|] == listing;
  }

  /** One turn of the cleanup loop, in terms of the directory as it is at that point. */
  lemma CleanupStep(start: map<string, int>, listing: seq<string>, i: nat, cutoff: int, undeletable: set<string>)
    requires i < |listing|
    ensures var p := Purge(start, Stale(listing[..i], start, cutoff), undeletable);
            var n := listing[i];
            Purge(start, Stale(listing[..i + 1], start, cutoff), undeletable) ==
              if IsCsvName(n) && n in p.0 && p.0[n] < cutoff && n !in undeletable then (p.0 - {n}, p.1 + 1) else p
  {
    var n := listing[i];
    var done := Stale(listing[..i], start, cutoff);
    var p := Purge(start, done, undeletable);
    assert listing[..i + 1] == listing[..i] + [n];
    StaleSnoc(listing[..i], n, start, cutoff);
    PurgeKeys(start, done, undeletable);
    assert n in p.0 ==> n in start && p.0[n] == start[n];
    if IsCsvName(n) && n in start && start[n] < cutoff {
      assert Stale(listing[..i + 1], start, cutoff) == done + [n];
      PurgeSnoc(start, done, n, undeletable);
    } else {
      assert Stale(listing[..i + 1], start, cutoff) == done;
    }
  }

  function Cutoff(now: int, retentionDays: nat): int {
    now - retentionDays * SecondsPerDay
  }

  /**
   * Delete the CSV files older than the retention period. `now` is the
   * clock, `listing` what `os.listdir` returns; the result is how many
   * removals succeeded.
   */
  method CleanupOldExports(dir: ExportDir, listing: seq<string>, now: int, retentionDays: nat,
                           undeletable: set<string>) returns (deleted: nat)
    modifies dir
    ensures dir.present == old(dir.present)
    ensures !old(dir.present) ==> deleted == 0 && dir.files == old(dir.files)
    ensures old(dir.present) ==>
              (dir.files, deleted) ==
                Purge(old(dir.files), Stale(listing, old(dir.files), Cutoff(now, retentionDays)), undeletable)
  {
    if !dir.present { return 0; }
    var cutoff := Cutoff(now, retentionDays);
    ghost var start := dir.files;
    deleted := 0;
    var i := 0;
    while i < |listing|
      invariant 0 <= i <= |listing|
      invariant dir.present
      invariant (dir.files, deleted) == Purge(start, Stale(listing[..i], start, cutoff), undeletable)
    {
      var name := listing[i];
      CleanupStep(start, listing, i, cutoff, undeletable);
      if IsCsvName(name) && name in dir.files {
        if dir.files[name] < cutoff && name !in undeletable {
          dir.files := dir.files - {name};
          deleted := deleted + 1;
        }
      }
      i := i + 1;
    }
    assert listing[..i] == listing;
  }

  /**
   * Over a complete listing, a file is deleted exactly when it is a CSV
   * file older than the cutoff and its removal succeeds; the others keep
   * their mtimes.
   */
  lemma CleanupSelection(files: map<string, int>, listing: seq<string>, cutoff: int, undeletable: set<string>)
    requires forall n :: n in files ==> n in listing
    ensures var after := Purge(files, Stale(listing, files, cutoff), undeletable).0;
            (forall n :: n in after ==> n in files && after[n] == files[n]) &&
            (forall n :: n in files ==>
               (n !in after <==> IsCsvName(n) && files[n] < cutoff && n !in undeletable))
  {
    PurgeKeys(files, Stale(listing, files, cutoff), undeletable);
    StaleMembers(listing, files, cutoff);
  }

  // ---------------------------------------------------------------------
  // _cleanup_old_exports_for_patient
  // ---------------------------------------------------------------------

  function PatientPrefix(patientId: nat): string {
    "visit_history_patient_" + NatToString(patientId) + "_"
  }

  predicate IsPatientExport(n: string, patientId: nat) {
    StartsWith(n, PatientPrefix(patientId)) && EndsWith(n, ".csv")
  }

  /** The list comprehension over the listing. */
  function PatientExports(listing: seq<string>, patientId: nat): seq<string>
    decreases |listing|
  {
    if listing == [] then []
    else
      var n := listing[|listing| - 1];
      var init := listing[..|listing| - 1];
      assert listing == init + [n];
      PatientExports(init, patientId) + (if IsPatientExport(n, patientId) then [n] else [])
  }

  lemma {:induction false} PatientExportsMembers(listing: seq<string>, patientId: nat)
    ensures forall n :: n in PatientExports(listing, patientId) <==> n in listing && IsPatientExport(n, patientId)
    ensures Distinct(listing) ==> Distinct(PatientExports(listing, patientId))
    decreases |listing|
  {
    if listing != [] {
      var init := listing[..|listing| - 1];
      var n := listing[|listing| - 1];
      assert listing == init + [n];
      PatientExportsMembers(init, patientId);
      if Distinct(listing) {
        assert Distinct(init) by {
          forall i, j | 0 <= i < j < |init| ensures init[i] != init[j] { assert init[i] == listing[i] && init[j] == listing[j]; }
        }
        assert n !in init by {
          forall k | 0 <= k < |init| ensures init[k] != n { assert init[k] == listing[k]; }
        }
      }
    }
  }

  /** Every export of the patient but the greatest name, or none when there is at most one. */
  function Superseded(listing: seq<string>, patientId: nat): (r: seq<string>)
    ensures |r| == if |PatientExports(listing, patientId)| <= 1 then 0 else |PatientExports(listing, patientId)| - 1
  {
    var files := SortStrings(PatientExports(listing, patientId));
    if |files| <= 1 then [] else files[..|files| - 1]
  }

  /** Keep only the newest export of this patient. */
  method CleanupOldExportsForPatient(dir: ExportDir, listing: seq<string>, patientId: nat,
                                     undeletable: set<string>) returns (deleted: nat)
    modifies dir
    ensures dir.present == old(dir.present)
    ensures !old(dir.present) ==> deleted == 0 && dir.files == old(dir.files)
    ensures old(dir.present) ==>
              (dir.files, deleted) == Purge(old(dir.files), Superseded(listing, patientId), undeletable)
  {
    if !dir.present { return 0; }
    var files := PatientExports(listing, patientId);
    if |files| <= 1 { return 0; }
    var sorted := SortStrings(files);
    var toDelete := sorted[..|sorted| - 1];
    ghost var start := dir.files;
    deleted := 0;
    var i := 0;
    while i < |toDelete|
      invariant 0 <= i <= |toDelete|
      invariant dir.present
      invariant (dir.files, deleted) == Purge(start, toDelete[..i], undeletable)
    {
      var name := toDelete[i];
      assert toDelete[..i + 1] == toDelete[..i] + [name];
      PurgeSnoc(start, toDelete[..i], name, undeletable);
      if name in dir.files && name !in undeletable {
        dir.files := dir.files - {name};
        deleted := deleted + 1;
      }
      i := i + 1;
    }
    assert toDelete[..i] == toDelete;
  }

  /** A sequence without repeats holds each value at most once. */
  lemma {:induction false} DistinctCount<T>(s: seq<T>, x: T)
    requires Distinct(s)
    ensures multiset(s)[x] <= 1
    decreases |s|
  {
    if s != [] {
      assert s == [s[0]] + s[1..];
      assert Distinct(s[1..]) by {
        forall i, j | 0 <= i < j < |s[1..]| ensures s[1..][i] != s[1..][j] {
          assert s[1..][i] == s[i + 1] && s[1..][j] == s[j + 1];
        }
      }
      DistinctCount(s[1..], x);
      if s[0] == x {
        assert x !in s[1..] by {
          forall k | 0 <= k < |s[1..]| ensures s[1..][k] != x { assert s[1..][k] == s[k + 1]; }
        }
      }
    }
  }

  lemma SortedDistinct(s: seq<string>)
    requires Distinct(s)
    ensures Distinct(SortStrings(s))
  {
    var r := SortStrings(s);
    forall i, j | 0 <= i < j < |r| ensures r[i] != r[j] {
      if r[i] == r[j] {
        CountTwice(r, i, j);
        DistinctCount(s, r[i]);
      }
    }
  }

  /** Sorting keeps the same names. */
  lemma SortedMembers(s: seq<string>)
    ensures |SortStrings(s)| == |s|
    ensures forall n :: n in SortStrings(s) <==> n in s
  {
    var r := SortStrings(s);
    assert |multiset(r)| == |multiset(s)|;
    forall n ensures n in r <==> n in s {
      assert n in r <==> n in multiset(r);
      assert n in s <==> n in multiset(s);
    }
  }

  /** Only the patient's own exports are ever candidates for removal. */
  lemma SupersededMembers(listing: seq<string>, patientId: nat)
    ensures forall n :: n in Superseded(listing, patientId) ==> n in listing && IsPatientExport(n, patientId)
  {
    var sorted := SortStrings(PatientExports(listing, patientId));
    SortedMembers(PatientExports(listing, patientId));
    PatientExportsMembers(listing, patientId);
    if |sorted| > 1 {
      forall n | n in sorted[..|sorted| - 1] ensures n in sorted {
        var k :| 0 <= k < |sorted| - 1 && sorted[..|sorted| - 1][k] == n;
        assert sorted[k] == n;
      }
    }
  }

  /**
   * With a listing that names each file once, every export of the patient
   * is removed but the one with the greatest name, which is kept and is
   * greater than all the others.
   */
  lemma PatientCleanupKeepsGreatest(listing: seq<string>, patientId: nat)
    requires Distinct(listing) && PatientExports(listing, patientId) != []
    ensures var exports := PatientExports(listing, patientId);
            var newest := SortStrings(exports)[|exports| - 1];
            newest in exports && newest !in Superseded(listing, patientId) &&
            (forall n :: n in exports && n != newest ==> n in Superseded(listing, patientId) && StrLt(n, newest))
  {
    var exports := PatientExports(listing, patientId);
    PatientExportsMembers(listing, patientId);
    SortedMembers(exports);
    var sorted := SortStrings(exports);
    SortedDistinct(exports);
    var last := |sorted| - 1;
    var newest := sorted[last];
    if last > 0 {
      assert newest !in sorted[..last] by {
        forall k | 0 <= k < last ensures sorted[..last][k] != newest { assert sorted[..last][k] == sorted[k]; }
      }
    }
    forall n | n in exports && n != newest
      ensures n in Superseded(listing, patientId) && StrLt(n, newest)
    {
      var k :| 0 <= k < |sorted| && sorted[k] == n;
      assert sorted[..last][k] == n;
      assert StrLe(sorted[k], sorted[last]);
    }
  }

  /** A name never starts with two different patients' prefixes (patient 3 against patient 35). */
  lemma PrefixesDisjoint(n: string, a: nat, b: nat)
    requires StartsWith(n, PatientPrefix(a)) && StartsWith(n, PatientPrefix(b))
    ensures a == b
  {
    var base := "visit_history_patient_";
    var da, db := NatToString(a), NatToString(b);
    assert forall k :: 0 <= k < |da| ==> n[|base| + k] == da[k] by {
      forall k | 0 <= k < |da| ensures n[|base| + k] == da[k] {
        assert n[..|PatientPrefix(a)|][|base| + k] == PatientPrefix(a)[|base| + k];
      }
    }
    assert forall k :: 0 <= k < |db| ==> n[|base| + k] == db[k] by {
      forall k | 0 <= k < |db| ensures n[|base| + k] == db[k] {
        assert n[..|PatientPrefix(b)|][|base| + k] == PatientPrefix(b)[|base| + k];
      }
    }
    assert n[|base| + |da|] == '_' by {
      assert n[..|PatientPrefix(a)|][|base| + |da|] == PatientPrefix(a)[|base| + |da|];
    }
    assert n[|base| + |db|] == '_' by {
      assert n[..|PatientPrefix(b)|][|base| + |db|] == PatientPrefix(b)[|base| + |db|];
    }
    if |da| == |db| {
      assert da == db;
      NatToStringInjective(a, b);
    }
  }

  /** Cleaning up one patient's exports never removes another patient's. */
  lemma PatientCleanupSparesOthers(listing: seq<string>, patientId: nat, other: nat, n: string,
                                   files: map<string, int>, undeletable: set<string>)
    requires other != patientId && IsPatientExport(n, other) && n in files
    ensures var after := Purge(files, Superseded(listing, patientId), undeletable).0;
            n in after && after[n] == files[n]
  {
    PurgeKeys(files, Superseded(listing, patientId), undeletable);
    SupersededMembers(listing, patientId);
    if n in Superseded(listing, patientId) {
      PrefixesDisjoint(n, patientId, other);
    }
  }

  // ---------------------------------------------------------------------
  // The file name: visit_history_patient_<id>_<YYYY-MM-DDTHH-MM-SS>.csv
  // ---------------------------------------------------------------------

  /** `datetime.utcnow()` to the second. */
  datatype Stamp = Stamp(date: Date, hour: nat, minute: nat, second: nat)

  predicate ValidStamp(s: Stamp) {
    ValidDate(s.date) && s.hour < 24 && s.minute < 60 && s.second < 60
  }

  predicate StampBefore(a: Stamp, b: Stamp) {
    Before(a.date, b.date) ||
    (a.date == b.date &&
     (a.hour < b.hour || (a.hour == b.hour && (a.minute < b.minute || (a.minute == b.minute && a.second < b.second)))))
  }

  function ClockText(h: nat, m: nat, s: nat): (r: string)
    requires h < 100 && m < 100 && s < 100
    ensures |r| == 8
  {
    Pad2(h) + "-" + Pad2(m) + "-" + Pad2(s)
  }

  /** `strftime("%Y-%m-%dT%H-%M-%S")`. */
  function StampText(s: Stamp): (r: string)
    requires ValidStamp(s)
    ensures |r| == 19
  {
    FormatIso(s.date) + "T" + ClockText(s.hour, s.minute, s.second)
  }

  lemma Pad2Injective(a: nat, b: nat)
    requires a < 100 && b < 100 && Pad2(a) == Pad2(b)
    ensures a == b
  {
    Value2Pad2(a);
    Value2Pad2(b);
  }

  lemma ClockOrder(h1: nat, m1: nat, s1: nat, h2: nat, m2: nat, s2: nat)
    requires h1 < 100 && m1 < 100 && s1 < 100 && h2 < 100 && m2 < 100 && s2 < 100
    ensures StrLt(ClockText(h1, m1, s1), ClockText(h2, m2, s2)) <==>
              h1 < h2 || (h1 == h2 && (m1 < m2 || (m1 == m2 && s1 < s2)))
  {
    var dm1, dm2 := "-" + Pad2(m1), "-" + Pad2(m2);
    var ds1, ds2 := "-" + Pad2(s1), "-" + Pad2(s2);
    assert ClockText(h1, m1, s1) == Pad2(h1) + (dm1 + ds1);
    assert ClockText(h2, m2, s2) == Pad2(h2) + (dm2 + ds2);
    StrLtConcat(Pad2(h1), dm1 + ds1, Pad2(h2), dm2 + ds2);
    StrLtConcat(dm1, ds1, dm2, ds2);
    StrLtConcat("-", Pad2(m1), "-", Pad2(m2));
    StrLtConcat("-", Pad2(s1), "-", Pad2(s2));
    StrLtIrreflexive("-");
    Pad2Order(h1, h2);
    Pad2Order(m1, m2);
    Pad2Order(s1, s2);
    if Pad2(h1) == Pad2(h2) { Pad2Injective(h1, h2); }
    if dm1 == dm2 {
      assert dm1[1..] == Pad2(m1) && dm2[1..] == Pad2(m2);
      Pad2Injective(m1, m2);
    }
  }

  /** The fixed-width timestamp sorts as text exactly as the moments do in time. */
  lemma StampOrder(a: Stamp, b: Stamp)
    requires ValidStamp(a) && ValidStamp(b)
    ensures StampBefore(a, b) <==> StrLt(StampText(a), StampText(b))
  {
    var ca, cb := ClockText(a.hour, a.minute, a.second), ClockText(b.hour, b.minute, b.second);
    assert StampText(a) == (FormatIso(a.date) + "T") + ca;
    assert StampText(b) == (FormatIso(b.date) + "T") + cb;
    StrLtConcat(FormatIso(a.date) + "T", ca, FormatIso(b.date) + "T", cb);
    StrLtConcat(FormatIso(a.date), "T", FormatIso(b.date), "T");
    StrLtIrreflexive("T");
    IsoOrder(a.date, b.date);
    ClockOrder(a.hour, a.minute, a.second, b.hour, b.minute, b.second);
    if FormatIso(a.date) + "T" == FormatIso(b.date) + "T" {
      assert FormatIso(a.date) == (FormatIso(a.date) + "T")[..10];
      assert FormatIso(b.date) == (FormatIso(b.date) + "T")[..10];
      FormatIsoInjective(a.date, b.date);
    }
  }

  function ExportName(patientId: nat, s: Stamp): string
    requires ValidStamp(s)
  {
    PatientPrefix(patientId) + StampText(s) + ".csv"
  }

  lemma ExportNameIsPatientExport(patientId: nat, s: Stamp)
    requires ValidStamp(s)
    ensures IsPatientExport(ExportName(patientId, s), patientId)
  {
    var n := ExportName(patientId, s);
    assert n[..|PatientPrefix(patientId)|] == PatientPrefix(patientId);
    assert n[|n| - 4..] == ".csv";
  }

  /** For one patient, the name order of two exports is the order in which they were made. */
  lemma ExportNameOrder(patientId: nat, a: Stamp, b: Stamp)
    requires ValidStamp(a) && ValidStamp(b)
    ensures StrLt(ExportName(patientId, a), ExportName(patientId, b)) <==> StampBefore(a, b)
  {
    var p := PatientPrefix(patientId);
    assert ExportName(patientId, a) == p + (StampText(a) + ".csv");
    assert ExportName(patientId, b) == p + (StampText(b) + ".csv");
    StrLtConcat(p, StampText(a) + ".csv", p, StampText(b) + ".csv");
    StrLtIrreflexive(p);
    StrLtConcat(StampText(a), ".csv", StampText(b), ".csv");
    StrLtIrreflexive(".csv");
    StampOrder(a, b);
  }

  // ---------------------------------------------------------------------
  // The CSV rows
  // ---------------------------------------------------------------------

  const Headers: seq<string> := ["Date", "Time", "Doctor", "Specialization", "Reason", "Status",
                                 "Diagnosis", "Visit type", "Tests", "Follow-up date",
                                 "Medicines", "Precautions", "Advice / Notes"]

  /** The csv writer writes None as an empty field. */
  function Cell(v: Option<string>): string {
    match v case None => "" case Some(s) => s
  }

  /** `f"Dr. {doctor.full_name}"`, which shows a missing name as "None". */
  function DoctorLabel(d: Option<Doctor>): string {
    match d
    case None => ""
    case Some(doc) => "Dr. " + (match doc.fullName case None => "None" case Some(n) => n)
  }

  /** The seven treatment columns, all empty without a treatment. */
  function TreatmentCells(t: Option<Treatment>): (r: seq<string>)
    ensures |r| == 7
    ensures t.None? ==> forall k :: 0 <= k < 7 ==> r[k] == ""
  {
    match t
    case None => ["", "", "", "", "", "", ""]
    case Some(x) =>
      [Cell(x.diagnosis), Cell(x.visitType), Cell(x.testsText), Cell(x.followUpDate),
       Cell(x.prescription), Cell(x.precautions), Cell(x.notes)]
  }

  /** One appointment's row. */
  function ExportRow(a: Appointment, doctor: Option<Doctor>, treatments: seq<Treatment>): (row: seq<string>)
    ensures |row| == |Headers|
  {
    var latest := PatientRoutes.HistoryTreatments(treatments, a.id).treatment;
    var spec := match doctor case None => "" case Some(d) => Cell(d.specialization);
    [a.date, a.time, DoctorLabel(doctor), spec, Cell(a.reason), Capitalize(a.status)] + TreatmentCells(latest)
  }

  /**
   * A row shows the appointment's date, time and reason, its capitalised
   * status, and the treatment with the greatest `created_at` (a missing one
   * ranks lowest), or seven empty fields when there is no treatment.
   */
  lemma ExportRowContents(a: Appointment, doctor: Option<Doctor>, treatments: seq<Treatment>)
    ensures var row := ExportRow(a, doctor, treatments);
            row[0] == a.date && row[1] == a.time && row[4] == Cell(a.reason) &&
            row[5] == Capitalize(a.status) &&
            (TreatmentsOf(treatments, a.id) == [] ==> forall k :: 6 <= k < 13 ==> row[k] == "") &&
            (TreatmentsOf(treatments, a.id) != [] ==>
               exists t :: t in TreatmentsOf(treatments, a.id) && row[6..] == TreatmentCells(Some(t)) &&
                           forall u :: u in TreatmentsOf(treatments, a.id) ==> CreatedRank(u) <= CreatedRank(t))
  {
    var row := ExportRow(a, doctor, treatments);
    var h := PatientRoutes.HistoryTreatments(treatments, a.id);
    assert row[6..] == TreatmentCells(h.treatment);
  }

  function DoctorOf(doctors: map<nat, Doctor>, id: nat): Option<Doctor> {
    if id in doctors then Some(doctors[id]) else None
  }

  /** The header row and one row per appointment, in query order. */
  method BuildRows(appts: seq<Appointment>, doctors: map<nat, Doctor>, treatments: seq<Treatment>)
    returns (rows: seq<seq<string>>)
    ensures |rows| == |appts| + 1 && rows[0] == Headers
    ensures forall i :: 0 <= i < |appts| ==>
              rows[i + 1] == ExportRow(appts[i], DoctorOf(doctors, appts[i].doctorId), treatments)
  {
    var body: seq<seq<string>> := [];
    var i := 0;
    while i < |appts|
      invariant 0 <= i <= |appts|
      invariant |body| == i
      invariant forall k :: 0 <= k < i ==> body[k] == ExportRow(appts[k], DoctorOf(doctors, appts[k].doctorId), treatments)
    {
      var row := ExportRow(appts[i], DoctorOf(doctors, appts[i].doctorId), treatments);
      body := body + [row];
      i := i + 1;
    }
    rows := [Headers] + body;
    assert forall k :: 0 <= k < |appts| ==> rows[k + 1] == body[k];
  }

  // ---------------------------------------------------------------------
  // export_patient_history_csv
  // ---------------------------------------------------------------------

  /**
   * `appts` is the result of `filter_by(patient_id=...)`: every appointment
   * row of the patient exactly once, in some order.
   */
  predicate PatientRows(appointments: map<nat, Appointment>, patientId: nat, appts: seq<Appointment>) {
    (forall i, j :: 0 <= i < j < |appts| ==> appts[i].id != appts[j].id) &&
    (forall a :: a in appts ==> a.id in appointments && appointments[a.id] == a && a.patientId == patientId) &&
    (forall id :: id in appointments && appointments[id].patientId == patientId ==> appointments[id] in appts)
  }

  /**
   * Export one patient's visits: refuse an id that is not a patient user
   * with a patient row (the task raises), else write the file, keep only
   * the patient's newest export, then apply the retention period.
   * `appts` is the query's result: the patient's rows, in its
   * date-descending order; `listing1` and `listing2` are what the two
   * cleanups' directory listings return.
   */
  method ExportPatientHistory(db: Db, dir: ExportDir, patientUserId: nat, appts: seq<Appointment>,
                              stamp: Stamp, now: int, retentionDays: nat,
                              listing1: seq<string>, listing2: seq<string>, undeletable: set<string>)
    returns (name: Option<string>, rows: seq<seq<string>>)
    requires ValidStamp(stamp) && PatientRows(db.appointments, patientUserId, appts)
    modifies dir
    ensures name.None? <==>
              !(patientUserId in db.users && db.users[patientUserId].role == "patient" && patientUserId in db.patients)
    ensures name.None? ==> dir.files == old(dir.files) && dir.present == old(dir.present)
    ensures name.Some? ==>
              name.value == ExportName(patientUserId, stamp) && dir.present &&
              |rows| == |appts| + 1 && rows[0] == Headers &&
              (forall i :: 0 <= i < |appts| ==>
                 appts[i].patientId == patientUserId && appts[i].id in db.appointments &&
                 db.appointments[appts[i].id] == appts[i]) &&
              (forall i :: 0 <= i < |appts| ==>
                 rows[i + 1] == ExportRow(appts[i], DoctorOf(db.doctors, appts[i].doctorId), db.treatments)) &&
              var written := old(dir.files)[name.value := now];
              var kept := Purge(written, Superseded(listing1, patientUserId), undeletable).0;
              dir.files == Purge(kept, Stale(listing2, kept, Cutoff(now, retentionDays)), undeletable).0
  {
    if patientUserId !in db.users || db.users[patientUserId].role != "patient" { return None, []; }
    if patientUserId !in db.patients { return None, []; }
    var filename := ExportName(patientUserId, stamp);
    dir.present := true;
    rows := BuildRows(appts, db.doctors, db.treatments);
    dir.files := dir.files[filename := now];
    var _ := CleanupOldExportsForPatient(dir, listing1, patientUserId, undeletable);
    var _ := CleanupOldExports(dir, listing2, now, retentionDays, undeletable);
    return Some(filename), rows;
  }

  /** The greatest export name of the patient is not among those the per-patient pass removes. */
  lemma NewestNotSuperseded(listing: seq<string>, patientId: nat, me: string)
    requires Distinct(listing) && me in listing && IsPatientExport(me, patientId)
    requires forall n :: n in listing && IsPatientExport(n, patientId) && n != me ==> StrLt(n, me)
    ensures me !in Superseded(listing, patientId)
  {
    var exports := PatientExports(listing, patientId);
    PatientExportsMembers(listing, patientId);
    assert me in exports;
    PatientCleanupKeepsGreatest(listing, patientId);
    var newest := SortStrings(exports)[|exports| - 1];
    if newest != me {
      assert StrLt(newest, me) && StrLt(me, newest);
      StrLtAsymmetric(newest, me);
    }
  }

  /** The newest export of a patient survives the per-patient pass. */
  lemma NewestSurvivesPatientCleanup(files: map<string, int>, listing: seq<string>, patientId: nat,
                                     me: string, undeletable: set<string>)
    requires Distinct(listing) && me in listing && IsPatientExport(me, patientId) && me in files
    requires forall n :: n in listing && IsPatientExport(n, patientId) && n != me ==> StrLt(n, me)
    ensures var kept := Purge(files, Superseded(listing, patientId), undeletable).0;
            me in kept && kept[me] == files[me]
  {
    NewestNotSuperseded(listing, patientId, me);
    PurgeKeys(files, Superseded(listing, patientId), undeletable);
  }

  /** A file modified at `now` is never older than the retention cutoff. */
  lemma FreshSurvivesCleanup(files: map<string, int>, listing: seq<string>, me: string, now: int,
                             retentionDays: nat, undeletable: set<string>)
    requires me in files && files[me] == now
    ensures me in Purge(files, Stale(listing, files, Cutoff(now, retentionDays)), undeletable).0
  {
    var cutoff := Cutoff(now, retentionDays);
    assert cutoff <= now;
    StaleMembers(listing, files, cutoff);
    assert me !in Stale(listing, files, cutoff);
    PurgeKeys(files, Stale(listing, files, cutoff), undeletable);
  }

  /**
   * The file just written survives both cleanups when its stamp is later
   * than every other export of the patient in the listing: the per-patient
   * pass keeps the greatest name, and a file modified now is not older than
   * the retention cutoff.
   */
  lemma NewExportSurvives(files: map<string, int>, listing1: seq<string>, listing2: seq<string>,
                          patientId: nat, stamp: Stamp, now: int, retentionDays: nat, undeletable: set<string>)
    requires ValidStamp(stamp) && Distinct(listing1) && ExportName(patientId, stamp) in listing1
    requires forall n :: n in listing1 && IsPatientExport(n, patientId) && n != ExportName(patientId, stamp) ==>
               StrLt(n, ExportName(patientId, stamp))
    ensures var written := files[ExportName(patientId, stamp) := now];
            var kept := Purge(written, Superseded(listing1, patientId), undeletable).0;
            ExportName(patientId, stamp) in Purge(kept, Stale(listing2, kept, Cutoff(now, retentionDays)), undeletable).0
  {
    var me := ExportName(patientId, stamp);
    var written := files[me := now];
    ExportNameIsPatientExport(patientId, stamp);
    NewestSurvivesPatientCleanup(written, listing1, patientId, me, undeletable);
    var kept := Purge(written, Superseded(listing1, patientId), undeletable).0;
    FreshSurvivesCleanup(kept, listing2, me, now, retentionDays, undeletable);
  }
}
