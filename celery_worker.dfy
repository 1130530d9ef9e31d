/**
 * The helpers of the task worker (backend/celery_worker.py): the status
 * label, the e-mail guard, and the fallback chains that find an e-mail
 * address or a display name on a patient or doctor object.
 *
 * The fallback chains read attributes with `getattr(obj, name, None)`, so
 * an object is modelled by the attributes it may carry; the rows of the
 * application's own tables carry only some of them (`FromPatient`,
 * `FromDoctor`).
 */
module CeleryWorker {
  import opened Common
  import opened Models

  // ---------------------------------------------------------------------
  // _pretty_status
  // ---------------------------------------------------------------------

  /** A falsy status is "Unknown"; the three statuses in any case get their label; anything else passes through. */
  function PrettyStatus(status: Option<string>): (r: string)
    ensures status.None? || status.value == [] ==> r == "Unknown"
    ensures status.Some? && Upper(status.value) == Completed ==> r == "Completed"
    ensures status.Some? && Upper(status.value) == Cancelled ==> r == "Cancelled"
    ensures status.Some? && Upper(status.value) == Booked ==> r == "Booked"
    ensures status.Some? && status.value != [] && !IsStatus(Upper(status.value)) ==> r == status.value
  {
    if status.None? || status.value == [] then "Unknown"
    else
      var s := Upper(status.value);
      if s == Completed then "Completed"
      else if s == Cancelled then "Cancelled"
      else if s == Booked then "Booked"
      else status.value
  }

  /** Upper and Capitalize agree with a text of the same length character by character. */
  lemma UpperIs(s: string, t: string)
    requires |s| == |t| && forall i :: 0 <= i < |s| ==> UpperChar(s[i]) == t[i]
    ensures Upper(s) == t
  {
  }

  lemma CapitalizeIs(s: string, t: string)
    requires s != [] && |s| == |t| && UpperChar(s[0]) == t[0]
    requires forall i :: 1 <= i < |s| ==> LowerChar(s[i]) == t[i]
    ensures Capitalize(s) == t
  {
    var r := Capitalize(s);
    assert forall i :: 1 <= i < |s| ==> r[i] == r[1..][i - 1];
  }

  lemma UpperBooked() ensures Upper("Booked") == Booked && Upper(Booked) == Booked {
    UpperIs("Booked", Booked);
    UpperIs(Booked, Booked);
  }

  lemma UpperCompleted() ensures Upper("Completed") == Completed && Upper(Completed) == Completed {
    UpperIs("Completed", Completed);
    UpperIs(Completed, Completed);
  }

  lemma UpperCancelled() ensures Upper("Cancelled") == Cancelled && Upper(Cancelled) == Cancelled {
    UpperIs("Cancelled", Cancelled);
    UpperIs(Cancelled, Cancelled);
  }

  lemma UpperUnknown() ensures Upper("Unknown") == "UNKNOWN" {
    UpperIs("Unknown", "UNKNOWN");
  }

  lemma CapitalizeBooked() ensures Capitalize(Booked) == "Booked" {
    CapitalizeIs(Booked, "Booked");
  }

  lemma CapitalizeCompleted() ensures Capitalize(Completed) == "Completed" {
    CapitalizeIs(Completed, "Completed");
  }

  lemma CapitalizeCancelled() ensures Capitalize(Cancelled) == "Cancelled" {
    CapitalizeIs(Cancelled, "Cancelled");
  }

  lemma UpperOfLabels()
    ensures Upper(Booked) == Booked && Upper(Completed) == Completed && Upper(Cancelled) == Cancelled
    ensures Upper("Booked") == Booked && Upper("Completed") == Completed && Upper("Cancelled") == Cancelled
    ensures Upper("Unknown") == "UNKNOWN"
  {
    UpperBooked();
    UpperCompleted();
    UpperCancelled();
    UpperUnknown();
  }

  /** For the three statuses the label is `str.capitalize()` of the stored value. */
  lemma PrettyStatusCapitalizes(status: string)
    requires IsStatus(status)
    ensures PrettyStatus(Some(status)) == Capitalize(status)
  {
    UpperOfLabels();
    if status == Booked {
      CapitalizeBooked();
    } else if status == Completed {
      CapitalizeCompleted();
    } else {
      CapitalizeCancelled();
    }
  }

  /** Prettifying a label again changes nothing. */
  lemma PrettyStatusIdempotent(status: Option<string>)
    ensures PrettyStatus(Some(PrettyStatus(status))) == PrettyStatus(status)
  {
    UpperOfLabels();
  }

  // ---------------------------------------------------------------------
  // _send_email
  // ---------------------------------------------------------------------

  datatype Delivery = Skipped | Delivered | Swallowed

  /**
   * A falsy recipient sends nothing; otherwise the mail is handed over, and
   * a send that raises (`raises`) is logged and swallowed.
   */
  function SendEmail(to: Option<string>, raises: bool): (r: Delivery)
    ensures r == Skipped <==> to.None? || to.value == []
    ensures r == Swallowed <==> to.Some? && to.value != [] && raises
  {
    if to.None? || to.value == [] then Skipped
    else if raises then Swallowed
    else Delivered
  }

  // ---------------------------------------------------------------------
  // _get_*_email and _get_*_name
  // ---------------------------------------------------------------------

  /** The attributes `getattr` may find on a linked user object. */
  datatype UserAttrs = UserAttrs(email: Option<string>, fullname: Option<string>)

  /** The attributes `getattr` may find on a patient or doctor object. */
  datatype Attrs = Attrs(email: Option<string>, fullName: Option<string>, name: Option<string>,
                         user: Option<UserAttrs>)

  predicate Given(v: Option<string>) {
    v.Some? && v.value != []
  }

  /** The object's own e-mail, then its user's, else None; None for no object. */
  function ContactEmail(obj: Option<Attrs>): (r: Option<string>)
    ensures obj.None? ==> r.None?
    ensures r.Some? ==> r.value != []
    ensures obj.Some? && Given(obj.value.email) ==> r == obj.value.email
    ensures obj.Some? && !Given(obj.value.email) ==>
              r == (if obj.value.user.Some? && Given(obj.value.user.value.email) then obj.value.user.value.email else None)
  {
    if obj.None? then None
    else if Given(obj.value.email) then obj.value.email
    else if obj.value.user.Some? && Given(obj.value.user.value.email) then obj.value.user.value.email
    else None
  }

  /** `_get_patient_email` and `_get_doctor_email` are the same chain. */
  function PatientEmail(patient: Option<Attrs>): (r: Option<string>)
    ensures patient.None? ==> r.None?
    ensures r.Some? ==> r.value != [] &&
                        (r == patient.value.email || (patient.value.user.Some? && r == patient.value.user.value.email))
  {
    ContactEmail(patient)
  }

  function DoctorEmail(doctor: Option<Attrs>): (r: Option<string>)
    ensures doctor.None? ==> r.None?
    ensures r.Some? ==> r.value != [] &&
                        (r == doctor.value.email || (doctor.value.user.Some? && r == doctor.value.user.value.email))
  {
    ContactEmail(doctor)
  }

  /** full_name, then name, then the user's fullname, else the default; the default for no object. */
  function DisplayName(obj: Option<Attrs>, default: string): (r: string)
    ensures obj.None? ==> r == default
    ensures obj.Some? && Given(obj.value.fullName) ==> r == obj.value.fullName.value
    ensures obj.Some? && !Given(obj.value.fullName) && Given(obj.value.name) ==> r == obj.value.name.value
    ensures obj.Some? && !Given(obj.value.fullName) && !Given(obj.value.name) ==>
              r == (if obj.value.user.Some? && Given(obj.value.user.value.fullname)
                    then obj.value.user.value.fullname.value else default)
    ensures r == default || r != []
  {
    if obj.None? then default
    else if Given(obj.value.fullName) then obj.value.fullName.value
    else if Given(obj.value.name) then obj.value.name.value
    else if obj.value.user.Some? && Given(obj.value.user.value.fullname) then obj.value.user.value.fullname.value
    else default
  }

  function DoctorDisplayName(doctor: Option<Attrs>): (r: string)
    ensures doctor.None? ==> r == "Doctor"
    ensures r != "Doctor" ==>
              doctor.Some? && r != [] &&
              (Some(r) == doctor.value.fullName || Some(r) == doctor.value.name ||
               (doctor.value.user.Some? && Some(r) == doctor.value.user.value.fullname))
  {
    DisplayName(doctor, "Doctor")
  }

  function PatientDisplayName(patient: Option<Attrs>): (r: string)
    ensures patient.None? ==> r == "Patient"
    ensures r != "Patient" ==>
              patient.Some? && r != [] &&
              (Some(r) == patient.value.fullName || Some(r) == patient.value.name ||
               (patient.value.user.Some? && Some(r) == patient.value.user.value.fullname))
  {
    DisplayName(patient, "Patient")
  }

  // ---------------------------------------------------------------------
  // The application's rows as attribute sets
  // ---------------------------------------------------------------------

  /** A Patient row has `full_name` and `user`; it has no `email` or `name`, and a User has no `fullname`. */
  function FromPatient(p: Patient, user: Option<User>): Attrs {
    Attrs(None, p.fullName, None, match user case None => None case Some(u) => Some(UserAttrs(Some(u.email), None)))
  }

  function FromDoctor(d: Doctor, user: Option<User>): Attrs {
    Attrs(None, d.fullName, None, match user case None => None case Some(u) => Some(UserAttrs(Some(u.email), None)))
  }

  /**
   * On the application's own rows the chains shorten: the e-mail is the
   * linked user's non-empty e-mail, and the name is the full name when set,
   * else the default.
   */
  lemma RowsShortenChains(p: Patient, pu: Option<User>, d: Doctor, du: Option<User>)
    ensures PatientEmail(Some(FromPatient(p, pu))) ==
              (if pu.Some? && pu.value.email != [] then Some(pu.value.email) else None)
    ensures DoctorEmail(Some(FromDoctor(d, du))) ==
              (if du.Some? && du.value.email != [] then Some(du.value.email) else None)
    ensures PatientDisplayName(Some(FromPatient(p, pu))) == (if Given(p.fullName) then p.fullName.value else "Patient")
    ensures DoctorDisplayName(Some(FromDoctor(d, du))) == (if Given(d.fullName) then d.fullName.value else "Doctor")
  {
  }
}
