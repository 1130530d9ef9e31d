# HMS_V2 scheduling core in Dafny

HMS_V2 is a hospital management system. It has a Flask back end with three roles, admin, doctor and patient. Each role has its own JSON API over one SQL database. A Redis response cache sits in front of the read endpoints, and Celery tasks handle reminders, monthly reports and CSV exports. A Vue front end adds a navigation guard and a small session store. This project models the scheduling core of that system in Dafny and proves properties of the model:

- the database as a class (`Models.Db`) whose map fields are kept consistent with the schema's unique constraints;
- the doctor's half-hour grid, the 7-day availability view, the bulk and single-slot availability writes, the status transition guard and the treatment upsert that completes a visit;
- the patient's free/booked slot view, booking, cancelling, the latest-treatment pick of the history and the profile update;
- the admin guard, the age computation, creating, updating and deactivating doctors and patients, and the unguarded status overwrite;
- registration and login;
- the cache key, the cache store with glob deletion, and the `cached` decorator's decision;
- the CSV export and its two retention cleanups, and the daily reminder and monthly report jobs;
- the worker's status label and name/e-mail fallbacks, and the seeder;
- the front-end route guard and auth store.

One module per source file: `Common` (Option, Python string operations, sorting), `Json` (request bodies), `Dates` (the proleptic Gregorian calendar, ISO text, `strptime`, `%H:%M` labels), `Models`, `CacheUtils`, `AuthRoutes`, `AdminRoutes`, `DoctorRoutes`, `PatientRoutes`, `ExportTasks`, `ScheduledTasks`, `CeleryWorker`, `Seed`, `Router` and `AuthStore`. Handlers answer with their HTTP status code. The caller's JWT identity and role, "today", "now", and every random choice are parameters.

## Model

| member | source | states |
|---|---|---|
| Common.Upper | backend/celery_worker.py:45 | `str.upper()` maps every character through the ASCII upper-case mapping and keeps the length |
| Common.Lower | backend/tasks/export_tasks.py:27 | `str.lower()` keeps the length and maps every character through the ASCII lower-case map |
| Common.Capitalize | backend/tasks/export_tasks.py:171 | `str.capitalize()` keeps the length, upper-cases the first character and lower-cases the rest |
| Common.Strip | backend/routes/auth_routes.py:19-24 | `str.strip()` is no longer than its input and neither starts nor ends with white space |
| Common.StripContents | backend/routes/auth_routes.py:19-24 | stripping gives the empty text exactly for an all-white-space input, and keeps only characters of the input |
| Common.StripUnpadded | backend/routes/auth_routes.py:19-24 | a text with no white space at either end is left as it is |
| Common.IndexOf | backend/models.py:198 | the first position of a character, None exactly when it does not occur |
| Common.Split | backend/models.py:198 | `split(",")` gives at least one part, and no part holds the separator |
| Common.JoinSplit | backend/models.py:198 | joining the parts of a split with the same separator gives the text back |
| Common.SplitJoin | backend/models.py:198 | splitting the join of separator-free parts gives the parts back |
| Common.ReplaceChar | backend/models.py:198 | `replace` swaps exactly the occurrences of one character and keeps the length |
| Common.RemoveChar | backend/models.py:198 | `replace(c, "")` leaves no `c` and keeps every other character |
| Common.NatToString | backend/tasks/export_tasks.py:58 | `str(n)` is a non-empty run of digits |
| Common.ParseNatToString | backend/tasks/export_tasks.py:58 | reading `str(n)` as a number gives `n` back |
| Common.NatToStringInjective | backend/tasks/export_tasks.py:58 | distinct numbers have distinct texts |
| Common.SortBy | backend/tasks/export_tasks.py:69 | the sort is a permutation of its input in non-decreasing key order |
| Common.SortDescBy | backend/routes/doctor_routes.py:155-169 | `sorted(..., reverse=True)` is a permutation of its input in non-increasing key order |
| Common.SortedByUnique | backend/tasks/export_tasks.py:69 | with distinct keys there is exactly one sorted arrangement |
| Dates.DaysInMonth | backend/routes/doctor_routes.py:37 | every month has 28 to 31 days, and February has 29 exactly in a Gregorian leap year |
| Dates.NextDay | backend/routes/doctor_routes.py:572 | `d + timedelta(days=1)` is the earliest valid date after `d`, and is missing only after 9999-12-31 |
| Dates.PrevDay | backend/tasks/scheduled_tasks.py:97 | `d - timedelta(days=1)` is the date whose next day is `d`, missing only before 0001-01-01 |
| Dates.AddDays | backend/routes/doctor_routes.py:550 | `d + timedelta(days=n)` is a valid date whenever it exists |
| Dates.AddDaysSucc | backend/routes/doctor_routes.py:572 | adding one more day is one more NextDay step |
| Dates.AddDaysNotBefore | backend/routes/doctor_routes.py:550 | adding days never moves backwards, and adding a positive number moves strictly forwards |
| Dates.AddDaysMonotone | backend/routes/doctor_routes.py:570-573 | when `d + j` exists, so does every `d + i` with i < j, strictly earlier |
| Dates.DayOfYearBound | backend/seed.py:234-249 | the ordinal within the year lies below the year's length and is the last one exactly on 31 December |
| Dates.AddDaysWithinYear | backend/seed.py:234-250 | 1 January plus any offset below the year's length stays in that year, and that offset is its ordinal |
| Dates.NextDayInYear | backend/seed.py:249 | before 31 December the next day is in the same year, one ordinal on |
| Dates.Pad2 | backend/seed.py:250 | a two-digit zero-padded field |
| Dates.Pad4 | backend/seed.py:250 | a four-digit zero-padded field |
| Dates.Value2 | backend/routes/doctor_routes.py:37 | the number a two-digit field reads as, which pads back to the same text |
| Dates.Value4 | backend/routes/doctor_routes.py:37 | the number a four-digit field reads as, which pads back to the same text |
| Dates.Value2Pad2 | backend/seed.py:250 | reading a padded two-digit field gives the number back |
| Dates.Value4Pad4 | backend/seed.py:250 | reading a padded four-digit field gives the number back |
| Dates.Pad2Order | backend/routes/doctor_routes.py:552-553 | padded two-digit fields order as text exactly as the numbers do |
| Dates.Pad4Order | backend/routes/doctor_routes.py:552-553 | padded four-digit fields order as text exactly as the numbers do |
| Dates.FormatIso | backend/routes/doctor_routes.py:29 | `isoformat()` produces ten characters |
| Dates.ParseIso | backend/routes/patient_routes.py:173 | `datetime.fromisoformat(...).date()`, restricted to date-only text, accepts only texts that are the ISO form of a valid date |
| Dates.ParseFormatIso | backend/routes/patient_routes.py:376 | parsing a date's ISO text gives the date back |
| Dates.FormatIsoInjective | backend/routes/doctor_routes.py:573 | distinct dates have distinct ISO texts |
| Dates.IsoOrder | backend/routes/doctor_routes.py:552-556 | ISO texts compare as strings exactly as the dates compare in time |
| Dates.IsoOrderLe | backend/routes/doctor_routes.py:552-556 | the same for "on or before" |
| Dates.Strptime | backend/routes/admin_routes.py:39 | `strptime(s, "%Y-%m-%d")` succeeds only on a valid date with a dash after the four-digit year |
| Dates.StrptimeIso | backend/routes/doctor_routes.py:620 | strptime accepts every canonical ISO date with the same meaning |
| Dates.StrptimeFormatIso | backend/routes/doctor_routes.py:368 | strptime reads a date's ISO text back as that date |
| Dates.StrptimeAcceptsUnpadded | backend/routes/doctor_routes.py:37 | strptime accepts an unpadded date that `datetime.fromisoformat` rejects |
| Dates.Label | backend/routes/patient_routes.py:188 | `strftime("%H:%M")` is five characters with a colon in the middle |
| Dates.LabelOrder | backend/routes/patient_routes.py:187-189 | time labels order as text exactly as the times do |
| Dates.LabelInjective | backend/routes/patient_routes.py:188 | distinct times have distinct labels |
| Dates.WorkingHalfHoursShape | backend/routes/patient_routes.py:180-190 | the 09:00 to 17:00 loop yields sixteen increasing labels from 09:00 to 16:30, 13:00 and 13:30 among them |
| Dates.AgeNonNegative | backend/routes/admin_routes.py:44-47 | the age is zero on the birth date and never negative after it |
| Dates.AgeStep | backend/routes/admin_routes.py:44-47 | from one day to the next the age rises by one exactly on the birthday (1 March for 29 February in a common year) and is otherwise unchanged |
| Models.AvailabilityFree | backend/models.py:227-245 | any map of override rows keeps the tables valid: its key is the unique (doctor, date, slot) constraint |
| Models.Db.Commit | backend/models.py:9-245 | a commit stores exactly the given consistent tables |
| Models.Db.constructor | backend/models.py:9-245 | the schema starts with empty tables and every id counter at 1, satisfying every constraint |
| Models.WithUserValid | backend/models.py:9-17 | a user under the next id whose username and e-mail are not taken keeps the tables valid, and its id is not yet used by any user or profile row |
| Models.DoctorRowValid | backend/models.py:86-92 | a doctor profile for an id below the user counter keeps every constraint |
| Models.PatientRowValid | backend/models.py:43-56 | a patient profile for an id below the user counter keeps every constraint |
| Models.DoctorName | backend/models.py:150-155 | `doctor_name` is the doctor's non-empty full name, else the doctor user's username, else None |
| Models.StripAll | backend/models.py:196-200 | each item stripped, in order |
| Models.NonEmpty | backend/models.py:196-200 | every kept item is non-empty and one of the inputs, and every non-empty input is kept |
| Models.NormaliseBreaks | backend/models.py:198 | after the two replacements no carriage return or line feed remains |
| Models.TestsList | backend/models.py:193-200 | `tests` is None exactly for a missing or empty text; otherwise every item is non-empty and has no comma or line break |
| Models.SplitAvoids | backend/models.py:198 | splitting a text keeps out every character the text did not contain |
| Models.TestItemsClean | backend/models.py:196-200 | every item read back is non-empty, comma-free and break-free |
| Models.StripKeepsAbsent | backend/models.py:197 | stripping adds no comma or line break |
| Models.TestsRoundTrip | backend/models.py:193-200 | clean items joined by commas are read back as exactly those items |
| Models.StripAllClean | backend/models.py:197 | stripping clean items changes none of them |
| Models.NoBreaksInJoin | backend/models.py:198 | joining break-free items with a break-free separator gives a break-free text |
| Models.RemoveAbsent | backend/models.py:198 | removing a character the text lacks changes nothing |
| Models.ReplaceAbsent | backend/models.py:198 | replacing a character the text lacks changes nothing |
| Models.NonEmptyKeepsAll | backend/models.py:199 | dropping empty items from a list with none changes nothing |
| Models.LatestIndex | backend/routes/patient_routes.py:423 | `max(..., key=created_at or datetime.min)` picks a treatment with the greatest rank, the first of those |
| Models.TreatmentsOf | backend/models.py:134-138 | an appointment's treatments are exactly the rows that name it, none of them new |
| Models.TreatmentsOfAppend | backend/models.py:134-138 | a new row adds itself to its own appointment's list only |
| Models.TreatmentsOfUpdate | backend/models.py:134-138 | rewriting a row for the same appointment keeps every appointment's count and leaves other lists unchanged |
| Models.TreatmentsOfNone | backend/models.py:134-138 | an appointment that no row names has no treatments |
| CacheUtils.FirstPerKey | backend/cache_utils.py:16 | the argument pairs the key is built from: each name once, and each kept pair is the first one given for its name (so `?a=1&a=2` keys as `a=1`); the names are exactly the request's; the list is unchanged when the names were already distinct |
| CacheUtils.FirstPerKeyStep | backend/cache_utils.py:16 | one more argument is kept exactly when its name has not been seen, which preserves every property above |
| CacheUtils.DistinctKeysPermutation | backend/cache_utils.py:16 | reordering arguments with distinct names keeps the names distinct |
| CacheUtils.PairText | backend/cache_utils.py:16 | each `k=v` part contains the `=` |
| CacheUtils.PairTexts | backend/cache_utils.py:16 | one `k=v` part per argument, in order |
| CacheUtils.ArgsText | backend/cache_utils.py:16-17 | the joined argument text is empty exactly when the request has no arguments, which is what selects the key without `?` |
| CacheUtils.MakeCacheKey | backend/cache_utils.py:10-18 | the key is `API:`, then `prefix:` only for a non-empty prefix, then the path, then `?` and the sorted arguments only when there are arguments |
| CacheUtils.CacheKeyArgOrder | backend/cache_utils.py:16 | two requests whose distinct arguments differ only in order get the same key |
| CacheUtils.GlobPrefixStar | backend/cache_utils.py:35-48 | a literal followed by `*` matches exactly the keys that start with that literal |
| CacheUtils.Patterns | backend/cache_utils.py:39-40 | one `API:<prefix>:*` pattern per invalidated prefix, in call order |
| CacheUtils.HeadSelectsPrefix | backend/cache_utils.py:18 | for colon-free prefixes a key's `API:q:` head starts with `API:p:` exactly when p equals q |
| CacheUtils.PatternSelectsPrefix | backend/cache_utils.py:18 | a key built with prefix q is matched by the invalidation pattern of prefix p exactly when p equals q, so invalidation spares other prefixes |
| CacheUtils.KeyMatchesOwnPattern | backend/cache_utils.py:18 | every key a prefixed handler stores is removed by that prefix's invalidation |
| CacheUtils.DeleteMatching | backend/cache_utils.py:35-48 | after a pattern delete no remaining key matches the pattern, every non-matching key keeps its value, and no key is added |
| CacheUtils.DeleteAll | backend/cache_utils.py:35-48 | a key survives a sequence of pattern deletes exactly when it was present and matches none of the patterns, and it keeps its value |
| CacheUtils.CacheGet | backend/cache_utils.py:25-32 | a missing or empty entry, text that does not decode, and a stored JSON null all read as a miss; a hit is the decoded stored value |
| CacheUtils.CacheStore.constructor | backend/cache_utils.py:21-22 | the store starts empty |
| CacheUtils.CacheStore.Set | backend/cache_utils.py:21-22 | `cache_set` overwrites exactly that key with the encoded value |
| CacheUtils.CacheStore.Get | backend/cache_utils.py:25-32 | `cache_get` returns the CacheGet reading of the current entries and changes nothing |
| CacheUtils.CacheStore.DeletePattern | backend/cache_utils.py:35-48 | the SCAN loop leaves exactly DeleteMatching of the entries present when it started |
| CacheUtils.CacheStore.DeletePatterns | backend/cache_utils.py:35-48 | invalidating several patterns in order leaves DeleteAll of the old entries |
| CacheUtils.CachedOutcome | backend/cache_utils.py:51-90 | non-GET requests bypass the cache; a GET hit answers with the stored value and does not call the handler; on a GET miss the handler is called, its result is stored exactly when it is a bare dict or a dict in a tuple with status 200, a bare dict is answered through `jsonify` and anything else as returned; a stored value is always that dict; a Response object is never stored |
| CacheUtils.Cached | backend/cache_utils.py:56-88 | the decorator's reply, whether it called the handler, and the new store contents are those CachedOutcome gives |
| CacheUtils.CachedResultShared | backend/cache_utils.py:64-67 | once one caller's result is stored, a second caller's GET of the same path and arguments gets that value without the handler being called: the key has no user in it |
| AuthRoutes.RegisterRequest | backend/routes/auth_routes.py:16-35 | a present non-string text field gives 500; with text fields, a missing username, e-mail or full name or a falsy password gives 400, and so does a taken username or e-mail; otherwise the registration is accepted exactly when the password is a string (500 if not); an accepted registration carries the stripped fields, a non-empty username, e-mail, password and full name, and names no existing username or e-mail; a falsy password is always refused; refusals are 400 or 500 |
| AuthRoutes.RegisteredValid | backend/routes/auth_routes.py:37-57 | adding the patient user and their profile keeps the tables consistent |
| AuthRoutes.Register | backend/routes/auth_routes.py:16-59 | a refused request answers its code and stores nothing; an accepted one answers 201 and commits exactly the new patient user and profile under the next id |
| AuthRoutes.UserNamed | backend/routes/auth_routes.py:74 | the looked-up row has that username; none means no row has it |
| AuthRoutes.LoginResult | backend/routes/auth_routes.py:66-95 | a token is issued only for an active user whose stripped username and password match, and carries the user's id as text, their role and an eight-hour lifetime; an empty username or a falsy password gives 400; an unknown username gives 401; a string password that does not match gives 401 whether or not the user is active; the matching password of a deactivated user gives 403; every refusal is 400, 401, 403 or 500 |
| AuthRoutes.PasswordVerdict | backend/routes/auth_routes.py:76-95 | for the user found by name: a non-string password gives 500, a non-matching one 401, the matching password of a deactivated user 403, and only the matching password of an active user is accepted, with a token naming that user's id and role for eight hours |
| AuthRoutes.UserNamedUnique | backend/routes/auth_routes.py:74 | in consistent tables the username lookup finds that very user |
| AuthRoutes.RegisterThenLogin | backend/routes/auth_routes.py:16-95 | the body that registers a patient then logs in as that new user, with the patient role |
| AuthRoutes.DeactivatedCannotLogin | backend/routes/auth_routes.py:79-80 | after deactivation no body obtains a token for that user |
| AuthRoutes.LoginNamesTheUser | backend/routes/auth_routes.py:74-95 | a successful login is always for the user the username names |
| Json.Get | backend/routes/patient_routes.py:284-286 | `dict.get(k)` gives the stored value, or None for a missing key |
| Json.GetOr | backend/routes/auth_routes.py:21 | `dict.get(k, default)` yields the default only for a missing key |
| Json.OrEmpty | backend/routes/admin_routes.py:549 | `(v or "")` gives "" for every falsy value and the text itself for a string; a truthy non-string has no string methods |
| Json.StripOr | backend/routes/admin_routes.py:254 | `(v or "").strip()` gives "" for falsy values, the stripped text for a string, and fails exactly for a truthy non-string |
| Json.GetStripped | backend/routes/auth_routes.py:19-24 | `data.get(k, "").strip()` gives "" for a missing key, the stripped text for a string, and fails exactly when a present value is not a string |
| Json.PyOr | backend/routes/admin_routes.py:116 | Python's `a or b` gives a when a is truthy and b otherwise |
| Json.SqlText | backend/routes/patient_routes.py:76-80 | strings are kept as they are, None becomes NULL, booleans are stored as `1`/`0`, a 64-bit integer as its decimal text; the driver refuses exactly lists, objects and integers outside the signed 64-bit range |
| Json.SqlIntKey | backend/routes/patient_routes.py:295-303 | a 64-bit JSON integer compares as that integer, a boolean as 1/0, None as NULL, a non-empty string of digits as the number it spells in decimal and any other string as no match; the driver refuses exactly lists, objects and integers outside the signed 64-bit range |
| Json.SqlIntKeyDecimal | backend/routes/patient_routes.py:295-303 | an id sent as its decimal text compares equal to that id |
| AdminRoutes.RequireAdminAsWritten | backend/routes/admin_routes.py:11-23 | as written the guard's tuple has four items exactly when the role is not admin, and its `ok` item is true exactly for admins |
| AdminRoutes.UnpackGuard | backend/routes/admin_routes.py:105-107 | the four-name unpacking raises (500) for a tuple of any other length; a four-item tuple is admitted exactly when `ok` holds, else 403 |
| AdminRoutes.AdminGuardAdmitsNobody | backend/routes/admin_routes.py:11-23 | as written every admin handler fails: 500 for an admin, 403 for anyone else |
| AdminRoutes.RequireAdmin | backend/routes/admin_routes.py:11-23 | the corrected guard returns four items on both paths, `ok` exactly for the admin role |
| AdminRoutes.AdminGuard | backend/routes/admin_routes.py:11-23 | the guard the handlers go through admits exactly the admin role and answers 403 otherwise |
| AdminRoutes.AdminGuardAdmitsAdmins | backend/routes/admin_routes.py:11-23 | the corrected guard admits exactly the admin role and answers 403 to every other |
| AdminRoutes.CalculateAge | backend/routes/admin_routes.py:26-48 | an age is given exactly for a non-empty dob that `strptime("%Y-%m-%d")` accepts, and it is completed years to today |
| AdminRoutes.CalculateAgeStep | backend/routes/admin_routes.py:44-48 | for a birth date on or before today the age is at least zero, and from one day to the next it grows by one exactly on the birthday |
| AdminRoutes.PasswordOr | backend/routes/admin_routes.py:116 | a falsy password is replaced by the default; a truthy one is used when it is text and fails the hashing call otherwise |
| AdminRoutes.NewDoctorRequest | backend/routes/admin_routes.py:109-134 | 500 when a present text field is a truthy non-string; 400 when full name, username, e-mail or specialization strips to empty, and 400 for a taken username or e-mail; otherwise accepted exactly when the password (or the default `doctor123`) is text, 500 if not; an accepted form carries the stripped fields, the raw experience value and that password |
| AdminRoutes.CreateDoctorRejectsTaken | backend/routes/admin_routes.py:121-126 | a username or e-mail already in use is refused whatever the other fields say, with 400 once the text fields are present and given |
| AdminRoutes.CreateDoctor | backend/routes/admin_routes.py:103-155 | a non-admin gets 403 and a refused request its code, both changing nothing; an accepted one commits the doctor user under the next id, then the profile with 201 and the three cache prefixes flushed, or, when the driver refuses `experience_years`, keeps the user without a profile and answers 500 |
| AdminRoutes.InsertDoctor | backend/routes/admin_routes.py:128-150 | the two commits: the user row first, then the doctor row and the flush, or 500 after the first commit when the experience value cannot be bound |
| AdminRoutes.StrippedField | backend/routes/admin_routes.py:253-254 | an absent key keeps the current value; a present one gives `(v or "").strip()` |
| AdminRoutes.StrippedOptional | backend/routes/admin_routes.py:257-260 | the same for a nullable column: an absent key keeps it, a present one becomes the stripped text, failing only for a truthy non-string |
| AdminRoutes.StrippedOrNone | backend/routes/admin_routes.py:460-463 | a present key becomes its stripped text, or NULL when that is empty; an absent key keeps the current value |
| AdminRoutes.ActiveField | backend/routes/admin_routes.py:255-256 | an absent `is_active` keeps the flag; a present one sets it to the value's truthiness |
| AdminRoutes.DoctorUpdate | backend/routes/admin_routes.py:253-264 | only the five named columns can change, each present key replaces its column by its rule and each absent one keeps it; the update fails exactly when a present text value is a truthy non-string or the driver refuses the new experience value |
| AdminRoutes.DoctorUpdateEmptyBody | backend/routes/admin_routes.py:253-262 | a body with none of the five keys leaves both rows as they were |
| AdminRoutes.ProfileEditValid | backend/routes/admin_routes.py:250-264 | replacing a user row by one with the same id and username keeps every table constraint |
| AdminRoutes.DoctorEditValid | backend/routes/admin_routes.py:250-264 | writing back an edited doctor user and profile keeps the tables consistent |
| AdminRoutes.UpdateDoctor | backend/routes/admin_routes.py:239-271 | 403 for a non-admin, 404 unless the id is a doctor user with a profile, 500 when DoctorUpdate fails; on 200 exactly those two rows are replaced and the doctor prefixes flushed; any other code changes nothing |
| AdminRoutes.Deactivated | backend/routes/admin_routes.py:285 | deactivation clears that one user's `is_active`, keeps every other row of every table, and deletes nothing |
| AdminRoutes.DeleteDoctor | backend/routes/admin_routes.py:274-293 | for an admin the answer is 200 exactly when the id is a doctor user (a profile is not needed), else 404; on 200 the user is deactivated and the doctor prefixes flushed; otherwise nothing changes |
| AdminRoutes.ReadPatientForm | backend/routes/admin_routes.py:304-312 | the form fails exactly when one of the seven fields is a truthy non-string; otherwise each field is `(v or "").strip()` |
| AdminRoutes.NoneIfEmpty | backend/routes/admin_routes.py:338-339 | `s or None` is NULL exactly for the empty text and the text itself otherwise |
| AdminRoutes.NewPatientRequest | backend/routes/admin_routes.py:304-323 | 500 when any of the seven fields is a truthy non-string; 400 when full name, username or e-mail strips to empty, and 400 for a taken username or e-mail; otherwise accepted exactly when the password (or the default `patient123`) is text, 500 if not; an accepted form is the stripped form with that password |
| AdminRoutes.PatientCreatedValid | backend/routes/admin_routes.py:325-344 | adding the patient user and its row under the next id keeps the tables consistent |
| AdminRoutes.CreatePatient | backend/routes/admin_routes.py:298-353 | 403 for a non-admin and the request's code for a refusal, both changing nothing; otherwise 201, the new id, exactly the new user and patient rows, and the two patient prefixes flushed |
| AdminRoutes.InsertPatient | backend/routes/admin_routes.py:325-348 | the single commit of user and patient rows together, then the flush |
| AdminRoutes.PatientUpdate | backend/routes/admin_routes.py:450-463 | only the seven named columns can change, each present key by its rule (gender and dob NULL when empty) and each absent one kept; the update fails exactly when a present value is a truthy non-string |
| AdminRoutes.PatientEditValid | backend/routes/admin_routes.py:444-465 | writing back an edited patient user and row keeps the tables consistent |
| AdminRoutes.UpdatePatient | backend/routes/admin_routes.py:436-471 | 403, 404 unless a patient user with a row, 500 when PatientUpdate fails; on 200 exactly those two rows are replaced and the patient prefixes flushed; otherwise nothing changes |
| AdminRoutes.DeletePatient | backend/routes/admin_routes.py:474-492 | for an admin 200 exactly when the id is a patient user, else 404; on 200 that user is deactivated and the patient prefixes flushed; otherwise nothing changes |
| AdminRoutes.AdminStatusCode | backend/routes/admin_routes.py:542-556 | 403 for a non-admin; a non-text status 500; 400 unless the uppercased text is one of the three statuses; 404 for a missing appointment; 200 exactly for a valid status on an existing appointment |
| AdminRoutes.AdminRevivesCompleted | backend/routes/admin_routes.py:549-558 | the admin may move a completed appointment back to BOOKED, which the doctor's route refuses with 400 |
| AdminRoutes.AdminUpdateAppointmentStatus | backend/routes/admin_routes.py:542-570 | the answer is AdminStatusCode; on 200 only that appointment's status becomes the uppercased text and the seven prefixes are flushed; otherwise nothing changes |
| DoctorRoutes.GridMinute | backend/routes/doctor_routes.py:61-70 | every grid slot starts between 09:00 (minute 540) and 16:30 (minute 990) |
| DoctorRoutes.GridLabels | backend/routes/doctor_routes.py:61-70 | the grid has 14 labels and the i-th is the `HH:MM` text of the i-th half hour after 09:00, skipping the lunch hour |
| DoctorRoutes.GridLabelAt | backend/routes/doctor_routes.py:61-70 | each single grid label is the text of its minute |
| DoctorRoutes.GridShape | backend/routes/doctor_routes.py:59-70 | the 14 labels strictly increase as text, so none repeats, and neither 13:00 nor 13:30 is among them |
| DoctorRoutes.ParseDateParam | backend/routes/doctor_routes.py:32-39 | a value `strptime` accepts gives that date; a missing, empty or malformed value gives today when defaulting and None otherwise; with a valid today the defaulting form always yields a valid date |
| DoctorRoutes.ParseDateParamIso | backend/routes/doctor_routes.py:32-39 | a date sent in its ISO text is read back as that date |
| DoctorRoutes.DoctorMoves | backend/routes/doctor_routes.py:321-329 | between the three statuses the guard lets through exactly BOOKED to COMPLETED or CANCELLED and COMPLETED and CANCELLED into each other |
| DoctorRoutes.StatusChangeCode | backend/routes/doctor_routes.py:307-329 | 403 for a non-doctor, 404 for a missing appointment, 403 for another doctor's, 500 for a non-text status, 400 for an unknown status; 200 exactly when the guard allows the move, 400 otherwise |
| DoctorRoutes.StatusChangeKeepsKeys | backend/routes/doctor_routes.py:331-332 | rewriting one appointment's status keeps every table constraint, the unique (doctor, date, time) key included |
| DoctorRoutes.UpdateAppointmentStatus | backend/routes/doctor_routes.py:306-344 | the answer is StatusChangeCode; on 200 only that appointment's status becomes the uppercased text and the eight prefixes are flushed; otherwise nothing changes |
| DoctorRoutes.FollowUp | backend/routes/doctor_routes.py:365-370 | a falsy follow-up date is stored as NULL; a text one is kept when `strptime` accepts it and refused with 400 otherwise; a truthy non-text one raises (500) |
| DoctorRoutes.TreatmentRequest | backend/routes/doctor_routes.py:363-389 | the follow-up check comes first and its refusal is the answer; then the save is refused (500) exactly when a field cannot be bound; an accepted save carries each field as read, `tests_done` before `tests`, `medicines` as the prescription |
| DoctorRoutes.FirstTreatment | backend/routes/doctor_routes.py:379 | `.first()` finds the lowest-indexed treatment of the appointment, none exactly when it has no treatment |
| DoctorRoutes.WithFields | backend/routes/doctor_routes.py:384-390 | writing the seven fields keeps the row's id, appointment and creation time |
| DoctorRoutes.UpsertTreatment | backend/routes/doctor_routes.py:379-390 | the upsert adds at most one row and leaves every other appointment's treatments in place |
| DoctorRoutes.UpsertTreatmentEffect | backend/routes/doctor_routes.py:379-390 | after the upsert the appointment's first treatment holds exactly the saved fields, the appointment has one treatment if it had none and as many as before otherwise, and no other appointment's treatments change |
| DoctorRoutes.UpdateFirstEffect | backend/routes/doctor_routes.py:379-390 | rewriting an existing first treatment in place keeps it first and keeps every appointment's count |
| DoctorRoutes.FirstIs | backend/routes/doctor_routes.py:379 | the first index carrying the appointment is the one `.first()` returns |
| DoctorRoutes.AppendFirstEffect | backend/routes/doctor_routes.py:380-382 | appending a treatment for an appointment that had none makes it that appointment's first and only one |
| DoctorRoutes.AutoComplete | backend/routes/doctor_routes.py:392-393 | a status that uppercases to BOOKED becomes COMPLETED; any other is kept |
| DoctorRoutes.SaveTreatmentCode | backend/routes/doctor_routes.py:352-370 | 403 for a non-doctor, 404 for a missing appointment, 403 for another doctor's, then the answer of TreatmentRequest |
| DoctorRoutes.SavedTablesValid | backend/routes/doctor_routes.py:379-395 | upserting the treatment and completing the visit keep every table constraint |
| DoctorRoutes.SaveTreatment | backend/routes/doctor_routes.py:351-407 | the answer is SaveTreatmentCode; on 200 the tables become the upserted, auto-completed ones and the eight prefixes are flushed; otherwise nothing changes |
| DoctorRoutes.StoreTreatment | backend/routes/doctor_routes.py:379-405 | the commit of an accepted save and the cache flush after it |
| DoctorRoutes.Effective | backend/routes/doctor_routes.py:577 | a slot with an override row shows that row's value; one without shows available |
| DoctorRoutes.OverrideFromFiltered | backend/routes/doctor_routes.py:556-560 | inside the week's date range the filtered override map gives each slot's effective availability |
| DoctorRoutes.BookingFromFiltered | backend/routes/doctor_routes.py:563-568 | inside the range a slot appears in the filtered booking map exactly when a non-cancelled appointment holds it, with that appointment's status |
| DoctorRoutes.CellFromFiltered | backend/routes/doctor_routes.py:555-584 | each cell read from the two filtered maps is the one the whole tables give |
| DoctorRoutes.WeekDayInRange | backend/routes/doctor_routes.py:550-553 | every day of the week from the start exists and its ISO text lies between the start's and the end's |
| DoctorRoutes.GridCode | backend/routes/doctor_routes.py:544-550 | 200 exactly for a doctor whose week end exists, 403 for other roles, 500 when `start + 6 days` overflows |
| DoctorRoutes.GridRow | backend/routes/doctor_routes.py:576-584 | one cell per grid slot, in grid order, each read from the two maps |
| DoctorRoutes.RowFromFiltered | backend/routes/doctor_routes.py:571-586 | a whole row read from the filtered maps is the row the tables give |
| DoctorRoutes.GridDayAt | backend/routes/doctor_routes.py:572-586 | day i holds the ISO text of `start + i days` and its full row of cells |
| DoctorRoutes.AppendDay | backend/routes/doctor_routes.py:571-586 | appending day i to days 0..i-1 keeps each day where it belongs |
| DoctorRoutes.AvailabilityGrid | backend/routes/doctor_routes.py:537-589 | the answer is GridCode; on 200 there are seven days from the parsed start, each listing every grid slot once with its effective availability and the status of the non-cancelled appointment holding it; otherwise no days |
| DoctorRoutes.LastWrite | backend/routes/doctor_routes.py:632-644 | the value a slot ends with is that of the last entry writing it, none when no entry writes it |
| DoctorRoutes.BulkResult | backend/routes/doctor_routes.py:632-649 | slots of other doctors or dates keep their rows; each written slot of the date holds its last written value; unwritten slots keep their rows |
| DoctorRoutes.LastWriteStep | backend/routes/doctor_routes.py:632-644 | one more entry overrides the last value exactly for the slot it writes |
| DoctorRoutes.BulkResultStep | backend/routes/doctor_routes.py:632-649 | one more entry sets only its own slot's row, and an entry that does not write changes nothing |
| DoctorRoutes.WriteCountStep | backend/routes/doctor_routes.py:632-649 | one more entry adds one to its slot's write count and nothing to others |
| DoctorRoutes.WriteCountLast | backend/routes/doctor_routes.py:632-644 | a slot is written by no entry exactly when it has no last write |
| DoctorRoutes.InsertsTwiceStep | backend/routes/doctor_routes.py:641-649 | a new entry causes a second insert exactly when its slot had no row and was already written earlier in the request |
| DoctorRoutes.BulkCode | backend/routes/doctor_routes.py:606-651 | 403 for a non-doctor; 400 for a falsy date, an unparsable date text, or a missing, non-list or empty `slots`; 500 for a truthy non-text date, for an entry that is not an object, and for a slot without a row inserted twice; 200 exactly when the date parses, every entry is an object and no slot is inserted twice; no other code |
| DoctorRoutes.BulkIdempotent | backend/routes/doctor_routes.py:627-651 | sending an accepted bulk request again is accepted and changes no row |
| DoctorRoutes.UpsertSlots | backend/routes/doctor_routes.py:632-649 | the loop runs through exactly when every entry is an object; then its rows are BulkResult and it reports a double insert exactly when InsertsTwice holds |
| DoctorRoutes.UpsertOne | backend/routes/doctor_routes.py:633-649 | one turn of the loop carries BulkResult and the double-insert flag one entry further |
| DoctorRoutes.BulkUpdateAvailability | backend/routes/doctor_routes.py:592-657 | the answer is BulkCode; on 200 the availability rows become BulkResult and the two prefixes are flushed; otherwise nothing changes |
| DoctorRoutes.StoreAvailability | backend/routes/doctor_routes.py:651-655 | the commit replaces only the availability rows and the two prefixes are flushed |
| DoctorRoutes.ToggleCode | backend/routes/doctor_routes.py:673-693 | 403 for a non-doctor, 400 when the date or slot is missing; 200 exactly for a doctor with a parsable text date and an on-grid slot; every refusal is 400, 403 or 500 |
| DoctorRoutes.ToggleValue | backend/routes/doctor_routes.py:701-710 | a boolean in the body is taken as the value; otherwise an existing row flips and a missing row becomes unavailable for null, or the truthiness of another value |
| DoctorRoutes.ToggleAvailability | backend/routes/doctor_routes.py:660-730 | the answer is ToggleCode; on 200 only the slot's row changes, to the returned ToggleValue, and the two prefixes are flushed; otherwise nothing changes |
| DoctorRoutes.ToggleNegates | backend/routes/doctor_routes.py:701-710 | a toggle with no value negates the slot's effective availability, so a slot without a row becomes unavailable |
| DoctorRoutes.VisitIndex | backend/routes/doctor_routes.py:139 | the index of the patient's entry in `last_visits`, none exactly when the patient has no entry |
| DoctorRoutes.LastVisits | backend/routes/doctor_routes.py:134-140 | the loop builds the VisitsOf fold of the recent appointments |
| DoctorRoutes.VisitsOf | backend/routes/doctor_routes.py:134-140 | the `last_visits` dict has no more entries than the appointments scanned |
| DoctorRoutes.VisitsOfLatest | backend/routes/doctor_routes.py:134-140 | the fold keeps one entry per patient, each entry's date is one of that patient's appointment dates, and it is no earlier than any of them |
| DoctorRoutes.CoveredStep | backend/routes/doctor_routes.py:139-140 | an appointment whose patient has an entry no earlier than its date keeps one after the next turn |
| DoctorRoutes.VisitStepKeeps | backend/routes/doctor_routes.py:135-140 | one loop turn keeps the patients distinct and each date attained, and covers the new appointment |
| DoctorRoutes.TopVisits | backend/routes/doctor_routes.py:155-169 | the top entries are at most ten, drawn from the visits, and ordered latest first |
| DoctorRoutes.TopVisitsLatest | backend/routes/doctor_routes.py:155-169 | a visit left out of the top ten is no later than any kept one |
| DoctorRoutes.AssignedName | backend/routes/doctor_routes.py:159-162 | the patient's full name, or `Patient #<id>` when no patient row has the id |
| DoctorRoutes.Named | backend/routes/doctor_routes.py:156-166 | one named entry per visit, in order |
| DoctorRoutes.AssignedPatients | backend/routes/doctor_routes.py:125-169 | at most ten assigned patients, latest visit first, no patient twice |
| DoctorRoutes.TopDistinct | backend/routes/doctor_routes.py:155-169 | the top ten of distinct patients are distinct |
| PatientRoutes.DaySlots | backend/routes/patient_routes.py:182-190 | the `while current_dt < end_dt` loop yields exactly the half-hour labels from 09:00 up to 16:30 |
| PatientRoutes.TwoGrids | backend/routes/patient_routes.py:182-190 | the patient's 16 slots are the doctor's 14-slot grid with 13:00 and 13:30 put back, so the two views of a day disagree about the lunch hour |
| PatientRoutes.BookedTimes | backend/routes/patient_routes.py:193-199 | a time is booked exactly when a non-cancelled appointment of that doctor on that date string holds it |
| PatientRoutes.Labelled | backend/routes/patient_routes.py:202-208 | one entry per slot, in order, booked exactly when its time is in the booked set |
| PatientRoutes.SlotView | backend/routes/patient_routes.py:182-208 | 16 entries in grid order, each booked exactly when a non-cancelled appointment holds that slot |
| PatientRoutes.SlotsCode | backend/routes/patient_routes.py:151-179 | a missing or zero doctor id or a missing or empty date gives 400, an inactive or unknown doctor 404; for an active doctor, a date `datetime.fromisoformat` does not accept and a date before today each give 400, and every other refusal is 400 too; 200 exactly for an active doctor and an accepted date not before today; no other code |
| PatientRoutes.AvailableSlots | backend/routes/patient_routes.py:149-210 | the answer is SlotsCode, with SlotView as the slot list on 200 and no slots otherwise |
| PatientRoutes.SlotViewIgnoresOverrides | backend/routes/patient_routes.py:149-210 | neither the answer nor the slot list depends on the doctor's availability overrides |
| PatientRoutes.ReasonText | backend/routes/patient_routes.py:287 | the reason fails exactly for a truthy non-string; a stored reason is the non-empty stripped text; a text that strips to something is stored stripped |
| PatientRoutes.BookingRequest | backend/routes/patient_routes.py:277-335 | each check answers in source order: 404 for a caller who is not a patient, 500 when the reason raises, 400 when a required field is falsy, 500 when the driver refuses the doctor id, 404 when no active doctor matches it, 400 for a non-text or unparsable date and for a past date, 500 when the driver refuses the time, 409 when a non-cancelled row holds the slot, 500 when only a cancelled row has it; a request is accepted exactly when it passes every check and no row has the slot, and the accepted booking is a BOOKED row under the next id for this patient with that doctor, the date text, the time as SQLite stores it and the reason; no other code |
| PatientRoutes.BookingKeepsValid | backend/routes/patient_routes.py:328-338 | an accepted booking keeps every table constraint and adds exactly its own new id |
| PatientRoutes.FreshBookingValid | backend/routes/patient_routes.py:328-338 | a row under the next id whose slot no row has keeps the tables valid and adds exactly that id |
| PatientRoutes.RebookCancelledSlotFails | backend/routes/patient_routes.py:317-338 | a slot held only by a cancelled row passes the route's own check and then fails on the unique key (500) |
| PatientRoutes.FreeSlotIsBooked | backend/routes/patient_routes.py:277-335 | a patient's well-formed request for an active doctor, a date not in the past and a slot no row has is booked as exactly that BOOKED row |
| PatientRoutes.CreateAppointment | backend/routes/patient_routes.py:276-343 | a refused booking answers its code and changes nothing; an accepted one answers 201 with the new id and adds exactly that row |
| PatientRoutes.CancelCode | backend/routes/patient_routes.py:357-390 | 404 unless the caller is a patient owning the appointment; 200 exactly when it is already cancelled, or is not completed and its date does not parse to a day before today; otherwise 400 |
| PatientRoutes.CancelKeepsValid | backend/routes/patient_routes.py:387-388 | cancelling keeps every table constraint and every appointment id |
| PatientRoutes.CancelAppointment | backend/routes/patient_routes.py:356-390 | the answer is CancelCode; after 200 the appointment is cancelled, and only a cancel that was not already done writes, changing that one status; otherwise nothing changes |
| PatientRoutes.HistoryTreatments | backend/routes/patient_routes.py:417-430 | `all_treatments` is the appointment's treatments; `treatment` is none exactly when that list is empty, else one of them with the greatest `created_at`, a missing one counting as earliest |
| PatientRoutes.HistoryPicksLatest | backend/routes/patient_routes.py:421-424 | a treatment created later than every other of its appointment is the one reported |
| PatientRoutes.ProfileText | backend/routes/patient_routes.py:76-80 | an absent key keeps the current value; a present one is stored as SQLite's text for it, failing for a list or object |
| PatientRoutes.DisabledUpdate | backend/routes/patient_routes.py:97-100 | `is_disabled` takes a boolean or null given in the body and otherwise keeps its value |
| PatientRoutes.UpdatedProfile | backend/routes/patient_routes.py:74-103 | the updated row keeps its id, takes each of the six text fields by ProfileText and `is_disabled` by DisabledUpdate, and fails exactly when some present text field cannot be stored |
| PatientRoutes.EmptyUpdateKeepsProfile | backend/routes/patient_routes.py:76-100 | a body with none of the profile keys leaves the row unchanged |
| PatientRoutes.UpdateProfile | backend/routes/patient_routes.py:68-104 | 404 and no change for a caller who is not a patient; 500 and no change when the update fails; otherwise 200 with only that patient row replaced |
| ExportTasks.ExportDir.constructor | backend/tasks/export_tasks.py:19 | the directory starts as given: present or not, with its files and their mtimes |
| ExportTasks.PurgeSnoc | backend/tasks/export_tasks.py:38-43 | one more name removes that file and counts one exactly when it exists and its removal does not raise |
| ExportTasks.Purge | backend/tasks/export_tasks.py:38-45 | the removal loop only ever removes files, and counts no more removals than names it was given |
| ExportTasks.PurgeKeys | backend/tasks/export_tasks.py:38-43 | exactly the named files whose removal does not raise are gone, and the rest keep their mtimes |
| ExportTasks.PurgeCount | backend/tasks/export_tasks.py:40 | the returned count is the number of files that went |
| ExportTasks.PurgeAgain | backend/tasks/export_tasks.py:38-43 | a second pass over the same names removes nothing more and counts zero |
| ExportTasks.Stale | backend/tasks/export_tasks.py:25-37 | no more names are selected than were listed |
| ExportTasks.StaleMembers | backend/tasks/export_tasks.py:25-37 | a name is selected exactly when it is listed, ends in ".csv" in any case, exists and is strictly older than the cutoff |
| ExportTasks.StaleSnoc | backend/tasks/export_tasks.py:25-37 | one more listed name is selected exactly when it passes the same three tests |
| ExportTasks.CleanupStep | backend/tasks/export_tasks.py:25-43 | one turn of the loop, judged against the directory as it then is, equals the same turn judged against the starting directory |
| ExportTasks.CleanupOldExports | backend/tasks/export_tasks.py:11-45 | a missing directory returns 0 and is left alone; otherwise the directory and the count are those of removing the stale CSV files in listing order |
| ExportTasks.CleanupSelection | backend/tasks/export_tasks.py:11-45 | over a complete listing a file is deleted exactly when it is a CSV file older than the cutoff whose removal succeeds, and the rest keep their mtimes |
| ExportTasks.PatientExportsMembers | backend/tasks/export_tasks.py:58-62 | the comprehension keeps exactly the listed names with the patient's prefix and the ".csv" suffix, with no repeats when the listing has none |
| ExportTasks.CleanupOldExportsForPatient | backend/tasks/export_tasks.py:48-81 | a missing directory returns 0 and is left alone; otherwise the directory and the count are those of removing every export of the patient but the greatest name |
| ExportTasks.SortedDistinct | backend/tasks/export_tasks.py:69 | sorting a list without repeats gives a list without repeats |
| ExportTasks.SortedMembers | backend/tasks/export_tasks.py:69 | sorting keeps the same names and the same length |
| ExportTasks.Superseded | backend/tasks/export_tasks.py:58-70 | every export of the patient but one is a candidate for removal, none when there is at most one |
| ExportTasks.SupersededMembers | backend/tasks/export_tasks.py:58-70 | only the patient's own listed exports are candidates for removal |
| ExportTasks.PatientCleanupKeepsGreatest | backend/tasks/export_tasks.py:64-70 | every export of the patient but the greatest name is a candidate, and the greatest is kept |
| ExportTasks.PrefixesDisjoint | backend/tasks/export_tasks.py:58 | no name carries two different patients' prefixes, so patient 3's prefix never matches patient 35's files |
| ExportTasks.PatientCleanupSparesOthers | backend/tasks/export_tasks.py:48-81 | cleaning one patient's exports never removes or changes another patient's export |
| ExportTasks.ClockText | backend/tasks/export_tasks.py:121 | the `%H-%M-%S` part is eight characters |
| ExportTasks.StampText | backend/tasks/export_tasks.py:121 | the timestamp text is nineteen characters |
| ExportTasks.ClockOrder | backend/tasks/export_tasks.py:121 | clock texts compare as strings exactly as the times compare |
| ExportTasks.StampOrder | backend/tasks/export_tasks.py:68-122 | the fixed-width timestamp sorts as text exactly as the moments do in time |
| ExportTasks.ExportNameIsPatientExport | backend/tasks/export_tasks.py:58-122 | the file written is one of that patient's exports for the per-patient cleanup |
| ExportTasks.ExportNameOrder | backend/tasks/export_tasks.py:68-122 | for one patient the name order of two exports is the order in which they were made |
| ExportTasks.TreatmentCells | backend/tasks/export_tasks.py:151-163 | seven treatment fields, all empty without a treatment |
| ExportTasks.ExportRow | backend/tasks/export_tasks.py:165-179 | a row has one field per header |
| ExportTasks.ExportRowContents | backend/tasks/export_tasks.py:137-179 | a row shows the appointment's date, time, reason and capitalised status, and the treatment with the greatest `created_at` or seven empty fields |
| ExportTasks.BuildRows | backend/tasks/export_tasks.py:131-180 | the header row, then one row per appointment in query order |
| ExportTasks.ExportPatientHistory | backend/tasks/export_tasks.py:84-188 | it fails exactly when the id is not a patient user with a patient row, touching nothing; otherwise it writes the named file with those rows, then runs the per-patient cleanup and then the age cleanup; given that the appointments passed are exactly the patient's rows (in any order), every exported row is one of that patient's appointments |
| ExportTasks.NewestSurvivesPatientCleanup | backend/tasks/export_tasks.py:64-81 | a patient's export greater than all their others survives the per-patient pass |
| ExportTasks.FreshSurvivesCleanup | backend/tasks/export_tasks.py:22-37 | a file modified now is never older than the retention cutoff, so the age cleanup keeps it |
| ExportTasks.NewExportSurvives | backend/tasks/export_tasks.py:121-188 | the file just written survives both cleanups when its stamp is later than the patient's other exports |
| ScheduledTasks.SendDailyReminders | backend/tasks/scheduled_tasks.py:14-83 | "no_appointments" exactly when nothing BOOKED is dated today, a crash exactly when a patient without a user is reached, and otherwise the reminders handed over successfully with their count |
| ScheduledTasks.RemindersCrashSticks | backend/tasks/scheduled_tasks.py:45-71 | once the task has raised, later appointments do not matter |
| ScheduledTasks.DueAppointments | backend/tasks/scheduled_tasks.py:24-31 | no more appointments than were scanned, each BOOKED and dated today |
| ScheduledTasks.DueAreDue | backend/tasks/scheduled_tasks.py:24-31 | exactly the appointments dated today with status BOOKED are considered |
| ScheduledTasks.Reminders | backend/tasks/scheduled_tasks.py:39-81 | when the task does not raise, at most one reminder per due appointment is handed over |
| ScheduledTasks.RemindersSound | backend/tasks/scheduled_tasks.py:39-81 | each reminder is for a due appointment with a patient and a doctor row whose send did not raise, and goes to that patient's user's e-mail |
| ScheduledTasks.RemindersOnePerAppointment | backend/tasks/scheduled_tasks.py:39-81 | when the due appointments have distinct ids, no two reminders name the same appointment |
| ScheduledTasks.RemindersComplete | backend/tasks/scheduled_tasks.py:39-81 | every due appointment with both rows and a working send gets its reminder |
| ScheduledTasks.PreviousMonth | backend/tasks/scheduled_tasks.py:95-101 | the range runs from the first to the last day of one month, the day after its end is the first of today's month, and it is missing only in January of year 1 |
| ScheduledTasks.PreviousMonthCovers | backend/tasks/scheduled_tasks.py:95-101 | a date lies in the range exactly when it lies in that month, and every such date is before today |
| ScheduledTasks.InRangeTextIsDateRange | backend/tasks/scheduled_tasks.py:124-125 | the text comparison on stored ISO dates is the date range test |
| ScheduledTasks.CompletedAppointments | backend/tasks/scheduled_tasks.py:119-129 | no more appointments than were scanned, each COMPLETED, the doctor's, and dated in the range |
| ScheduledTasks.CompletedAreCompleted | backend/tasks/scheduled_tasks.py:119-129 | exactly the doctor's COMPLETED appointments whose date text lies in the range are selected |
| ScheduledTasks.CollectCompleted | backend/tasks/scheduled_tasks.py:119-129 | the loop collects exactly the doctor's completed appointments in the range (in table order; the query's ordering by date and time is not modelled) |
| ScheduledTasks.BuildReportRows | backend/tasks/scheduled_tasks.py:136-162 | the loop builds one row per completed appointment that has a patient row |
| ScheduledTasks.ReportRowsFrom | backend/tasks/scheduled_tasks.py:136-165 | every row comes from a listed appointment with a patient row, there are at most as many rows as appointments, and there are none exactly when no appointment has a patient row |
| ScheduledTasks.ReportsCrashSticks | backend/tasks/scheduled_tasks.py:109-194 | once the task has raised, later doctors do not matter |
| ScheduledTasks.GenerateMonthlyReports | backend/tasks/scheduled_tasks.py:86-196 | an overflow exactly when the previous month does not exist, "no_doctors" exactly for an empty doctor table, a crash exactly when a doctor without a user gets a report, and otherwise the reports handed over successfully with their count |
| ScheduledTasks.Reports | backend/tasks/scheduled_tasks.py:109-194 | when the task does not raise, at most one report per listed doctor is handed over |
| ScheduledTasks.ReportsSound | backend/tasks/scheduled_tasks.py:109-194 | every report sent covers the previous month, goes to the doctor's user's e-mail, and lists that doctor's completed appointments in the range that have a patient row, at least one of them |
| ScheduledTasks.ReportsComplete | backend/tasks/scheduled_tasks.py:109-194 | every listed doctor with a user row whose send does not raise, and with a completed appointment in the range that has a patient row, gets a report listing all such rows |
| ScheduledTasks.ReportRowsCompleted | backend/tasks/scheduled_tasks.py:119-162 | each report row names one of the doctor's completed appointments in the range |
| CeleryWorker.PrettyStatus | backend/celery_worker.py:42-52 | a falsy status is "Unknown", the three statuses in any case get their label, and anything else passes through |
| CeleryWorker.PrettyStatusCapitalizes | backend/celery_worker.py:42-52 | for a stored status the label is its `capitalize()` |
| CeleryWorker.PrettyStatusIdempotent | backend/celery_worker.py:42-52 | prettifying a label again changes nothing |
| CeleryWorker.SendEmail | backend/celery_worker.py:55-72 | nothing is sent exactly for a falsy recipient, and a failing send is swallowed exactly when a recipient is given |
| CeleryWorker.ContactEmail | backend/celery_worker.py:75-100 | the object's own e-mail, else its user's, else None, and never an empty text |
| CeleryWorker.PatientEmail | backend/celery_worker.py:75-87 | None for no patient; otherwise a non-empty address that is the patient's own e-mail or its user's |
| CeleryWorker.DoctorEmail | backend/celery_worker.py:90-100 | None for no doctor; otherwise a non-empty address that is the doctor's own e-mail or its user's |
| CeleryWorker.DisplayName | backend/celery_worker.py:103-130 | full_name, else name, else the user's fullname, else the default, and never empty unless the default is |
| CeleryWorker.DoctorDisplayName | backend/celery_worker.py:103-116 | "Doctor" for no doctor; any other name is a non-empty full name, name or user fullname of the doctor |
| CeleryWorker.PatientDisplayName | backend/celery_worker.py:119-130 | "Patient" for no patient; any other name is a non-empty full name, name or user fullname of the patient |
| CeleryWorker.RowsShortenChains | backend/celery_worker.py:75-130 | on the application's rows the e-mail is the linked user's non-empty e-mail and the name is the full name when set, else the default |
| Seed.RandomSlotTime | backend/seed.py:212-227 | the loop from 09:00 to 17:00 gives the sixteen half-hour labels, and the pick is one of them |
| Seed.SlotTimeOnGrid | backend/seed.py:212-227 | whatever the pick, the label is on the grid, from 09:00 to 16:30 |
| Seed.StatusChoices | backend/seed.py:260-272 | every choice is a valid status, and a date after today never offers COMPLETED |
| Seed.DrawDate | backend/seed.py:233-249 | 1 January plus an offset drawn within the year is a valid date of that year |
| Seed.SeedAppointments | backend/seed.py:230-301 | the loop turns the draws it consumes into appointments, stops with `min_count` of them, and stops short only when the draws run out |
| Seed.SeedStep | backend/seed.py:244-294 | one turn computes the draw's `(doctor.id, date_str, time_str)` key and its appointment |
| Seed.SeedTurn | backend/seed.py:255-258 | one turn skips a draw whose key is in `used_slots`, and otherwise adds exactly one appointment and marks its key, moving the loop state to the one after this draw |
| Seed.CandidateKey | backend/seed.py:255-294 | the appointment a draw describes sits in exactly the slot named by the draw's key |
| Seed.StepKeepsDistinct | backend/seed.py:254-258 | each turn keeps the appointments free of double bookings, keeps `used_slots` equal to their keys, and keeps ids consecutive |
| Seed.SeededSlotsDistinct | backend/seed.py:240-297 | the seeded appointments never share a (doctor, date, time) |
| Seed.Run | backend/seed.py:243-294 | the loop never adds more appointments than draws, and marks exactly one used slot key per appointment added |
| Seed.SeededRows | backend/seed.py:243-294 | every seeded appointment is for a listed doctor and patient, on a YYYY-MM-DD date of the current year, at a grid time, with a valid status, and never COMPLETED when dated after today |
| Seed.SeedTreatments | backend/seed.py:337-364 | the nested loops create, in order, `n_treat` treatments for each COMPLETED appointment, and count them |
| Seed.Treated | backend/seed.py:341-347 | without a COMPLETED appointment no treatment is created |
| Seed.TreatedCounts | backend/seed.py:341-347 | with distinct ids each COMPLETED appointment gets exactly its drawn number of treatments and every other appointment none |
| Seed.TreatedOnlyCompleted | backend/seed.py:341-343 | every treatment belongs to a COMPLETED appointment |
| Seed.WipedValid | backend/seed.py:78-93 | the wiped tables satisfy every constraint of the schema |
| Seed.WipeNonAdminData | backend/seed.py:78-93 | the store holds the wiped tables and stays consistent |
| Seed.Wiped | backend/seed.py:84-91 | only existing users are kept; patients, doctors, appointments and treatments are emptied and the availability rows kept |
| Seed.WipeKeepsAdminsOnly | backend/seed.py:84-91 | exactly the admin users survive, unchanged; the availability overrides stay; wiping twice is wiping once |
| Router.BeforeEach | frontend/src/router/index.js:65-91 | a navigation proceeds, goes to Login, or takes a signed-in user to their role's dashboard (the landing page for an unknown role); it proceeds only for a role or a public page, never into another role's area, and never to Login or Register with a role |
| Router.SignedOutSeesPublicOnly | frontend/src/router/index.js:65-71 | without a role only "/", "/login" and "/register" open, and every other path goes to Login |
| Router.SignedInSkipsLogin | frontend/src/router/index.js:73-78 | with a role, Login and Register redirect to that role's dashboard, or to "/" for an unknown role |
| Router.AreaGuard | frontend/src/router/index.js:80-90 | past the first two checks a navigation proceeds exactly when it is outside every other role's area, and otherwise goes to Login |
| Router.DashboardOpens | frontend/src/router/index.js:73-90 | each role's dashboard opens for that role |
| Router.WithinTwoHops | frontend/src/router/index.js:65-91 | following the guard's redirects reaches a navigation that proceeds within two hops |
| AuthStore.Stored | frontend/src/store/authStore.js:7-8 | `getItem(key) \|\| null` is the stored text exactly when the key is present and non-empty |
| AuthStore.WithoutAuth | frontend/src/store/authStore.js:24-27 | both auth keys are gone and every other key is kept unchanged |
| AuthStore.WithAuth | frontend/src/store/authStore.js:14-15 | both auth keys hold the text form of the values and every other key is kept unchanged |
| AuthStore.Store.constructor | frontend/src/store/authStore.js:6-8 | the token and role start as read back from sessionStorage |
| AuthStore.Store.SetAuth | frontend/src/store/authStore.js:10-19 | the new token and role are held, mirrored in sessionStorage, and removed from localStorage |
| AuthStore.Store.Clear | frontend/src/store/authStore.js:21-28 | token and role are null and both keys are removed from both storages |
| AuthStore.SetAuthSurvivesReload | frontend/src/store/authStore.js:7-15 | after `setAuth` with non-empty texts a reload restores the same token and role |
| AuthStore.NullSurvivesAsText | frontend/src/store/authStore.js:7-15 | a null passed to `setAuth` comes back after a reload as the text "null" |
| AuthStore.ClearIsFinal | frontend/src/store/authStore.js:6-28 | after `clear` a reload finds no session, and clearing twice is clearing once |

## Left out

- Flask routing, request parsing and JWT handling are not modelled: the caller's id and role are inputs, and a body is taken as an already decoded JSON object (`Json`).
- SQLAlchemy query building, `ilike` text search and the sort order of list queries (including the monthly report's ordering of its rows by date and time) are not modelled; a table scan is a sequence in table order or a map by id.
- The read-only endpoints are not modelled: admin stats, the admin doctor, patient and appointment lists, `get_doctor`, `get_patient`, `/me`, the doctor's appointment list, treatment view and patient history, and the patient's doctor list, profile view, appointment list and single-appointment view. Only the latest-treatment pick of the patient history (`PatientRoutes.HistoryTreatments`) is modelled.
- Floats are not modelled: height and weight in the profile update and `random.uniform` in the seeder.
- SQLite's type-affinity coercion is modelled only as far as the driver's binding goes: a boolean is bound as 1/0 and an integer as its value, which a text column keeps as decimal text, and a string of ASCII digits compared with an integer key is converted; REAL values and the other affinity rules are not modelled.
- Password hashing is modelled as equality of the password texts (`AuthRoutes`), and a truthy non-string password as the 500 that hashing raises.
- JWT creation is modelled by the token's contents only: identity `str(user.id)`, the role claim and an eight-hour lifetime.
- Ids are counters above every stored key, standing for the database's autoincrement.
- The race between the booking pre-check and the insert is not modelled; the model is sequential and the unique constraint stands in for the database.
- Common.Upper, Common.Lower, Common.Capitalize: only the ASCII letters change case, not the full Unicode case mappings; the statuses they are compared with are ASCII.
- Dates.ParseIso: `datetime.fromisoformat(...).date()` is modelled on the ten-character `YYYY-MM-DD` form only. That call also accepts a date followed by a separator and a time (`2030-01-01T10:00`, `2030-01-01 10:00`) and takes its date part; the available-slots and booking routes accept such texts, and the model answers 400 for them. The cancellation route reads a stored date with the same call and the model with ParseIso, so a stored date-time text counts as unparsable there too.
- PatientRoutes.SlotsCode, PatientRoutes.BookingRequest: a date followed by a time, which the routes accept by its date part, is answered with 400 (see Dates.ParseIso).
- Dates.Strptime: only ASCII digits are accepted in the fields.
- Json.SqlText, Json.SqlIntKey: JSON numbers with a fraction or an exponent are not represented, since floating point is not modelled; a path or body id is accepted as ASCII digits only.
- Common.SortDescBy: the order among rows with equal keys is not stated.
- Redis connection setup, the SCAN cursor protocol and key expiry (TTL) are not modelled; the store is a map from key to JSON text. JSON encoding and decoding are parameters of `CacheUtils`.
- Celery and beat configuration, Flask-Mail, `render_template` and the mail subjects and bodies are not modelled; a mail is its recipient and the values it shows, and which sends raise is an input.
- `os.listdir`, `os.stat` and `os.remove` are modelled as a map from file name to a modification time in whole seconds, with the listing and the failing removals as inputs; a file vanishing between listing and `stat` is not modelled, and a missing file is simply not selected.
- ExportTasks.ExportPatientHistory: returns the file name, not the absolute path under `EXPORT_DIR`; the CSV writer's quoting is not modelled, only the field values.
- ExportTasks.CleanupOldExports: the retention period is a parameter rather than `EXPORT_RETENTION_DAYS`, and "now" is an input.
- Seed: every random choice is an input, so the appointment loop is bounded by the draws it is given; the contents of seeded treatments (diagnosis, medicines, notes) are not modelled; `seed_doctors`, `seed_patients`, `ensure_admin` and `main` are not modelled.
- Seed.WipeNonAdminData: the availability overrides are kept, as the source does not delete them.
- Router: a redirect by route name is written as the path that name is registered under; the route table itself is not modelled.
- AuthStore: the two Web Storage areas are fields of the store, and `setItem` of null stores the text "null".
- The axios interceptor, the health check and the configuration constants are wiring and are not modelled.

## Findings

| source | as written | input that shows it | evidently intended | confidence | as-written member | corrected member |
|---|---|---|---|---|---|---|
| backend/routes/admin_routes.py:11-23 | `_require_admin` returns three values on success and four on failure, while every admin handler unpacks four | a caller whose role claim is "admin" | four values on both paths, so that admins are admitted | not executed | AdminRoutes.AdminGuardAdmitsNobody | AdminRoutes.AdminGuardAdmitsAdmins |
