# Clinic backend rules, modelled in Dafny

This project models the rules inside the request handlers of a clinic
management backend, a Flask/SQLAlchemy service. The backend books
appointments, records visits and their treatments, bills treatments to patient
accounts, keeps an inventory with a change log, manages patients, doctors and
prescriptions, and rate-limits logins.

## How the model is built

- **Tables.** The database is one class, `Store.Db`. It has one `map<int, Row>`
  per table and two append-only sequences: the billings and the inventory change
  log. Every table takes its row ids from one counter, `nextId`.
- **Handlers.** Each handler is a method on the database.
  - It returns `Ok(value)` or `Fail(error)`, where the error is the outcome the
    handler responds with: 400, 401, 403, 404, 409, 429 or 500.
  - An early return leaves every table as it was.
  - A success replaces the tables it writes, which stands for the commit.
  - The `modifies` clause names the fields the handler may write.
- **Invariant.** `Db.Valid()` holds before and after every handler. It says:
  - ids are fresh, and patient, doctor, user and visit links resolve;
  - license numbers are unique;
  - no two blocking appointments of a doctor overlap;
  - each account balance equals what the billings posted to it add up to;
  - each item quantity equals the sum of its change log.
- **Units.** Times are whole minutes and money is whole cents. A date of birth is
  a civil date with Python's day numbering. Dafny integers are unbounded.
- **Outside inputs.** The caller's role and user id come in as an `Actor`. The
  current time, the password hash and the password check are parameters.
- **Request parsing.** Inputs arrive already parsed.
  - A field that was not sent is `None`, because the parser stores a missing
    argument as `None`.
  - A date that does not parse is a separate case.
  - Defaults declared by the parser are already filled in.
- **`.first()`.** Where the code takes the first row of a query, the model takes
  the row with the lowest id: the appointment blocking a booking, the user with
  a login email.

The model follows the code's checks in the code's order, and for each
failing check it states which answer the caller gets. It keeps the places
where the code differs from a natural reading:

- A booking does not check its duration. A reschedule rejects a non-positive one.
- The reschedule overlap check runs on every patch. Every patch argument is
  present, so the code's guard `'date' in data or ...` is always true.
- A visit patch is parsed with the recording parser. It therefore needs every
  field that recording requires.
- A visit may be recorded with an inactive doctor.
- A doctor patch that sends nothing succeeds.
- Phone numbers are checked with Python's `$`, which also matches before one
  trailing newline.
- The registration email pattern is matched only at the start of the string.
- A prescription created without a medication list stores no list. The
  parser's `None` beats the `[]` fallback of `get`.

Four rules, read as written, contradict what the code evidently intends. See
"Findings". For each one the model has a member that states the rule as
written and a member that states the intended rule. The handlers use the
intended rule, so on the inputs named there they answer differently from the
code. "Left out" names each of those handlers.

## Model

| member | source | states |
|---|---|---|
| Schedule.ClashSymmetric | resources/appointment.py:141-145 | Two appointments of one doctor overlap in either order, or in neither. |
| Schedule.TouchingNeverClash | resources/appointment.py:143-144 | An appointment ending exactly when another starts does not overlap it. |
| Schedule.FreeNeverBlocks | resources/appointment.py:145 | A cancelled, completed or no-show appointment never blocks any interval. |
| Schedule.InsertKeepsNoDoubleBooking | resources/appointment.py:139-166 | Inserting an appointment that no blocking appointment of its doctor overlaps keeps the "no double booking" invariant. |
| Schedule.ReplaceKeepsNoDoubleBooking | resources/appointment.py:254-271 | Replacing an appointment by one that overlaps no OTHER blocking appointment of its doctor keeps the invariant. |
| Schedule.ReleaseKeepsNoDoubleBooking | resources/appointment.py:309 | Setting an appointment to a non-blocking status keeps the invariant. |
| Schedule.BookedSlotReportsItself | resources/appointment.py:409-417 | After a booking into a free slot, the conflicts query over that slot reports exactly the new appointment. |
| Appointments.OverlapFilterFailsAsWritten | resources/appointment.py:141-146 | As written, the overlap filter fails with a server error whatever the table and interval. Each row's end `date + timedelta(minutes=<the duration column>)` is a TypeError. With the row's own duration, the end is the row's end time. |
| Appointments.Timedelta | resources/appointment.py:144 | `timedelta(minutes=...)` yields its number, and for anything that is not a number it is a server error. |
| Appointments.RowEnd | resources/appointment.py:144 | With the row's own duration, the end the filter builds for a row is the row's end time. |
| Appointments.FirstBlocker | resources/appointment.py:141-146 | Returns none exactly when no blocking appointment of the doctor overlaps the interval (the optional id aside), otherwise the lowest such id. |
| Appointments.Book | resources/appointment.py:110-167 | Checks, in the code's order: role (403), fields and date (400), patient (404), a patient caller's ownership (403), an active doctor (404). Then, when some blocking appointment of the doctor overlaps the interval, 409 with the lowest conflicting id and its start and end. Success inserts a `scheduled` appointment under a fresh id, and failure changes nothing. |
| Appointments.Patch | resources/appointment.py:185-274 | Checks, in the code's order, each with its answer: existence (404), who may patch (403), the new patient (404), the new doctor active (404), a doctor not reassigned by a patient or doctor (403), the date parses and a sent duration is positive (400), a status change not by a patient (403). Then, when the patched interval overlaps another blocking appointment of its doctor, 409 with the lowest such id and its start and end. Any status may be set, and success stores the patched appointment. |
| Appointments.Cancel | resources/appointment.py:288-313 | The owners and staff set the status to `cancelled` whatever it was, so cancelling twice equals cancelling once. Others get 403, an unknown id gets 404. |
| Appointments.RowOf | resources/appointment.py:419-427 | A conflict row carries the appointment's id, its start (the appointment's date), its end (`date + duration`), its patient and its status. |
| Appointments.CollectBlockers | resources/appointment.py:409-428 | Scanning ids below the counter yields a row for every blocking appointment of the doctor that overlaps [start, end), only for those, each the row of its appointment, ids strictly increasing. |
| Appointments.Conflicts | resources/appointment.py:391-427 | Staff only (403), fields required and times parsed (400). Returns one row per blocking appointment of the doctor that overlaps [start, end), exactly those, in id order, each the row of that appointment. |
| Stock.LoggedAppend | resources/inventory.py:126-137 | Appending a change record moves only its item's logged total, and by exactly its quantity change. |
| Stock.LoggedUnseen | resources/inventory.py:83-88 | An item with no change records has a logged total of 0. |
| Stock.CreateKeepsConsistent | resources/inventory.py:67-88 | A new item whose initial quantity is logged as one change keeps "quantity equals logged total" for every item. |
| Stock.AdjustKeepsConsistent | resources/inventory.py:123-137 | Moving an item's quantity by a change and logging that change keeps the invariant. |
| Inventory.Create | resources/inventory.py:55-100 | Technician or admin only (403), a new name (409). The item is stored with the default minimum of 5, empty description and supplier dropped, and the restock date set to now. The log gains a `restock` change equal to the initial quantity, noted "Initial stock". |
| Inventory.Update | resources/inventory.py:109-164 | A non-zero adjustment moves the quantity by exactly that amount, with no lower bound. It logs a change of that amount, which is `restock` iff positive. Only a positive one stamps the restock date. Other fields are replaced when sent, and an empty description or supplier clears it. A request that changes nothing gets 400 and changes nothing. |
| Inventory.View | resources/inventory.py:211-223 | The low-stock flag is true iff the quantity is at or below the minimum. |
| Inventory.CollectListed | resources/inventory.py:39-52 | Scanning ids below the counter yields the view of every item that passes both filters, only of those, ids strictly increasing. |
| Inventory.List | resources/inventory.py:27-52 | Technician or admin only. Returns each item passing the category filter and, when `low_stock` lower-cased is "true", the low-stock predicate, exactly once, in id order. |
| Ledger.OwedAppend | resources/billings.py:51-57 | A posted billing moves only its account's total owed, by cost minus payment when a payment is recorded. |
| Ledger.OwedUnbilled | resources/billings.py:35-38 | An account with no billings owes 0. |
| Ledger.OpenKeepsConsistent | resources/billings.py:35-38 | Opening an account at balance 0 for a patient without one keeps "balance equals billings owed". |
| Ledger.PostKeepsConsistent | resources/billings.py:52-55 | Posting a billing and moving its account's balance by the billing's contribution keeps the invariant. |
| Ledger.UnpaidMovesNothing | resources/billings.py:51-52 | A billing without a recorded payment leaves every account's total owed unchanged. |
| Billings.Payer | resources/billings.py:27-35 | The account a treatment is billed to belongs to an existing patient, the one treated at the treatment's visit. |
| Billings.Post | resources/billings.py:18-61 | Receptionist or admin (403), a known treatment (404). The account is opened at 0 when missing, and the billing amount is the treatment cost. With a payment > 0, the paid amount is recorded, is-paid is set iff payment >= cost, the balance grows by cost minus payment, and the payment date is set. Otherwise the balance and payment date stay unchanged. Afterwards the account's balance is what its billings owe, and that total grew by exactly the new billing's contribution. |
| Billings.OwnBillingRefused | resources/billings.py:91-95 | As written, a patient is refused even on their own billing. |
| Billings.ReadRuleDifference | resources/billings.py:91-95 | The intended read rule differs from the written one exactly for a patient reading their own billing. |
| Billings.Get | resources/billings.py:81-97 | An unknown billing gets 404. The billing is returned iff the caller is staff or the billed patient, and otherwise 403. |
| Common.NonEmpty | resources/billings.py:46 | An optional text is kept iff it was sent and is non-empty. |
| Visits.EntriesAsWritten | resources/visit.py:114 | As written, a request without a treatment list fails with a server error, and a list is used as sent. |
| Visits.MissingListFailsAsWritten | resources/visit.py:114 | As written, a visit request that sends no treatment list fails. |
| Visits.Entries | resources/visit.py:114 | As intended, a request without a treatment list has no entries, and a list is used as sent. |
| Visits.AddTreatments | resources/visit.py:113-123 | Succeeds iff every entry has a name, and fails with a server error otherwise. On success the table gains exactly one treatment per entry, in order, under fresh ids, with the visit's doctor and cost 0 when absent, and no existing treatment changes. |
| Visits.Post | resources/visit.py:72-135 | Checks, in the code's order: role (403), required fields (400), patient (404), doctor (404), linked appointment (404), its patient and its doctor (400). Success stores the visit with its treatments and sets the linked appointment to `completed` whatever its status, all in one commit. Failure changes nothing. |
| Visits.Patch | resources/visit.py:155-198 | Doctor or admin (403), known visit (404), the recording fields present (400). Sets the notes when sent and the duration when non-zero, and adds one treatment per entry while keeping every existing one. A request with no notes, a zero duration and no entries gets 400. |
| Visits.ResultCap | resources/visit.py:255 | The limit passed to the search query is min(max_results, 100): never above 100 or above max_results, and always one of the two. |
| Validators.PhoneShapes | resources/patient.py:81 | The phone pattern accepts exactly 10 to 15 ASCII digits, optionally after '+' and optionally before one newline. |
| Validators.PhoneAcceptsTrailingNewline | resources/patient.py:81 | A ten-digit number followed by a newline passes the phone check. |
| Validators.SpecialtyIsWholeString | resources/doctor.py:90 | A specialty is accepted iff it is non-empty and made only of word characters, whitespace and '-'. |
| Validators.FirstAtFrom | resources/auth.py:143 | Finds the first '@' at or after a position, or the end when there is none, with none in between. |
| Validators.EmailMatchesPattern | resources/auth.py:143 | The email check accepts iff the text starts with: some non-'@' characters, '@', non-'@' characters, '.', and at least one non-'@' character. |
| Validators.EmailIgnoresSuffix | resources/auth.py:143 | Anything appended to an accepted email is still accepted, because the match is not anchored at the end. |
| Validators.Lower | resources/auth.py:43 | Lower-casing keeps the length and lower-cases each character. |
| Validators.LowerIdempotent | resources/auth.py:140 | Lower-casing an already lower-cased email changes nothing. |
| Validators.MaskPhone | resources/visit.py:269 | The masked phone is the phone's first four characters (all of it when shorter) followed by six stars. |
| Validators.MaskHidesRest | resources/visit.py:269 | Two phones sharing their first four characters mask to the same text. |
| Validators.AgeCountsAnniversaries | resources/visit.py:274-276 | The birthday-adjusted age is at least n exactly when the n-th birthday has been reached. |
| Validators.DayCountAdmitsAgeZero | resources/patient.py:86-88 | The 365-day rule admits a birth date on which the patient's age is 0. |
| Validators.OldEnoughFromFirstBirthday | resources/patient.py:228-233 | The intended minimum-age rule holds exactly from the first birthday on. |
| Patients.Register | resources/patient.py:73-139 | Receptionist or admin (403), required fields (400), phone pattern (400), a real birth date at least one year back (400), a new name (409), a password when a login user is asked for (400), each code stated for its check. The patient is active and gets an account at balance 0. The optional login user is an active patient user whose email is the given one or `patient-<phone>@clinic.com`; it is inserted before the patient row that refers to it. |
| Patients.Amend | resources/patient.py:159-207 | Unknown patient 404, a patient caller on another's record 403, other roles 403. Sent fields are copied, a sent phone must match (400), and activation is admin-only (403) and is copied to the linked user. Nothing sent gets 400. Each code is stated for its check, in the code's order. |
| Patients.AfterLastAt | resources/patient.py:244 | Returns the text after the last '@', or all of it when there is none. It contains no '@', and an '@' precedes it when shorter. |
| Patients.MaskedViewShowsOnlyVisible | resources/patient.py:236-251 | A technician's view of two patients agreeing on the name, gender, birth date, activation, emergency contact name, phone prefix, email initial and domain is the same, whatever their other contact details, insurance ids and balances. |
| Patients.Get | resources/patient.py:35-54 | Unknown 404, another patient's record 403. The view carries the birthday-adjusted age, the full phone for every role but technician, and for a technician no balance and a hidden insurance id. |
| Doctors.Register | resources/doctor.py:78-121 | Admin only (403), fields required, rate > 0, specialty and phone patterns (400), an unused license (409). Makes a doctor user with the temporary password and an active profile. |
| Doctors.Amend | resources/doctor.py:130-181 | Unknown 404, neither admin nor the doctor's own user 403. Then, in the code's order: a positive rate (400), a license no OTHER doctor holds (409), phone pattern (400), activation admin-only (403), each code stated for its check. Name and email go to the linked user. |
| Doctors.Deactivate | resources/doctor.py:188-202 | Admin only (403), known doctor (404). Sets the doctor inactive and removes nothing. |
| Prescriptions.VisitPartiesMayRead | resources/prescription.py:25-62 | Prescription reads seen from the visit's data. The user of the visit's doctor, the user of the visit's patient, admins and receptionists get the prescription. A technician, any other doctor and any other patient get 403. |
| Prescriptions.WritersMayRead | resources/prescription.py:68-86 | Whoever may create or change a prescription may read it. |
| Prescriptions.Get | resources/prescription.py:45-62 | Unknown 404. The prescription is returned iff the read rule admits the caller, and otherwise 403. |
| Prescriptions.Create | resources/prescription.py:65-97 | Doctor or admin (403), fields required (400), a known visit (400), a doctor on another doctor's visit gets 403. Stores the prescription with its medication list as sent, under a fresh id. |
| Prescriptions.Amend | resources/prescription.py:113-144 | Doctor or admin (403), known prescription (404), a doctor on another doctor's visit's prescription gets 403. Replaces only the details and medications sent. |
| Prescriptions.Delete | resources/prescription.py:153-165 | Admin only (403), then an unknown prescription gets 404. Removes exactly that prescription. |
| Auth.KeyInjective | resources/auth.py:103-118 | Different emails are counted under different cache entries. |
| Auth.BumpCounts | resources/auth.py:107-112 | A failure adds exactly 1 to that email's count when a cache exists, and changes no other email's count. |
| Auth.ClearForgets | resources/auth.py:114-118 | A reset sets that email's count to 0 and changes no other email's count. |
| Auth.FailuresAccumulate | resources/auth.py:107-112 | n failures add n to the count when a cache exists. Without a cache the count stays 0. |
| Auth.LockoutAfterFive | resources/auth.py:99-118 | From a reset, an email is rate-limited iff it has had at least 5 failures. Without a cache it never is. |
| Auth.LoginThrottle.RecordFailedAttempt | resources/auth.py:107-112 | Stores the missing-as-0 count plus one, only when the cache exists. |
| Auth.LoginThrottle.ResetFailedAttempts | resources/auth.py:114-118 | Removes the email's entry when the cache exists. |
| Auth.FindUser | resources/auth.py:53 | Finds the lowest id of a user with the email, or none exactly when no user has it. |
| Auth.Login | resources/auth.py:35-94 | Checks, in the code's order: both fields non-empty (400), the lower-cased email not rate-limited (429, even with the right password), a user (401, counter untouched), an active user (403), the password (401). A wrong password counts one failure and a success clears the count and stamps the login time. No other outcome touches the counter. The application as shipped never sets the cache (app.py), so it runs the no-cache case: the count stays 0 and 429 never happens. |
| Auth.Register | resources/auth.py:138-165 | The lower-cased email must match the pattern (400), and an email some user already has gets 409. The role may not be admin. Stores an active user with the hashed password. |
| Models.ValidatePhone | models.py:32-36 | Refuses iff the number is shorter than 10 or has a non-digit. The refusal is a raised error that no handler catches, so a server error. Otherwise returns the number unchanged. |
| Models.ValidatorAndPattern | models.py:32-36 | The validator and the handlers' phone pattern agree on numbers of 10 to 15 digits. The validator refuses a leading '+'. |
| Models.ValidatorHasNoUpperBound | models.py:34 | Sixteen digits pass the validator but not the handlers' pattern. |
| Models.TotalBalanceAppend | models.py:38-39 | The total balance of two runs of visits is the sum of their totals. |
| Models.TotalBalanceSkipsUnrecorded | models.py:38-39 | No visits total 0. A visit without a balance adds nothing, and one with a balance adds it. |
| Models.TotalBalanceOrderFree | models.py:38-39 | Adding a visit at either end gives the same total. |
| Models.StoreVisit | models.py:66 | A visit row is stored iff its amount paid is not negative. The total balance then grows by the row's balance. A refused row is an integrity error at commit, so a server error. |

## Left out

- Token issuing, refresh, logout and the "me" endpoint are not modelled, and neither is bcrypt. The password check and the password hash are parameters, and the current time is a parameter.
- `bleach.clean` is taken as the identity. Request parsing is taken as done: choices, types and required fields become `Option` and already-parsed values.
- Audit-log rows, database errors (the 500 on a failed commit), sessions and concurrency are not modelled.
- The JWT identity is issued as a string (resources/auth.py:73) and compared with integer user ids. The model compares integers throughout.
- Floating-point money and float comparisons are not modelled: money is whole cents.
- Patterns and `str.isdigit` are restricted to ASCII. Python's Unicode `\w`, `\s`, `str.lower` and `isdigit` accept more characters.
- Models.ValidatePhone: treats only ASCII digits as digits, whereas Python's `isdigit` also accepts other Unicode digits.
- Doctors.Register: the handler does not set the login user's active flag, and its column default is not in the source. The model takes the user as active.
- Auth.Register: the optional `phone` argument, stored on the user when non-empty (resources/auth.py:129, 160-161), is not modelled; the model's user record has no phone field. The role-specific profiles made after registration are not modelled (resources/auth.py:167-178). The Receptionist and Technician tables are not part of this model, and the doctor profile named there has no columns in common with the one the doctor handlers use.
- Appointments.Conflicts and Inventory.List: rows come in id order. The inventory list is ordered by name in the code, and ordering by text is not modelled.
- Read-only listings are not modelled: patient, doctor, appointment and visit lists and their filters, and the doctor schedule and availability views.
- The patient's last visit and next appointment, and a doctor's patient count and next available slot, are not modelled. The next-available slot is a fixed placeholder in the code.
- The medical-history resource, inventory deletion, `resources/users.py`, `resources/treatments.py`, `resources/analytics.py`, `app.py` and `create.py` are not modelled. They are CRUD plumbing or queries outside these rules.
- Visits.ResultCap: the search's SQL `LIKE` matching is not modelled, only the cap on the number of results. For max_results <= 0 the query receives that value as its limit, which is not a bound on the rows returned.
- Patients.Get: the code tests `if patient_id:`, so a request for id 0 runs the listing branch and answers 200 with a list; the model answers 404 (ids start at 1, so no patient has id 0); the listing itself is the patient list left out above.
- Patients.Register: applies the intended age rule (at least one year old by the birthday-adjusted age), not the 365-day count at resources/patient.py:87. Born 2023-03-01 and registered 2024-02-29, the code registers the patient and the model answers 400.
- Visits.Post: uses the intended treatment list, where a missing list means none. With no `treatments` field the code fails at resources/visit.py:114 with a server error and writes nothing, while the model records the visit.
- Visits.Patch: likewise uses the intended treatment list. With no `treatments` field the code fails at resources/visit.py:180 with a server error, while the model applies the patch, or answers 400 when nothing else changes.
- Billings.Get: applies the intended read rule. A patient reading a billing of their own gets 403 from the code (resources/billings.py:94) and the billing from the model.
- Appointments.Book: uses the intended overlap filter. As written, every booking that passes the doctor check fails at resources/appointment.py:144 with a server error. The model answers 409 or books.
- Appointments.Patch: uses the intended overlap filter. As written, every patch that passes its checks fails at resources/appointment.py:260 with a server error, since that filter always runs. The model answers 409 or stores the patch.
- Appointments.Conflicts: uses the intended overlap filter. As written, every parsed request fails at resources/appointment.py:412 with a server error. The model returns the rows.

## Findings

| source | as written | input that shows it | evidently intended | confidence | as-written member | corrected member |
|---|---|---|---|---|---|---|
| resources/patient.py:87 | a patient may be registered when the birth date is at least 365 days back | born 2023-03-01, registered 2024-02-29: 365 days back, age 0 | the patient is at least one year old by the age the same file computes (resources/patient.py:228-233), as the error message says | medium, not executed | Validators.DayCountAdmitsAgeZero | Validators.OldEnoughFromFirstBirthday |
| resources/visit.py:114 | `data.get('treatments', [])` returns None when no list is sent, so the loop fails with a server error | a visit request with no `treatments` field | a missing list means no treatments | high, not executed | Visits.MissingListFailsAsWritten | Visits.Post |
| resources/appointment.py:144 | the overlap filter builds each row's end as `Appointment.date + timedelta(minutes=Appointment.duration)`. Python's timedelta takes only numbers, so this raises TypeError while the query is built, outside any handler for it, and the answer is a server error. The same filter is at :260 and :412 | any booking whose doctor is active and whose patient checks pass; any patch that passes its checks; any parsed conflicts request | the interval test on each row's own end, `date + duration > start` | high, not executed | Appointments.OverlapFilterFailsAsWritten | Appointments.FirstBlocker |
| resources/billings.py:92-95 | after the own-billing check for patients, every non-staff role is refused, so no patient can read their own billing | a patient fetching a billing for their own treatment | staff, or the patient the billing is for | medium, not executed | Billings.OwnBillingRefused | Billings.Get |
