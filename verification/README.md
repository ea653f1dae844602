# DocPlus booking ledger in Dafny

DocPlus is a doctor-appointment web application. This project models its
booking ledger, which lives in the `new-backend` Express/Mongoose server, and
the front-end pieces that feed it or mirror it.

- **Slots.** Each doctor carries an embedded sequence of slots, each with a
  date, a time label and an `isAvailable` flag.
- **Appointments.** Booking takes the first open slot with the requested UTC
  day and time. Cancelling releases the first slot with that day and time.
- **Status.** An appointment moves from `pending` to `paid` or `cancelled`.
- **Profiles and accounts.** Patient profiles are upserted per user account.
  Accounts are unique by email.

The store is one value, `Store.State`. It holds:

- doctors and appointments by document id;
- patient profiles and user accounts by user id;
- a counter from which fresh document ids are drawn.

Every state-changing handler has two parts:

- a pure step function (`BookStep`, `CancelStep`, `UpsertStep`, …) from the
  store and the request to the next store and the HTTP reply;
- an imperative method on the `Store.Db` object that performs the same step
  in place. Its `ensures` ties it to that function.

The properties are proved as lemmas about the step functions. The two
versions of booking and cancelling are modelled side by side over the same
store:

- the mounted router (`AppointmentsRouter`);
- the unmounted controller (`AppointmentController`).

They differ in check order, status guards and the order of their two saves.
A `SaveOutcome` parameter makes the save order observable: a second save that
throws leaves the first one written.

Modules, one per source file or concern:

- `Common`: options, JavaScript truthiness, instants and UTC days, `filter`
  and `find`.
- `JsStrings`: `trim`, `toLowerCase`, `\s`, `\d`.
- `Models`: the four schemas.
- `Store`: the store, the replies, the sort and the `Db` class.
- `SlotLedger`: slot matching and flipping.
- `AppointmentsRouter`, `AppointmentController`, `PatientsRouter`,
  `PatientController`, `AuthRouter`: the route handlers and controllers.
- `Backfill`: the profile back-fill script.
- `Seed`: `generateTimeSlots`.
- `AppointmentPage`, `MyAppointmentsPage`, `DoctorsPage`, `RelatedDoctors`,
  `SignUp`: the front-end pieces.
- `Findings`: the code as written where it is evidently wrong.

Calls the model cannot see become parameters:

- the payment signature check is an uninterpreted `sign` function (HMAC-SHA256
  keyed by a secret);
- the gateway's order lookup is `orderNotes`;
- the password check is `matches`;
- the caller's identity is a `caller` user id;
- the clock is a `now` instant;
- `today` is an instant;
- a database's free choice (which account the back-fill handles next, the
  order of equal dates in a sort) is a nondeterministic choice in a method.

Where the system's documented behaviour and the code differ, the model
follows the code:

- **Profile upsert.** The mounted `POST /api/patients`
  (`new-backend/routes/patients.js:42-62`) overwrites a stored profile.
  Optional fields the form omits become `""` or null. It does not merge.
  Merging is what the unmounted `createPatient` does.
- **Cancelling in the controller.** The controller's cancel has no status
  guard. It cancels paid and already-cancelled appointments alike.
- **Verifying a payment.** The router's `verify-payment` checks neither status
  nor owner. A correctly signed payment revives a cancelled appointment.

One place where the model departs from the code, on purpose:

- **Patient profile key.** The Patient schema names its identity key
  `clerkId` and requires it. Every route and script looks profiles up and
  builds them by a `user` field instead. The model keys profiles by user id,
  as the routes intend, and its main operations save a new profile as the
  code evidently means to. As written, every save of a new profile fails
  validation; the "Findings" table lists the three places (registration, the
  mounted profile route and the profile controller) with their as-written
  members, and "Left out" says the same for the back-fill script.

Behaviour of the code that the model keeps, although it breaks the idea that
"a slot is unavailable exactly when a live appointment holds it":

- `PUT /:id` rewrites date, time and doctor without touching any slot, and
  does not check that the doctor exists.
- `DELETE /:id` never releases the slot.
- Cancelling releases the first slot with the same day and time, whichever
  appointment took it.
- The Appointment schema has no timestamps, so `updatedAt` is never written.
  The controller's 24-hour prune therefore deletes nothing. Its listing drops
  a cancelled appointment at once, not after a day.

Assumptions about Mongoose:

- A `$set` drops keys whose value is `undefined`.
- `findOneAndUpdate` runs no validators.
- Casting `""` to a Date gives null.
- A date string that does not parse is an Invalid Date. `toISOString` throws
  on it, and the schema's cast of it fails.

## Model

| member | source | states |
|---|---|---|
| Models.ParseStatus | new-backend/models/Appointment.js:29-33 | the status enum accepts exactly "pending", "paid" and "cancelled", and each accepted name prints back to itself |
| Models.StatusRoundTrip | new-backend/models/Appointment.js:29-33 | every status parses back from its name |
| Models.ParseGender | new-backend/models/Patient.js:9 | the gender enum accepts exactly "male", "female", "other" and "", each printing back to itself |
| Models.GenderRoundTrip | new-backend/models/Patient.js:9 | every gender parses back from its name |
| Models.ParseRole | new-backend/models/User.js:7 | the role enum accepts exactly "patient" and "doctor" |
| Models.RoleRoundTrip | new-backend/models/User.js:7 | every role parses back from its name |
| Store.FreshIdIsUnused | new-backend/routes/appointments.js:158-169 | in a consistent store the counter names no appointment, no account and no profile: a new document's id is fresh |
| Store.SortNewestFirst | new-backend/routes/appointments.js:33-35 | a query result sorted by date descending lists exactly the matched ids, each once, later dates first |
| Common.FindFirst | new-backend/routes/appointments.js:145-152 | `find` returns the first index whose element passes, and none only when no element passes |
| Common.FindFirstIs | new-backend/routes/appointments.js:145-152 | the first passing index is the one `find` returns |
| Common.Filter | frontend/src/pages/Doctors.jsx:15-17 | `filter` keeps only elements that pass and never grows the list |
| Common.FilterMembership | frontend/src/pages/Doctors.jsx:15-17 | an element is kept by `filter` exactly when it is in the input and passes |
| Common.FilterIsSubsequence | frontend/src/pages/Doctors.jsx:15-17 | `filter` keeps the input order |
| Common.FilterAll | frontend/src/pages/Doctors.jsx:15-17 | filtering with a predicate every element passes gives back the input |
| Common.DayKeyIsContainingDay | new-backend/routes/appointments.js:146-149 | the ISO day key of an instant is the one UTC day whose 24 hours contain it |
| Common.DayKeyShift | new-backend/scripts/seedDoctors.js:80-81 | shifting an instant by n whole days shifts its day key by n |
| Common.DayKeyOfDayStart | frontend/src/pages/Appointment.jsx:133-134 | midnight UTC of a day has that day as its key |
| JsStrings.LeadingSpace | frontend/src/pages/Doctors.jsx:16 | the count of leading characters `trim` removes: all of them are whitespace and the next character is not |
| JsStrings.TrailingSpace | frontend/src/pages/Doctors.jsx:16 | the count of trailing characters `trim` removes: all of them are whitespace and the character before them is not |
| JsStrings.TrimStart | frontend/src/pages/Doctors.jsx:16 | the front trim drops only leading whitespace and keeps a suffix that does not start with whitespace |
| JsStrings.TrimEnd | frontend/src/pages/Doctors.jsx:16 | the back trim drops only trailing whitespace and keeps a prefix that does not end with whitespace |
| JsStrings.TrimIsCore | frontend/src/pages/Doctors.jsx:16 | `trim` keeps a contiguous middle part; everything dropped is whitespace; the result neither starts nor ends with whitespace |
| JsStrings.TrimIdempotent | frontend/src/pages/Doctors.jsx:16 | trimming twice is trimming once |
| JsStrings.ToLower | frontend/src/pages/Doctors.jsx:16 | lower-casing keeps the length and maps each character |
| JsStrings.NormalizeIdempotent | frontend/src/pages/Doctors.jsx:16 | trim-then-lower-case twice is the same as once |
| JsStrings.NormalizeIgnoresPadding | frontend/src/pages/Doctors.jsx:16 | surrounding whitespace does not change a normalized speciality |
| SlotLedger.BookableInIsFirstMatch | new-backend/routes/appointments.js:144-152 | a booking picks the first slot with the same UTC day and time label that is still available, and none only when no slot is such |
| SlotLedger.TakenSlotNotOfferedAgain | new-backend/routes/appointments.js:172-173 | once the slot a booking took is flipped, the same request never picks it again; with unique (day, time) pairs it finds no slot |
| SlotLedger.ReleasedSlotOfferedAgain | new-backend/routes/appointments.js:216-227 | with unique (day, time) pairs, releasing a pair's slot makes a booking of that pair pick it |
| SlotLedger.SetAvailableKeepsKeys | new-backend/routes/appointments.js:172 | flipping a flag keeps every slot's date and label, so unique pairs stay unique |
| AppointmentsRouter.PostAppointment | new-backend/routes/appointments.js:122-190 | the in-place booking performs exactly `BookStep` on the database |
| AppointmentsRouter.BookChecksInOrder | new-backend/routes/appointments.js:129-156 | no profile gives 400 with requiresProfile before anything else, then an unknown doctor 404, then no matching slot 400, each leaving the store as it was |
| AppointmentsRouter.BookFailureWritesNothing | new-backend/routes/appointments.js:158-189 | a refused booking leaves the store unchanged; only a failing second save leaves a partial write, with a 500 |
| AppointmentsRouter.BookSuccess | new-backend/routes/appointments.js:158-173 | a successful booking adds one pending appointment with the doctor's fee, the requested date and time and a fresh id; it flips exactly the first matching slot to unavailable; every other slot, doctor, appointment, profile and account is unchanged |
| AppointmentsRouter.RebookingFails | new-backend/routes/appointments.js:144-173 | after a booking, the same request by anyone never gets that slot again, and gets no slot at all when the doctor's pairs are unique |
| AppointmentsRouter.BookPartialWriteLeavesSlotOpen | new-backend/routes/appointments.js:169-173 | the appointment is saved before the doctor; if the doctor's save fails, a pending appointment exists while its slot is still offered |
| AppointmentsRouter.PutCancel | new-backend/routes/appointments.js:193-234 | the in-place cancel performs exactly `CancelStep` |
| AppointmentsRouter.CancelGuards | new-backend/routes/appointments.js:195-213 | missing appointment 404; no profile or not the owner 403; already cancelled 400; none of them writes |
| AppointmentsRouter.CancelEffect | new-backend/routes/appointments.js:211-227 | a cancel that passes the guards sets status cancelled (from pending or paid) and changes nothing else of the appointment; the first slot with that day and time becomes available and every other slot is kept; with no doctor or no such slot only the status changes |
| AppointmentsRouter.CancelThenRebook | new-backend/routes/appointments.js:216-227 | with unique pairs, cancelling and rebooking the same day and time succeeds |
| AppointmentsRouter.CreateOrderOnlyForOwnedPending | new-backend/routes/appointments.js:53-81 | an order is made exactly for an existing, owned, pending appointment, for its fee times 100 in INR, with no notes; not the owner gives 403 |
| AppointmentsRouter.PostVerifyPayment | new-backend/routes/appointments.js:89-119 | the in-place verification performs exactly `VerifyPaymentStep` |
| AppointmentsRouter.VerifyPaymentEffect | new-backend/routes/appointments.js:93-112 | a signature mismatch is 400 with no change; otherwise an existing appointment becomes paid with the payment id and nothing else changes; the outcome does not depend on the caller |
| AppointmentsRouter.PaymentRevivesCancelled | new-backend/routes/appointments.js:100-112 | with no status check, a signed payment turns a cancelled appointment into a paid one |
| AppointmentsRouter.MyAppointments | new-backend/routes/appointments.js:19-46 | no profile is a 404; otherwise the list holds exactly the caller's appointments whose doctor still exists, each once, newest date first |
| AppointmentsRouter.PutAppointment | new-backend/routes/appointments.js:272-307 | the in-place update performs exactly `UpdateStep` |
| AppointmentsRouter.UpdateTouchesOnlyGivenFields | new-backend/routes/appointments.js:289-295 | an update changes exactly the truthy given fields among doctor, date, time and reason; status, fee, patient and payment never change; no doctor or slot changes; other appointments are kept |
| AppointmentsRouter.UpdateCanNameUnknownDoctor | new-backend/routes/appointments.js:289-300 | an update can point an appointment at a doctor that does not exist |
| AppointmentsRouter.DeleteAppointment | new-backend/routes/appointments.js:310-334 | the in-place delete performs exactly `DeleteStep` |
| AppointmentsRouter.DeleteKeepsSlots | new-backend/routes/appointments.js:315-324 | delete succeeds exactly for the owner; it removes only that appointment and releases no slot |
| AppointmentController.CreateAppointment | new-backend/controllers/appointmentController.js:14-80 | the in-place controller booking performs exactly `CreateStep` |
| AppointmentController.CreateChecksInOrder | new-backend/controllers/appointmentController.js:22-38 | a missing doctor, date or time is 400 before any lookup; then an unknown doctor 404 (before the profile, the reverse of the router); then no profile 404 with requiresProfile; refusals write nothing |
| AppointmentController.CreateSuccess | new-backend/controllers/appointmentController.js:42-69 | a successful booking stores a pending appointment with the doctor's fee, the date, the time and the reason or "" under a fresh id, and flips exactly the first matching slot |
| AppointmentController.CreatePartialWriteOrphansSlot | new-backend/controllers/appointmentController.js:56-69 | the doctor is saved first; if the appointment's save fails, the slot is taken with no appointment holding it |
| AppointmentController.CancelAppointment | new-backend/controllers/appointmentController.js:128-169 | the in-place controller cancel performs exactly `CancelStep` |
| AppointmentController.CancelHasNoStatusGuard | new-backend/controllers/appointmentController.js:133-161 | a cancel succeeds exactly for an owned appointment whatever its status, sets it cancelled, refusals write nothing, and cancelling twice is cancelling once |
| AppointmentController.CancelReleasesFirstMatch | new-backend/controllers/appointmentController.js:143-164 | a successful cancel of any owned appointment, whatever its status, sets it cancelled and makes the doctor's first slot with the same UTC day and time available, keeping every other slot; with no doctor or no such slot only the status changes; profiles, accounts and other doctors are unchanged |
| AppointmentController.CancelPartialWriteFreesHeldSlot | new-backend/controllers/appointmentController.js:146-161 | the slot is released first; if the status save fails, the slot is free while the appointment still stands |
| AppointmentController.GetMyAppointments | new-backend/controllers/appointmentController.js:82-126 | no profile is 404 with no change; otherwise the store becomes the pruned store and the list holds exactly the caller's visible appointments, newest first |
| AppointmentController.PruneAndListing | new-backend/controllers/appointmentController.js:97-118 | the prune deletes exactly the caller's cancelled appointments last updated more than 24 hours ago; the list then holds exactly the caller's non-cancelled appointments and those cancelled within the day |
| AppointmentController.WithoutTimestampsCancelledVanishAtOnce | new-backend/controllers/appointmentController.js:97-118 | with no `updatedAt` anywhere, the prune deletes nothing and the list shows exactly the caller's non-cancelled appointments |
| AppointmentController.OrderNotesNameAppointment | new-backend/controllers/appointmentController.js:178-199 | an order is made exactly for an owned pending appointment; it charges fee times 100 in INR and its notes name the appointment |
| AppointmentController.HandleWebhook | new-backend/controllers/appointmentController.js:217-255 | the in-place webhook performs exactly `WebhookStep` |
| AppointmentController.WebhookEffect | new-backend/controllers/appointmentController.js:219-250 | a bad signature is exactly the 400; a good one is always 200; the store changes only for a captured payment whose order notes name a known appointment, which becomes paid with the payment id |
| AppointmentController.WebhookRedeliveryIsHarmless | new-backend/controllers/appointmentController.js:219-250 | delivering the same event twice leaves the store as delivering it once, with the same reply |
| AppointmentController.VerifyPayment | new-backend/controllers/appointmentController.js:257-295 | the in-place verification performs exactly `VerifyStep` |
| AppointmentController.VerifyOnlyOwnAppointment | new-backend/controllers/appointmentController.js:263-287 | it succeeds exactly for a correct signature on the caller's own appointment, whatever its status; the result is that appointment paid with the payment id; a refusal writes nothing |
| PatientsRouter.ValidateFirstFailure | new-backend/routes/patients.js:13-37 | each refusal names the first failing check in the order name/email, phone, date of birth, blood group, gender; a form is accepted exactly when all pass; an accepted gender passes the schema enum |
| PatientsRouter.PostProfile | new-backend/routes/patients.js:8-86 | the in-place upsert performs exactly `UpsertStep`, the route as it evidently means to work; the new-profile save as written is under "Findings" (new-backend/routes/patients.js:53-66) |
| PatientsRouter.UpsertEffect | new-backend/routes/patients.js:42-73 | a refused form writes nothing; an accepted one leaves exactly the overwritten profile, keeping the id of an existing profile and drawing a fresh one otherwise (the intended save of a new profile; as written it fails, see "Findings"); the account's profile id is set only if unset and the role is patient; nothing else changes |
| PatientsRouter.OverwriteClearsOmittedFields | new-backend/routes/patients.js:42-50 | omitted phone, address and date of birth become "", "" and null even when the stored profile had values |
| PatientsRouter.UpsertIdempotent | new-backend/routes/patients.js:42-73 | submitting the same form twice leaves the store as submitting it once |
| PatientsRouter.GetMeAfterUpsert | new-backend/routes/patients.js:88-104 | after an accepted form, `GET /me` returns exactly the saved profile; it is 404 exactly when there is no profile |
| PatientController.CreatePatient | new-backend/controllers/patientController.js:4-57 | the in-place create-or-merge performs exactly `CreateStep`, the controller as it evidently means to work; the new-profile save as written is under "Findings" (new-backend/controllers/patientController.js:16-25) |
| PatientController.CreateNewProfile | new-backend/controllers/patientController.js:14-25 | for a caller without a profile the intended save succeeds exactly when the date parses and a given gender is in the enum; the profile holds the body's fields as given under a fresh id and only the caller's account can change besides |
| PatientController.MergeKeepsOmittedFields | new-backend/controllers/patientController.js:29-36 | on a stored profile each field is replaced only by a truthy given value and otherwise kept; the id is kept; an all-falsy body changes nothing |
| PatientController.MergeIdempotent | new-backend/controllers/patientController.js:12-49 | merging the same body twice leaves the store as merging it once |
| PatientController.ProfileIdSetWhenUnset | new-backend/controllers/patientController.js:44-49 | an account with no profile id gets this profile's id, whatever its role; an existing profile id is never replaced; other accounts are unchanged |
| PatientController.GetPatientByIdOnlyOwn | new-backend/controllers/patientController.js:64-90 | a foreign path id is exactly the 403; an answer is only ever the caller's own profile; a caller without one gets 404 with requiresProfile |
| PatientController.UpdatePatient | new-backend/controllers/patientController.js:107-143 | the in-place update performs exactly `UpdateStep` |
| PatientController.UpdateNeverCreates | new-backend/controllers/patientController.js:114-135 | an update never creates a profile; without one it is 404 or 500 and writes nothing; it succeeds exactly for an existing profile and a date that parses; it touches only the caller's profile, keeping its id, keeping every field the body omits and writing every field it carries (an empty string included), and a date is stored, cleared by an empty string, or kept when absent |
| PatientController.UpdateBypassesGenderEnum | new-backend/controllers/patientController.js:114-135 | the update stores a gender outside the enum, which a create or merge of the same body refuses |
| AuthRouter.Register | new-backend/routes/auth.js:15-75 | the in-place registration performs exactly `RegisterStep` |
| AuthRouter.RegisterEffect | new-backend/routes/auth.js:20-48 | a taken email is 400 and creates nothing; a new account has the given name and email and role patient unless "doctor" was given; only an explicit "patient" creates a profile, which copies name and email and is what the account's profile id names; existing accounts are unchanged |
| AuthRouter.RegisterKeepsConsistent | new-backend/models/User.js:5 | registering keeps emails unique across accounts and every id below the counter |
| AuthRouter.Login | new-backend/routes/auth.js:82-91 | an unknown email and a wrong password give the same 400; success names the one account with that email whose password matches |
| AuthRouter.UpdateMe | new-backend/routes/auth.js:142-197 | the in-place edit performs exactly `UpdateMeStep` |
| AuthRouter.UpdateMeEffect | new-backend/routes/auth.js:147-175 | a refusal writes nothing; keeping one's own email is allowed; another account's email is 400; success changes only the caller's name and email and, for a patient with a profile, the profile's copy |
| AuthRouter.UpdateMeKeepsConsistent | new-backend/routes/auth.js:152-155 | editing one's details keeps emails unique |
| Backfill.BackfillOneEffect | new-backend/scripts/createPatientProfiles.js:14-25 | the loop body creates a profile exactly for a patient account without one, with its name and email, under a fresh id that the account then records; repeating it does nothing; consistency is kept |
| Backfill.ProgressStep | new-backend/scripts/createPatientProfiles.js:13-27 | one loop pass keeps the loop's progress invariant with that account done |
| Backfill.CreatePatientProfiles | new-backend/scripts/createPatientProfiles.js:8-33 | the loop over patient accounts ends with every eligible account done and nothing else changed, and changes nothing when no account is eligible |
| Backfill.HandleAccount | new-backend/scripts/createPatientProfiles.js:14-25 | the in-place loop body performs exactly `BackfillOne` |
| Backfill.BackfillComplete | new-backend/scripts/createPatientProfiles.js:12-27 | after a run no account is eligible, so a second run creates nothing; each profile made copies its account's name and email under a fresh id the account records; non-patient accounts are unchanged |
| Seed.LabelsAreHalfHours | new-backend/scripts/seedDoctors.js:84-88 | there are 12 labels, 09:00 to 11:30 then 14:00 to 16:30 in 30-minute steps, strictly increasing and distinct |
| Seed.GenerateTimeSlots | new-backend/scripts/seedDoctors.js:74-98 | the counted loop produces 7 × 12 slots, slot j being the template slot of day j/12+1 and label j%12 |
| Seed.TemplateShape | new-backend/scripts/seedDoctors.js:79-94 | every slot is available, lies 1 to 7 whole days after today, carries one of the labels, and is a morning slot exactly in the first six of its day |
| Seed.TemplateOrder | new-backend/scripts/seedDoctors.js:79-95 | order is day-major, and within a day the label times increase |
| Seed.TemplatePairsDistinct | new-backend/scripts/seedDoctors.js:79-95 | no two slots share both day and label |
| Seed.SeededDoctorSaves | new-backend/scripts/seedDoctors.js:88-107 | each pushed slot is the sub-document Mongoose builds with `isAvailable` true and a non-empty label, so a listed doctor with these slots passes the save's required checks exactly when its name, speciality, degree and experience are non-empty, with its image and about kept |
| AppointmentPage.FirstAppearanceFacts | frontend/src/pages/Appointment.jsx:35-39 | the distinct day keys in order of first appearance hold every key exactly once |
| AppointmentPage.MembersOfAbsentDay | frontend/src/pages/Appointment.jsx:35-40 | a day with no slot has an empty column |
| AppointmentPage.MembersComeFromDay | frontend/src/pages/Appointment.jsx:40 | every entry of a day's column is the time and flag of some slot of that day |
| AppointmentPage.GroupedByDay | frontend/src/pages/Appointment.jsx:32-42 | the reduce gives one column per distinct day in order of first appearance, each holding exactly its day's slots in input order |
| AppointmentPage.GroupedKeepsCount | frontend/src/pages/Appointment.jsx:35-40 | the columns hold as many slots as the input |
| AppointmentPage.GroupedFacts | frontend/src/pages/Appointment.jsx:32-42 | the grouping's columns follow first appearance of the days, each holds exactly its day's slots, no day has two columns, and the slot count is preserved |
| AppointmentPage.GroupSlots | frontend/src/pages/Appointment.jsx:32-42 | the in-place reduce produces exactly the grouping, with distinct days in first-appearance order, each column its day's slots, and the total preserved |
| AppointmentPage.SubmitGuardsInOrder | frontend/src/pages/Appointment.jsx:94-108 | no token, then no slot chosen, then a missing name or email each stop the submission; requests go out exactly when all pass |
| AppointmentPage.ProfileRequestChecked | frontend/src/pages/Appointment.jsx:115-125 | the profile request passes the route's checks exactly when the phone is empty or ten digits, and is otherwise refused for the phone |
| AppointmentPage.SelectedSlotIsBookable | frontend/src/pages/Appointment.jsx:130-141 | the booking request names the selected column's day and the selected time, and for a caller with a profile the router books an open slot picked on the page |
| MyAppointmentsPage.ActionsOnlyWhenPending | frontend/src/pages/MyAppointments.jsx:208 | cancel and pay are offered exactly for pending appointments |
| MyAppointmentsPage.LoadedShowsRouteAnswer | frontend/src/pages/MyAppointments.jsx:14-47 | signed in, the page lists exactly the appointments the route answers, in its order and as the store holds them, or the empty notice for none; the route's 404 shows the profile hint; without a token the sign-in error shows whatever the answer |
| MyAppointmentsPage.ListUpdatesTouchOnlyThatRow | frontend/src/pages/MyAppointments.jsx:68-72 | the cancel and paid maps keep length and order, change only rows with that id (to cancelled, or paid with the payment id), remove their actions, and are idempotent |
| MyAppointmentsPage.CancelUpdateAgreesWithStore | frontend/src/pages/MyAppointments.jsx:68-72 | rows that mirrored the store before an accepted cancel mirror it after the local update |
| MyAppointmentsPage.PaidUpdateAgreesWithStore | frontend/src/pages/MyAppointments.jsx:140-146 | rows that mirrored the store before a verified payment mirror it after the local update |
| MyAppointmentsPage.SuccessReportedAsFailure | frontend/src/pages/MyAppointments.jsx:73 | as written, an accepted cancel or payment shows the failure message and hides the list |
| MyAppointmentsPage.SuccessKeepsListShown | frontend/src/pages/MyAppointments.jsx:147 | with the success message declared, a shown list stays shown with only the affected row changed |
| DoctorsPage.FilterShowsSelected | frontend/src/pages/Doctors.jsx:12-22 | "All" or "" shows every doctor; any other selection shows exactly the doctors whose trimmed, lower-cased speciality equals the selection's |
| DoctorsPage.FilterKeepsOrder | frontend/src/pages/Doctors.jsx:15 | the filtered list is an order-preserving subsequence of the list |
| DoctorsPage.FilterIdempotent | frontend/src/pages/Doctors.jsx:12-22 | filtering the filtered list again changes nothing |
| DoctorsPage.FilterIgnoresPadding | frontend/src/pages/Doctors.jsx:16 | a selection padded with whitespace selects the same doctors |
| DoctorsPage.ToggleBehaviour | frontend/src/pages/Doctors.jsx:28-32 | clicking the current speciality or "All" gives "All"; clicking another selects it; clicking the same one twice from "All" returns to "All" |
| RelatedDoctors.RelatedExcludesShownDoctor | frontend/src/components/RelatedDoctors.jsx:10-19 | nothing changes while the list is empty or the speciality unset; otherwise the list holds exactly the other doctors of that speciality, never the shown one, in list order |
| RelatedDoctors.RelatedIsFilterWithoutSelf | frontend/src/components/RelatedDoctors.jsx:12-16 | the related list is the list page's speciality filter minus the shown doctor |
| SignUp.LooksLikeEmailIsPattern | frontend/src/pages/SignUpPage.jsx:44-45 | the positional email test accepts exactly the strings `^[^\s@]+@[^\s@]+\.[^\s@]+$` matches |
| SignUp.SubmitChecksInOrder | frontend/src/pages/SignUpPage.jsx:32-64 | each refusal names the first failing check (empty field, mismatch, email pattern, length under 6); the request goes out exactly when all pass and carries the form's name, email and password with role "patient" |
| SignUp.SignUpCreatesProfile | frontend/src/pages/SignUpPage.jsx:59-64 | a sent form with a new email registers a patient account with a profile holding the form's name and email |
| Findings.PatientRegistrationFailsAsWritten | new-backend/routes/auth.js:37-48 | as written, every patient registration that should succeed gets a 500, leaves the account behind with no profile, and a retry is refused as already registered |
| Findings.EverySignUpFailsAsWritten | frontend/src/pages/SignUpPage.jsx:59-64 | every sign-up the page sends with a new email fails as written, although the corrected route accepts it |
| Findings.LoginNeverSucceedsAsWritten | new-backend/routes/auth.js:82-91 | as written, login never succeeds: a registered email gets a 500 whatever the password |
| Findings.NewProfileUpsertFailsAsWritten | new-backend/routes/patients.js:53-66 | as written, an accepted form from a caller without a profile gets a 500, nothing is written and `GET /me` stays a 404, where the corrected route saves and returns the profile |
| Findings.NewProfileCreateFailsAsWritten | new-backend/controllers/patientController.js:16-25 | as written, every body from a caller without a profile gets a 500 and no profile, where the corrected controller creates one whenever the date parses and the gender is in the enum |

## Left out

- ObjectId casting: ids are natural numbers, so a malformed id's cast error (a 500) is not modelled.
- The routes `GET /api/appointments/`, `GET /api/appointments/:id`, `GET /api/auth/me`, the doctor routes and the old `backend/` prototype are not part of this model.
- Token signing (JWT), bcrypt and the auth middleware: the caller's identity is a user id parameter and the password check a `matches` parameter.
- The payment gateway's order creation and fetch, and HMAC-SHA256: these are foreign calls, and become the `sign` and `orderNotes` parameters; a failing gateway call (a 500) is not modelled.
- Concurrency: handlers run one at a time. Two interleaved bookings of the same slot, which the read-then-save code allows, are not modelled.
- Date parsing, time zones and locales: instants are milliseconds in UTC, and `setDate(getDate() + i)` is modelled as adding i whole days. Daylight-saving shifts are not modelled, nor the weekday label from `toLocaleString`.
- `toLowerCase` folds only ASCII capitals; Unicode case folding is not modelled.
- Password length is the number of code points, not UTF-16 code units.
- Mongoose's `strictQuery` setting changes how a filter on a path not in the schema behaves (`user`, and `updatedAt` on Appointment); the model takes the filters as the routes mean them.
- Navigation, `localStorage`, loading flags and the 401 logout paths of the pages.
- AppointmentPage.Submit: a selected column index out of range throws after the profile request; the model gives that submission no booking request.
- Backfill.CreatePatientProfiles: it models the script with the profile save succeeding. Under the schema's required `clerkId` (the first finding below), the first new profile's save throws and the script stops.
- Database connection, logging, CORS and the seed script's clear-and-insert; of the insert, only the validation of the seeded doctors is modelled.

## Findings

| source | as written | input that shows it | evidently intended | confidence | as-written member | corrected member |
|---|---|---|---|---|---|---|
| new-backend/routes/auth.js:37-48 | the new profile is built with `user`, `name` and `email`, but the Patient schema requires `clerkId` (new-backend/models/Patient.js:4), so its save fails validation after the account was saved, and the reply is a 500 | `POST /api/auth/register` with a new email, a name, a password of 6 or more characters and `role: "patient"`, which is every sign-up the page sends | the profile is saved under the account's id and the account records it | not executed | Findings.PatientRegistrationFailsAsWritten | AuthRouter.RegisterEffect |
| new-backend/routes/auth.js:88 | `user.comparePassword` is called, but the User model (new-backend/models/User.js:1-11) defines no such method, so the call throws and the reply is a 500 | `POST /api/auth/login` with the email of any registered account | the password is checked and a match logs in, a mismatch gets "Invalid credentials" | not executed | Findings.LoginNeverSucceedsAsWritten | AuthRouter.Login |
| new-backend/routes/patients.js:53-66 | a caller without a profile gets `new Patient({ user, ... })` with no `clerkId`, which new-backend/models/Patient.js:4 requires, so `save` throws and the catch answers 500 with nothing written | `POST /api/patients` with `{name: "A", email: "a@b.c"}` from an account that has no profile | the profile is created and returned, and a patient account records its id | not executed | Findings.NewProfileUpsertFailsAsWritten | PatientsRouter.UpsertEffect |
| new-backend/controllers/patientController.js:16-25 | the same: a new profile is built without `clerkId`, the save at line 41 throws and the catch answers 500 | `createPatient` with any body from a user that has no profile | the profile is created from the body and an account without a profile id records it | not executed | Findings.NewProfileCreateFailsAsWritten | PatientController.CreateNewProfile |
| frontend/src/pages/MyAppointments.jsx:73 | `setSuccessMessage` is called after a successful cancel or payment, but the component never declares it, so the call throws and the catch shows the failure message, which hides the list | cancelling a pending appointment that the server cancels with a 200 | the success message is shown and the updated list stays on screen | not executed | MyAppointmentsPage.SuccessReportedAsFailure | MyAppointmentsPage.SuccessKeepsListShown |
