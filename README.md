# Prescripto slot ledger and appointment flags, in Dafny

This project models the core of the Prescripto appointment backend: the
per-doctor slot ledger (`slots_booked`, a map from a date to the list of time
labels taken on that date), the appointment records with their three
independent flags (`cancelled`, `isCompleted`, `payment`), and the request
handlers of the user, doctor and admin controllers that read and write them.

- `ledger.dfy` (module `Ledger`): the list operations on one doctor's ledger.
  Booking pushes a label (`Reserve`). Release replaces the date's list with a
  filtered copy (`Without`, `Release`).
- `records.dfy` (module `Records`): doctor and appointment records and the
  replies. It also holds the invariant `Consistent`. Under it, a time label is
  in a doctor's list for a date exactly when a non-cancelled appointment holds
  that slot, no two live appointments hold one slot, and lists have no
  duplicates. Value-level lemmas show which writes keep it.
- `store.dfy` (module `Store`): class `Clinic` with the two collections
  (`doctors`, `appointments`) and one method per handler. Each method follows
  its handler's steps in order, including a write that stays in place when a
  later step throws.
- `dashboard.dfy` (module `Dashboard`): the doctor dashboard, with its two
  accumulation loops, and the admin dashboard.
- `validation.dfy` (module `Validation`): the input guards of `addDoctor` and
  `registerUser`.
- `scenarios.dfy` (module `Scenarios`): request sequences on a fresh store.
  They are proved from the handlers' contracts and include the re-cancel
  double booking below.

Collaborators become parameters. The requester's id is an argument of each
method. The HMAC-SHA256 keyed hash is a function argument `hmac`. The order
the payment gateway reports (`status`, `receipt`) is a pair of arguments.
`validator.isEmail` is a function argument, and the emails already stored are
a set argument. A record lookup that finds nothing and is then dereferenced
becomes the failure `NullRecord`, the reply the handler's catch block sends.
`filter` on a missing date key becomes `NoDateEntry`.

Three facts about the code shape the model:
- Only the patient's cancel refuses an appointment that is already cancelled
  (backend/controllers/userController.js:235-237). The doctor's and the
  admin's cancels set the flag and filter the label again.
- The patient's and the admin's cancels call `filter` on the date's list
  without checking that the date key exists, so a missing key throws after
  the `cancelled` flag was written. The doctor's cancel skips the filter when
  the key is missing (backend/controllers/doctorController.js:114).
- The ledger for a date is a list, not a set. It stays duplicate-free because
  booking refuses a label that is already in it
  (backend/controllers/userController.js:163-165).

## Model

| member | source | states |
|---|---|---|
| `Ledger.Without` | backend/controllers/userController.js:254 | the filtered list holds exactly the labels of the input other than the released one, and is no longer than the input |
| `Ledger.Reserve` | backend/controllers/userController.js:162-175 | booking's write: the date's list becomes its old list (empty when the key was absent) followed by the label; the date key is added if absent; every other date keeps its list |
| `Ledger.Release` | backend/controllers/adminController.js:144-149 | release's write: the date's list loses every occurrence of the label and keeps all other labels; the key set and every other date are unchanged |
| `Ledger.WithoutAppend` | backend/controllers/doctorController.js:115 | filtering distributes over concatenation, so the remaining labels keep their order |
| `Ledger.WithoutAbsent` | backend/controllers/userController.js:254 | filtering out a label that is not in the list leaves the list as it was |
| `Ledger.WithoutNoDup` | backend/controllers/userController.js:254 | filtering keeps a duplicate-free list duplicate-free |
| `Ledger.WithoutRemovesOne` | backend/controllers/adminController.js:147 | in a duplicate-free list that holds the label, release removes exactly one element |
| `Ledger.ReleaseUndoesReserve` | backend/controllers/userController.js:167-175 | releasing a label just reserved on a date where it was free gives back the date's previous list |
| `Ledger.ReserveNoDup` | backend/controllers/userController.js:162-168 | pushing a label that the date's list lacks keeps every list duplicate-free |
| `Records.BookKeepsConsistent` | backend/controllers/userController.js:158-195 | a successful booking keeps the invariant (label in ledger iff a live appointment holds the slot; one live appointment per slot; lists duplicate-free) |
| `Records.ReleaseKeepsConsistent` | backend/controllers/userController.js:244-256 | releasing a live appointment keeps the invariant, and its doctor and date key exist, so the filter cannot throw |
| `Records.FlagUpdateKeepsConsistent` | backend/controllers/doctorController.js:86-87 | setting `isCompleted` or `payment` keeps the invariant |
| `Records.ProfileUpdateKeepsConsistent` | backend/controllers/doctorController.js:184-185 | overwriting a doctor's availability, fee or address keeps the invariant |
| `Store.Clinic.BookAppointment` | backend/controllers/userController.js:145-209 | fails on a missing doctor, then an unavailable one, then a taken label, each with no state change; otherwise pushes the label and creates one fresh appointment with the caller, doctor, date, time and the doctor's current fee, all flags false; keeps the invariant |
| `Store.Clinic.CancelAppointment` | backend/controllers/userController.js:226-265 | rejects a missing appointment, then an already-cancelled one, then a non-owner, each with no change; otherwise sets `cancelled` and filters the label; a missing doctor or date key fails after the flag was written; keeps the invariant, under which a request that passes the guards always succeeds |
| `Store.Clinic.CancelByDoctor` | backend/controllers/doctorController.js:101-129 | only the treating doctor; sets `cancelled` even if already set; filters only when the date key exists; keeps the invariant when the appointment was live |
| `Store.Clinic.CancelByAdmin` | backend/controllers/adminController.js:129-158 | no ownership or status check; sets `cancelled`, then a missing doctor or date key fails with the flag written; otherwise filters the label; keeps the invariant when the appointment was live |
| `Store.Clinic.CancelByDoctorChecked` | backend/controllers/doctorController.js:107-117 | doctor cancel with the already-cancelled refusal: a missing or foreign appointment fails with no change, an already-cancelled one is refused with no change; a live one gets the same flag write, replies and ledger filter as the doctor's cancel; keeps the invariant for every request |
| `Store.Clinic.CancelByAdminChecked` | backend/controllers/adminController.js:135-149 | admin cancel with the already-cancelled refusal: a missing appointment fails with no change, an already-cancelled one is refused with no change; a live one gets the same flag write, replies and ledger filter as the admin's cancel; keeps the invariant for every request and succeeds on every live appointment |
| `Store.Clinic.CompleteAppointment` | backend/controllers/doctorController.js:80-98 | succeeds iff the appointment exists and belongs to the caller; then sets only `isCompleted`, whatever the other flags |
| `Store.Clinic.ChangeAvailability` | backend/controllers/doctorController.js:7-21 | negates the doctor's `available` and changes nothing else; a missing doctor fails with no change |
| `Store.Clinic.UpdateDoctorProfile` | backend/controllers/doctorController.js:181-193 | overwrites exactly `fees`, `address` and `available`; replies success even when no doctor matched |
| `Store.Clinic.PaymentRazorpay` | backend/controllers/userController.js:273-308 | refuses a missing or cancelled appointment, then a non-owner; otherwise the order asks for `amount * 100` with the appointment id as receipt |
| `Store.Clinic.VerifyPayment` | backend/controllers/userController.js:313-347 | a signature other than `hmac(secret, orderId + "|" + paymentId)` fails with no change; then a missing or foreign appointment, then a status other than "paid", fail with no change; `payment` is set only when all checks pass, and a repeat on a paid appointment changes nothing |
| `Dashboard.Latest` | backend/controllers/doctorController.js:155 | `reverse().slice(0, n)`: at most n elements, the k-th being the k-th from the end |
| `Dashboard.EarningsAppend` | backend/controllers/doctorController.js:137-142 | earnings add up over a split of the appointment list |
| `Dashboard.EarningsUpdate` | backend/controllers/doctorController.js:139-140 | replacing one appointment (completing or paying it) changes earnings by exactly the difference of its contributions |
| `Dashboard.DistinctCount` | backend/controllers/doctorController.js:144-149 | a list built with the membership test has as many elements as distinct values |
| `Dashboard.DoctorDashboard` | backend/controllers/doctorController.js:132-163 | earnings are the sum of `amount` over completed-or-paid appointments, cancelled ones included; patients is the number of distinct `userId`s and at most the number of appointments; latest is the five newest, newest first |
| `Dashboard.AdminDashboard` | backend/controllers/adminController.js:161-176 | the three counts are the collection sizes; latest holds min(5, n) appointments taken from the end in reverse order |
| `Validation.AddDoctorCheck` | backend/controllers/adminController.js:28-48 | accepts iff every field is present, the email is well formed, the password has at least 8 characters and the email is not taken; each refusal gives the first failing guard's key and message, in the order missing field, email, password, duplicate; the key is spelled "sucess" exactly for the first two guards |
| `Validation.RegisterUserCheck` | backend/controllers/userController.js:15-32 | accepts iff name, email and password are present, the email is well formed, the password has at least 8 characters and the email is not taken; each refusal gives the first failing guard's message, in the order missing field, email, password, duplicate, always with the key "success" |
| `Scenarios.BookCancelRebook` | backend/controllers/userController.js:162-256 | book a slot, fail to book it again, cancel, book it again: the ledger ends as one label and the invariant holds |
| `Scenarios.ToggleTwice` | backend/controllers/doctorController.js:12-13 | toggling availability twice restores the doctors and appointments |
| `Scenarios.DoctorReCancelDoubleBooks` | backend/controllers/doctorController.js:107-117 | re-cancelling an old appointment by its doctor frees a slot that a newer live appointment holds, so a third booking succeeds and two live appointments hold one slot |
| `Scenarios.AdminReCancelDoubleBooks` | backend/controllers/adminController.js:135-149 | the same double booking through the admin's cancel |
| `Scenarios.CheckedReCancelRefused` | backend/controllers/userController.js:235-237 | with the patient path's already-cancelled guard, both re-cancels are refused and the third booking fails with "Slot not available" |

## Left out

- Authentication: login, refresh, logout, password hashing and tokens are not modelled. The requester id is a method argument. The middlewares store the id in `req.body` while the controllers read `req.userId` and `req.docId`; that wiring is not modelled.
- Store.Clinic.BookAppointment: does not model the user lookup or the `userData`/`docData` display snapshots copied into the appointment, nor the booking timestamp. Only `amount`, the fee snapshot, is kept.
- Store.Clinic.BookAppointment: the transaction and concurrent requests are not modelled. Each method is one atomic step, so the model cannot show two concurrent bookings of one slot.
- Store.Clinic.PaymentRazorpay: returns the options of the gateway order rather than the order the gateway creates. A failing `orders.create` call is not modelled. The currency is an argument, standing for the configuration value.
- Store.Clinic.VerifyPayment: the HMAC-SHA256 computation is the argument `hmac`, and the secret is an argument. The gateway's `orders.fetch` result is the arguments `status` and `receipt`. A failing fetch is not modelled.
- Store.Clinic.UpdateDoctorProfile: fields missing from the request body are not modelled; all three values are always given.
- Validation.AddDoctorCheck: covers only the guards. The image upload, password hashing and the write of the new doctor are not modelled. Fields are text, and an absent field is the empty text.
- Validation.RegisterUserCheck: covers only the guards. The write of the user and the tokens are not modelled.
- Dashboard.DoctorDashboard: the store query is the input list, in storage order. The admin dashboard's empty catch block (no reply on error) is not modelled.
- Validation.AddDoctorCheck, Validation.RegisterUserCheck: the password length is counted in characters, while `password.length` (backend/controllers/adminController.js:40, backend/controllers/userController.js:24) counts UTF-16 code units, so a password with characters outside the Basic Multilingual Plane can pass the length guard in the source with fewer than 8 characters.
- Store.Clinic.BookAppointment: a date key is looked up in a map, so a date that names a property every JavaScript object inherits (such as "constructor" or "toString") reads as absent and booking proceeds; in the source `slots_booked[slotDate]` (backend/controllers/userController.js:162-163) finds the inherited value instead, which has no `includes` method, so the request fails.
- Store calls never fail in the model. In the source, `findById` throws a cast error on a malformed id, and any write can fail after an earlier write of the same request was applied; these replies and partial states are not modelled.
- Amounts and fees are naturals, not floating-point numbers, and appointment ids are naturals handed out in creation order.
- Server setup, routes, middleware and the React front end are not part of this model.

## Findings

| source | as written | input that shows it | evidently intended | confidence | as-written member | corrected member |
|---|---|---|---|---|---|---|
| backend/controllers/doctorController.js:107-117 | the doctor's cancel sets `cancelled` and filters the label without checking whether the appointment was already cancelled | u1 books P/2024-06-01/10:00 and cancels; u2 books the same slot; doctor P cancels u1's appointment 0; u3 books the same slot and succeeds | refuse an already-cancelled appointment, as the patient path does, so the ledger keeps the labels held by live appointments | high (proved; not executed) | `Scenarios.DoctorReCancelDoubleBooks` | `Store.Clinic.CancelByDoctorChecked` |
| backend/controllers/adminController.js:135-149 | the admin's cancel sets `cancelled` and filters the label without checking whether the appointment was already cancelled | the same sequence with the admin cancelling appointment 0 | refuse an already-cancelled appointment | high (proved; not executed) | `Scenarios.AdminReCancelDoubleBooks` | `Store.Clinic.CancelByAdminChecked` |
