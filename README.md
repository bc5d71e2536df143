# Vaccine scheduler: booking state machine

This project models the command core of the COVID-19 vaccine reservation
console (`Scheduler.java`). Patients and caregivers log in, one user at a
time. Caregivers publish the dates they are available and stock vaccine
doses. Patients reserve an appointment on a date with a vaccine, and either
participant can cancel it.

The four things the commands read and change are kept in memory instead of
in the database:

- the session: the two static fields `currentCaregiver` and `currentPatient`;
- Availabilities: a set of (date, caregiver) slots;
- Vaccines: a map from a vaccine name to its available doses;
- Appointments: a sequence of rows (id, caregiver, patient, vaccine, date), in
  insertion order.

Layout:

- `password.dfy` (module `Password`): the password-strength rule of
  `validatePassword`, `checkLength` and `checkCharacterTypes`. These are pure
  predicates over the characters. The rule includes the fact that the regular
  expression `.` of Java does not match a line terminator.
- `usernames.dfy` (module `Usernames`): the ascending username order used by
  the availability query. It proves that the order is a total order and that
  the first username of a non-empty set exists and is unique.
- `tables.dfy` (module `Tables`): the rows, the state value and the invariant
  every command keeps:
  - at most one session is open;
  - appointment ids are positive and strictly increase;
  - every booked vaccine has a row.

  It also holds the id scan of `reserve` (a `while` loop over the ids), the
  lookup of the caregivers free on a date, the ownership query of `cancel`
  and the delete by id.
- `transitions.dfy` (module `Transitions`): one function per command, from
  the state before it to the state after it and the outcome the user is told.
  The checks run in the same order as in the code, and every failed check
  leaves the state unchanged. It also holds the dispatch of one command and a
  whole session of commands.
- `properties.dfy` (module `Properties`): properties that relate several
  commands:
  - cancelling right after reserving restores the state;
  - a cancelled id is handed out again;
  - only one of two reservations can win the last slot or the last dose;
  - nobody cancels an appointment they are not part of;
  - reservations and cancellations keep each (date, caregiver) pair either
    open or booked, never both.
- `scheduler.dfy` (module `Scheduling`): the class `Scheduler`, whose fields
  are the session and the three tables. Each command is a method that checks
  and then assigns the fields in place. Each method is proved to move the
  object exactly as the matching function of `Transitions` says, and to keep
  the invariant. Three client methods drive a short session through the
  object.

Inputs the program reads from outside are parameters here:

- the number of tokens on the command line is `argc`;
- whether the stored salted hash accepts the password is `authenticated`;
- a date is the text the user typed;
- the dose count is an `int`.

## Model

| member | source | states |
|---|---|---|
| Password.Contains | vaccine-scheduler-java-main/src/main/scheduler/Scheduler.java:599-602 | true exactly when some character of the password is in the class |
| Password.MatchesAnywhere | vaccine-scheduler-java-main/src/main/scheduler/Scheduler.java:599-607 | the whole-string match of `.*[class].*`, defined as a split into a run without line terminators, one class character and another such run; for a class holding no line terminator, it holds exactly when no character is a line terminator and some character is in the class |
| Password.ClassesHoldNoLineTerminator | vaccine-scheduler-java-main/src/main/scheduler/Scheduler.java:599-602 | no character of the four classes is a line terminator, so each class pattern can match |
| Password.SplitMatch | vaccine-scheduler-java-main/src/main/scheduler/Scheduler.java:599-607 | such a split exists exactly when no character of the password is a line terminator and some character is in the class |
| Password.CheckCharacterTypes | vaccine-scheduler-java-main/src/main/scheduler/Scheduler.java:598-608 | the four patterns all match exactly when no character is a line terminator and the password holds an upper-case letter, a lower-case letter, an ASCII digit and a listed special character |
| Password.ValidatePassword | vaccine-scheduler-java-main/src/main/scheduler/Scheduler.java:590-608 | accepted exactly when the password has at least 8 characters and no line terminator, and contains an upper-case letter, a lower-case letter, an ASCII digit and one of the 29 listed special characters |
| Password.ExampleAccepted | vaccine-scheduler-java-main/src/main/scheduler/Scheduler.java:590-608 | "Vaccine#19" is accepted |
| Password.ExampleTooShort | vaccine-scheduler-java-main/src/main/scheduler/Scheduler.java:594-596 | "Vac#19x" (7 characters) is refused |
| Password.ExampleLineBreak | vaccine-scheduler-java-main/src/main/scheduler/Scheduler.java:599-607 | a password that qualifies except for a trailing U+2028 line separator, a line terminator that a read line can still hold, is refused |
| Usernames.LexLeReflexive | vaccine-scheduler-java-main/src/main/scheduler/Scheduler.java:318 | the ascending username order is reflexive |
| Usernames.LexLeTotal | vaccine-scheduler-java-main/src/main/scheduler/Scheduler.java:318 | any two usernames are comparable |
| Usernames.LexLeAntisymmetric | vaccine-scheduler-java-main/src/main/scheduler/Scheduler.java:318 | two usernames that sort no later than each other are equal |
| Usernames.LexLeTransitive | vaccine-scheduler-java-main/src/main/scheduler/Scheduler.java:318 | the order is transitive |
| Usernames.LeastExists | vaccine-scheduler-java-main/src/main/scheduler/Scheduler.java:318 | a non-empty set of usernames has a first one in ascending order |
| Usernames.LeastUnique | vaccine-scheduler-java-main/src/main/scheduler/Scheduler.java:318 | that first username is unique |
| Usernames.Least | vaccine-scheduler-java-main/src/main/scheduler/Scheduler.java:347 | the username in the first row of the ascending query: a member of the set that sorts no later than every member |
| Tables.Initial | vaccine-scheduler-java-main/src/main/scheduler/Scheduler.java:23-24 | nobody logged in and empty tables satisfy the invariant, with no negative dose count |
| Tables.NextId | vaccine-scheduler-java-main/src/main/scheduler/Scheduler.java:335-344 | on a table whose ids increase, the new id is at least 1 and greater than every id present |
| Tables.LastIdPlusOne | vaccine-scheduler-java-main/src/main/scheduler/Scheduler.java:338-344 | the scan that overwrites `id` with each row's ID gives 1 on an empty table, else last ID + 1; on a valid table that id is positive and not in use |
| Tables.CaregiversOn | vaccine-scheduler-java-main/src/main/scheduler/Scheduler.java:318-323 | a caregiver is in the result exactly when it has a slot on the date |
| Tables.FindOwned | vaccine-scheduler-java-main/src/main/scheduler/Scheduler.java:422-432 | no row comes back exactly when no row has the id and the session user in the patient (or caregiver) column; a row that comes back is such a row |
| Tables.Without | vaccine-scheduler-java-main/src/main/scheduler/Scheduler.java:424 | after the delete by id, the rows are exactly the rows with another id |
| Tables.WithoutKeepsIdsIncreasing | vaccine-scheduler-java-main/src/main/scheduler/Scheduler.java:434-436 | deleting by id keeps the ids strictly increasing |
| Transitions.LoginPatient | vaccine-scheduler-java-main/src/main/scheduler/Scheduler.java:197-226 | refused exactly when someone is logged in; succeeds exactly when nobody is, there are 3 tokens and the credentials check; success sets only the patient field; the invariant is kept |
| Transitions.LoginCaregiver | vaccine-scheduler-java-main/src/main/scheduler/Scheduler.java:228-257 | the same for the caregiver field |
| Transitions.Logout | vaccine-scheduler-java-main/src/main/scheduler/Scheduler.java:574-587 | refused exactly when nobody is logged in; TryAgain exactly when someone is and there is not 1 token; succeeds otherwise, clearing both fields and nothing else; no other outcome |
| Transitions.Reserve | vaccine-scheduler-java-main/src/main/scheduler/Scheduler.java:304-379 | each outcome happens exactly under its conditions, checked in the code's order: NotLoggedIn, NotAPatient, TryAgain (not 3 tokens), StorageError (missing vaccine), NoCaregiver (nobody free on the date, reported even when doses are also out), NoVaccine (doses <= 0), and otherwise success; no other outcome is possible. Success books the first free caregiver in username order under id NextId. It adds exactly that appointment, takes one dose and removes exactly that slot. Any failure changes nothing. The invariant and non-negative doses are kept |
| Transitions.Cancel | vaccine-scheduler-java-main/src/main/scheduler/Scheduler.java:406-482 | NotLoggedIn exactly when nobody is logged in, TryAgain exactly when someone is and there are not 2 tokens, no other outcome besides the two below. With 2 tokens, Cancelled exactly when the session user owns a row with the id, and NoSuchAppointment exactly when no such row exists. Any failure changes nothing. After success no row has the id. The invariant and non-negative doses are kept |
| Transitions.AddDoses | vaccine-scheduler-java-main/src/main/scheduler/Scheduler.java:484-525 | refused exactly without a caregiver session; succeeds exactly with one and 3 tokens, and otherwise reports TryAgain. Success creates an absent vaccine with the count or adds the count to an existing one, leaving other vaccines and all other state as they were. Doses stay non-negative when the count is non-negative |
| Transitions.UploadAvailability | vaccine-scheduler-java-main/src/main/scheduler/Scheduler.java:381-404 | refused exactly without a caregiver session; succeeds exactly with one and 2 tokens, and otherwise reports TryAgain. Success adds the caregiver's slot on the date and changes nothing else |
| Transitions.Step | vaccine-scheduler-java-main/src/main/scheduler/Scheduler.java:62-91 | dispatching any command keeps the invariant; a command that touches none of this state leaves it unchanged, and it alone reports OtherCommand |
| Transitions.Run | vaccine-scheduler-java-main/src/main/scheduler/Scheduler.java:47-92 | any session of commands keeps the invariant |
| Transitions.RunKeepsDosesNonNegative | vaccine-scheduler-java-main/src/main/scheduler/Scheduler.java:329-334 | if no `add_doses` adds a negative count, no dose count ever goes negative |
| Properties.WithoutFreshAppended | vaccine-scheduler-java-main/src/main/scheduler/Scheduler.java:424 | deleting the id of a row just appended with a fresh id gives back the table before it |
| Properties.IdsIdentifyRows | vaccine-scheduler-java-main/src/main/scheduler/Scheduler.java:335-344 | on a valid table an id names at most one row |
| Properties.CancelOwned | vaccine-scheduler-java-main/src/main/scheduler/Scheduler.java:432-445 | a participant's cancel of an existing row succeeds. It removes the row, reopens its (date, caregiver) slot and gives its vaccine one dose back, with nothing else changed |
| Properties.CancelUndoesBooking | vaccine-scheduler-java-main/src/main/scheduler/Scheduler.java:433-444 | the patient who cancels a freshly booked row gets back the exact state before the booking |
| Properties.ReserveThenCancelRestores | vaccine-scheduler-java-main/src/main/scheduler/Scheduler.java:348-364 | a successful reservation followed by the same patient cancelling the new id succeeds and restores slots, doses, appointments and session |
| Properties.IdReusedAfterCancel | vaccine-scheduler-java-main/src/main/scheduler/Scheduler.java:335-344 | after that cancellation the same reservation gets the same id again |
| Properties.OnlyOneWinsTheLastSlot | vaccine-scheduler-java-main/src/main/scheduler/Scheduler.java:359-364 | with one caregiver free on a date, a second reservation on that date after a successful one fails |
| Properties.OnlyOneWinsTheLastDose | vaccine-scheduler-java-main/src/main/scheduler/Scheduler.java:329-334 | with one dose left, a second reservation of that vaccine after a successful one fails with NoCaregiver or NoVaccine |
| Properties.NonParticipantCannotCancel | vaccine-scheduler-java-main/src/main/scheduler/Scheduler.java:427-473 | a cancel by a user who is not the patient (or caregiver) of any row with that id changes nothing and, with 2 tokens, reports NoSuchAppointment |
| Properties.ClaimKeepsExclusive | vaccine-scheduler-java-main/src/main/scheduler/Scheduler.java:348-364 | booking a row on its open slot keeps each pair open or booked but not both, and keeps the set of published pairs |
| Properties.ReleaseKeepsExclusive | vaccine-scheduler-java-main/src/main/scheduler/Scheduler.java:433-441 | deleting a row and reopening its slot does the same |
| Properties.ReserveKeepsExclusive | vaccine-scheduler-java-main/src/main/scheduler/Scheduler.java:304-379 | every `reserve` keeps each (date, caregiver) pair open or booked, never both, and keeps the set of published pairs |
| Properties.CancelKeepsExclusive | vaccine-scheduler-java-main/src/main/scheduler/Scheduler.java:406-482 | every `cancel` does the same |
| Properties.UploadCanBreakExclusive | vaccine-scheduler-java-main/src/main/scheduler/Scheduler.java:381-404 | a valid state exists where a caregiver booked on a date uploads that date again and the pair becomes both open and booked |
| Scheduling.Scheduler.constructor | vaccine-scheduler-java-main/src/main/scheduler/Scheduler.java:23-24 | a new scheduler has nobody logged in and empty tables |
| Scheduling.Scheduler.LoginPatient | vaccine-scheduler-java-main/src/main/scheduler/Scheduler.java:197-226 | the in-place login moves the fields exactly as Transitions.LoginPatient and keeps the invariant |
| Scheduling.Scheduler.LoginCaregiver | vaccine-scheduler-java-main/src/main/scheduler/Scheduler.java:228-257 | the same for Transitions.LoginCaregiver |
| Scheduling.Scheduler.Logout | vaccine-scheduler-java-main/src/main/scheduler/Scheduler.java:574-587 | the same for Transitions.Logout; after success both session fields are empty |
| Scheduling.Scheduler.Reserve | vaccine-scheduler-java-main/src/main/scheduler/Scheduler.java:304-379 | the same for Transitions.Reserve. On success the appointments gain exactly the new row, the vaccine loses one dose and the slot goes; otherwise no field changes |
| Scheduling.Scheduler.UploadAvailability | vaccine-scheduler-java-main/src/main/scheduler/Scheduler.java:381-404 | the same for Transitions.UploadAvailability |
| Scheduling.Scheduler.Cancel | vaccine-scheduler-java-main/src/main/scheduler/Scheduler.java:406-482 | the same for Transitions.Cancel; a failed cancel changes no field |
| Scheduling.Scheduler.AddDoses | vaccine-scheduler-java-main/src/main/scheduler/Scheduler.java:484-525 | the same for Transitions.AddDoses |
| Scheduling.OpenAndStock | vaccine-scheduler-java-main/src/main/scheduler/Scheduler.java:64-85 | a caregiver logs in, is refused `reserve`, uploads a date and adds 5 doses, logs out; then a patient logs in, leaving exactly that state |
| Scheduling.BookOnlySlot | vaccine-scheduler-java-main/src/main/scheduler/Scheduler.java:74-75 | the patient books the only slot: appointment 1 with that caregiver, one dose less, no slot left |
| Scheduling.CancelBooking | vaccine-scheduler-java-main/src/main/scheduler/Scheduler.java:78-79 | the patient cancels it: slot and dose come back, and a second cancel of the same id finds nothing |

## Left out

- Console I/O: the read loop, the help text and every printed message. Each message of a modelled command is an `Outcome` value instead. Account creation, the two listings, `quit` and an unknown command name are the one `Other` command, which reports `OtherCommand` and changes nothing here; `quit` ending the session is not modelled. Reading a line that fails, and a line of only spaces (no tokens), are not modelled.
- Account creation (`createPatient`, `createCaregiver`), the username-taken queries, salt and hash generation and the credential check. These are foreign or cryptographic. Login success is the `authenticated` parameter. Account creation is the `Other` command, because it touches none of the state held here. The password rule it applies is modelled in `Password`.
- `searchCaregiverSchedule` and `showAppointments`: read-only listings whose only effect is printing.
- `Date.valueOf` and the database's date conversion. A date is an opaque string compared by equality, so "Please enter a valid date!" is not modelled.
- `Integer.parseInt` in `add_doses`. The count is an `int` parameter. A malformed number, which makes `add_doses` throw out of the loop, is not modelled.
- Transitions.Cancel: `cancel` passes the id token to the database as text. The model takes the id as an `int`. A token that is not a number fails the database's conversion; the caught exception prints only a stack trace and nothing changes. That case is not modelled.
- Transitions.AddDoses, Transitions.Cancel, Tables.NextId: Java's 32-bit `int` wrap-around at `Integer.MAX_VALUE` is not modelled, because numbers here are unbounded integers. It would occur when `add_doses` adds a count, when `cancel` gives a dose back, and when `reserve` computes `id + 1`.
- Usernames.Least, Transitions.Reserve, Transitions.Cancel: the database's collation is not shown. The model orders usernames by character code and compares usernames and vaccine names by exact equality. This covers the ordering of the availability query (:318), the vaccine lookup (:319), the slot delete (:360) and the ownership checks (:422-423). It matches the database only under a binary collation.
- Tables.LastIdPlusOne: `SELECT ID FROM Appointments` has no `ORDER BY`. The model reads rows in insertion order, which is what makes "last row" meaningful.
- Password.ValidatePassword: `String.length()` counts UTF-16 code units. Here a string is a sequence of characters, which differs for characters outside the Basic Multilingual Plane.
- SQL errors other than the missing vaccine in `reserve` (a lost connection, a failed insert), and the state a half-finished command would leave behind when a later statement fails. The code runs without transactions. Every modelled command either fails before changing anything or completes.
- Transitions.Cancel: it requires the invariant. Without it, a booked vaccine could lack a row and `increaseAvailableDoses` would be called on a missing vaccine (a `NullPointerException`). The invariant makes that path unreachable.
- The `Vaccine` and `Caregiver` classes are not part of this model. `decreaseAvailableDoses`, `increaseAvailableDoses` and `uploadAvailability` are modelled by their evident effect on the tables, with no validation. Scheduler.java itself checks no count, so `add_doses` may set a negative count here, and uploading a slot that already exists changes nothing.
- Concurrency between several consoles on one database is not modelled. Commands are atomic steps, one at a time.

## Behaviour worth knowing

- A missing vaccine in `reserve` does not report "no available vaccine". Reading its doses from an empty result throws, and the caught exception prints only a stack trace (`StorageError`). This check comes before the caregiver check.
- The new id is the last row's id plus one, not the maximum plus one. The invariant that ids increase makes the two agree. Cancelling the newest appointment makes its id available again (`Properties.IdReusedAfterCancel`), so ids can be reused.
- `upload_availability` in Scheduler.java checks for neither an existing slot nor an appointment, and the model adds the slot unconditionally. A caregiver already booked on a date can publish it again, leaving the pair both open and booked (`Properties.UploadCanBreakExclusive`). `reserve` and `cancel` do keep every pair open or booked, never both.
- `add_doses` in Scheduler.java checks no count: zero and negative ones are passed on to the Vaccine class, which the model treats as applying no check either. Non-negative dose counts are kept only when the counts added are non-negative (`Transitions.RunKeepsDosesNonNegative`).
- The password rule applies only to patients: `createPatient` applies it, `createCaregiver` does not.
