/**
  One function per command, from the state before it to the state after it
  and what the user is told. Every command checks first and changes state
  only when all checks pass; a check that fails, or a database error that
  is caught, leaves the state exactly as it was.
 */
module Transitions {
  import opened Tables
  import opened Usernames

  /** What a command reports, one value per message the console prints. */
  datatype Outcome =
    | AlreadyLoggedIn               // "User already logged in."
    | LoginFailed                   // "Login failed."
    | LoggedIn                      // "Logged in as: ..."
    | NotLoggedIn                   // "Please login first!"
    | NotAPatient                   // "Please login as a patient!"
    | NotACaregiver                 // "Please login as a caregiver first!"
    | TryAgain                      // "Please try again!": wrong number of tokens
    | StorageError                  // a caught SQLException: only a stack trace is printed
    | NoCaregiver                   // "No available caregiver!"
    | NoVaccine                     // "No available vaccine!"
    | Reserved(id: int, caregiver: string)
    | NoSuchAppointment             // "You have no such appointment!"
    | Cancelled
    | DosesUpdated
    | AvailabilityUploaded
    | LoggedOut
    | OtherCommand                  // a command that reads or changes nothing held here

  predicate LoggedInAny(s: State)
  {
    s.currentCaregiver.Some? || s.currentPatient.Some?
  }

  /** `login_patient <username> <password>`; `authenticated` is whether the
      stored salted hash accepts the password. */
  function LoginPatient(s: State, argc: nat, username: string, authenticated: bool): (r: (State, Outcome))
    ensures r.1 == AlreadyLoggedIn <==> LoggedInAny(s)
    ensures r.1 == LoggedIn <==> !LoggedInAny(s) && argc == 3 && authenticated
    ensures r.1 == LoggedIn ==> r.0 == s.(currentPatient := Some(username))
    ensures r.1 != LoggedIn ==> r.0 == s
    ensures r.1 in {AlreadyLoggedIn, LoginFailed, LoggedIn}
    ensures Valid(s) ==> Valid(r.0)
  {
    if LoggedInAny(s) then (s, AlreadyLoggedIn)
    else if argc != 3 then (s, LoginFailed)
    else if !authenticated then (s, LoginFailed)
    else (s.(currentPatient := Some(username)), LoggedIn)
  }

  /** `login_caregiver <username> <password>`. */
  function LoginCaregiver(s: State, argc: nat, username: string, authenticated: bool): (r: (State, Outcome))
    ensures r.1 == AlreadyLoggedIn <==> LoggedInAny(s)
    ensures r.1 == LoggedIn <==> !LoggedInAny(s) && argc == 3 && authenticated
    ensures r.1 == LoggedIn ==> r.0 == s.(currentCaregiver := Some(username))
    ensures r.1 != LoggedIn ==> r.0 == s
    ensures r.1 in {AlreadyLoggedIn, LoginFailed, LoggedIn}
    ensures Valid(s) ==> Valid(r.0)
  {
    if LoggedInAny(s) then (s, AlreadyLoggedIn)
    else if argc != 3 then (s, LoginFailed)
    else if !authenticated then (s, LoginFailed)
    else (s.(currentCaregiver := Some(username)), LoggedIn)
  }

  /** `logout`. */
  function Logout(s: State, argc: nat): (r: (State, Outcome))
    ensures r.1 == NotLoggedIn <==> !LoggedInAny(s)
    ensures r.1 == LoggedOut <==> LoggedInAny(s) && argc == 1
    ensures r.1 == TryAgain <==> LoggedInAny(s) && argc != 1
    ensures r.1 in {NotLoggedIn, TryAgain, LoggedOut}
    ensures r.1 == LoggedOut ==> !LoggedInAny(r.0)
    ensures r.1 == LoggedOut ==> r.0 == s.(currentCaregiver := None, currentPatient := None)
    ensures r.1 != LoggedOut ==> r.0 == s
    ensures Valid(s) ==> Valid(r.0)
  {
    if !LoggedInAny(s) then (s, NotLoggedIn)
    else if argc != 1 then (s, TryAgain)
    else (s.(currentCaregiver := None, currentPatient := None), LoggedOut)
  }

  /** `reserve <date> <vaccine>`. The vaccine row is read before anything is
      decided: when there is none, reading its doses throws, the exception
      is caught and nothing changes. */
  function Reserve(s: State, argc: nat, date: string, vaccine: string): (r: (State, Outcome))
    ensures r.1 == NotLoggedIn <==> !LoggedInAny(s)
    ensures r.1 == NotAPatient <==> s.currentCaregiver.Some?
    ensures r.1 == TryAgain <==> s.currentCaregiver.None? && s.currentPatient.Some? && argc != 3
    ensures r.1 == StorageError <==>
              s.currentCaregiver.None? && s.currentPatient.Some? && argc == 3 && vaccine !in s.vaccines
    // no free caregiver is reported before no doses
    ensures r.1 == NoCaregiver <==>
              && s.currentCaregiver.None? && s.currentPatient.Some? && argc == 3 && vaccine in s.vaccines
              && CaregiversOn(s.availabilities, date) == {}
    ensures r.1 == NoVaccine <==>
              && s.currentCaregiver.None? && s.currentPatient.Some? && argc == 3 && vaccine in s.vaccines
              && CaregiversOn(s.availabilities, date) != {} && s.vaccines[vaccine] <= 0
    ensures r.1.Reserved? <==>
              && s.currentCaregiver.None? && s.currentPatient.Some? && argc == 3
              && vaccine in s.vaccines && s.vaccines[vaccine] > 0
              && exists sl :: sl in s.availabilities && sl.date == date
    ensures r.1.Reserved? || r.1 in {NotLoggedIn, NotAPatient, TryAgain, StorageError, NoCaregiver, NoVaccine}
    ensures !r.1.Reserved? ==> r.0 == s
    // the caregiver is the first by username among those free on the date
    ensures r.1.Reserved? ==> Slot(date, r.1.caregiver) in s.availabilities
    ensures r.1.Reserved? ==> forall sl :: sl in s.availabilities && sl.date == date ==> LexLe(r.1.caregiver, sl.caregiver)
    // exactly three changes: one appointment more, one dose less, one slot less
    ensures r.1.Reserved? ==> r.1.id == NextId(s.appointments)
    ensures r.1.Reserved? ==>
              r.0 == s.(appointments := s.appointments + [Appointment(r.1.id, r.1.caregiver, s.currentPatient.value, vaccine, date)],
                        vaccines := s.vaccines[vaccine := s.vaccines[vaccine] - 1],
                        availabilities := s.availabilities - {Slot(date, r.1.caregiver)})
    ensures r.1.Reserved? && IdsIncreasing(s.appointments) ==> forall a :: a in s.appointments ==> a.id < r.1.id
    ensures Valid(s) ==> Valid(r.0)
    ensures DosesNonNegative(s) ==> DosesNonNegative(r.0)
  {
    if !LoggedInAny(s) then (s, NotLoggedIn)
    else if s.currentCaregiver.Some? then (s, NotAPatient)
    else if argc != 3 then (s, TryAgain)
    else if vaccine !in s.vaccines then (s, StorageError)
    else
      var free := CaregiversOn(s.availabilities, date);
      if free == {} then (s, NoCaregiver)
      else if s.vaccines[vaccine] <= 0 then (s, NoVaccine)
      else
        var c := Least(free);
        var id := NextId(s.appointments);
        var s' := s.(appointments := s.appointments + [Appointment(id, c, s.currentPatient.value, vaccine, date)],
                     vaccines := s.vaccines[vaccine := s.vaccines[vaccine] - 1],
                     availabilities := s.availabilities - {Slot(date, c)});
        assert IdsIncreasing(s.appointments) ==> IdsIncreasing(s'.appointments) by {
          if IdsIncreasing(s.appointments) {
            var t := s'.appointments;
            forall i, j | 0 <= i < j < |t| ensures t[i].id < t[j].id {
              if j == |t| - 1 {
                assert t[i] in s.appointments;
              }
            }
          }
        }
        (s', Reserved(id, c))
  }

  /** The user `cancel` acts for, and whether it matches the patient column. */
  function SessionUser(s: State): (u: (string, bool))
    requires LoggedInAny(s)
    ensures u.1 <==> s.currentPatient.Some?
    ensures u.0 == if u.1 then s.currentPatient.value else s.currentCaregiver.value
  {
    if s.currentPatient.Some? then (s.currentPatient.value, true)
    else (s.currentCaregiver.value, false)
  }

  /** The state after row `a` is cancelled: the rows with its id go, its
      slot is open again and its vaccine has one dose more. */
  function AfterCancel(s: State, a: Appointment): State
    requires a.vaccine in s.vaccines
  {
    s.(appointments := Without(s.appointments, a.id),
       availabilities := s.availabilities + {Slot(a.date, a.caregiver)},
       vaccines := s.vaccines[a.vaccine := s.vaccines[a.vaccine] + 1])
  }

  /** `cancel <appointment_id>`. Only a participant may cancel: the patient
      for a patient session, the caregiver for a caregiver session. */
  function Cancel(s: State, argc: nat, id: int): (r: (State, Outcome))
    requires Valid(s)
    ensures r.1 == NotLoggedIn <==> !LoggedInAny(s)
    ensures r.1 == Cancelled <==>
              LoggedInAny(s) && argc == 2
              && exists a :: a in s.appointments && Owns(a, id, SessionUser(s).0, SessionUser(s).1)
    ensures r.1 == NoSuchAppointment <==>
              LoggedInAny(s) && argc == 2
              && forall a :: a in s.appointments ==> !Owns(a, id, SessionUser(s).0, SessionUser(s).1)
    ensures r.1 == TryAgain <==> LoggedInAny(s) && argc != 2
    ensures r.1 in {NotLoggedIn, TryAgain, NoSuchAppointment, Cancelled}
    ensures r.1 != Cancelled ==> r.0 == s
    ensures r.1 == Cancelled ==> forall a :: a in r.0.appointments ==> a.id != id
    ensures Valid(r.0)
    ensures DosesNonNegative(s) ==> DosesNonNegative(r.0)
  {
    if !LoggedInAny(s) then (s, NotLoggedIn)
    else if argc != 2 then (s, TryAgain)
    else
      var (user, asPatient) := SessionUser(s);
      match FindOwned(s.appointments, id, user, asPatient)
      case None => (s, NoSuchAppointment)
      case Some(a) =>
        WithoutKeepsIdsIncreasing(s.appointments, id);
        (AfterCancel(s, a), Cancelled)
  }

  /** `add_doses <vaccine> <number>`: creates the vaccine with that many
      doses, or adds them to an existing one. */
  function AddDoses(s: State, argc: nat, vaccine: string, doses: int): (r: (State, Outcome))
    ensures r.1 == NotACaregiver <==> s.currentCaregiver.None?
    ensures r.1 == DosesUpdated <==> s.currentCaregiver.Some? && argc == 3
    ensures r.1 in {NotACaregiver, TryAgain, DosesUpdated}
    ensures r.1 != DosesUpdated ==> r.0 == s
    ensures r.1 == DosesUpdated ==> r.0.vaccines.Keys == s.vaccines.Keys + {vaccine}
    ensures r.1 == DosesUpdated && vaccine !in s.vaccines ==> r.0.vaccines[vaccine] == doses
    ensures r.1 == DosesUpdated && vaccine in s.vaccines ==> r.0.vaccines[vaccine] == s.vaccines[vaccine] + doses
    ensures forall v :: v in s.vaccines && v != vaccine ==> r.0.vaccines[v] == s.vaccines[v]
    ensures r.0.(vaccines := s.vaccines) == s
    ensures Valid(s) ==> Valid(r.0)
    ensures DosesNonNegative(s) && doses >= 0 ==> DosesNonNegative(r.0)
  {
    if s.currentCaregiver.None? then (s, NotACaregiver)
    else if argc != 3 then (s, TryAgain)
    else if vaccine !in s.vaccines then (s.(vaccines := s.vaccines[vaccine := doses]), DosesUpdated)
    else (s.(vaccines := s.vaccines[vaccine := s.vaccines[vaccine] + doses]), DosesUpdated)
  }

  /** `upload_availability <date>`: the logged-in caregiver opens a slot. */
  function UploadAvailability(s: State, argc: nat, date: string): (r: (State, Outcome))
    ensures r.1 == NotACaregiver <==> s.currentCaregiver.None?
    ensures r.1 == AvailabilityUploaded <==> s.currentCaregiver.Some? && argc == 2
    ensures r.1 in {NotACaregiver, TryAgain, AvailabilityUploaded}
    ensures r.1 != AvailabilityUploaded ==> r.0 == s
    ensures r.1 == AvailabilityUploaded ==>
              r.0 == s.(availabilities := s.availabilities + {Slot(date, s.currentCaregiver.value)})
    ensures Valid(s) ==> Valid(r.0)
    ensures DosesNonNegative(s) ==> DosesNonNegative(r.0)
  {
    if s.currentCaregiver.None? then (s, NotACaregiver)
    else if argc != 2 then (s, TryAgain)
    else (s.(availabilities := s.availabilities + {Slot(date, s.currentCaregiver.value)}), AvailabilityUploaded)
  }

  /** A command line once split into tokens: `argc` is the number of tokens,
      command name included. `Other` stands for the commands that read or
      change nothing held here (account creation, the two listings, an
      unknown name). */
  datatype Command =
    | LoginPatientCmd(argc: nat, username: string, authenticated: bool)
    | LoginCaregiverCmd(argc: nat, username: string, authenticated: bool)
    | ReserveCmd(argc: nat, date: string, vaccine: string)
    | UploadAvailabilityCmd(argc: nat, date: string)
    | CancelCmd(argc: nat, id: int)
    | AddDosesCmd(argc: nat, vaccine: string, doses: int)
    | LogoutCmd(argc: nat)
    | Other

  /** The dispatch on the first token. */
  function Step(s: State, cmd: Command): (r: (State, Outcome))
    requires Valid(s)
    ensures Valid(r.0)
    ensures cmd.Other? ==> r.0 == s
    ensures r.1 == OtherCommand <==> cmd.Other?
  {
    match cmd
    case LoginPatientCmd(n, u, ok) => LoginPatient(s, n, u, ok)
    case LoginCaregiverCmd(n, u, ok) => LoginCaregiver(s, n, u, ok)
    case ReserveCmd(n, d, v) => Reserve(s, n, d, v)
    case UploadAvailabilityCmd(n, d) => UploadAvailability(s, n, d)
    case CancelCmd(n, id) => Cancel(s, n, id)
    case AddDosesCmd(n, v, k) => AddDoses(s, n, v, k)
    case LogoutCmd(n) => Logout(s, n)
    case Other => (s, OtherCommand)
  }

  /** The state after a session of commands, one at a time. */
  function Run(s: State, cmds: seq<Command>): (t: State)
    requires Valid(s)
    ensures Valid(t)
    decreases |cmds|
  {
    if cmds == [] then s else Run(Step(s, cmds[0]).0, cmds[1..])
  }

  /** No command adds negative doses. */
  predicate AddsNoNegativeDoses(cmds: seq<Command>)
  {
    forall i :: 0 <= i < |cmds| ==> (cmds[i].AddDosesCmd? ==> cmds[i].doses >= 0)
  }

  /** Dose counts stay non-negative through any session whose `add_doses`
      counts are non-negative: a reservation only takes a dose that exists. */
  lemma {:induction false} RunKeepsDosesNonNegative(s: State, cmds: seq<Command>)
    requires Valid(s) && DosesNonNegative(s) && AddsNoNegativeDoses(cmds)
    ensures DosesNonNegative(Run(s, cmds))
    decreases |cmds|
  {
    if cmds != [] {
      var s' := Step(s, cmds[0]).0;
      assert DosesNonNegative(s');
      assert AddsNoNegativeDoses(cmds[1..]) by {
        forall i | 0 <= i < |cmds| - 1 ensures cmds[1..][i] == cmds[i + 1] { }
      }
      RunKeepsDosesNonNegative(s', cmds[1..]);
    }
  }
}
