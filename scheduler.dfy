/**
  The console scheduler as an object: the two session fields and the three
  tables the commands update in place. Each command method checks first,
  then assigns the fields, and is proved to take the object from one state
  to the next exactly as the matching function of `Transitions` says.
 */
module Scheduling {
  import opened Tables
  import opened Usernames
  import opened Transitions

  class Scheduler {
    // the logged-in user: at most one of the two is set
    var currentCaregiver: Option<string>
    var currentPatient: Option<string>
    // the tables
    var availabilities: set<Slot>
    var vaccines: map<string, int>
    var appointments: seq<Appointment>

    /** The object's fields as a state value. */
    function Snapshot(): State
      reads this
    {
      State(currentCaregiver, currentPatient, availabilities, vaccines, appointments)
    }

    ghost predicate Valid()
      reads this
    {
      Tables.Valid(Snapshot())
    }

    /** Nobody logged in, empty tables. */
    constructor ()
      ensures Valid() && Snapshot() == Initial()
    {
      currentCaregiver, currentPatient := None, None;
      availabilities, vaccines, appointments := {}, map[], [];
    }

    method LoginPatient(argc: nat, username: string, authenticated: bool) returns (out: Outcome)
      requires Valid()
      modifies this
      ensures Valid()
      ensures (Snapshot(), out) == Transitions.LoginPatient(old(Snapshot()), argc, username, authenticated)
    {
      if currentCaregiver.Some? || currentPatient.Some? {
        return AlreadyLoggedIn;
      }
      if argc != 3 || !authenticated {
        return LoginFailed;
      }
      currentPatient := Some(username);
      out := LoggedIn;
    }

    method LoginCaregiver(argc: nat, username: string, authenticated: bool) returns (out: Outcome)
      requires Valid()
      modifies this
      ensures Valid()
      ensures (Snapshot(), out) == Transitions.LoginCaregiver(old(Snapshot()), argc, username, authenticated)
    {
      if currentCaregiver.Some? || currentPatient.Some? {
        return AlreadyLoggedIn;
      }
      if argc != 3 || !authenticated {
        return LoginFailed;
      }
      currentCaregiver := Some(username);
      out := LoggedIn;
    }

    method Logout(argc: nat) returns (out: Outcome)
      requires Valid()
      modifies this
      ensures Valid()
      ensures (Snapshot(), out) == Transitions.Logout(old(Snapshot()), argc)
      ensures out == LoggedOut ==> currentCaregiver.None? && currentPatient.None?
    {
      if currentCaregiver.None? && currentPatient.None? {
        return NotLoggedIn;
      }
      if argc != 1 {
        return TryAgain;
      }
      currentPatient := None;
      currentCaregiver := None;
      out := LoggedOut;
    }

    method Reserve(argc: nat, date: string, vaccine: string) returns (out: Outcome)
      requires Valid()
      modifies this
      ensures Valid()
      ensures (Snapshot(), out) == Transitions.Reserve(old(Snapshot()), argc, date, vaccine)
      ensures out.Reserved? ==> appointments == old(appointments) + [Appointment(out.id, out.caregiver, currentPatient.value, vaccine, date)]
      ensures out.Reserved? ==> vaccines == old(vaccines)[vaccine := old(vaccines)[vaccine] - 1]
      ensures out.Reserved? ==> availabilities == old(availabilities) - {Slot(date, out.caregiver)}
      ensures !out.Reserved? ==> Snapshot() == old(Snapshot())
    {
      if currentCaregiver.None? && currentPatient.None? {
        return NotLoggedIn;
      } else if currentCaregiver.Some? {
        return NotAPatient;
      }
      if argc != 3 {
        return TryAgain;
      }
      var free := CaregiversOn(availabilities, date);
      if vaccine !in vaccines {
        // the doses of an empty result are read: the exception is caught
        return StorageError;
      }
      var existCaregiver := free != {};
      var existVaccine := vaccines[vaccine] > 0;
      if existCaregiver && existVaccine {
        var id := LastIdPlusOne(appointments);
        var caregiver := Least(free);
        appointments := appointments + [Appointment(id, caregiver, currentPatient.value, vaccine, date)];
        vaccines := vaccines[vaccine := vaccines[vaccine] - 1];
        availabilities := availabilities - {Slot(date, caregiver)};
        out := Reserved(id, caregiver);
      } else if !existCaregiver {
        out := NoCaregiver;
      } else {
        out := NoVaccine;
      }
    }

    method UploadAvailability(argc: nat, date: string) returns (out: Outcome)
      requires Valid()
      modifies this
      ensures Valid()
      ensures (Snapshot(), out) == Transitions.UploadAvailability(old(Snapshot()), argc, date)
    {
      if currentCaregiver.None? {
        return NotACaregiver;
      }
      if argc != 2 {
        return TryAgain;
      }
      availabilities := availabilities + {Slot(date, currentCaregiver.value)};
      out := AvailabilityUploaded;
    }

    method Cancel(argc: nat, id: int) returns (out: Outcome)
      requires Valid()
      modifies this
      ensures (Snapshot(), out) == Transitions.Cancel(old(Snapshot()), argc, id)
      ensures Valid()
      ensures out != Cancelled ==> Snapshot() == old(Snapshot())
    {
      if currentCaregiver.None? && currentPatient.None? {
        return NotLoggedIn;
      }
      if argc != 2 {
        return TryAgain;
      }
      var user, asPatient := if currentPatient.Some? then currentPatient.value else currentCaregiver.value, currentPatient.Some?;
      var found := FindOwned(appointments, id, user, asPatient);
      if found.None? {
        return NoSuchAppointment;
      }
      var a := found.value;
      ghost var before := Snapshot();
      appointments := Without(appointments, id);
      availabilities := availabilities + {Slot(a.date, a.caregiver)};
      vaccines := vaccines[a.vaccine := vaccines[a.vaccine] + 1];
      out := Cancelled;
      assert Snapshot() == AfterCancel(before, a);
    }

    method AddDoses(argc: nat, vaccine: string, doses: int) returns (out: Outcome)
      requires Valid()
      modifies this
      ensures Valid()
      ensures (Snapshot(), out) == Transitions.AddDoses(old(Snapshot()), argc, vaccine, doses)
    {
      if currentCaregiver.None? {
        return NotACaregiver;
      }
      if argc != 3 {
        return TryAgain;
      }
      if vaccine !in vaccines {
        vaccines := vaccines[vaccine := doses];
      } else {
        vaccines := vaccines[vaccine := vaccines[vaccine] + doses];
      }
      out := DosesUpdated;
    }
  }

  /** A session driven through the object, in three parts. First a
      caregiver opens a date and stocks a vaccine, then a patient logs in. */
  method OpenAndStock() returns (app: Scheduler)
    ensures fresh(app) && app.Valid()
    ensures app.Snapshot() == State(None, Some("bob"), {Slot("2024-03-01", "alice")}, map["Pfizer" := 5], [])
  {
    app := new Scheduler();
    var out := app.LoginCaregiver(3, "alice", true);
    assert app.Snapshot() == State(Some("alice"), None, {}, map[], []);
    out := app.Reserve(3, "2024-03-01", "Pfizer");
    assert out == NotAPatient;
    out := app.UploadAvailability(2, "2024-03-01");
    assert app.Snapshot() == State(Some("alice"), None, {Slot("2024-03-01", "alice")}, map[], []);
    out := app.AddDoses(3, "Pfizer", 5);
    assert app.Snapshot() == State(Some("alice"), None, {Slot("2024-03-01", "alice")}, map["Pfizer" := 5], []);
    out := app.Logout(1);
    out := app.LoginPatient(3, "bob", true);
  }

  /** The patient books the only slot: caregiver alice, id 1, one dose less. */
  method BookOnlySlot(app: Scheduler)
    requires app.Valid()
    requires app.Snapshot() == State(None, Some("bob"), {Slot("2024-03-01", "alice")}, map["Pfizer" := 5], [])
    modifies app
    ensures app.Valid()
    ensures app.Snapshot() == State(None, Some("bob"), {}, map["Pfizer" := 4],
                                    [Appointment(1, "alice", "bob", "Pfizer", "2024-03-01")])
  {
    assert CaregiversOn(app.availabilities, "2024-03-01") == {"alice"};
    var out := app.Reserve(3, "2024-03-01", "Pfizer");
    assert out == Reserved(1, "alice");
  }

  /** The patient cancels: the slot and the dose come back, and a second
      cancellation finds nothing. */
  method CancelBooking(app: Scheduler)
    requires app.Valid()
    requires app.Snapshot() == State(None, Some("bob"), {}, map["Pfizer" := 4],
                                     [Appointment(1, "alice", "bob", "Pfizer", "2024-03-01")])
    modifies app
    ensures app.Snapshot() == State(None, Some("bob"), {Slot("2024-03-01", "alice")}, map["Pfizer" := 5], [])
  {
    assert Owns(app.appointments[0], 1, "bob", true);
    var out := app.Cancel(2, 1);
    assert out == Cancelled;
    out := app.Cancel(2, 1);
    assert out == NoSuchAppointment;
  }

  method Walkthrough()
  {
    var app := OpenAndStock();
    BookOnlySlot(app);
    CancelBooking(app);
  }
}
