/**
  The scheduler's four pieces of state, held in memory: the logged-in user
  (the two static fields of the scheduler) and the Availabilities, Vaccines
  and Appointments tables. Dates are the text the user typed, compared by
  equality.
 */
module Tables {

  datatype Option<T> = None | Some(value: T)

  /** A row of Availabilities: the caregiver is free on that date. */
  datatype Slot = Slot(date: string, caregiver: string)

  /** A row of Appointments, in column order (ID, C_name, P_name, V_name, Time). */
  datatype Appointment = Appointment(id: int, caregiver: string, patient: string, vaccine: string, date: string)

  /** Everything a command can read or change. Vaccines maps a name to its
      available doses; Appointments keeps rows in insertion order. */
  datatype State = State(
    currentCaregiver: Option<string>,
    currentPatient: Option<string>,
    availabilities: set<Slot>,
    vaccines: map<string, int>,
    appointments: seq<Appointment>)

  /** At most one user is logged in at a time. */
  predicate AtMostOneSession(s: State)
  {
    s.currentCaregiver.None? || s.currentPatient.None?
  }

  /** Ids are positive and strictly increase along the table. */
  ghost predicate IdsIncreasing(appts: seq<Appointment>)
  {
    (forall i :: 0 <= i < |appts| ==> appts[i].id >= 1)
    && forall i, j :: 0 <= i < j < |appts| ==> appts[i].id < appts[j].id
  }

  /** Every booked vaccine is a row of Vaccines (rows are never deleted). */
  ghost predicate VaccinesKnown(s: State)
  {
    forall a :: a in s.appointments ==> a.vaccine in s.vaccines
  }

  /** The invariant every command keeps. */
  ghost predicate Valid(s: State)
  {
    AtMostOneSession(s) && IdsIncreasing(s.appointments) && VaccinesKnown(s)
  }

  /** No vaccine has a negative dose count. */
  ghost predicate DosesNonNegative(s: State)
  {
    forall v :: v in s.vaccines ==> s.vaccines[v] >= 0
  }

  /** The empty database with nobody logged in. */
  function Initial(): (s: State)
    ensures Valid(s) && DosesNonNegative(s)
    ensures s.currentCaregiver.None? && s.currentPatient.None?
    ensures s.appointments == [] && s.availabilities == {} && s.vaccines == map[]
  {
    State(None, None, {}, map[], [])
  }

  /** The id `reserve` gives a new appointment: 1 on an empty table,
      otherwise the id of the last row plus one. On a table whose ids
      increase, that is one more than every id present. */
  function NextId(appts: seq<Appointment>): (id: int)
    ensures IdsIncreasing(appts) ==> id >= 1
    ensures IdsIncreasing(appts) ==> forall a :: a in appts ==> a.id < id
  {
    if appts == [] then 1 else appts[|appts| - 1].id + 1
  }

  /** The scan over "SELECT ID FROM Appointments": every row overwrites `id`,
      and the last one read is incremented. */
  method LastIdPlusOne(appts: seq<Appointment>) returns (id: int)
    ensures id == NextId(appts)
    ensures IdsIncreasing(appts) ==> id >= 1 && forall a :: a in appts ==> a.id != id
  {
    id := 1;
    if |appts| > 0 {
      var i := 0;
      while i < |appts|
        invariant 0 <= i <= |appts|
        invariant i > 0 ==> id == appts[i - 1].id
      {
        id := appts[i].id;
        i := i + 1;
      }
      id := id + 1;
    }
  }

  /** The caregivers with an open slot on `date`. */
  function CaregiversOn(avail: set<Slot>, date: string): (names: set<string>)
    ensures forall c :: c in names <==> Slot(date, c) in avail
  {
    set sl | sl in avail && sl.date == date :: sl.caregiver
  }

  /** The first row with this id whose patient (`asPatient`) or caregiver
      column equals `user`, as the ownership query returns it. */
  function FindOwned(appts: seq<Appointment>, id: int, user: string, asPatient: bool): (r: Option<Appointment>)
    ensures r.None? <==> forall a :: a in appts ==> !Owns(a, id, user, asPatient)
    ensures r.Some? ==> r.value in appts && Owns(r.value, id, user, asPatient)
  {
    if appts == [] then None
    else if Owns(appts[0], id, user, asPatient) then Some(appts[0])
    else
      var r := FindOwned(appts[1..], id, user, asPatient);
      assert forall a :: a in appts ==> a == appts[0] || a in appts[1..];
      r
  }

  predicate Owns(a: Appointment, id: int, user: string, asPatient: bool)
  {
    a.id == id && (if asPatient then a.patient == user else a.caregiver == user)
  }

  /** The table after "DELETE FROM Appointments WHERE ID = ?": the rows with
      another id, in their order. */
  function Without(appts: seq<Appointment>, id: int): (r: seq<Appointment>)
    ensures forall a :: a in r <==> a in appts && a.id != id
  {
    if appts == [] then []
    else
      var rest := Without(appts[1..], id);
      assert forall a :: a in appts <==> a == appts[0] || a in appts[1..];
      if appts[0].id == id then rest else [appts[0]] + rest
  }

  /** The tail of an increasing table is increasing and lies above its head. */
  lemma TailIncreasing(appts: seq<Appointment>)
    requires appts != [] && IdsIncreasing(appts)
    ensures IdsIncreasing(appts[1..])
    ensures forall a :: a in appts[1..] ==> appts[0].id < a.id
  {
    var tail := appts[1..];
    forall i, j | 0 <= i < j < |tail| ensures tail[i].id < tail[j].id {
      assert tail[i] == appts[i + 1] && tail[j] == appts[j + 1];
    }
    forall a | a in tail ensures appts[0].id < a.id {
      var k :| 0 <= k < |tail| && tail[k] == a;
      assert appts[k + 1] == a;
    }
  }

  /** A row with a positive id below every id of an increasing table can go in front. */
  lemma ConsIncreasing(x: Appointment, rest: seq<Appointment>)
    requires IdsIncreasing(rest) && x.id >= 1
    requires forall a :: a in rest ==> x.id < a.id
    ensures IdsIncreasing([x] + rest)
  {
    var r := [x] + rest;
    forall i, j | 0 <= i < j < |r| ensures r[i].id < r[j].id {
      if i == 0 {
        assert r[j] == rest[j - 1];
      } else {
        assert r[i] == rest[i - 1] && r[j] == rest[j - 1];
      }
    }
  }

  /** Deleting rows keeps the ids increasing. */
  lemma {:induction false} WithoutKeepsIdsIncreasing(appts: seq<Appointment>, id: int)
    requires IdsIncreasing(appts)
    ensures IdsIncreasing(Without(appts, id))
  {
    if appts != [] {
      TailIncreasing(appts);
      WithoutKeepsIdsIncreasing(appts[1..], id);
      if appts[0].id != id {
        ConsIncreasing(appts[0], Without(appts[1..], id));
      }
    }
  }
}
