/**
  Properties that relate several commands: a cancellation undoes the
  reservation it follows, two reservations cannot win the same slot or
  the same last dose, and reservations and cancellations keep every
  (date, caregiver) pair either open or booked, never both.
 */
module Properties {
  import opened Tables
  import opened Transitions

  /** Removing a row whose id no earlier row has gives back the earlier rows. */
  lemma {:induction false} WithoutFreshAppended(appts: seq<Appointment>, x: Appointment)
    requires forall a :: a in appts ==> a.id != x.id
    ensures Without(appts + [x], x.id) == appts
  {
    var t := appts + [x];
    if appts == [] {
      assert t[1..] == [];
    } else {
      assert t[0] == appts[0] && t[1..] == appts[1..] + [x];
      assert forall a :: a in appts[1..] ==> a in appts;
      WithoutFreshAppended(appts[1..], x);
      assert Without(t, x.id) == [appts[0]] + appts[1..];
      assert appts == [appts[0]] + appts[1..];
    }
  }

  /** On a valid table two rows with the same id are the same row. */
  lemma IdsIdentifyRows(appts: seq<Appointment>)
    requires IdsIncreasing(appts)
    ensures forall a, b :: a in appts && b in appts && a.id == b.id ==> a == b
  {
    forall a, b | a in appts && b in appts && a.id == b.id
      ensures a == b
    {
      var i :| 0 <= i < |appts| && appts[i] == a;
      var j :| 0 <= j < |appts| && appts[j] == b;
      assert !(i < j) && !(j < i);
    }
  }

  /** A cancellation by a participant of row `a` does exactly three things:
      the row goes, its (date, caregiver) slot opens, its vaccine gets its
      dose back. */
  lemma CancelOwned(s: State, a: Appointment)
    requires Valid(s) && LoggedInAny(s)
    requires a in s.appointments && Owns(a, a.id, SessionUser(s).0, SessionUser(s).1)
    ensures Cancel(s, 2, a.id).1 == Cancelled
    ensures Cancel(s, 2, a.id).0 ==
              s.(appointments := Without(s.appointments, a.id),
                 availabilities := s.availabilities + {Slot(a.date, a.caregiver)},
                 vaccines := s.vaccines[a.vaccine := s.vaccines[a.vaccine] + 1])
  {
    IdsIdentifyRows(s.appointments);
    var (user, asPatient) := SessionUser(s);
    var found := FindOwned(s.appointments, a.id, user, asPatient);
    assert found == Some(a);
  }

  /** The state after row `x` is booked on its slot with one dose of its vaccine. */
  function WithBooking(s: State, x: Appointment): State
    requires x.vaccine in s.vaccines
  {
    s.(appointments := s.appointments + [x],
       vaccines := s.vaccines[x.vaccine := s.vaccines[x.vaccine] - 1],
       availabilities := s.availabilities - {Slot(x.date, x.caregiver)})
  }

  /** The patient of a freshly booked row who cancels it gets back the state
      before the booking. */
  lemma CancelUndoesBooking(s: State, x: Appointment)
    requires x.vaccine in s.vaccines && Slot(x.date, x.caregiver) in s.availabilities
    requires s.currentPatient == Some(x.patient)
    requires forall a :: a in s.appointments ==> a.id != x.id
    requires Valid(WithBooking(s, x))
    ensures Cancel(WithBooking(s, x), 2, x.id) == (s, Cancelled)
  {
    var s1 := WithBooking(s, x);
    assert x in s1.appointments by {
      assert s1.appointments[|s.appointments|] == x;
    }
    CancelOwned(s1, x);
    WithoutFreshAppended(s.appointments, x);
    var sl, n := Slot(x.date, x.caregiver), s.vaccines[x.vaccine];
    assert (s.availabilities - {sl}) + {sl} == s.availabilities;
    assert s.vaccines[x.vaccine := n - 1][x.vaccine := n - 1 + 1] == s.vaccines;
  }

  /** A patient who cancels the appointment just reserved gets back exactly
      the state before the reservation: same slots, same doses, same table. */
  lemma ReserveThenCancelRestores(s: State, date: string, vaccine: string)
    requires Valid(s)
    requires Reserve(s, 3, date, vaccine).1.Reserved?
    ensures Cancel(Reserve(s, 3, date, vaccine).0, 2, Reserve(s, 3, date, vaccine).1.id) == (s, Cancelled)
  {
    var (s1, out) := Reserve(s, 3, date, vaccine);
    var x := Appointment(out.id, out.caregiver, s.currentPatient.value, vaccine, date);
    assert s1 == WithBooking(s, x);
    CancelUndoesBooking(s, x);
  }

  /** Ids are not kept once used: after the newest appointment is cancelled,
      the same reservation again receives the same id. */
  lemma IdReusedAfterCancel(s: State, date: string, vaccine: string)
    requires Valid(s)
    requires Reserve(s, 3, date, vaccine).1.Reserved?
    ensures Reserve(Cancel(Reserve(s, 3, date, vaccine).0, 2, Reserve(s, 3, date, vaccine).1.id).0, 3, date, vaccine)
            == Reserve(s, 3, date, vaccine)
  {
    ReserveThenCancelRestores(s, date, vaccine);
  }

  /** When only one caregiver is free on a date, of two reservations for that
      date only the first can succeed. */
  lemma OnlyOneWinsTheLastSlot(s: State, date: string, c: string, v1: string, v2: string)
    requires CaregiversOn(s.availabilities, date) == {c}
    requires Reserve(s, 3, date, v1).1.Reserved?
    ensures !Reserve(Reserve(s, 3, date, v1).0, 3, date, v2).1.Reserved?
  {
    var (s1, out) := Reserve(s, 3, date, v1);
    assert out.caregiver == c;
    assert forall sl :: sl in s1.availabilities ==> sl.date != date;
  }

  /** When one dose of a vaccine is left, of two reservations for it only the
      first can succeed, whatever the dates. */
  lemma OnlyOneWinsTheLastDose(s: State, d1: string, d2: string, vaccine: string)
    requires vaccine in s.vaccines && s.vaccines[vaccine] == 1
    requires Reserve(s, 3, d1, vaccine).1.Reserved?
    ensures Reserve(Reserve(s, 3, d1, vaccine).0, 3, d2, vaccine).1 in {NoCaregiver, NoVaccine}
  {
  }

  /** Nobody can cancel an appointment they are not part of: a patient only
      their own, a caregiver only one booked with them. */
  lemma NonParticipantCannotCancel(s: State, argc: nat, id: int)
    requires Valid(s) && LoggedInAny(s)
    requires forall a :: a in s.appointments && a.id == id ==>
               if s.currentPatient.Some? then a.patient != s.currentPatient.value
               else a.caregiver != s.currentCaregiver.value
    ensures Cancel(s, argc, id).0 == s
    ensures argc == 2 ==> Cancel(s, argc, id).1 == NoSuchAppointment
  {
  }

  /** Some appointment holds this caregiver on this date. */
  ghost predicate Booked(appts: seq<Appointment>, date: string, caregiver: string)
  {
    exists a :: a in appts && a.date == date && a.caregiver == caregiver
  }

  /** An open slot is never also booked, and no two appointments hold the
      same caregiver on the same date. */
  ghost predicate ExclusiveRows(appts: seq<Appointment>, avail: set<Slot>)
  {
    && (forall sl :: sl in avail ==> !Booked(appts, sl.date, sl.caregiver))
    && (forall a, b :: a in appts && b in appts && a.date == b.date && a.caregiver == b.caregiver ==> a == b)
  }

  ghost predicate Exclusive(s: State)
  {
    ExclusiveRows(s.appointments, s.availabilities)
  }

  /** The caregiver has published the date: it is open or booked. */
  ghost predicate Published(appts: seq<Appointment>, avail: set<Slot>, date: string, caregiver: string)
  {
    Slot(date, caregiver) in avail || Booked(appts, date, caregiver)
  }

  /** Booking row `x` on its open slot: the pair moves from open to booked. */
  lemma ClaimKeepsExclusive(appts: seq<Appointment>, avail: set<Slot>, x: Appointment)
    requires ExclusiveRows(appts, avail) && Slot(x.date, x.caregiver) in avail
    ensures ExclusiveRows(appts + [x], avail - {Slot(x.date, x.caregiver)})
    ensures forall d, c :: Published(appts + [x], avail - {Slot(x.date, x.caregiver)}, d, c) <==> Published(appts, avail, d, c)
  {
    var appts', avail' := appts + [x], avail - {Slot(x.date, x.caregiver)};
    assert forall a :: a in appts' <==> a in appts || a == x;
    assert !Booked(appts, x.date, x.caregiver);
    forall d, c ensures Published(appts', avail', d, c) <==> Published(appts, avail, d, c) {
      if d == x.date && c == x.caregiver {
        assert x in appts';
      } else if Booked(appts, d, c) {
        var b :| b in appts && b.date == d && b.caregiver == c;
        assert b in appts';
      }
    }
  }

  /** Cancelling row `a`: its pair moves from booked back to open. */
  lemma ReleaseKeepsExclusive(appts: seq<Appointment>, avail: set<Slot>, a: Appointment)
    requires IdsIncreasing(appts) && ExclusiveRows(appts, avail) && a in appts
    ensures ExclusiveRows(Without(appts, a.id), avail + {Slot(a.date, a.caregiver)})
    ensures forall d, c :: Published(Without(appts, a.id), avail + {Slot(a.date, a.caregiver)}, d, c) <==> Published(appts, avail, d, c)
  {
    var appts', avail' := Without(appts, a.id), avail + {Slot(a.date, a.caregiver)};
    IdsIdentifyRows(appts);
    assert forall b :: b in appts' ==> b in appts && b != a;
    assert !Booked(appts', a.date, a.caregiver);
    forall d, c ensures Published(appts', avail', d, c) <==> Published(appts, avail, d, c) {
      if Booked(appts, d, c) && !(d == a.date && c == a.caregiver) {
        var b :| b in appts && b.date == d && b.caregiver == c;
        assert b in appts';
      }
    }
  }

  /** A reservation keeps every pair open or booked, never both, and leaves
      the set of published pairs as it was. */
  lemma ReserveKeepsExclusive(s: State, argc: nat, date: string, vaccine: string)
    requires Exclusive(s)
    ensures Exclusive(Reserve(s, argc, date, vaccine).0)
    ensures forall d, c :: Published(Reserve(s, argc, date, vaccine).0.appointments, Reserve(s, argc, date, vaccine).0.availabilities, d, c)
                           <==> Published(s.appointments, s.availabilities, d, c)
  {
    var (s1, out) := Reserve(s, argc, date, vaccine);
    if out.Reserved? {
      ClaimKeepsExclusive(s.appointments, s.availabilities, Appointment(out.id, out.caregiver, s.currentPatient.value, vaccine, date));
    }
  }

  /** A cancellation does the same. */
  lemma CancelKeepsExclusive(s: State, argc: nat, id: int)
    requires Valid(s) && Exclusive(s)
    ensures Exclusive(Cancel(s, argc, id).0)
    ensures forall d, c :: Published(Cancel(s, argc, id).0.appointments, Cancel(s, argc, id).0.availabilities, d, c)
                           <==> Published(s.appointments, s.availabilities, d, c)
  {
    var (s1, out) := Cancel(s, argc, id);
    if out == Cancelled {
      var (user, asPatient) := SessionUser(s);
      var a := FindOwned(s.appointments, id, user, asPatient).value;
      CancelOwned(s, a);
      ReleaseKeepsExclusive(s.appointments, s.availabilities, a);
    }
  }

  /** Uploading checks no appointment, so a caregiver who was booked on a
      date and uploads that date again is both open and booked. */
  lemma UploadCanBreakExclusive()
    ensures exists s: State, date: string ::
              Valid(s) && Exclusive(s) && !Exclusive(UploadAvailability(s, 2, date).0)
  {
    var date := "2024-03-01";
    var x := Appointment(1, "alice", "bob", "Pfizer", date);
    var s := State(Some("alice"), None, {}, map["Pfizer" := 4], [x]);
    var s1 := UploadAvailability(s, 2, date).0;
    assert Slot(date, "alice") in s1.availabilities;
    assert x in s1.appointments;
    assert Valid(s) && Exclusive(s) && !Exclusive(s1);
  }
}
