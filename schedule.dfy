/**
 * The overlap rule of appointment booking: a doctor's scheduled or confirmed
 * appointments occupy half-open intervals of minutes, and a new or moved
 * appointment may not overlap any of them.
 */
module Schedule {
  import opened Common
  import opened Tables

  /** Only scheduled and confirmed appointments hold a doctor's time. */
  predicate Blocking(s: Status)
  {
    s == Scheduled || s == Confirmed
  }

  /** The end of the interval an appointment occupies (its reported end time). */
  function EndTime(a: Appointment): int
  {
    a.date + a.duration
  }

  /** The booking filter: `a` is a blocking appointment of `doctor` that overlaps [start, end). */
  predicate Blocks(a: Appointment, doctor: int, start: int, end: int)
  {
    a.doctorId == doctor && a.date < end && EndTime(a) > start && Blocking(a.status)
  }

  /** Ids of the appointments that block [start, end) for `doctor`, leaving out `except`. */
  function Blockers(appts: map<int, Appointment>, doctor: int, start: int, end: int,
                    except: Option<int>): set<int>
  {
    set id | id in appts && Blocks(appts[id], doctor, start, end) && except != Some(id)
  }

  /** `a` and `b` belong to one doctor, both block, and their intervals overlap. */
  predicate Clash(a: Appointment, b: Appointment)
  {
    Blocking(b.status) && Blocks(a, b.doctorId, b.date, EndTime(b))
  }

  /** No two distinct blocking appointments of the same doctor overlap. */
  ghost predicate NoDoubleBooking(appts: map<int, Appointment>)
  {
    forall i, j :: i in appts && j in appts && i != j ==> !Clash(appts[i], appts[j])
  }

  /** The clash relation does not depend on which appointment is the candidate. */
  lemma ClashSymmetric(a: Appointment, b: Appointment)
    ensures Clash(a, b) <==> Clash(b, a)
  {
  }

  /** Intervals that only touch ([s, e) and [e, f)) never clash, whatever their statuses. */
  lemma TouchingNeverClash(a: Appointment, b: Appointment)
    requires EndTime(a) == b.date
    ensures !Clash(a, b) && !Clash(b, a)
  {
  }

  /** Cancelled, completed and no-show appointments never block a booking. */
  lemma FreeNeverBlocks(a: Appointment, doctor: int, start: int, end: int)
    requires !Blocking(a.status)
    ensures !Blocks(a, doctor, start, end)
  {
  }

  /** Inserting a fresh appointment whose interval has no blocker keeps the schedule free of double bookings. */
  lemma InsertKeepsNoDoubleBooking(appts: map<int, Appointment>, id: int, a: Appointment)
    requires NoDoubleBooking(appts) && id !in appts
    requires Blockers(appts, a.doctorId, a.date, EndTime(a), None) == {}
    ensures NoDoubleBooking(appts[id := a])
  {
    forall j | j in appts
      ensures !Clash(appts[j], a) && !Clash(a, appts[j])
    {
      assert j !in Blockers(appts, a.doctorId, a.date, EndTime(a), None);
    }
  }

  /**
   * Replacing appointment `id` by `a` keeps the schedule free of double bookings
   * when no OTHER appointment blocks the interval of `a`.
   */
  lemma ReplaceKeepsNoDoubleBooking(appts: map<int, Appointment>, id: int, a: Appointment)
    requires NoDoubleBooking(appts) && id in appts
    requires Blockers(appts, a.doctorId, a.date, EndTime(a), Some(id)) == {}
    ensures NoDoubleBooking(appts[id := a])
  {
    forall j | j in appts && j != id
      ensures !Clash(appts[j], a) && !Clash(a, appts[j])
    {
      assert j !in Blockers(appts, a.doctorId, a.date, EndTime(a), Some(id));
    }
  }

  /** Giving an appointment a non-blocking status keeps the schedule free of double bookings. */
  lemma ReleaseKeepsNoDoubleBooking(appts: map<int, Appointment>, id: int, s: Status)
    requires NoDoubleBooking(appts) && id in appts && !Blocking(s)
    ensures NoDoubleBooking(appts[id := appts[id].(status := s)])
  {
  }

  /**
   * Right after a booking of positive length, the conflict query over the booked
   * slot reports exactly the new appointment.
   */
  lemma BookedSlotReportsItself(appts: map<int, Appointment>, id: int, a: Appointment)
    requires id !in appts && a.duration > 0 && Blocking(a.status)
    requires Blockers(appts, a.doctorId, a.date, EndTime(a), None) == {}
    ensures Blockers(appts[id := a], a.doctorId, a.date, EndTime(a), None) == {id}
  {
    var after := Blockers(appts[id := a], a.doctorId, a.date, EndTime(a), None);
    assert id in after;
    forall j | j in appts && j != id
      ensures j !in after
    {
      assert j !in Blockers(appts, a.doctorId, a.date, EndTime(a), None);
    }
  }
}
