/**
 * The appointment handlers: booking with the overlap check, patching (reschedule,
 * reassignment, status), cancelling, and the staff query that lists the blocking
 * appointments of a doctor in a window.
 */
module Appointments {
  import opened Common
  import opened Tables
  import opened Schedule
  import Store

  /** A date-time argument: not sent, sent but not in `YYYY-MM-DD HH:MM` form, or that minute. */
  datatype DateArg = NoDate | BadDate | At(minute: int)

  /** The booking request; `duration` already holds the default of 30 when none was sent. */
  datatype BookArgs = BookArgs(patientId: Option<int>, doctorId: Option<int>, date: DateArg,
                               reason: Option<string>, duration: int)

  /** The patch request: every field is optional. */
  datatype PatchArgs = PatchArgs(patientId: Option<int>, doctorId: Option<int>, date: DateArg,
                                 reason: Option<string>, status: Option<Status>, duration: Option<int>)

  /** One row of the conflicts query. */
  datatype ConflictRow = ConflictRow(id: int, start: int, end: int, patientId: int,
                                     patientName: string, status: Status)

  const DefaultDuration := 30

  /** The roles that may book. */
  predicate MayBook(role: Role)
  {
    role == ReceptionistRole || role == AdminRole || role == PatientRole
  }

  /** The required booking fields were sent and the date parsed. */
  predicate Parsed(args: BookArgs)
  {
    args.patientId.Some? && args.doctorId.Some? && args.date.At?
  }

  /** The patient row is the caller's own. */
  predicate OwnsPatient(p: Patient, actor: Actor)
  {
    p.userId == Some(actor.userId)
  }

  /** The appointment a valid booking request creates: always `scheduled`. */
  function Booked(args: BookArgs): Appointment
    requires Parsed(args)
  {
    Appointment(args.patientId.value, args.doctorId.value, args.date.minute, args.duration,
                args.reason, Scheduled)
  }

  /** Admin, receptionist, the patient's own user or the doctor's own user. */
  predicate MayChange(actor: Actor, patient: Patient, doctor: Doctor)
  {
    actor.role == AdminRole || actor.role == ReceptionistRole
    || (actor.role == PatientRole && OwnsPatient(patient, actor))
    || (actor.role == DoctorRole && doctor.userId == actor.userId)
  }

  /** `a` with every field the patch sends replaced; fields not sent keep their value. */
  function Patched(a: Appointment, p: PatchArgs): Appointment
  {
    a.(patientId := GetOr(p.patientId, a.patientId),
       doctorId := GetOr(p.doctorId, a.doctorId),
       date := if p.date.At? then p.date.minute else a.date,
       duration := GetOr(p.duration, a.duration),
       reason := if p.reason.Some? then p.reason else a.reason,
       status := GetOr(p.status, a.status))
  }

  /**
   * What the overlap filter passes to `timedelta(minutes=...)` for a row's end:
   * a number, or the duration column itself, which is what the code passes.
   */
  datatype MinutesArg = Number(minutes: int) | DurationColumn

  /**
   * `timedelta(minutes=m)`: Python's timedelta takes only numbers, so anything
   * else raises TypeError, which no handler catches and which is answered with a
   * server error.
   */
  function Timedelta(m: MinutesArg): (r: Outcome<int>)
    ensures r.Ok? <==> m.Number?
    ensures r.Ok? ==> r.value == m.minutes
    ensures r.Fail? ==> r.error == ServerError
  {
    if m.Number? then Ok(m.minutes) else Fail(ServerError)
  }

  /**
   * The end of row `a` as the overlap filter builds it, `date + timedelta(minutes=m)`:
   * with the row's own duration it is the row's end time.
   */
  function RowEnd(a: Appointment, m: MinutesArg): (r: Outcome<int>)
    ensures m == Number(a.duration) ==> r == Ok(EndTime(a))
  {
    match Timedelta(m)
    case Ok(d) => Ok(a.date + d)
    case Fail(e) => Fail(e)
  }

  /**
   * The overlap filter of the booking, reschedule and conflicts queries as
   * written: the interval test of every row needs `date + timedelta(minutes=<the
   * duration column>)`, which is evaluated while the query is put together.
   */
  function BlockersAsWritten(appts: map<int, Appointment>, doctor: int, start: int, end: int,
                             except: Option<int>): Outcome<set<int>>
  {
    match Timedelta(DurationColumn)
    case Ok(_) => Ok(Blockers(appts, doctor, start, end, except))
    case Fail(e) => Fail(e)
  }

  /**
   * As written the filter fails on every request that reaches it, so every
   * booking past the doctor check, every patch past its checks and every parsed
   * conflicts query is a server error; as intended each row's end is its end
   * time and the filter is `Blockers`.
   */
  lemma OverlapFilterFailsAsWritten(appts: map<int, Appointment>, doctor: int, start: int, end: int,
                                    except: Option<int>)
    ensures BlockersAsWritten(appts, doctor, start, end, except) == Fail(ServerError)
    ensures forall id :: id in appts ==> RowEnd(appts[id], DurationColumn) == Fail(ServerError)
    ensures forall id :: id in appts ==> RowEnd(appts[id], Number(appts[id].duration)) == Ok(EndTime(appts[id]))
  {
  }

  /**
   * The row `.first()` returns from the overlap filter: the model takes the
   * lowest id that passes it (the order of a scan by id), or None when no row does.
   */
  method FirstBlocker(db: Store.Db, doctor: int, start: int, end: int, except: Option<int>)
    returns (found: Option<int>)
    requires db.Valid()
    ensures found.None? <==> Blockers(db.appointments, doctor, start, end, except) == {}
    ensures found.Some? ==> found.value in Blockers(db.appointments, doctor, start, end, except)
    ensures found.Some? ==> forall j :: j in Blockers(db.appointments, doctor, start, end, except) ==> found.value <= j
  {
    ghost var blockers := Blockers(db.appointments, doctor, start, end, except);
    var i := 1;
    while i < db.nextId
      invariant 1 <= i <= db.nextId
      invariant forall j :: j in blockers ==> i <= j
    {
      if i in db.appointments && Blocks(db.appointments[i], doctor, start, end) && except != Some(i) {
        assert i in blockers;
        return Some(i);
      }
      i := i + 1;
    }
    assert forall j :: j !in blockers;
    return None;
  }

  /**
   * Books an appointment. Checks in order: role, request fields, patient,
   * ownership for a patient caller, active doctor, then overlap with the doctor's
   * blocking appointments; on success inserts a `scheduled` appointment.
   */
  method Book(db: Store.Db, actor: Actor, args: BookArgs) returns (r: Outcome<int>)
    requires db.Valid()
    modifies db`appointments, db`nextId
    ensures db.Valid()
    ensures !MayBook(actor.role) ==> r == Fail(Forbidden)
    ensures MayBook(actor.role) && !Parsed(args) ==> r == Fail(BadRequest)
    ensures MayBook(actor.role) && Parsed(args) && args.patientId.value !in db.patients ==> r == Fail(NotFound)
    ensures MayBook(actor.role) && Parsed(args) && args.patientId.value in db.patients
            && actor.role == PatientRole && !OwnsPatient(db.patients[args.patientId.value], actor)
            ==> r == Fail(Forbidden)
    ensures (MayBook(actor.role) && Parsed(args) && args.patientId.value in db.patients
             && (actor.role == PatientRole ==> OwnsPatient(db.patients[args.patientId.value], actor))
             && !(args.doctorId.value in db.doctors && db.doctors[args.doctorId.value].isActive))
            ==> r == Fail(NotFound)
    ensures (MayBook(actor.role) && Parsed(args) && args.patientId.value in db.patients
             && (actor.role == PatientRole ==> OwnsPatient(db.patients[args.patientId.value], actor))
             && args.doctorId.value in db.doctors && db.doctors[args.doctorId.value].isActive
             && Blockers(old(db.appointments), args.doctorId.value, args.date.minute,
                         args.date.minute + args.duration, None) != {})
            ==> r.Fail? && r.error.Overlap?
    ensures r.Ok? || (r.Fail? && r.error.Overlap?) ==>
              MayBook(actor.role) && Parsed(args) && args.patientId.value in db.patients
              && (actor.role == PatientRole ==> OwnsPatient(db.patients[args.patientId.value], actor))
              && args.doctorId.value in db.doctors && db.doctors[args.doctorId.value].isActive
    ensures r.Ok? <==>
              MayBook(actor.role) && Parsed(args) && args.patientId.value in db.patients
              && (actor.role == PatientRole ==> OwnsPatient(db.patients[args.patientId.value], actor))
              && args.doctorId.value in db.doctors && db.doctors[args.doctorId.value].isActive
              && Blockers(old(db.appointments), args.doctorId.value, args.date.minute,
                          args.date.minute + args.duration, None) == {}
    ensures r.Fail? && r.error.Overlap? ==>
              var id := r.error.id;
              var blockers := Blockers(old(db.appointments), args.doctorId.value, args.date.minute,
                                       args.date.minute + args.duration, None);
              id in blockers && (forall j :: j in blockers ==> id <= j)
              && r.error.start == old(db.appointments)[id].date
              && r.error.end == EndTime(old(db.appointments)[id])
    ensures r.Fail? ==> r.error in {Forbidden, BadRequest, NotFound} || r.error.Overlap?
    ensures r.Ok? ==> r.value == old(db.nextId) && db.nextId == old(db.nextId) + 1
                      && db.appointments == old(db.appointments)[r.value := Booked(args)]
    ensures r.Fail? ==> db.appointments == old(db.appointments) && db.nextId == old(db.nextId)
  {
    if !MayBook(actor.role) {
      return Fail(Forbidden);
    }
    if !Parsed(args) {
      return Fail(BadRequest);
    }
    var pid, did, start := args.patientId.value, args.doctorId.value, args.date.minute;
    if pid !in db.patients {
      return Fail(NotFound);
    }
    if actor.role == PatientRole && !OwnsPatient(db.patients[pid], actor) {
      return Fail(Forbidden);
    }
    if did !in db.doctors || !db.doctors[did].isActive {
      return Fail(NotFound);
    }
    var first := FirstBlocker(db, did, start, start + args.duration, None);
    if first.Some? {
      var id := first.value;
      return Fail(Overlap(id, db.appointments[id].date, EndTime(db.appointments[id])));
    }
    var a := Booked(args);
    InsertKeepsNoDoubleBooking(db.appointments, db.nextId, a);
    db.appointments := db.appointments[db.nextId := a];
    r := Ok(db.nextId);
    db.nextId := db.nextId + 1;
  }

  /**
   * Patches appointment `id`. Checks in order: existence, who may change it,
   * a new patient, a new doctor (must be active; patients and doctors may not
   * reassign), the date, a positive duration, a status change (not by a patient),
   * and finally the overlap of the patched interval with the doctor's OTHER
   * blocking appointments, which runs on every patch.
   */
  method Patch(db: Store.Db, actor: Actor, id: int, p: PatchArgs) returns (r: Outcome<Appointment>)
    requires db.Valid()
    modifies db`appointments
    ensures db.Valid()
    ensures id !in old(db.appointments) ==> r == Fail(NotFound)
    ensures id in old(db.appointments) ==>
              var a := old(db.appointments)[id];
              var may := MayChange(actor, db.patients[a.patientId], db.doctors[a.doctorId]);
              var patientOk := p.patientId.Some? ==> p.patientId.value in db.patients;
              var doctorFound := p.doctorId.Some? ==> (p.doctorId.value in db.doctors
                                                      && db.doctors[p.doctorId.value].isActive);
              var doctorAllowed := p.doctorId.Some? ==> actor.role != PatientRole && actor.role != DoctorRole;
              var timeOk := p.date != BadDate && (p.duration.Some? ==> p.duration.value > 0);
              var statusOk := p.status.Some? ==> actor.role != PatientRole;
              var b := Patched(a, p);
              (!may ==> r == Fail(Forbidden))
              && (may && !patientOk ==> r == Fail(NotFound))
              && (may && patientOk && !doctorFound ==> r == Fail(NotFound))
              && (may && patientOk && doctorFound && !doctorAllowed ==> r == Fail(Forbidden))
              && (may && patientOk && doctorFound && doctorAllowed && !timeOk ==> r == Fail(BadRequest))
              && (may && patientOk && doctorFound && doctorAllowed && timeOk && !statusOk ==> r == Fail(Forbidden))
              && (may && patientOk && doctorFound && doctorAllowed && timeOk && statusOk
                  && Blockers(old(db.appointments), b.doctorId, b.date, EndTime(b), Some(id)) != {}
                  ==> r.Fail? && r.error.Overlap?)
              && (r.Ok? <==>
                    MayChange(actor, db.patients[a.patientId], db.doctors[a.doctorId])
                    && (p.patientId.Some? ==> p.patientId.value in db.patients)
                    && (p.doctorId.Some? ==> p.doctorId.value in db.doctors && db.doctors[p.doctorId.value].isActive
                                             && actor.role != PatientRole && actor.role != DoctorRole)
                    && p.date != BadDate
                    && (p.duration.Some? ==> p.duration.value > 0)
                    && (p.status.Some? ==> actor.role != PatientRole)
                    && var b := Patched(a, p);
                       Blockers(old(db.appointments), b.doctorId, b.date, EndTime(b), Some(id)) == {})
    ensures r.Ok? ==> id in old(db.appointments) && r.value == Patched(old(db.appointments)[id], p)
                      && db.appointments == old(db.appointments)[id := r.value]
    ensures r.Fail? && r.error.Overlap? ==>
              id in old(db.appointments) &&
              var b := Patched(old(db.appointments)[id], p);
              var blockers := Blockers(old(db.appointments), b.doctorId, b.date, EndTime(b), Some(id));
              r.error.id in blockers && (forall j :: j in blockers ==> r.error.id <= j)
              && r.error.start == old(db.appointments)[r.error.id].date
              && r.error.end == EndTime(old(db.appointments)[r.error.id])
    ensures r.Fail? ==> db.appointments == old(db.appointments)
  {
    if id !in db.appointments {
      return Fail(NotFound);
    }
    var a := db.appointments[id];
    var isPatientOwner := actor.role == PatientRole && OwnsPatient(db.patients[a.patientId], actor);
    var isDoctorOwner := actor.role == DoctorRole && db.doctors[a.doctorId].userId == actor.userId;
    if !(actor.role == AdminRole || actor.role == ReceptionistRole || isPatientOwner || isDoctorOwner) {
      return Fail(Forbidden);
    }
    if p.patientId.Some? && p.patientId.value !in db.patients {
      return Fail(NotFound);
    }
    if p.doctorId.Some? {
      if p.doctorId.value !in db.doctors || !db.doctors[p.doctorId.value].isActive {
        return Fail(NotFound);
      }
      if actor.role == PatientRole || actor.role == DoctorRole {
        return Fail(Forbidden);
      }
    }
    if p.date == BadDate {
      return Fail(BadRequest);
    }
    if p.duration.Some? && p.duration.value <= 0 {
      return Fail(BadRequest);
    }
    if p.status.Some? && (actor.role == PatientRole || actor.role == DoctorRole) && !isDoctorOwner {
      return Fail(Forbidden);
    }
    var b := Patched(a, p);
    var first := FirstBlocker(db, b.doctorId, b.date, EndTime(b), Some(id));
    if first.Some? {
      var other := first.value;
      return Fail(Overlap(other, db.appointments[other].date, EndTime(db.appointments[other])));
    }
    ReplaceKeepsNoDoubleBooking(db.appointments, id, b);
    db.appointments := db.appointments[id := b];
    r := Ok(b);
  }

  /**
   * Cancels appointment `id` by setting its status to `cancelled`, whatever the
   * status was, so cancelling twice leaves what cancelling once left.
   */
  method Cancel(db: Store.Db, actor: Actor, id: int) returns (r: Outcome<Appointment>)
    requires db.Valid()
    modifies db`appointments
    ensures db.Valid()
    ensures id !in old(db.appointments) ==> r == Fail(NotFound)
    ensures id in old(db.appointments) ==>
              var a := old(db.appointments)[id];
              (MayChange(actor, db.patients[a.patientId], db.doctors[a.doctorId]) <==> r.Ok?)
              && (r.Fail? ==> r == Fail(Forbidden))
    ensures r.Ok? ==> id in old(db.appointments) && r.value == old(db.appointments)[id].(status := Cancelled)
                      && db.appointments == old(db.appointments)[id := r.value]
    ensures r.Ok? && old(db.appointments)[id].status == Cancelled ==> db.appointments == old(db.appointments)
    ensures r.Fail? ==> db.appointments == old(db.appointments)
  {
    if id !in db.appointments {
      return Fail(NotFound);
    }
    var a := db.appointments[id];
    if !MayChange(actor, db.patients[a.patientId], db.doctors[a.doctorId]) {
      return Fail(Forbidden);
    }
    ReleaseKeepsNoDoubleBooking(db.appointments, id, Cancelled);
    var c := a.(status := Cancelled);
    db.appointments := db.appointments[id := c];
    r := Ok(c);
  }

  /** The conflicts-query row of appointment `id`: its interval, patient and status. */
  function RowOf(appointments: map<int, Appointment>, patients: map<int, Patient>, id: int): (row: ConflictRow)
    requires id in appointments && appointments[id].patientId in patients
    ensures row.id == id && row.start == appointments[id].date && row.end == EndTime(appointments[id])
    ensures row.end - row.start == appointments[id].duration
    ensures row.patientId == appointments[id].patientId && row.status == appointments[id].status
  {
    var a := appointments[id];
    ConflictRow(id, a.date, EndTime(a), a.patientId, patients[a.patientId].name, a.status)
  }

  /** The rows of the blocking appointments of `doctor` below id `next` overlapping [start, end), in order of id. */
  method CollectBlockers(appointments: map<int, Appointment>, patients: map<int, Patient>, next: int,
                         doctor: int, start: int, end: int)
    returns (rows: seq<ConflictRow>)
    requires next >= 1 && Store.IdsBelow(appointments, next)
    requires forall a :: a in appointments ==> appointments[a].patientId in patients
    ensures forall y :: y in Blockers(appointments, doctor, start, end, None) ==>
              exists k :: 0 <= k < |rows| && rows[k].id == y
    ensures forall k :: 0 <= k < |rows| ==>
              rows[k].id in Blockers(appointments, doctor, start, end, None)
              && rows[k] == RowOf(appointments, patients, rows[k].id)
    ensures forall k, l :: 0 <= k < l < |rows| ==> rows[k].id < rows[l].id
  {
    ghost var ids := Blockers(appointments, doctor, start, end, None);
    ghost var keys: seq<int> := [];
    rows := [];
    var i := 1;
    while i < next
      invariant 1 <= i <= next
      invariant forall k :: 0 <= k < |rows| ==>
                  rows[k].id in ids && rows[k].id < i && rows[k] == RowOf(appointments, patients, rows[k].id)
      invariant |keys| == |rows| && forall k :: 0 <= k < |rows| ==> keys[k] == rows[k].id
      invariant forall y :: y in ids && y < i ==> y in keys
      invariant forall k, l :: 0 <= k < l < |rows| ==> rows[k].id < rows[l].id
    {
      if i in appointments && Blocks(appointments[i], doctor, start, end) {
        assert i in ids;
        rows := rows + [RowOf(appointments, patients, i)];
        keys := keys + [i];
      }
      i := i + 1;
    }
    forall y | y in ids
      ensures exists k :: 0 <= k < |rows| && rows[k].id == y
    {
      var k :| 0 <= k < |keys| && keys[k] == y;
      assert rows[k].id == y;
    }
  }

  /**
   * Lists the blocking appointments of doctor `doctorId` that overlap
   * [start, end): open to receptionists and admins; every field is required and
   * both times must parse. Each blocking appointment appears exactly once, in order of id.
   */
  method Conflicts(db: Store.Db, actor: Actor, doctorId: Option<int>, start: DateArg, end: DateArg)
    returns (r: Outcome<seq<ConflictRow>>)
    requires db.Valid()
    ensures actor.role != ReceptionistRole && actor.role != AdminRole ==> r == Fail(Forbidden)
    ensures ((actor.role == ReceptionistRole || actor.role == AdminRole)
             && (doctorId.None? || !start.At? || !end.At?)) ==> r == Fail(BadRequest)
    ensures r.Ok? ==> doctorId.Some? && start.At? && end.At?
    ensures r.Ok? ==>
              forall id :: id in db.appointments ==>
                (Blocks(db.appointments[id], doctorId.value, start.minute, end.minute)
                 <==> exists k :: 0 <= k < |r.value| && r.value[k].id == id)
    ensures r.Ok? ==> forall k :: 0 <= k < |r.value| ==>
                        r.value[k].id in db.appointments && r.value[k] == RowOf(db.appointments, db.patients, r.value[k].id)
    ensures r.Ok? ==> forall k, l :: 0 <= k < l < |r.value| ==> r.value[k].id < r.value[l].id
    ensures ((actor.role == ReceptionistRole || actor.role == AdminRole)
             && doctorId.Some? && start.At? && end.At?) ==> r.Ok?
  {
    if actor.role != ReceptionistRole && actor.role != AdminRole {
      return Fail(Forbidden);
    }
    if doctorId.None? || !start.At? || !end.At? {
      return Fail(BadRequest);
    }
    assert db.PeopleValid() && db.ScheduleValid();
    var rows := CollectBlockers(db.appointments, db.patients, db.nextId, doctorId.value, start.minute, end.minute);
    ghost var ids := Blockers(db.appointments, doctorId.value, start.minute, end.minute, None);
    forall y | y in db.appointments && Blocks(db.appointments[y], doctorId.value, start.minute, end.minute)
      ensures exists k :: 0 <= k < |rows| && rows[k].id == y
    {
      assert y in ids;
    }
    r := Ok(rows);
  }
}
