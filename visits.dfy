/**
 * The visit handlers: recording a visit (checked against its linked
 * appointment, with one treatment per entry, completing the appointment), and
 * patching a visit, which only adds treatments. Also the patient search's
 * result cap.
 */
module Visits {
  import opened Common
  import opened Tables
  import Schedule
  import Store

  /** One entry of the request's treatment list; `description` and `cost` default to "" and 0. */
  datatype TreatmentEntry = TreatmentEntry(name: Option<string>, description: Option<string>,
                                           cost: Option<int>, procedureCode: Option<string>)

  /**
   * The visit request (the patch handler parses the same one). `treatments` is
   * None when the request carries no list.
   */
  datatype VisitArgs = VisitArgs(patientId: Option<int>, doctorId: Option<int>, appointmentId: Option<int>,
                                 visitType: Option<string>, notes: Option<string>, duration: Option<int>,
                                 treatments: Option<seq<TreatmentEntry>>)

  const SearchCap := 100

  /** Doctors, receptionists and admins record visits. */
  predicate MayRecord(role: Role)
  {
    role == DoctorRole || role == ReceptionistRole || role == AdminRole
  }

  /** Doctors and admins patch visits. */
  predicate MayAmend(role: Role)
  {
    role == DoctorRole || role == AdminRole
  }

  /** The fields the parser requires were all sent. */
  predicate Complete(args: VisitArgs)
  {
    args.patientId.Some? && args.doctorId.Some? && args.visitType.Some? && args.duration.Some?
  }

  /** The request links an appointment: an id was sent and it is not 0. */
  predicate Linked(args: VisitArgs)
  {
    args.appointmentId.Some? && args.appointmentId.value != 0
  }

  /**
   * The list the treatment loop runs over, as written: the parser stores a
   * missing list as None, the `[]` fallback of `get` never applies, and the
   * loop over None fails with a server error before anything is written.
   */
  function EntriesAsWritten(arg: Option<seq<TreatmentEntry>>): (r: Outcome<seq<TreatmentEntry>>)
    ensures r.Fail? <==> arg.None?
    ensures r.Fail? ==> r.error == ServerError
    ensures r.Ok? ==> r.value == arg.value
  {
    if arg.None? then Fail(ServerError) else Ok(arg.value)
  }

  /** A visit request without a treatment list fails as written. */
  lemma MissingListFailsAsWritten(args: VisitArgs)
    requires args.treatments.None?
    ensures EntriesAsWritten(args.treatments) == Fail(ServerError)
  {
  }

  /** The list the loop runs over as intended: a missing list is the empty list. */
  function Entries(arg: Option<seq<TreatmentEntry>>): (r: seq<TreatmentEntry>)
    ensures arg.None? ==> r == []
    ensures arg.Some? ==> r == arg.value
  {
    GetOr(arg, [])
  }

  /** Every entry carries a name (an entry without one fails the loop with a server error). */
  predicate AllNamed(entries: seq<TreatmentEntry>)
  {
    forall j :: 0 <= j < |entries| ==> entries[j].name.Some?
  }

  /** The treatment made from an entry, for visit `vid` and doctor `did`. */
  function TreatmentOf(e: TreatmentEntry, vid: int, did: int): Treatment
    requires e.name.Some?
  {
    Treatment(vid, did, e.name.value, GetOr(e.description, ""), GetOr(e.cost, 0), e.procedureCode)
  }

  /**
   * `after` is `before` plus exactly one treatment per entry, the j-th stored
   * under id base + j; no existing treatment is changed or removed.
   */
  ghost predicate Extends(before: map<int, Treatment>, after: map<int, Treatment>, base: int,
                          entries: seq<TreatmentEntry>, vid: int, did: int)
  {
    (forall t :: t in before ==> t in after && after[t] == before[t])
    && (forall j :: 0 <= j < |entries| ==>
          entries[j].name.Some? && base + j in after && after[base + j] == TreatmentOf(entries[j], vid, did))
    && (forall t :: t in after ==> t in before || base <= t < base + |entries|)
  }

  /**
   * Builds the treatments of `entries` for visit `vid` and doctor `did` into
   * `table` under fresh ids from `base`, one per entry in order; an entry
   * without a name fails with a server error.
   */
  method AddTreatments(table: map<int, Treatment>, base: int, entries: seq<TreatmentEntry>, vid: int, did: int)
    returns (r: Outcome<map<int, Treatment>>)
    requires forall t :: t in table ==> t < base
    ensures r.Ok? <==> AllNamed(entries)
    ensures r.Fail? ==> r.error == ServerError
    ensures r.Ok? ==> Extends(table, r.value, base, entries, vid, did)
  {
    var k := 0;
    var added := table;
    while k < |entries|
      invariant 0 <= k <= |entries|
      invariant AllNamed(entries[..k])
      invariant Extends(table, added, base, entries[..k], vid, did)
    {
      if entries[k].name.None? {
        return Fail(ServerError);
      }
      assert entries[..k + 1] == entries[..k] + [entries[k]];
      added := added[base + k := TreatmentOf(entries[k], vid, did)];
      k := k + 1;
    }
    assert entries[..k] == entries;
    r := Ok(added);
  }

  /** The visit a valid request records at time `now`; empty notes are dropped. */
  function NewVisit(args: VisitArgs, now: int): Visit
    requires Complete(args)
  {
    Visit(args.patientId.value, args.doctorId.value, args.appointmentId, args.visitType.value,
          NonEmpty(args.notes), args.duration.value, now)
  }

  /**
   * Records a visit. Checks in order: role, required fields, patient, doctor (an
   * inactive one is accepted), then a linked appointment must exist and belong
   * to the same patient and doctor. One treatment is made per entry, with the
   * visit's doctor, and the linked appointment becomes `completed` whatever its
   * status was, in the same commit.
   */
  method Post(db: Store.Db, actor: Actor, args: VisitArgs, now: int) returns (r: Outcome<int>)
    requires db.Valid()
    modifies db`visits, db`treatments, db`appointments, db`nextId
    ensures db.Valid()
    ensures !MayRecord(actor.role) ==> r == Fail(Forbidden)
    ensures MayRecord(actor.role) && !Complete(args) ==> r == Fail(BadRequest)
    ensures MayRecord(actor.role) && Complete(args) && args.patientId.value !in db.patients ==> r == Fail(NotFound)
    ensures (MayRecord(actor.role) && Complete(args) && args.patientId.value in db.patients
             && args.doctorId.value !in db.doctors) ==> r == Fail(NotFound)
    ensures (MayRecord(actor.role) && Complete(args) && args.patientId.value in db.patients
             && args.doctorId.value in db.doctors && Linked(args)) ==>
              (args.appointmentId.value !in old(db.appointments) ==> r == Fail(NotFound))
              && (args.appointmentId.value in old(db.appointments)
                  && (old(db.appointments)[args.appointmentId.value].patientId != args.patientId.value
                      || old(db.appointments)[args.appointmentId.value].doctorId != args.doctorId.value)
                  ==> r == Fail(BadRequest))
    ensures r.Ok? <==>
              MayRecord(actor.role) && Complete(args) && args.patientId.value in db.patients
              && args.doctorId.value in db.doctors
              && (Linked(args) ==>
                    var aid := args.appointmentId.value;
                    aid in old(db.appointments) && old(db.appointments)[aid].patientId == args.patientId.value
                    && old(db.appointments)[aid].doctorId == args.doctorId.value)
              && AllNamed(Entries(args.treatments))
    ensures r.Fail? && r.error == ServerError ==> !AllNamed(Entries(args.treatments))
    ensures r.Ok? ==>
              var vid, entries := r.value, Entries(args.treatments);
              vid == old(db.nextId) && db.nextId == vid + 1 + |entries|
              && db.visits == old(db.visits)[vid := NewVisit(args, now)]
              && Extends(old(db.treatments), db.treatments, vid + 1, entries, vid, args.doctorId.value)
              && (Linked(args) ==>
                    var aid := args.appointmentId.value;
                    db.appointments == old(db.appointments)[aid := old(db.appointments)[aid].(status := Completed)])
              && (!Linked(args) ==> db.appointments == old(db.appointments))
    ensures r.Fail? ==> db.visits == old(db.visits) && db.treatments == old(db.treatments)
                        && db.appointments == old(db.appointments) && db.nextId == old(db.nextId)
  {
    if !MayRecord(actor.role) {
      return Fail(Forbidden);
    }
    if !Complete(args) {
      return Fail(BadRequest);
    }
    var pid, did := args.patientId.value, args.doctorId.value;
    if pid !in db.patients {
      return Fail(NotFound);
    }
    if did !in db.doctors {
      return Fail(NotFound);
    }
    if Linked(args) {
      var aid := args.appointmentId.value;
      if aid !in db.appointments {
        return Fail(NotFound);
      }
      if db.appointments[aid].patientId != pid {
        return Fail(BadRequest);
      }
      if db.appointments[aid].doctorId != did {
        return Fail(BadRequest);
      }
    }
    var vid := db.nextId;
    var visit := NewVisit(args, now);
    var entries := Entries(args.treatments);
    var built := AddTreatments(db.treatments, vid + 1, entries, vid, did);
    if built.Fail? {
      return Fail(built.error);
    }
    var appointments := db.appointments;
    if Linked(args) {
      var aid := args.appointmentId.value;
      Schedule.ReleaseKeepsNoDoubleBooking(appointments, aid, Completed);
      appointments := appointments[aid := appointments[aid].(status := Completed)];
    }
    assert db.ClinicalValid();
    forall t | t in built.value
      ensures built.value[t].visitId in db.visits || built.value[t].visitId == vid
    {
      if t !in db.treatments {
        var j := t - (vid + 1);
        assert built.value[vid + 1 + j] == TreatmentOf(entries[j], vid, did);
      }
    }
    db.CommitVisit(vid, visit, built.value, appointments, vid + 1 + |entries|);
    r := Ok(vid);
  }

  /**
   * Patches visit `id`: notes when sent, the duration when non-zero, and one
   * new treatment per entry (with the visit's doctor); existing treatments are
   * kept. The request must carry every field the recording request requires,
   * since the same parser reads it. A patch that changes nothing is refused.
   */
  method Patch(db: Store.Db, actor: Actor, id: int, args: VisitArgs) returns (r: Outcome<Visit>)
    requires db.Valid()
    modifies db`visits, db`treatments, db`nextId
    ensures db.Valid()
    ensures !MayAmend(actor.role) ==> r == Fail(Forbidden)
    ensures MayAmend(actor.role) && id !in old(db.visits) ==> r == Fail(NotFound)
    ensures MayAmend(actor.role) && id in old(db.visits) && !Complete(args) ==> r == Fail(BadRequest)
    ensures r.Ok? <==>
              MayAmend(actor.role) && id in old(db.visits) && Complete(args)
              && AllNamed(Entries(args.treatments))
              && (args.notes.Some? || args.duration.value != 0 || |Entries(args.treatments)| > 0)
    ensures (MayAmend(actor.role) && id in old(db.visits) && Complete(args) && AllNamed(Entries(args.treatments))
             && args.notes.None? && args.duration.value == 0 && Entries(args.treatments) == [])
            ==> r == Fail(BadRequest)
    ensures r.Fail? && r.error == ServerError ==> !AllNamed(Entries(args.treatments))
    ensures r.Ok? ==>
              var v, entries := old(db.visits)[id], Entries(args.treatments);
              r.value == v.(notes := if args.notes.Some? then args.notes else v.notes,
                            duration := if args.duration.value != 0 then args.duration.value else v.duration)
              && db.visits == old(db.visits)[id := r.value]
              && Extends(old(db.treatments), db.treatments, old(db.nextId), entries, id, v.doctorId)
              && db.nextId == old(db.nextId) + |entries|
    ensures r.Fail? ==> db.visits == old(db.visits) && db.treatments == old(db.treatments)
                        && db.nextId == old(db.nextId)
  {
    if !MayAmend(actor.role) {
      return Fail(Forbidden);
    }
    if id !in db.visits {
      return Fail(NotFound);
    }
    if !Complete(args) {
      return Fail(BadRequest);
    }
    var visit := db.visits[id];
    var changes: seq<string> := [];
    if args.notes.Some? {
      visit := visit.(notes := args.notes);
      changes := changes + ["notes"];
    }
    if args.duration.value != 0 {
      visit := visit.(duration := args.duration.value);
      changes := changes + ["duration"];
    }
    var entries := Entries(args.treatments);
    var built := AddTreatments(db.treatments, db.nextId, entries, id, visit.doctorId);
    if built.Fail? {
      return Fail(built.error);
    }
    if changes == [] && entries == [] {
      return Fail(BadRequest);
    }
    assert db.ClinicalValid();
    forall t | t in built.value
      ensures built.value[t].visitId in db.visits
    {
      if t !in db.treatments {
        var j := t - db.nextId;
        assert built.value[db.nextId + j] == TreatmentOf(entries[j], id, visit.doctorId);
      }
    }
    db.CommitVisitPatch(id, visit, built.value, db.nextId + |entries|);
    r := Ok(visit);
  }

  /** The number of search results returned: what was asked for, but never more than 100. */
  function ResultCap(maxResults: int): (n: int)
    ensures n <= SearchCap && n <= maxResults
    ensures n == maxResults || n == SearchCap
  {
    if maxResults < SearchCap then maxResults else SearchCap
  }
}
