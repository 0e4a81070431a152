/**
 * The prescription handlers: the read policy by role and visit ownership,
 * creation and patching by the visit's doctor or an admin, deletion by an
 * admin.
 */
module Prescriptions {
  import opened Common
  import opened Tables
  import Store

  datatype NewPrescriptionArgs = NewPrescriptionArgs(visitId: Option<int>, details: Option<string>,
                                                     medications: Option<seq<Medication>>)

  datatype PrescriptionPatch = PrescriptionPatch(details: Option<string>, medications: Option<seq<Medication>>)

  /**
   * Who may read a prescription written at a visit whose doctor is the user
   * `doctorUser` and whose patient is the user `patientUser` (if any): admins
   * and receptionists always, the visit's doctor and the visit's patient.
   */
  predicate MayAccess(actor: Actor, doctorUser: int, patientUser: Option<int>)
  {
    if actor.role == AdminRole then true
    else if actor.role == DoctorRole then doctorUser == actor.userId
    else if actor.role == PatientRole then patientUser == Some(actor.userId)
    else actor.role == ReceptionistRole
  }

  /** Who may create or change a prescription of that visit: admins and the visit's doctor. */
  predicate MayWrite(actor: Actor, doctorUser: int)
  {
    actor.role == AdminRole || (actor.role == DoctorRole && doctorUser == actor.userId)
  }

  /** Whoever may write a prescription may also read it. */
  lemma WritersMayRead(actor: Actor, doctorUser: int, patientUser: Option<int>)
    ensures MayWrite(actor, doctorUser) ==> MayAccess(actor, doctorUser, patientUser)
  {
  }

  /** The user of the doctor of visit `v`. */
  function DoctorUser(db: Store.Db, v: int): int
    reads db
    requires db.Valid() && v in db.visits
  {
    db.doctors[db.visits[v].doctorId].userId
  }

  /** The user of the patient of visit `v`, if the patient has one. */
  function PatientUser(db: Store.Db, v: int): Option<int>
    reads db
    requires db.Valid() && v in db.visits
  {
    db.patients[db.visits[v].patientId].userId
  }

  /** Fetches prescription `id` for the caller under the read policy. */
  function Get(db: Store.Db, actor: Actor, id: int): (r: Outcome<Prescription>)
    reads db
    requires db.Valid()
    ensures id !in db.prescriptions ==> r == Fail(NotFound)
    ensures r.Ok? <==> id in db.prescriptions
                       && MayAccess(actor, DoctorUser(db, db.prescriptions[id].visitId),
                                    PatientUser(db, db.prescriptions[id].visitId))
    ensures r.Ok? ==> r.value == db.prescriptions[id]
    ensures r.Fail? && id in db.prescriptions ==> r == Fail(Forbidden)
  {
    if id !in db.prescriptions then Fail(NotFound)
    else
      var v := db.prescriptions[id].visitId;
      if !MayAccess(actor, DoctorUser(db, v), PatientUser(db, v)) then Fail(Forbidden)
      else Ok(db.prescriptions[id])
  }

  /**
   * The read policy seen from the data: the user of the visit's doctor and the
   * user of the visit's patient may read the prescription, staff may, and a
   * technician, another doctor or another patient may not.
   */
  lemma VisitPartiesMayRead(db: Store.Db, id: int, u: int)
    requires db.Valid() && id in db.prescriptions
    ensures var v := db.prescriptions[id].visitId;
            Get(db, Actor(DoctorRole, DoctorUser(db, v)), id) == Ok(db.prescriptions[id])
            && (PatientUser(db, v).Some? ==>
                  Get(db, Actor(PatientRole, PatientUser(db, v).value), id) == Ok(db.prescriptions[id]))
            && Get(db, Actor(AdminRole, u), id) == Ok(db.prescriptions[id])
            && Get(db, Actor(ReceptionistRole, u), id) == Ok(db.prescriptions[id])
            && Get(db, Actor(TechnicianRole, u), id) == Fail(Forbidden)
            && (u != DoctorUser(db, v) ==> Get(db, Actor(DoctorRole, u), id) == Fail(Forbidden))
            && (PatientUser(db, v) != Some(u) ==> Get(db, Actor(PatientRole, u), id) == Fail(Forbidden))
  {
  }

  /**
   * Writes a prescription for a visit (doctors and admins; a doctor only for
   * their own visit). An unknown visit is a bad request. The medication list
   * is stored as sent, absent when none was sent.
   */
  method Create(db: Store.Db, actor: Actor, args: NewPrescriptionArgs) returns (r: Outcome<int>)
    requires db.Valid()
    modifies db`prescriptions, db`nextId
    ensures db.Valid()
    ensures actor.role != DoctorRole && actor.role != AdminRole ==> r == Fail(Forbidden)
    ensures (actor.role == DoctorRole || actor.role == AdminRole) && (args.visitId.None? || args.details.None?)
            ==> r == Fail(BadRequest)
    ensures ((actor.role == DoctorRole || actor.role == AdminRole) && args.visitId.Some? && args.details.Some?
             && args.visitId.value !in old(db.visits)) ==> r == Fail(BadRequest)
    ensures (actor.role == DoctorRole && args.visitId.Some? && args.details.Some? && args.visitId.value in old(db.visits)
             && DoctorUser(db, args.visitId.value) != actor.userId) ==> r == Fail(Forbidden)
    ensures r.Ok? <==> args.visitId.Some? && args.details.Some? && args.visitId.value in old(db.visits)
                       && MayWrite(actor, DoctorUser(db, args.visitId.value))
    ensures r.Ok? ==>
              r.value == old(db.nextId) && db.nextId == r.value + 1
              && db.prescriptions == old(db.prescriptions)[r.value := Prescription(args.visitId.value, args.details.value,
                                                                                   args.medications)]
    ensures r.Fail? ==> db.prescriptions == old(db.prescriptions) && db.nextId == old(db.nextId)
  {
    if actor.role != DoctorRole && actor.role != AdminRole {
      return Fail(Forbidden);
    }
    if args.visitId.None? || args.details.None? {
      return Fail(BadRequest);
    }
    var v := args.visitId.value;
    if v !in db.visits {
      return Fail(BadRequest);
    }
    if actor.role == DoctorRole && DoctorUser(db, v) != actor.userId {
      return Fail(Forbidden);
    }
    var id := db.nextId;
    db.CommitPrescriptions(db.prescriptions[id := Prescription(v, args.details.value, args.medications)], id + 1);
    r := Ok(id);
  }

  /** `p` with the details and the medication list replaced when sent. */
  function Patched(p: Prescription, q: PrescriptionPatch): Prescription
  {
    p.(details := GetOr(q.details, p.details),
       medications := if q.medications.Some? then q.medications else p.medications)
  }

  /** Changes prescription `id` (doctors and admins; a doctor only on their own visit's prescription). */
  method Amend(db: Store.Db, actor: Actor, id: int, q: PrescriptionPatch) returns (r: Outcome<Prescription>)
    requires db.Valid()
    modifies db`prescriptions
    ensures db.Valid()
    ensures actor.role != DoctorRole && actor.role != AdminRole ==> r == Fail(Forbidden)
    ensures (actor.role == DoctorRole || actor.role == AdminRole) && id !in old(db.prescriptions) ==> r == Fail(NotFound)
    ensures (actor.role == DoctorRole && id in old(db.prescriptions)
             && DoctorUser(db, old(db.prescriptions)[id].visitId) != actor.userId) ==> r == Fail(Forbidden)
    ensures r.Ok? <==> id in old(db.prescriptions) && MayWrite(actor, DoctorUser(db, old(db.prescriptions)[id].visitId))
    ensures r.Ok? ==> r.value == Patched(old(db.prescriptions)[id], q)
                      && r.value.visitId == old(db.prescriptions)[id].visitId
                      && db.prescriptions == old(db.prescriptions)[id := r.value]
    ensures r.Fail? ==> db.prescriptions == old(db.prescriptions)
  {
    if actor.role != DoctorRole && actor.role != AdminRole {
      return Fail(Forbidden);
    }
    if id !in db.prescriptions {
      return Fail(NotFound);
    }
    var p := db.prescriptions[id];
    if actor.role == DoctorRole && DoctorUser(db, p.visitId) != actor.userId {
      return Fail(Forbidden);
    }
    p := Patched(p, q);
    db.CommitPrescriptionTable(db.prescriptions[id := p]);
    r := Ok(p);
  }

  /** Removes prescription `id` (admins only). */
  method Delete(db: Store.Db, actor: Actor, id: int) returns (r: Outcome<()>)
    requires db.Valid()
    modifies db`prescriptions
    ensures db.Valid()
    ensures actor.role != AdminRole ==> r == Fail(Forbidden)
    ensures actor.role == AdminRole && id !in old(db.prescriptions) ==> r == Fail(NotFound)
    ensures r.Ok? <==> actor.role == AdminRole && id in old(db.prescriptions)
    ensures r.Ok? ==> db.prescriptions == old(db.prescriptions) - {id}
    ensures r.Fail? ==> db.prescriptions == old(db.prescriptions)
  {
    if actor.role != AdminRole {
      return Fail(Forbidden);
    }
    if id !in db.prescriptions {
      return Fail(NotFound);
    }
    db.CommitPrescriptionTable(db.prescriptions - {id});
    r := Ok(());
  }
}
