/**
 * The doctor handlers: registration by an admin (positive hourly rate,
 * specialty and phone patterns, an unused license number), patching by an
 * admin or the doctor (the same checks, activation admin-only, name and email
 * kept on the linked user) and deactivation in place of deletion.
 */
module Doctors {
  import opened Common
  import opened Tables
  import opened Validators
  import Store

  /** The registration request; the hourly rate is in cents. */
  datatype NewDoctorArgs = NewDoctorArgs(name: Option<string>, specialty: Option<string>,
                                         licenseNumber: Option<string>, hourlyRate: Option<int>,
                                         email: Option<string>, phone: Option<string>)

  /** The patch request: every field is optional. */
  datatype DoctorPatch = DoctorPatch(name: Option<string>, specialty: Option<string>,
                                     licenseNumber: Option<string>, hourlyRate: Option<int>,
                                     email: Option<string>, phone: Option<string>, isActive: Option<bool>)

  /** The password a doctor's login user starts with, to be reset at first login. */
  const TempPassword := "temp_password"

  predicate Sent(args: NewDoctorArgs)
  {
    args.name.Some? && args.specialty.Some? && args.licenseNumber.Some? && args.hourlyRate.Some?
    && args.email.Some? && args.phone.Some?
  }

  /** Some doctor other than `except` holds license `license`. */
  predicate LicenseHeld(doctors: map<int, Doctor>, license: string, except: Option<int>)
  {
    exists k :: k in doctors && doctors[k].licenseNumber == license && Some(k) != except
  }

  /** The registration passes every check: rate, specialty, phone. */
  predicate WellFormed(args: NewDoctorArgs)
    requires Sent(args)
  {
    args.hourlyRate.value > 0 && SpecialtyMatches(args.specialty.value) && PhoneMatches(args.phone.value)
  }

  /**
   * Registers a doctor (admins only): the rate must be positive, the specialty
   * and phone must match their patterns, and the license must be unused. The
   * doctor's login user is made first, with the temporary password; the profile
   * is active.
   */
  method Register(db: Store.Db, actor: Actor, args: NewDoctorArgs, hash: string -> string) returns (r: Outcome<int>)
    requires db.Valid()
    modifies db`users, db`doctors, db`nextId
    ensures db.Valid()
    ensures actor.role != AdminRole ==> r == Fail(Forbidden)
    ensures actor.role == AdminRole && !Sent(args) ==> r == Fail(BadRequest)
    ensures actor.role == AdminRole && Sent(args) && !WellFormed(args) ==> r == Fail(BadRequest)
    ensures (actor.role == AdminRole && Sent(args) && WellFormed(args)
             && LicenseHeld(old(db.doctors), args.licenseNumber.value, None)) ==> r == Fail(Conflict)
    ensures r.Ok? <==> actor.role == AdminRole && Sent(args) && WellFormed(args)
                       && !LicenseHeld(old(db.doctors), args.licenseNumber.value, None)
    ensures r.Ok? ==>
              var uid := old(db.nextId);
              r.value == uid + 1 && db.nextId == uid + 2
              && db.users == old(db.users)[uid := User(args.name.value, args.email.value, DoctorRole, true,
                                                       hash(TempPassword), None)]
              && db.doctors == old(db.doctors)[uid + 1 := Doctor(uid, args.specialty.value, args.licenseNumber.value,
                                                                 args.hourlyRate.value, args.phone.value, true)]
    ensures r.Fail? ==> db.users == old(db.users) && db.doctors == old(db.doctors) && db.nextId == old(db.nextId)
  {
    if actor.role != AdminRole {
      return Fail(Forbidden);
    }
    if !Sent(args) {
      return Fail(BadRequest);
    }
    if args.hourlyRate.value <= 0 {
      return Fail(BadRequest);
    }
    if !SpecialtyMatches(args.specialty.value) {
      return Fail(BadRequest);
    }
    if !PhoneMatches(args.phone.value) {
      return Fail(BadRequest);
    }
    if LicenseHeld(db.doctors, args.licenseNumber.value, None) {
      return Fail(Conflict);
    }
    var uid := db.nextId;
    var user := User(args.name.value, args.email.value, DoctorRole, true, hash(TempPassword), None);
    db.CommitDoctorRegistration(uid, user, Doctor(uid, args.specialty.value, args.licenseNumber.value,
                                                  args.hourlyRate.value, args.phone.value, true));
    r := Ok(uid + 1);
  }

  /** The profile after the patch: rate, license, phone and activation replaced when sent. */
  function PatchedDoctor(d: Doctor, q: DoctorPatch): Doctor
  {
    d.(hourlyRate := GetOr(q.hourlyRate, d.hourlyRate), licenseNumber := GetOr(q.licenseNumber, d.licenseNumber),
       phone := GetOr(q.phone, d.phone), isActive := GetOr(q.isActive, d.isActive))
  }

  /** The linked user after the patch: name and email replaced when sent. */
  function PatchedUser(u: User, q: DoctorPatch): User
  {
    u.(name := GetOr(q.name, u.name), email := GetOr(q.email, u.email))
  }

  /** An admin, or the doctor's own user. */
  predicate MayAmend(actor: Actor, d: Doctor)
  {
    actor.role == AdminRole || (actor.role == DoctorRole && d.userId == actor.userId)
  }

  /** A sent hourly rate is positive. */
  predicate RateOk(q: DoctorPatch)
  {
    q.hourlyRate.Some? ==> q.hourlyRate.value > 0
  }

  /** A sent license number is held by no doctor other than `id`. */
  predicate LicenseFree(doctors: map<int, Doctor>, q: DoctorPatch, id: int)
  {
    q.licenseNumber.Some? ==> !LicenseHeld(doctors, q.licenseNumber.value, Some(id))
  }

  /**
   * Patches doctor `id` (an admin, or the doctor's own user). Checked in order:
   * a sent rate must be positive, a sent license must not be held by another
   * doctor, a sent phone must match the pattern, and only an admin may change
   * activation. An empty patch succeeds and changes nothing.
   */
  method Amend(db: Store.Db, actor: Actor, id: int, q: DoctorPatch) returns (r: Outcome<Doctor>)
    requires db.Valid()
    modifies db`users, db`doctors
    ensures db.Valid()
    ensures id !in old(db.doctors) ==> r == Fail(NotFound)
    ensures id in old(db.doctors) && !MayAmend(actor, old(db.doctors)[id]) ==> r == Fail(Forbidden)
    ensures (id in old(db.doctors) && MayAmend(actor, old(db.doctors)[id])
             && !RateOk(q)) ==> r == Fail(BadRequest)
    ensures (id in old(db.doctors) && MayAmend(actor, old(db.doctors)[id])
             && RateOk(q) && !LicenseFree(old(db.doctors), q, id)) ==> r == Fail(Conflict)
    ensures (id in old(db.doctors) && MayAmend(actor, old(db.doctors)[id])
             && RateOk(q) && LicenseFree(old(db.doctors), q, id)
             && q.phone.Some? && !PhoneMatches(q.phone.value)) ==> r == Fail(BadRequest)
    ensures (id in old(db.doctors) && MayAmend(actor, old(db.doctors)[id])
             && RateOk(q) && LicenseFree(old(db.doctors), q, id) && (q.phone.Some? ==> PhoneMatches(q.phone.value))
             && q.isActive.Some? && actor.role != AdminRole) ==> r == Fail(Forbidden)
    ensures r.Ok? <==>
              id in old(db.doctors) && MayAmend(actor, old(db.doctors)[id])
              && RateOk(q) && LicenseFree(old(db.doctors), q, id)
              && (q.phone.Some? ==> PhoneMatches(q.phone.value))
              && (q.isActive.Some? ==> actor.role == AdminRole)
    ensures r.Fail? && r.error == Conflict ==>
              q.licenseNumber.Some? && LicenseHeld(old(db.doctors), q.licenseNumber.value, Some(id))
    ensures r.Ok? ==>
              var d := old(db.doctors)[id];
              r.value == PatchedDoctor(d, q)
              && db.doctors == old(db.doctors)[id := r.value]
              && db.users == old(db.users)[d.userId := PatchedUser(old(db.users)[d.userId], q)]
    ensures r.Fail? ==> db.users == old(db.users) && db.doctors == old(db.doctors)
  {
    if id !in db.doctors {
      return Fail(NotFound);
    }
    var doctor := db.doctors[id];
    var isAdmin := actor.role == AdminRole;
    var isSelf := actor.role == DoctorRole && doctor.userId == actor.userId;
    if !(isAdmin || isSelf) {
      return Fail(Forbidden);
    }
    if q.hourlyRate.Some? && q.hourlyRate.value <= 0 {
      return Fail(BadRequest);
    }
    if q.licenseNumber.Some? && LicenseHeld(db.doctors, q.licenseNumber.value, Some(id)) {
      return Fail(Conflict);
    }
    if q.phone.Some? && !PhoneMatches(q.phone.value) {
      return Fail(BadRequest);
    }
    if q.isActive.Some? && !isAdmin {
      return Fail(Forbidden);
    }
    assert db.PeopleValid();
    var user := PatchedUser(db.users[doctor.userId], q);
    doctor := PatchedDoctor(doctor, q);
    db.CommitDoctorPatch(id, doctor, user);
    r := Ok(doctor);
  }

  /** Deactivates doctor `id` (admins only); the profile stays, so nothing is removed. */
  method Deactivate(db: Store.Db, actor: Actor, id: int) returns (r: Outcome<()>)
    requires db.Valid()
    modifies db`doctors
    ensures db.Valid()
    ensures actor.role != AdminRole ==> r == Fail(Forbidden)
    ensures actor.role == AdminRole && id !in old(db.doctors) ==> r == Fail(NotFound)
    ensures r.Ok? <==> actor.role == AdminRole && id in old(db.doctors)
    ensures r.Ok? ==> db.doctors == old(db.doctors)[id := old(db.doctors)[id].(isActive := false)]
    ensures r.Fail? ==> db.doctors == old(db.doctors)
    ensures db.doctors.Keys == old(db.doctors.Keys)
  {
    if actor.role != AdminRole {
      return Fail(Forbidden);
    }
    if id !in db.doctors {
      return Fail(NotFound);
    }
    db.CommitDoctor(id, db.doctors[id].(isActive := false));
    r := Ok(());
  }
}
