/**
 * The patient handlers: registration (phone and birth-date checks, unique
 * name, an account at balance 0, an optional login user), patching (field
 * updates, admin-only activation copied to the linked user), and the patient
 * view with its age and the masking applied for roles without full access.
 */
module Patients {
  import opened Common
  import opened Tables
  import opened Validators
  import Ledger
  import Store

  /** The registration request. */
  datatype NewPatientArgs = NewPatientArgs(name: Option<string>, gender: Option<Gender>, dob: Option<Date>,
                                           phone: Option<string>, email: Option<string>,
                                           insuranceId: Option<string>, emergencyName: Option<string>,
                                           emergencyPhone: Option<string>, createUser: bool,
                                           password: Option<string>)

  /** The patch request: every field is optional. */
  datatype PatientPatch = PatientPatch(name: Option<string>, gender: Option<Gender>, phone: Option<string>,
                                       email: Option<string>, insuranceId: Option<string>,
                                       emergencyName: Option<string>, emergencyPhone: Option<string>,
                                       isActive: Option<bool>)

  datatype Contact = Contact(name: string, phone: Option<string>)

  /** A patient as returned: `age` from the birth date, contact fields possibly masked. */
  datatype PatientView = PatientView(id: int, name: string, gender: Gender, age: int, phone: string,
                                     email: Option<string>, insuranceId: Option<string>,
                                     emergency: Option<Contact>, isActive: bool, balance: Option<int>)

  const Hidden := "***"

  /** Receptionists and admins register patients. */
  predicate MayRegister(role: Role)
  {
    role == ReceptionistRole || role == AdminRole
  }

  predicate Sent(args: NewPatientArgs)
  {
    args.name.Some? && args.gender.Some? && args.dob.Some? && args.phone.Some?
  }

  predicate NameTaken(patients: map<int, Patient>, name: string)
  {
    exists k :: k in patients && patients[k].name == name
  }

  /** The login email of a registered patient: the given one, else one made from the phone. */
  function LoginEmail(args: NewPatientArgs): string
    requires Sent(args)
  {
    if NonEmpty(args.email).Some? then args.email.value else "patient-" + args.phone.value + "@clinic.com"
  }

  /** The patient row a valid registration creates: active, linked to `userId` when a user is made. */
  function NewPatient(args: NewPatientArgs, userId: Option<int>): Patient
    requires Sent(args)
  {
    Patient(args.name.value, args.gender.value, args.dob.value, args.phone.value, args.email, args.insuranceId,
            args.emergencyName, args.emergencyPhone, true, userId)
  }

  /**
   * Registers a patient. Checks in order: role, required fields, the phone
   * pattern, the birth date (a real date, and the patient at least one year
   * old), a new name, and a password when a login user is asked for. The
   * patient is active and gets an account at balance 0; the login user, when
   * made, is an active patient user with the hashed password and takes the id
   * before the patient's.
   */
  method Register(db: Store.Db, actor: Actor, args: NewPatientArgs, today: Date, hash: string -> string)
    returns (r: Outcome<int>)
    requires db.Valid() && ValidDate(today)
    modifies db`patients, db`accounts, db`users, db`nextId
    ensures db.Valid()
    ensures !MayRegister(actor.role) ==> r == Fail(Forbidden)
    ensures MayRegister(actor.role) && !Sent(args) ==> r == Fail(BadRequest)
    ensures MayRegister(actor.role) && Sent(args) && !PhoneMatches(args.phone.value) ==> r == Fail(BadRequest)
    ensures (MayRegister(actor.role) && Sent(args)
             && !(ValidDate(args.dob.value) && OldEnough(args.dob.value, today))) ==> r == Fail(BadRequest)
    ensures r.Ok? <==>
              MayRegister(actor.role) && Sent(args) && PhoneMatches(args.phone.value)
              && ValidDate(args.dob.value) && OldEnough(args.dob.value, today)
              && !NameTaken(old(db.patients), args.name.value)
              && (args.createUser ==> NonEmpty(args.password).Some?)
    ensures (MayRegister(actor.role) && Sent(args) && PhoneMatches(args.phone.value)
             && ValidDate(args.dob.value) && OldEnough(args.dob.value, today)
             && NameTaken(old(db.patients), args.name.value)) ==> r == Fail(Conflict)
    ensures (MayRegister(actor.role) && Sent(args) && PhoneMatches(args.phone.value)
             && ValidDate(args.dob.value) && OldEnough(args.dob.value, today)
             && !NameTaken(old(db.patients), args.name.value)
             && args.createUser && NonEmpty(args.password).None?) ==> r == Fail(BadRequest)
    ensures r.Fail? && r.error == Conflict ==> Sent(args) && NameTaken(old(db.patients), args.name.value)
    ensures r.Ok? && args.createUser ==>
              var uid := old(db.nextId);
              r.value == uid + 1 && db.nextId == uid + 2
              && db.users == old(db.users)[uid := User(args.name.value, LoginEmail(args), PatientRole, true,
                                                       hash(args.password.value), None)]
              && db.patients == old(db.patients)[uid + 1 := NewPatient(args, Some(uid))]
              && db.accounts == old(db.accounts)[uid + 1 := Account(0, None)]
    ensures r.Ok? && !args.createUser ==>
              r.value == old(db.nextId) && db.nextId == r.value + 1 && db.users == old(db.users)
              && db.patients == old(db.patients)[r.value := NewPatient(args, None)]
              && db.accounts == old(db.accounts)[r.value := Account(0, None)]
    ensures r.Fail? ==> db.patients == old(db.patients) && db.accounts == old(db.accounts)
                        && db.users == old(db.users) && db.nextId == old(db.nextId)
  {
    if !MayRegister(actor.role) {
      return Fail(Forbidden);
    }
    if !Sent(args) {
      return Fail(BadRequest);
    }
    if !PhoneMatches(args.phone.value) {
      return Fail(BadRequest);
    }
    var dob := args.dob.value;
    if !ValidDate(dob) || !OldEnough(dob, today) {
      return Fail(BadRequest);
    }
    if NameTaken(db.patients, args.name.value) {
      return Fail(Conflict);
    }
    var userId: Option<int> := None;
    if args.createUser {
      if NonEmpty(args.password).None? {
        return Fail(BadRequest);
      }
      // The login user is inserted first: the patient row refers to it.
      var uid := db.nextId;
      db.CommitNewUser(uid, User(args.name.value, LoginEmail(args), PatientRole, true, hash(args.password.value), None));
      userId := Some(uid);
    }
    var pid := db.nextId;
    db.CommitPatient(pid, NewPatient(args, userId));
    r := Ok(pid);
  }

  /** `p` with every field the patch sends replaced (activation apart). */
  function Patched(p: Patient, q: PatientPatch): Patient
  {
    p.(name := GetOr(q.name, p.name), gender := GetOr(q.gender, p.gender), phone := GetOr(q.phone, p.phone),
       email := if q.email.Some? then q.email else p.email,
       insuranceId := if q.insuranceId.Some? then q.insuranceId else p.insuranceId,
       emergencyName := if q.emergencyName.Some? then q.emergencyName else p.emergencyName,
       emergencyPhone := if q.emergencyPhone.Some? then q.emergencyPhone else p.emergencyPhone)
  }

  /** Some field apart from activation is sent. */
  predicate FieldSent(q: PatientPatch)
  {
    q.name.Some? || q.gender.Some? || q.phone.Some? || q.email.Some? || q.insuranceId.Some?
    || q.emergencyName.Some? || q.emergencyPhone.Some?
  }

  /** Admins and receptionists amend any patient, a patient only their own record. */
  predicate MayAmend(actor: Actor, p: Patient)
  {
    actor.role == AdminRole || actor.role == ReceptionistRole
    || (actor.role == PatientRole && p.userId == Some(actor.userId))
  }

  /**
   * Patches patient `id`. A patient may patch only their own record; admins and
   * receptionists any. A new phone must match the pattern. Only an admin may
   * change activation, and the new value is copied to the linked user. A patch
   * that sends nothing is refused.
   */
  method Amend(db: Store.Db, actor: Actor, id: int, q: PatientPatch) returns (r: Outcome<Patient>)
    requires db.Valid()
    modifies db`patients, db`users
    ensures db.Valid()
    ensures id !in old(db.patients) ==> r == Fail(NotFound)
    ensures id in old(db.patients) && actor.role == PatientRole && old(db.patients)[id].userId != Some(actor.userId)
            ==> r == Fail(Forbidden)
    ensures (id in old(db.patients) && actor.role != AdminRole && actor.role != ReceptionistRole
             && actor.role != PatientRole) ==> r == Fail(Forbidden)
    ensures (id in old(db.patients) && MayAmend(actor, old(db.patients)[id])
             && q.phone.Some? && !PhoneMatches(q.phone.value)) ==> r == Fail(BadRequest)
    ensures (id in old(db.patients) && MayAmend(actor, old(db.patients)[id])
             && (q.phone.Some? ==> PhoneMatches(q.phone.value))
             && q.isActive.Some? && actor.role != AdminRole) ==> r == Fail(Forbidden)
    ensures (id in old(db.patients) && MayAmend(actor, old(db.patients)[id])
             && (q.phone.Some? ==> PhoneMatches(q.phone.value))
             && !FieldSent(q) && q.isActive.None?) ==> r == Fail(BadRequest)
    ensures r.Ok? <==>
              id in old(db.patients) && MayAmend(actor, old(db.patients)[id])
              && (q.phone.Some? ==> PhoneMatches(q.phone.value))
              && (q.isActive.Some? ==> actor.role == AdminRole)
              && (FieldSent(q) || q.isActive.Some?)
    ensures r.Ok? ==>
              var p := old(db.patients)[id];
              r.value == Patched(p, q).(isActive := GetOr(q.isActive, p.isActive))
              && db.patients == old(db.patients)[id := r.value]
              && (q.isActive.Some? && p.userId.Some? ==>
                    db.users == old(db.users)[p.userId.value := old(db.users)[p.userId.value].(isActive := q.isActive.value)])
              && (q.isActive.None? || p.userId.None? ==> db.users == old(db.users))
    ensures r.Fail? ==> db.patients == old(db.patients) && db.users == old(db.users)
  {
    if id !in db.patients {
      return Fail(NotFound);
    }
    var patient := db.patients[id];
    if actor.role == PatientRole && patient.userId != Some(actor.userId) {
      return Fail(Forbidden);
    }
    if actor.role != AdminRole && actor.role != ReceptionistRole && actor.role != PatientRole {
      return Fail(Forbidden);
    }
    // The seven plain fields are copied when sent, then a sent phone is checked.
    patient := Patched(patient, q);
    if q.phone.Some? && !PhoneMatches(patient.phone) {
      return Fail(BadRequest);
    }
    var users := db.users;
    if q.isActive.Some? {
      if actor.role != AdminRole {
        return Fail(Forbidden);
      }
      patient := patient.(isActive := q.isActive.value);
      if patient.userId.Some? {
        assert db.PeopleValid();
        var u := patient.userId.value;
        users := users[u := users[u].(isActive := q.isActive.value)];
      }
    }
    if !FieldSent(q) && q.isActive.None? {
      return Fail(BadRequest);
    }
    db.CommitPatientPatch(id, patient, users);
    r := Ok(patient);
  }

  /** The index of the last '@' in `s`, or -1 when there is none. */
  function LastAt(s: string): (p: int)
    ensures -1 <= p < |s|
    ensures p >= 0 ==> s[p] == '@'
    ensures forall q :: p < q < |s| ==> s[q] != '@'
  {
    if s == [] then -1
    else if s[|s| - 1] == '@' then |s| - 1
    else LastAt(s[..|s| - 1])
  }

  /** What follows the last '@' of `s` (all of `s` when it has none), as `s.split('@')[-1]`. */
  function AfterLastAt(s: string): (tail: string)
    ensures |tail| <= |s| && tail == s[|s| - |tail|..]
    ensures forall i :: 0 <= i < |tail| ==> tail[i] != '@'
    ensures |tail| < |s| ==> s[|s| - |tail| - 1] == '@'
  {
    s[LastAt(s) + 1..]
  }

  /** The masked email: its first character, four stars, '@' and the domain. */
  function MaskEmail(e: string): string
    requires e != ""
  {
    [e[0]] + "****@" + AfterLastAt(e)
  }

  /** Every role except technician sees the full contact details. */
  predicate FullInfo(role: Role)
  {
    role == AdminRole || role == DoctorRole || role == ReceptionistRole || role == PatientRole
  }

  /** The patient as returned to a caller with role `role` on day `today`; `account` is the patient's account if any. */
  function ViewOf(id: int, p: Patient, account: Option<Account>, role: Role, today: Date): PatientView
  {
    var full := FullInfo(role);
    PatientView(id, p.name, p.gender, Age(p.dob, today),
                if full then p.phone else MaskPhone(p.phone),
                if full then p.email else if NonEmpty(p.email).Some? then Some(MaskEmail(p.email.value)) else None,
                if full then p.insuranceId else Some(Hidden),
                if NonEmpty(p.emergencyName).Some?
                then Some(Contact(p.emergencyName.value, if full then p.emergencyPhone else Some(Hidden)))
                else None,
                p.isActive,
                if full && account.Some? then Some(account.value.balance) else None)
  }

  /** What a masked view still shows of a patient: the fields two patients must share to look alike. */
  predicate SameVisible(p: Patient, q: Patient)
  {
    p.name == q.name && p.gender == q.gender && p.dob == q.dob && p.isActive == q.isActive
    && p.emergencyName == q.emergencyName
    && |p.phone| >= 4 && |q.phone| >= 4 && p.phone[..4] == q.phone[..4]
    && (NonEmpty(p.email).Some? <==> NonEmpty(q.email).Some?)
    && (NonEmpty(p.email).Some? ==>
          p.email.value[0] == q.email.value[0] && AfterLastAt(p.email.value) == AfterLastAt(q.email.value))
  }

  /**
   * A technician's view reveals nothing beyond the first four phone characters,
   * the first letter and domain of the email and the emergency contact's name:
   * two patients that agree on those look the same, whatever their other
   * contact details, insurance ids and balances.
   */
  lemma MaskedViewShowsOnlyVisible(id: int, p: Patient, q: Patient, a: Option<Account>, b: Option<Account>, today: Date)
    requires SameVisible(p, q)
    ensures ViewOf(id, p, a, TechnicianRole, today) == ViewOf(id, q, b, TechnicianRole, today)
  {
    MaskHidesRest(p.phone, q.phone);
  }

  /** Fetches patient `id` for the caller: a patient caller may fetch only their own record. */
  function Get(db: Store.Db, actor: Actor, id: int, today: Date): (r: Outcome<PatientView>)
    reads db
    ensures id !in db.patients ==> r == Fail(NotFound)
    ensures id in db.patients && actor.role == PatientRole && db.patients[id].userId != Some(actor.userId)
            ==> r == Fail(Forbidden)
    ensures r.Ok? <==> id in db.patients
                       && (actor.role == PatientRole ==> db.patients[id].userId == Some(actor.userId))
    ensures r.Ok? ==> r.value.id == id && r.value.age == Age(db.patients[id].dob, today)
    ensures r.Ok? && FullInfo(actor.role) ==> r.value.phone == db.patients[id].phone
    ensures r.Ok? && !FullInfo(actor.role) ==> r.value.balance.None? && r.value.insuranceId == Some(Hidden)
  {
    if id !in db.patients then Fail(NotFound)
    else if actor.role == PatientRole && db.patients[id].userId != Some(actor.userId) then Fail(Forbidden)
    else
      var account := if id in db.accounts then Some(db.accounts[id]) else None;
      Ok(ViewOf(id, db.patients[id], account, actor.role, today))
  }
}
