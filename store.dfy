/**
 * The clinic database as the handlers see it: one table per entity, keyed by row
 * id, plus the two append-only logs (billings and inventory changes). A handler
 * that returns early leaves every table as it was; a handler that succeeds
 * replaces the tables it writes, which stands for its commit.
 */
module Store {
  import opened Common
  import opened Tables
  import Schedule
  import Ledger
  import Stock

  /** Every key of `m` is a positive id below `next`, so `next` is free in `m`. */
  ghost predicate IdsBelow<T>(m: map<int, T>, next: int)
  {
    forall k :: k in m ==> 1 <= k < next
  }

  /** The user accounts that patients and doctors point to exist. */
  ghost predicate UsersLinked(users: map<int, User>, patients: map<int, Patient>, doctors: map<int, Doctor>)
  {
    (forall p :: p in patients && patients[p].userId.Some? ==> patients[p].userId.value in users)
    && (forall d :: d in doctors ==> doctors[d].userId in users)
  }

  /** No two doctor profiles carry the same license number. */
  ghost predicate LicensesUnique(doctors: map<int, Doctor>)
  {
    forall a, b :: a in doctors && b in doctors && doctors[a].licenseNumber == doctors[b].licenseNumber ==> a == b
  }

  /** Every appointment names an existing patient and doctor. */
  ghost predicate AppointmentsLinked(appointments: map<int, Appointment>, patients: map<int, Patient>,
                                     doctors: map<int, Doctor>)
  {
    forall a :: a in appointments ==> appointments[a].patientId in patients && appointments[a].doctorId in doctors
  }

  /** Every visit names an existing patient and doctor. */
  ghost predicate VisitsLinked(visits: map<int, Visit>, patients: map<int, Patient>, doctors: map<int, Doctor>)
  {
    forall v :: v in visits ==> visits[v].patientId in patients && visits[v].doctorId in doctors
  }

  /** Every treatment and every prescription belongs to an existing visit. */
  ghost predicate VisitRowsLinked(treatments: map<int, Treatment>, prescriptions: map<int, Prescription>,
                                  visits: map<int, Visit>)
  {
    (forall t :: t in treatments ==> treatments[t].visitId in visits)
    && (forall p :: p in prescriptions ==> prescriptions[p].visitId in visits)
  }

  class Db {
    var users: map<int, User>
    var patients: map<int, Patient>
    /** Accounts are stored under the id of the patient they belong to. */
    var accounts: map<int, Account>
    var doctors: map<int, Doctor>
    var appointments: map<int, Appointment>
    var visits: map<int, Visit>
    var treatments: map<int, Treatment>
    var billings: seq<Billing>
    var items: map<int, Item>
    var itemChanges: seq<ItemChange>
    var prescriptions: map<int, Prescription>
    /** The next row id handed out; ids come from this one counter for every table. */
    var nextId: int

    /** Users, patients, doctors and accounts: fresh ids, links resolve, license numbers are unique. */
    ghost predicate PeopleValid()
      reads this`users, this`patients, this`doctors, this`accounts, this`nextId
    {
      nextId >= 1
      && IdsBelow(users, nextId) && IdsBelow(patients, nextId) && IdsBelow(doctors, nextId)
      && UsersLinked(users, patients, doctors)
      && accounts.Keys <= patients.Keys
      && LicensesUnique(doctors)
    }

    /** Appointments: fresh ids, existing patient and doctor, no double booking. */
    ghost predicate ScheduleValid()
      reads this`appointments, this`patients, this`doctors, this`nextId
    {
      IdsBelow(appointments, nextId)
      && AppointmentsLinked(appointments, patients, doctors)
      && Schedule.NoDoubleBooking(appointments)
    }

    /** Visits, treatments and prescriptions: fresh ids and resolving links. */
    ghost predicate ClinicalValid()
      reads this`visits, this`treatments, this`prescriptions, this`patients, this`doctors, this`nextId
    {
      IdsBelow(visits, nextId) && IdsBelow(treatments, nextId) && IdsBelow(prescriptions, nextId)
      && VisitsLinked(visits, patients, doctors)
      && VisitRowsLinked(treatments, prescriptions, visits)
    }

    /** Every balance is what the billings posted to it account for. */
    ghost predicate LedgerValid()
      reads this`accounts, this`billings
    {
      Ledger.Consistent(accounts, billings)
    }

    /** Items: fresh ids, and every quantity is the sum of its change log. */
    ghost predicate StockValid()
      reads this`items, this`itemChanges, this`nextId
    {
      IdsBelow(items, nextId) && Stock.Consistent(items, itemChanges)
    }

    /** Ids are fresh, references resolve, and the schedule, ledger and stock invariants hold. */
    ghost predicate Valid()
      reads this
    {
      PeopleValid() && ScheduleValid() && ClinicalValid() && LedgerValid() && StockValid()
    }

    /** Writes item `id` and the new change log, when together they keep the stock invariant. */
    method CommitItem(id: int, item: Item, log: seq<ItemChange>)
      requires Valid() && 1 <= id < nextId
      requires Stock.Consistent(items[id := item], log)
      modifies this`items, this`itemChanges
      ensures Valid()
      ensures items == old(items)[id := item] && itemChanges == log
    {
      items := items[id := item];
      itemChanges := log;
    }

    /** Writes patient `pid`'s account and appends billing `b`, when together they keep the ledger invariant. */
    method CommitBilling(pid: int, account: Account, b: Billing)
      requires Valid() && pid in patients
      requires Ledger.Consistent(accounts[pid := account], billings + [b])
      modifies this`accounts, this`billings
      ensures Valid()
      ensures accounts == old(accounts)[pid := account] && billings == old(billings) + [b]
    {
      accounts := accounts[pid := account];
      billings := billings + [b];
    }

    /**
     * Inserts visit `vid` (the next id), replaces the treatment table by one whose
     * new rows belong to existing visits or to `vid`, replaces the appointments by
     * a table that keeps the schedule invariant, and moves the id counter to `next`.
     */
    method CommitVisit(vid: int, visit: Visit, table: map<int, Treatment>, appts: map<int, Appointment>, next: int)
      requires Valid() && vid == nextId && next > vid
      requires visit.patientId in patients && visit.doctorId in doctors
      requires IdsBelow(table, next)
      requires forall t :: t in table ==> table[t].visitId in visits || table[t].visitId == vid
      requires IdsBelow(appts, nextId) && AppointmentsLinked(appts, patients, doctors)
      requires Schedule.NoDoubleBooking(appts)
      modifies this`visits, this`treatments, this`appointments, this`nextId
      ensures Valid()
      ensures visits == old(visits)[vid := visit] && treatments == table && appointments == appts
      ensures nextId == next
    {
      visits := visits[vid := visit];
      treatments := table;
      appointments := appts;
      nextId := next;
    }

    /**
     * Replaces visit `id` (same patient and doctor) and the treatment table by one
     * whose rows belong to existing visits, and moves the id counter to `next`.
     */
    method CommitVisitPatch(id: int, visit: Visit, table: map<int, Treatment>, next: int)
      requires Valid() && id in visits && next >= nextId
      requires visit.patientId == visits[id].patientId && visit.doctorId == visits[id].doctorId
      requires IdsBelow(table, next)
      requires forall t :: t in table ==> table[t].visitId in visits
      modifies this`visits, this`treatments, this`nextId
      ensures Valid()
      ensures visits == old(visits)[id := visit] && treatments == table && nextId == next
    {
      visits := visits[id := visit];
      treatments := table;
      nextId := next;
    }

    /** Inserts patient `pid` (the next id), linked to an existing user if any, with an account at balance 0. */
    method CommitPatient(pid: int, patient: Patient)
      requires Valid() && pid == nextId
      requires patient.userId.Some? ==> patient.userId.value in users
      modifies this`patients, this`accounts, this`nextId
      ensures Valid()
      ensures patients == old(patients)[pid := patient] && accounts == old(accounts)[pid := Account(0, None)]
      ensures nextId == pid + 1
    {
      Ledger.OpenKeepsConsistent(accounts, billings, pid, None);
      patients := patients[pid := patient];
      accounts := accounts[pid := Account(0, None)];
      nextId := pid + 1;
    }

    /** Replaces patient `id` by `patient` (same linked user) and the user table by `table` (same ids). */
    method CommitPatientPatch(id: int, patient: Patient, table: map<int, User>)
      requires Valid() && id in patients && patient.userId == patients[id].userId
      requires table.Keys == users.Keys
      modifies this`patients, this`users
      ensures Valid()
      ensures patients == old(patients)[id := patient] && users == table
    {
      patients := patients[id := patient];
      users := table;
    }

    /**
     * Inserts the login user of a new doctor under `uid` (the next id) and the
     * doctor profile under the id after it; the license must be unused.
     */
    method CommitDoctorRegistration(uid: int, user: User, doctor: Doctor)
      requires Valid() && uid == nextId && doctor.userId == uid
      requires forall k :: k in doctors ==> doctors[k].licenseNumber != doctor.licenseNumber
      modifies this`users, this`doctors, this`nextId
      ensures Valid()
      ensures users == old(users)[uid := user] && doctors == old(doctors)[uid + 1 := doctor] && nextId == uid + 2
    {
      users := users[uid := user];
      doctors := doctors[uid + 1 := doctor];
      nextId := uid + 2;
    }

    /**
     * Replaces doctor `id` by `doctor` (same linked user, a license no other
     * doctor holds) and its user by `user`.
     */
    method CommitDoctorPatch(id: int, doctor: Doctor, user: User)
      requires Valid() && id in doctors && doctor.userId == doctors[id].userId
      requires forall k :: k in doctors && k != id ==> doctors[k].licenseNumber != doctor.licenseNumber
      modifies this`users, this`doctors
      ensures Valid()
      ensures doctors == old(doctors)[id := doctor] && users == old(users)[doctor.userId := user]
    {
      doctors := doctors[id := doctor];
      users := users[doctor.userId := user];
    }

    /** Replaces doctor `id` by `doctor`, which keeps its user and license. */
    method CommitDoctor(id: int, doctor: Doctor)
      requires Valid() && id in doctors && doctor.userId == doctors[id].userId
      requires doctor.licenseNumber == doctors[id].licenseNumber
      modifies this`doctors
      ensures Valid()
      ensures doctors == old(doctors)[id := doctor]
    {
      doctors := doctors[id := doctor];
    }

    /** Replaces the prescription table by `table`, whose rows belong to existing visits, and the counter by `next`. */
    method CommitPrescriptions(table: map<int, Prescription>, next: int)
      requires Valid() && next >= nextId && IdsBelow(table, next)
      requires forall p :: p in table ==> table[p].visitId in visits
      modifies this`prescriptions, this`nextId
      ensures Valid()
      ensures prescriptions == table && nextId == next
    {
      prescriptions := table;
      nextId := next;
    }

    /** Replaces the prescription table by `table` without handing out ids. */
    method CommitPrescriptionTable(table: map<int, Prescription>)
      requires Valid() && IdsBelow(table, nextId)
      requires forall p :: p in table ==> table[p].visitId in visits
      modifies this`prescriptions
      ensures Valid()
      ensures prescriptions == table
    {
      prescriptions := table;
    }

    /** Replaces the user table by `table`, which has the same ids and keeps every user's role. */
    method CommitUsers(table: map<int, User>)
      requires Valid() && table.Keys == users.Keys
      modifies this`users
      ensures Valid()
      ensures users == table
    {
      users := table;
    }

    /** Inserts user `uid` (the next id). */
    method CommitNewUser(uid: int, user: User)
      requires Valid() && uid == nextId
      modifies this`users, this`nextId
      ensures Valid()
      ensures users == old(users)[uid := user] && nextId == uid + 1
    {
      users := users[uid := user];
      nextId := uid + 1;
    }

    /** An empty database. */
    constructor()
      ensures Valid()
      ensures users == map[] && patients == map[] && accounts == map[] && doctors == map[]
      ensures appointments == map[] && visits == map[] && treatments == map[] && billings == []
      ensures items == map[] && itemChanges == [] && prescriptions == map[] && nextId == 1
    {
      users, patients, accounts, doctors := map[], map[], map[], map[];
      appointments, visits, treatments, billings := map[], map[], map[], [];
      items, itemChanges, prescriptions := map[], [], map[];
      nextId := 1;
    }
  }
}
