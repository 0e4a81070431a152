/**
 * The billing handler: a billing is posted for a treatment to the account of
 * the treated patient (opened at balance 0 when missing); the account balance
 * moves, by cost minus payment, only when a payment comes with the billing.
 */
module Billings {
  import opened Common
  import opened Tables
  import opened Ledger
  import Store

  /** The billing request; `paymentMethod` and `amountPaid` hold their defaults ("cash", 0) when not sent. */
  datatype BillArgs = BillArgs(treatmentId: Option<int>, paymentMethod: string,
                               insuranceClaimId: Option<string>, amountPaid: int)

  const DefaultPaymentMethod := "cash"

  /** Receptionists and admins post billings. */
  predicate MayBill(role: Role)
  {
    role == ReceptionistRole || role == AdminRole
  }

  /** The patient whose visit the treatment belongs to: the account the billing goes to. */
  function Payer(db: Store.Db, tid: int): (pid: int)
    reads db
    requires db.Valid() && tid in db.treatments
    ensures pid in db.patients
  {
    db.visits[db.treatments[tid].visitId].patientId
  }

  /**
   * Posts a billing for treatment `args.treatmentId`: its amount is the
   * treatment's cost. With a positive payment the billing records it, is paid
   * when the payment covers the cost, and the balance grows by cost minus
   * payment; otherwise the balance and last payment date stay as they were.
   */
  method Post(db: Store.Db, actor: Actor, args: BillArgs, now: int) returns (r: Outcome<Billing>)
    requires db.Valid()
    modifies db`accounts, db`billings
    ensures db.Valid()
    ensures !MayBill(actor.role) ==> r == Fail(Forbidden)
    ensures MayBill(actor.role) && args.treatmentId.None? ==> r == Fail(BadRequest)
    ensures MayBill(actor.role) && args.treatmentId.Some? && args.treatmentId.value !in db.treatments
            ==> r == Fail(NotFound)
    ensures r.Ok? <==> MayBill(actor.role) && args.treatmentId.Some? && args.treatmentId.value in db.treatments
    ensures r.Ok? ==>
              var tid := args.treatmentId.value;
              var cost, pid := db.treatments[tid].cost, Payer(db, tid);
              var prior := if pid in old(db.accounts) then old(db.accounts)[pid] else Account(0, None);
              r.value.treatmentId == tid && r.value.accountId == pid && r.value.amount == cost
              && r.value.paymentMethod == args.paymentMethod
              && r.value.insuranceClaimId == NonEmpty(args.insuranceClaimId) && r.value.date == now
              && db.billings == old(db.billings) + [r.value]
              && (args.amountPaid > 0 ==>
                    r.value.paidAmount == Some(args.amountPaid) && r.value.isPaid == Some(args.amountPaid >= cost)
                    && db.accounts == old(db.accounts)[pid := Account(prior.balance + cost - args.amountPaid, Some(now))])
              && (args.amountPaid <= 0 ==>
                    r.value.paidAmount.None? && r.value.isPaid.None?
                    && db.accounts == old(db.accounts)[pid := prior])
    ensures r.Ok? ==> r.value.accountId in db.accounts
                      && db.accounts[r.value.accountId].balance == Owed(db.billings, r.value.accountId)
                      && Owed(db.billings, r.value.accountId)
                         == Owed(old(db.billings), r.value.accountId) + Contribution(r.value)
    ensures r.Fail? ==> db.accounts == old(db.accounts) && db.billings == old(db.billings)
  {
    if !MayBill(actor.role) {
      return Fail(Forbidden);
    }
    if args.treatmentId.None? {
      return Fail(BadRequest);
    }
    var tid := args.treatmentId.value;
    if tid !in db.treatments {
      return Fail(NotFound);
    }
    var treatment := db.treatments[tid];
    var pid := Payer(db, tid);
    var account;
    if pid in db.accounts {
      account := db.accounts[pid];
    } else {
      account := Account(0, None);
      OpenKeepsConsistent(db.accounts, db.billings, pid, None);
    }
    var billing := Billing(tid, pid, treatment.cost, None, None, args.paymentMethod,
                           NonEmpty(args.insuranceClaimId), now);
    var withAccount := db.accounts[pid := account];
    if args.amountPaid > 0 {
      billing := billing.(paidAmount := Some(args.amountPaid), isPaid := Some(args.amountPaid >= treatment.cost));
      account := account.(balance := account.balance + treatment.cost - args.amountPaid);
      account := account.(lastPaymentDate := Some(now));
    }
    PostKeepsConsistent(withAccount, db.billings, billing, account);
    assert withAccount[pid := account] == db.accounts[pid := account];
    db.CommitBilling(pid, account, billing);
    OwedAppend(old(db.billings), billing, pid);
    r := Ok(billing);
  }

  /**
   * Reading a billing as written: a patient caller who is not the treated
   * patient is refused, and then every role except receptionist and admin is
   * refused as well, so no patient can read any billing, even their own.
   */
  predicate MayReadAsWritten(role: Role, ownsBilling: bool)
  {
    !(role == PatientRole && !ownsBilling) && (role == ReceptionistRole || role == AdminRole)
  }

  /** A patient is refused even on a billing of their own. */
  lemma OwnBillingRefused()
    ensures !MayReadAsWritten(PatientRole, true)
  {
  }

  /** Reading a billing as the first check intends: staff, or the patient the billing is for. */
  predicate MayRead(role: Role, ownsBilling: bool)
  {
    role == ReceptionistRole || role == AdminRole || (role == PatientRole && ownsBilling)
  }

  /** The intended rule differs from the written one exactly on a patient reading their own billing. */
  lemma ReadRuleDifference(role: Role, ownsBilling: bool)
    ensures MayRead(role, ownsBilling) != MayReadAsWritten(role, ownsBilling)
            <==> role == PatientRole && ownsBilling
  {
  }

  /** Fetches billing number `n` (1-based) with the intended read rule. */
  function Get(db: Store.Db, actor: Actor, n: int): (r: Outcome<Billing>)
    reads db
    requires db.Valid()
    ensures !(1 <= n <= |db.billings|) ==> r == Fail(NotFound)
    ensures r.Ok? <==> 1 <= n <= |db.billings|
                       && MayRead(actor.role, Owns(db, actor, db.billings[n - 1]))
    ensures r.Ok? ==> r.value == db.billings[n - 1]
    ensures r.Fail? && 1 <= n <= |db.billings| ==> r == Fail(Forbidden)
  {
    if !(1 <= n <= |db.billings|) then Fail(NotFound)
    else
      var b := db.billings[n - 1];
      if !MayRead(actor.role, Owns(db, actor, b)) then Fail(Forbidden) else Ok(b)
  }

  /** The caller is the patient the billing was posted to. */
  predicate Owns(db: Store.Db, actor: Actor, b: Billing)
    reads db
  {
    b.accountId in db.patients && db.patients[b.accountId].userId == Some(actor.userId)
  }
}
