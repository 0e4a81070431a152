/**
 * The account ledger kept by billing: a billing moves its account's balance by
 * amount minus payment, and only when a payment was recorded with it.
 */
module Ledger {
  import opened Common
  import opened Tables

  /** What one billing added to its account's balance when it was posted. */
  function Contribution(b: Billing): int
  {
    if b.paidAmount.Some? then b.amount - b.paidAmount.value else 0
  }

  /** The sum of the contributions of the billings posted to account `pid`, oldest first. */
  function Owed(billings: seq<Billing>, pid: int): int
  {
    if billings == [] then 0
    else (if billings[0].accountId == pid then Contribution(billings[0]) else 0)
         + Owed(billings[1..], pid)
  }

  /**
   * Every billing names an existing account, and every account's balance is
   * exactly what its billings account for.
   */
  ghost predicate Consistent(accounts: map<int, Account>, billings: seq<Billing>)
  {
    && (forall i :: 0 <= i < |billings| ==> billings[i].accountId in accounts)
    && (forall pid :: pid in accounts ==> accounts[pid].balance == Owed(billings, pid))
  }

  /** Posting one more billing adds its contribution to its own account and to no other. */
  lemma {:induction false} OwedAppend(billings: seq<Billing>, b: Billing, pid: int)
    ensures Owed(billings + [b], pid)
            == Owed(billings, pid) + (if b.accountId == pid then Contribution(b) else 0)
  {
    if billings == [] {
      assert billings + [b] == [b];
      assert [b][1..] == [];
    } else {
      assert (billings + [b])[0] == billings[0];
      assert (billings + [b])[1..] == billings[1..] + [b];
      OwedAppend(billings[1..], b, pid);
    }
  }

  /** An account no billing names owes nothing. */
  lemma {:induction false} OwedUnbilled(billings: seq<Billing>, pid: int)
    requires forall i :: 0 <= i < |billings| ==> billings[i].accountId != pid
    ensures Owed(billings, pid) == 0
  {
    if billings != [] {
      assert billings[0].accountId != pid;
      OwedUnbilled(billings[1..], pid);
    }
  }

  /** Opening an account with balance 0 for a patient without one keeps the ledger consistent. */
  lemma OpenKeepsConsistent(accounts: map<int, Account>, billings: seq<Billing>, pid: int,
                            last: Option<int>)
    requires Consistent(accounts, billings) && pid !in accounts
    ensures Consistent(accounts[pid := Account(0, last)], billings)
  {
    OwedUnbilled(billings, pid);
  }

  /**
   * Appending billing `b` and moving its account's balance by exactly its
   * contribution keeps the ledger consistent.
   */
  lemma PostKeepsConsistent(accounts: map<int, Account>, billings: seq<Billing>, b: Billing,
                            updated: Account)
    requires Consistent(accounts, billings) && b.accountId in accounts
    requires updated.balance == accounts[b.accountId].balance + Contribution(b)
    ensures Consistent(accounts[b.accountId := updated], billings + [b])
  {
    forall pid | pid in accounts
      ensures Owed(billings + [b], pid)
              == Owed(billings, pid) + (if b.accountId == pid then Contribution(b) else 0)
    {
      OwedAppend(billings, b, pid);
    }
  }

  /** A billing posted without a payment leaves every balance where it was. */
  lemma UnpaidMovesNothing(billings: seq<Billing>, b: Billing, pid: int)
    requires b.paidAmount.None?
    ensures Owed(billings + [b], pid) == Owed(billings, pid)
  {
    OwedAppend(billings, b, pid);
  }
}
