/**
 * The model-level rules: the phone validator run whenever a patient's phone
 * number is assigned, a patient's total balance over their visits, and the
 * non-negative payment constraint on visits.
 */
module Models {
  import opened Common
  import opened Validators

  /** A visit row as the model layer declares it: what was paid, and the balance left, if recorded (cents). */
  datatype VisitBalance = VisitBalance(amountPaid: int, balance: Option<int>)

  /**
   * The phone validator: refuses a number shorter than 10 characters or with a
   * non-digit by raising an error no handler catches (a server error), and
   * otherwise hands the number back unchanged.
   */
  function ValidatePhone(number: string): (r: Outcome<string>)
    ensures r.Fail? <==> |number| < 10 || !AllDigits(number)
    ensures r.Ok? ==> r.value == number
    ensures r.Fail? ==> r.error == ServerError
  {
    if |number| < 10 || !AllDigits(number) then Fail(ServerError) else Ok(number)
  }

  /**
   * The validator and the handlers' phone pattern agree on plain numbers of 10
   * to 15 digits; the validator sets no upper bound and refuses a leading '+',
   * which the pattern accepts.
   */
  lemma ValidatorAndPattern(number: string)
    ensures PhoneDigits(number) ==> ValidatePhone(number).Ok? && PhoneMatches(number)
    ensures ValidatePhone(number).Ok? && |number| <= 15 ==> PhoneMatches(number)
    ensures |number| > 0 && number[0] == '+' ==> ValidatePhone(number).Fail?
  {
    if |number| > 0 && number[0] == '+' {
      assert !IsDigit(number[0]);
    }
  }

  /** Sixteen digits pass the validator but not the pattern. */
  lemma ValidatorHasNoUpperBound()
    ensures ValidatePhone("0123456789012345").Ok? && !PhoneMatches("0123456789012345")
  {
    var s := "0123456789012345";
    assert !PhoneBody(s) by {
      assert s[0] != '+';
    }
    assert s[|s| - 1] != '\n';
  }

  /** The sum of the recorded balances, visits without one skipped. */
  function TotalBalance(visits: seq<VisitBalance>): int
  {
    if visits == [] then 0
    else TotalBalance(visits[..|visits| - 1]) + GetOr(visits[|visits| - 1].balance, 0)
  }

  /** The total over two runs of visits is the sum of their totals. */
  lemma {:induction false} TotalBalanceAppend(a: seq<VisitBalance>, b: seq<VisitBalance>)
    ensures TotalBalance(a + b) == TotalBalance(a) + TotalBalance(b)
    decreases |b|
  {
    if b != [] {
      assert (a + b)[..|a + b| - 1] == a + b[..|b| - 1];
      TotalBalanceAppend(a, b[..|b| - 1]);
    } else {
      assert a + b == a;
    }
  }

  /** A patient without visits owes nothing, and a visit with no recorded balance adds nothing. */
  lemma TotalBalanceSkipsUnrecorded(visits: seq<VisitBalance>, v: VisitBalance)
    ensures TotalBalance([]) == 0
    ensures v.balance.None? ==> TotalBalance(visits + [v]) == TotalBalance(visits)
    ensures v.balance.Some? ==> TotalBalance(visits + [v]) == TotalBalance(visits) + v.balance.value
  {
    assert (visits + [v])[..|visits + [v]| - 1] == visits;
  }

  /** The total is the same whichever end a visit is added at. */
  lemma {:induction false} TotalBalanceOrderFree(visits: seq<VisitBalance>, v: VisitBalance)
    ensures TotalBalance([v] + visits) == TotalBalance(visits + [v])
  {
    TotalBalanceAppend([v], visits);
    TotalBalanceSkipsUnrecorded([], v);
    assert [] + [v] == [v];
    TotalBalanceSkipsUnrecorded(visits, v);
  }

  /** The check constraint on a visit row: the amount paid is never negative. */
  predicate PaymentAllowed(v: VisitBalance)
  {
    v.amountPaid >= 0
  }

  /**
   * Storing a visit: the database refuses a row with a negative payment, which
   * surfaces at commit as an integrity error no handler turns into a client error.
   */
  function StoreVisit(visits: seq<VisitBalance>, v: VisitBalance): (r: Outcome<seq<VisitBalance>>)
    ensures r.Ok? <==> v.amountPaid >= 0
    ensures r.Ok? ==> r.value == visits + [v] && TotalBalance(r.value) == TotalBalance(visits) + GetOr(v.balance, 0)
    ensures r.Fail? ==> r.error == ServerError
  {
    TotalBalanceSkipsUnrecorded(visits, v);
    if PaymentAllowed(v) then Ok(visits + [v]) else Fail(ServerError)
  }
}
