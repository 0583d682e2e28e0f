/*
 * What the ledger handlers promise: the guard chains and the effects of
 * request_loan and pay_loan, paying twice, the invariants that every
 * sequence of requests keeps (no negative balance, credit limits within the
 * cap, loan ids unique and never reused, loans only move from active to
 * paid, the investor's funds are conserved), and the seeded scenario.
 */
module LedgerProperties {
  import opened Db
  import opened Ledger

  // ---------------------------------------------------------------------
  // request_loan

  /**
   * Each guard of request_loan, in order: the error it answers with exactly
   * when the earlier guards passed and its own condition holds.
   * No error changes the state, by RequestLoanStep's contract.
   * An amount equal to the credit limit is allowed.
   * The limit error reports the borrower's limit as it stands.
   */
  lemma RequestLoanGuards(s: Snapshot, userId: int, amount: real)
    ensures var (r, s') := RequestLoanStep(s, userId, amount);
            var user := FindUserById(s.users, userId);
            var investor := FindUserById(s.users, InvestorId);
            && (r == Err(NonPositiveAmount) <==> amount <= 0.0)
            && (r == Err(UserNotFound) <==> amount > 0.0 && user.None?)
            && (r == Err(NotBorrower) <==> amount > 0.0 && user.Some? && user.value.role != Borrower)
            && (r.Err? && r.error.LimitExceeded? <==>
                  amount > 0.0 && user.Some? && user.value.role == Borrower && amount > user.value.creditLimit)
            && (r.Err? && r.error.LimitExceeded? ==>
                  r.error.creditLimit == user.value.creditLimit)
            && (r == Err(InsufficientFunds) <==>
                  && amount > 0.0 && user.Some? && user.value.role == Borrower && amount <= user.value.creditLimit
                  && (investor.None? || investor.value.balance < amount))
            && (r.Ok? <==>
                  && amount > 0.0 && user.Some? && user.value.role == Borrower && amount <= user.value.creditLimit
                  && investor.Some? && investor.value.balance >= amount)
  {
  }

  /**
   * A granted loan: the investor is debited by exactly the amount and stays
   * non-negative, exactly one active loan under the old counter is appended,
   * the counter moves on by one, and no user record other than the
   * investor's changes (so the borrower's is untouched unless the borrower is
   * the investor's own id).
   */
  lemma RequestLoanEffect(s: Snapshot, userId: int, amount: real)
    requires RequestLoanStep(s, userId, amount).0.Ok?
    ensures var (r, s') := RequestLoanStep(s, userId, amount);
            && r.value == Loan(s.nextLoanId, userId, InvestorId, amount, Active)
            && s'.loans == s.loans + [r.value]
            && s'.nextLoanId == s.nextLoanId + 1
            && InvestorBalance(s') == InvestorBalance(s) - amount
            && InvestorBalance(s') >= 0.0
            && |s'.users| == |s.users|
            && FindUserById(s'.users, InvestorId)
               == Some(FindUserById(s.users, InvestorId).value.(balance := InvestorBalance(s) - amount))
            && (forall uid :: uid != InvestorId ==> FindUserById(s'.users, uid) == FindUserById(s.users, uid))
            && (userId != InvestorId ==> FindUserById(s'.users, userId) == FindUserById(s.users, userId))
  {
    var investor := FindUserById(s.users, InvestorId).value;
    var debited := investor.(balance := investor.balance - amount);
    var users' := UpsertUser(s.users, debited);
    RequestLoanGranted(s, userId, amount);
    FindAfterUpsert(s.users, debited, InvestorId);
    UpsertUserShape(s.users, debited);
    forall uid | uid != InvestorId
      ensures FindUserById(users', uid) == FindUserById(s.users, uid)
    {
      FindAfterUpsert(s.users, debited, uid);
    }
  }

  /** The snapshot a granted request leads to, written out. */
  lemma RequestLoanGranted(s: Snapshot, userId: int, amount: real)
    requires RequestLoanStep(s, userId, amount).0.Ok?
    ensures FindUserById(s.users, InvestorId).Some?
    ensures var investor := FindUserById(s.users, InvestorId).value;
            var loan := Loan(s.nextLoanId, userId, InvestorId, amount, Active);
            && investor.balance >= amount
            && RequestLoanStep(s, userId, amount)
               == (Ok(loan), Snapshot(UpsertUser(s.users, investor.(balance := investor.balance - amount)),
                                      s.loans + [loan], s.nextLoanId + 1))
  {
  }

  // ---------------------------------------------------------------------
  // pay_loan

  /** Each guard of pay_loan, in order (no error changes the state, by PayLoanStep's contract). */
  lemma PayLoanGuards(s: Snapshot, userId: int, loanId: int)
    ensures var (r, s') := PayLoanStep(s, userId, loanId);
            var user := FindUserById(s.users, userId);
            var loan := FindLoanById(s.loans, loanId);
            && (r == Err(UserNotFound) <==> user.None?)
            && (r == Err(LoanNotFound) <==> user.Some? && loan.None?)
            && (r == Err(NotLoanOwner) <==> user.Some? && loan.Some? && loan.value.borrowerId != userId)
            && (r == Err(AlreadyPaid) <==>
                  user.Some? && loan.Some? && loan.value.borrowerId == userId && loan.value.status == Paid)
            && (r.Ok? <==>
                  user.Some? && loan.Some? && loan.value.borrowerId == userId && loan.value.status == Active)
  {
  }

  /**
   * The growth rule never shrinks a limit already within the cap, and it
   * strictly grows the limit until it reaches the cap.
   */
  lemma GrownLimitBounds(limit: real, payments: int)
    requires limit <= CreditLimitCap && payments >= 0
    ensures limit <= GrownLimit(limit, payments)
    ensures limit < CreditLimitCap ==> limit < GrownLimit(limit, payments)
  {
  }

  /**
   * A payment: the loan is now paid and nothing else about it changes; the
   * payer's successful payments go up by one and the credit limit grows by
   * 15 + 5 * (the new count), capped at 500; the payer's balance, every
   * other user, every other loan, the investor's balance and the counter
   * are unchanged.
   */
  lemma PayLoanEffect(s: Snapshot, userId: int, loanId: int)
    requires PayLoanStep(s, userId, loanId).0.Ok?
    ensures var (r, s') := PayLoanStep(s, userId, loanId);
            var user := FindUserById(s.users, userId).value;
            var loan := FindLoanById(s.loans, loanId).value;
            var (user', loan') := r.value;
            && loan.status == Active && loan' == loan.(status := Paid)
            && FindLoanById(s'.loans, loanId) == Some(loan')
            && user'.id == user.id && user'.email == user.email && user'.role == user.role
            && user'.balance == user.balance
            && user'.successfulPayments == user.successfulPayments + 1
            && user'.creditLimit <= CreditLimitCap
            && user'.creditLimit <= user.creditLimit + (15 + 5 * user'.successfulPayments) as real
            && (user'.creditLimit == CreditLimitCap
                || user'.creditLimit == user.creditLimit + (15 + 5 * user'.successfulPayments) as real)
            && FindUserById(s'.users, userId) == Some(user')
            && (forall uid :: uid != userId ==> FindUserById(s'.users, uid) == FindUserById(s.users, uid))
            && (forall lid :: lid != loanId ==> FindLoanById(s'.loans, lid) == FindLoanById(s.loans, lid))
            && |s'.loans| == |s.loans| && |s'.users| == |s.users|
            && s'.nextLoanId == s.nextLoanId
            && InvestorBalance(s') == InvestorBalance(s)
  {
    var user := FindUserById(s.users, userId).value;
    var loan := FindLoanById(s.loans, loanId).value;
    var (user', loan') := PayLoanStep(s, userId, loanId).0.value;
    FindAfterUpsert(s.users, user', userId);
    FindAfterUpsert(s.users, user', InvestorId);
    FindAfterReplace(s.loans, loan', loanId);
    forall uid | uid != userId
      ensures FindUserById(PayLoanStep(s, userId, loanId).1.users, uid) == FindUserById(s.users, uid)
    {
      FindAfterUpsert(s.users, user', uid);
    }
    forall lid | lid != loanId
      ensures FindLoanById(PayLoanStep(s, userId, loanId).1.loans, lid) == FindLoanById(s.loans, lid)
    {
      FindAfterReplace(s.loans, loan', lid);
    }
  }

  /**
   * Paying the same loan twice: the second call is refused as already paid,
   * changes nothing, and so the payment counter and the limit moved once.
   */
  lemma PayLoanTwice(s: Snapshot, userId: int, loanId: int)
    requires PayLoanStep(s, userId, loanId).0.Ok?
    ensures var (r1, s1) := PayLoanStep(s, userId, loanId);
            var (r2, s2) := PayLoanStep(s1, userId, loanId);
            && r2 == Err(AlreadyPaid)
            && s2 == s1
            && FindUserById(s2.users, userId) == Some(r1.value.0)
            && r1.value.0.successfulPayments == FindUserById(s.users, userId).value.successfulPayments + 1
  {
    PayLoanEffect(s, userId, loanId);
  }

  // ---------------------------------------------------------------------
  // Invariants over any sequence of requests

  /** The two state-changing requests a client can send. */
  datatype Request = RequestLoanCall(userId: int, amount: real) | PayLoanCall(payerId: int, loanId: int)

  function Step(s: Snapshot, req: Request): Snapshot
  {
    match req
    case RequestLoanCall(userId, amount) => RequestLoanStep(s, userId, amount).1
    case PayLoanCall(userId, loanId) => PayLoanStep(s, userId, loanId).1
  }

  /** The snapshot after handling the requests one after the other. */
  function Run(s: Snapshot, reqs: seq<Request>): Snapshot
    decreases |reqs|
  {
    if reqs == [] then s else Run(Step(s, reqs[0]), reqs[1..])
  }

  ghost predicate UserOk(u: User)
  {
    u.balance >= 0.0 && 0.0 <= u.creditLimit <= CreditLimitCap && u.successfulPayments >= 0
  }

  /**
   * The ledger invariant: no balance below zero, every credit limit within
   * [0, 500], payment counters non-negative, every loan amount positive, and
   * loan ids strictly increasing and below the counter (so unique and never
   * handed out again).
   */
  ghost predicate Valid(s: Snapshot)
  {
    && (forall u :: u in s.users ==> UserOk(u))
    && (forall l :: l in s.loans ==> l.amount > 0.0)
    && LoanIdsFresh(s.loans, s.nextLoanId)
  }

  /** A loan record `later` is what `earlier` may have become: only active may turn paid. */
  ghost predicate LoanLater(earlier: Loan, later: Loan)
  {
    && later.id == earlier.id && later.borrowerId == earlier.borrowerId
    && later.investorId == earlier.investorId && later.amount == earlier.amount
    && (earlier.status == Paid ==> later.status == Paid)
  }

  /** Loans are only appended, and each existing loan changes at most its status, forward. */
  ghost predicate LoansEvolve(before: seq<Loan>, after: seq<Loan>)
  {
    |before| <= |after| && forall i :: 0 <= i < |before| ==> LoanLater(before[i], after[i])
  }

  /** The sum of all loan amounts ever lent, paid or not. */
  function TotalLent(loans: seq<Loan>): real
  {
    if loans == [] then 0.0 else TotalLent(loans[..|loans| - 1]) + loans[|loans| - 1].amount
  }

  lemma TotalLentAppend(loans: seq<Loan>, l: Loan)
    ensures TotalLent(loans + [l]) == TotalLent(loans) + l.amount
  {
    assert (loans + [l])[..|loans|] == loans;
  }

  /** Overwriting a loan with one of the same amount keeps the total. */
  lemma {:induction false} TotalLentUpdate(loans: seq<Loan>, i: nat, l: Loan)
    requires i < |loans| && l.amount == loans[i].amount
    ensures TotalLent(loans[i := l]) == TotalLent(loans)
  {
    var n := |loans| - 1;
    var r := loans[i := l];
    if i == n {
      assert r[..n] == loans[..n];
    } else {
      assert r[..n] == loans[..n][i := l];
      TotalLentUpdate(loans[..n], i, l);
    }
  }

  lemma SeedValid()
    ensures Valid(Seed)
  {
  }

  lemma RequestLoanPreservesValid(s: Snapshot, userId: int, amount: real)
    requires Valid(s)
    ensures Valid(RequestLoanStep(s, userId, amount).1)
  {
    if RequestLoanStep(s, userId, amount).0.Ok? {
      var investor := FindUserById(s.users, InvestorId).value;
      var debited := investor.(balance := investor.balance - amount);
      RequestLoanGranted(s, userId, amount);
      assert UserOk(debited);
      UpsertUserShape(s.users, debited);
      WithNewLoanKeepsIdsFresh(s, userId, amount, InvestorId);
    }
  }

  lemma PayLoanPreservesValid(s: Snapshot, userId: int, loanId: int)
    requires Valid(s)
    ensures Valid(PayLoanStep(s, userId, loanId).1)
  {
    if PayLoanStep(s, userId, loanId).0.Ok? {
      var user := FindUserById(s.users, userId).value;
      var loan := FindLoanById(s.loans, loanId).value;
      var (user', loan') := PayLoanStep(s, userId, loanId).0.value;
      var s' := PayLoanStep(s, userId, loanId).1;
      assert s' == s.(users := UpsertUser(s.users, user'), loans := ReplaceLoan(s.loans, loan'));
      GrownLimitBounds(user.creditLimit, user.successfulPayments + 1);
      assert UserOk(user');
      UpsertUserShape(s.users, user');
      ReplaceLoanKeepsIds(s.loans, loan');
    }
  }

  lemma StepPreservesValid(s: Snapshot, req: Request)
    requires Valid(s)
    ensures Valid(Step(s, req))
  {
    match req
    case RequestLoanCall(userId, amount) => RequestLoanPreservesValid(s, userId, amount);
    case PayLoanCall(userId, loanId) => PayLoanPreservesValid(s, userId, loanId);
  }

  lemma StepLoansEvolve(s: Snapshot, req: Request)
    ensures LoansEvolve(s.loans, Step(s, req).loans)
  {
    match req
    case RequestLoanCall(userId, amount) =>
    case PayLoanCall(userId, loanId) =>
      if PayLoanStep(s, userId, loanId).0.Ok? {
        var (_, loan') := PayLoanStep(s, userId, loanId).0.value;
        ReplaceLoanKeepsIds(s.loans, loan');
      }
  }

  /** A granted loan moves its amount from the investor's balance into the total lent. */
  lemma RequestLoanConservesFunds(s: Snapshot, userId: int, amount: real)
    ensures var s' := RequestLoanStep(s, userId, amount).1;
            InvestorBalance(s') + TotalLent(s'.loans) == InvestorBalance(s) + TotalLent(s.loans)
  {
    if RequestLoanStep(s, userId, amount).0.Ok? {
      RequestLoanEffect(s, userId, amount);
      TotalLentAppend(s.loans, RequestLoanStep(s, userId, amount).0.value);
    }
  }

  /** A payment neither refunds the investor nor changes what was lent. */
  lemma PayLoanConservesFunds(s: Snapshot, userId: int, loanId: int)
    ensures var s' := PayLoanStep(s, userId, loanId).1;
            InvestorBalance(s') + TotalLent(s'.loans) == InvestorBalance(s) + TotalLent(s.loans)
  {
    if PayLoanStep(s, userId, loanId).0.Ok? {
      PayLoanEffect(s, userId, loanId);
      var (_, loan') := PayLoanStep(s, userId, loanId).0.value;
      TotalLentUpdate(s.loans, LoanIndex(s.loans, loanId), loan');
    }
  }

  /** Neither request moves money out of (investor balance + everything lent). */
  lemma StepConservesFunds(s: Snapshot, req: Request)
    ensures InvestorBalance(Step(s, req)) + TotalLent(Step(s, req).loans)
            == InvestorBalance(s) + TotalLent(s.loans)
  {
    match req
    case RequestLoanCall(userId, amount) => RequestLoanConservesFunds(s, userId, amount);
    case PayLoanCall(userId, loanId) => PayLoanConservesFunds(s, userId, loanId);
  }

  lemma LoansEvolveTransitive(a: seq<Loan>, b: seq<Loan>, c: seq<Loan>)
    requires LoansEvolve(a, b) && LoansEvolve(b, c)
    ensures LoansEvolve(a, c)
  {
  }

  /** Every sequence of requests keeps the invariant, only moves loans forward, and conserves funds. */
  lemma {:induction false} RunInvariants(s: Snapshot, reqs: seq<Request>)
    requires Valid(s)
    ensures Valid(Run(s, reqs))
    ensures LoansEvolve(s.loans, Run(s, reqs).loans)
    ensures InvestorBalance(Run(s, reqs)) + TotalLent(Run(s, reqs).loans)
            == InvestorBalance(s) + TotalLent(s.loans)
    decreases |reqs|
  {
    if reqs != [] {
      var s1 := Step(s, reqs[0]);
      StepPreservesValid(s, reqs[0]);
      StepLoansEvolve(s, reqs[0]);
      StepConservesFunds(s, reqs[0]);
      RunInvariants(s1, reqs[1..]);
      LoansEvolveTransitive(s.loans, s1.loans, Run(s1, reqs[1..]).loans);
    }
  }

  /**
   * From the seed, whatever requests arrive one at a time: the investor's
   * balance is the seed balance minus everything lent, it never goes
   * negative, and so no more than 5000 is ever lent in total.
   */
  lemma NoOverdrawFromSeed(reqs: seq<Request>)
    ensures var s := Run(Seed, reqs);
            && InvestorBalance(s) == 5000.0 - TotalLent(s.loans)
            && InvestorBalance(s) >= 0.0
            && TotalLent(s.loans) <= 5000.0
            && Valid(s)
  {
    SeedValid();
    assert InvestorBalance(Seed) == 5000.0;
    RunInvariants(Seed, reqs);
  }

  // ---------------------------------------------------------------------
  // The seeded scenario

  /**
   * From the seed: the borrower logs in with limit 40; borrowing 30 is
   * granted as loan 1 and leaves the investor with 4970; borrowing 50 is
   * then refused against the limit 40 with no change; paying loan 1 leaves
   * the borrower with limit 60 after one successful payment.
   */
  lemma SeedScenario()
    ensures Login(Seed, "borrower@test.com") == Ok(SeedBorrower)
    ensures var (r1, s1) := RequestLoanStep(Seed, 2, 30.0);
            && r1 == Ok(Loan(1, 2, InvestorId, 30.0, Active))
            && InvestorBalance(s1) == 4970.0
            && var (r2, s2) := RequestLoanStep(s1, 2, 50.0);
               && r2 == Err(LimitExceeded(40.0))
               && s2 == s1
               && var (r3, s3) := PayLoanStep(s2, 2, 1);
                  && r3.Ok?
                  && FindUserById(s3.users, 2) == Some(SeedBorrower.(creditLimit := 60.0, successfulPayments := 1))
  {
    assert EmailIndex(Seed.users, "borrower@test.com") == 1 by {
      assert Seed.users[0].email != "borrower@test.com";
    }
    UserIndexIs(Seed.users, 2, 1);
    RequestLoanEffect(Seed, 2, 30.0);
    var s1 := RequestLoanStep(Seed, 2, 30.0).1;
    assert FindUserById(s1.users, 2) == Some(SeedBorrower);
    PayLoanEffect(s1, 2, 1);
  }

  /** The same scenario run against a store that starts from the seed. */
  method SeedScenarioOnStore() returns (balance: real, rejectedAt: LedgerError, limit: real, payments: int)
    ensures balance == 4970.0
    ensures rejectedAt == LimitExceeded(40.0)
    ensures limit == 60.0 && payments == 1
  {
    var store := new Store();
    SeedScenario();
    var r1 := RequestLoan(store, 2, 30.0);
    balance := InvestorBalance(store.Snap());
    var r2 := RequestLoan(store, 2, 50.0);
    rejectedAt := r2.error;
    var r3 := PayLoan(store, 2, r1.value.id);
    var borrower := FindUserById(store.users, 2);
    limit := borrower.value.creditLimit;
    payments := borrower.value.successfulPayments;
  }
}
