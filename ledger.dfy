/*
 * The ledger handlers of app.py: look a user up by email or id, request a
 * loan from the single investor, and pay a loan back. Each handler is given
 * twice: as a pure step from one snapshot to the next (what the handler
 * means), and as a method over the Store that runs the same guard chain
 * and writes through save_user / create_loan / update_loan.
 */
module Ledger {
  import opened Db

  /** The user every loan is drawn from. */
  const InvestorId: int := 1

  /** The ceiling on a borrower's credit limit. */
  const CreditLimitCap: real := 500.0

  /** One variant per error response of the handlers. */
  datatype LedgerError =
    | EmailRequired
    | NonPositiveAmount
    | UserNotFound
    | NotBorrower
    | LimitExceeded(creditLimit: real)
    | InsufficientFunds
    | LoanNotFound
    | NotLoanOwner
    | AlreadyPaid

  datatype Result<+T> = Ok(value: T) | Err(error: LedgerError)

  /** login: an empty email is refused before the lookup. */
  function Login(s: Snapshot, email: string): (r: Result<User>)
    ensures email == "" <==> r == Err(EmailRequired)
    ensures r == Err(UserNotFound) <==> email != "" && FindUserByEmail(s.users, email).None?
    ensures r.Ok? ==> r.value.email == email && r.value in s.users
                      && FindUserByEmail(s.users, email) == Some(r.value)
    ensures email != "" && FindUserByEmail(s.users, email).Some? ==>
              r == Ok(FindUserByEmail(s.users, email).value)
  {
    if email == "" then Err(EmailRequired)
    else match FindUserByEmail(s.users, email)
      case None => Err(UserNotFound)
      case Some(u) => Ok(u)
  }

  /** user_profile: the user filed under `uid`. */
  function UserProfile(s: Snapshot, uid: int): (r: Result<User>)
    ensures r.Ok? <==> exists j :: 0 <= j < |s.users| && s.users[j].id == uid
    ensures r.Err? ==> r.error == UserNotFound
    ensures r.Ok? ==> r.value.id == uid && FindUserById(s.users, uid) == Some(r.value)
  {
    match FindUserById(s.users, uid)
    case None => Err(UserNotFound)
    case Some(u) => Ok(u)
  }

  /** The investor's balance, 0 when there is no investor record. */
  function InvestorBalance(s: Snapshot): real
  {
    match FindUserById(s.users, InvestorId)
    case None => 0.0
    case Some(inv) => inv.balance
  }

  /** The credit limit after the `payments`-th successful payment: min(limit + 15 + 5 * payments, cap). */
  function GrownLimit(limit: real, payments: int): (r: real)
    ensures r <= CreditLimitCap
    ensures r <= limit + (15 + 5 * payments) as real
    ensures r == CreditLimitCap || r == limit + (15 + 5 * payments) as real
  {
    var grown := limit + (15 + 5 * payments) as real;
    if grown < CreditLimitCap then grown else CreditLimitCap
  }

  /**
   * request_loan as a step from one snapshot to the next. A refusal leaves
   * the snapshot as it was; a granted loan is a positive, active loan drawn
   * on the investor for the requester, appended after the existing loans.
   */
  function RequestLoanStep(s: Snapshot, userId: int, amount: real): (out: (Result<Loan>, Snapshot))
    ensures out.0.Err? ==> out.1 == s
    ensures out.0.Ok? ==> && out.0.value.amount == amount > 0.0
                          && out.0.value.status == Active
                          && out.0.value.borrowerId == userId && out.0.value.investorId == InvestorId
                          && out.1.loans == s.loans + [out.0.value]
  {
    if amount <= 0.0 then (Err(NonPositiveAmount), s)
    else match FindUserById(s.users, userId)
      case None => (Err(UserNotFound), s)
      case Some(user) =>
        if user.role != Borrower then (Err(NotBorrower), s)
        else if amount > user.creditLimit then (Err(LimitExceeded(user.creditLimit)), s)
        else match FindUserById(s.users, InvestorId)
          case None => (Err(InsufficientFunds), s)
          case Some(investor) =>
            if investor.balance < amount then (Err(InsufficientFunds), s)
            else
              var debited := s.(users := UpsertUser(s.users, investor.(balance := investor.balance - amount)));
              var (loan, s') := WithNewLoan(debited, userId, amount, InvestorId);
              (Ok(loan), s')
  }

  /**
   * pay_loan as a step from one snapshot to the next. A refusal leaves the
   * snapshot as it was; a payment returns the payer and the loan, now paid,
   * keeps the number of loans and the counter, and keeps the payer's limit
   * within the cap.
   */
  function PayLoanStep(s: Snapshot, userId: int, loanId: int): (out: (Result<(User, Loan)>, Snapshot))
    ensures out.0.Err? ==> out.1 == s
    ensures out.0.Ok? ==> && out.0.value.0.id == userId
                          && out.0.value.1.id == loanId && out.0.value.1.status == Paid
                          && out.0.value.1.borrowerId == userId
                          && out.0.value.0.creditLimit <= CreditLimitCap
                          && |out.1.loans| == |s.loans| && out.1.nextLoanId == s.nextLoanId
  {
    match FindUserById(s.users, userId)
    case None => (Err(UserNotFound), s)
    case Some(user) =>
      match FindLoanById(s.loans, loanId)
      case None => (Err(LoanNotFound), s)
      case Some(loan) =>
        if loan.borrowerId != userId then (Err(NotLoanOwner), s)
        else if loan.status == Paid then (Err(AlreadyPaid), s)
        else
          var paid := loan.(status := Paid);
          var payments := user.successfulPayments + 1;
          var user' := user.(successfulPayments := payments,
                             creditLimit := GrownLimit(user.creditLimit, payments));
          (Ok((user', paid)), s.(users := UpsertUser(s.users, user'), loans := ReplaceLoan(s.loans, paid)))
  }

  /**
   * request_loan over the store: the guard chain, then the investor is
   * debited through save_user and the loan is written by create_loan.
   */
  method RequestLoan(store: Store, userId: int, amount: real) returns (r: Result<Loan>)
    modifies store
    ensures (r, store.Snap()) == RequestLoanStep(old(store.Snap()), userId, amount)
  {
    if amount <= 0.0 {
      return Err(NonPositiveAmount);
    }
    var user := FindUserById(store.users, userId);
    if user.None? {
      return Err(UserNotFound);
    }
    if user.value.role != Borrower {
      return Err(NotBorrower);
    }
    var creditLimit := user.value.creditLimit;
    if amount > creditLimit {
      return Err(LimitExceeded(creditLimit));
    }
    var investor := FindUserById(store.users, InvestorId);
    if investor.None? || investor.value.balance < amount {
      return Err(InsufficientFunds);
    }
    store.SaveUser(investor.value.(balance := investor.value.balance - amount));
    var loan := store.CreateLoan(userId, amount, InvestorId);
    return Ok(loan);
  }

  /**
   * pay_loan over the store: the guard chain, then the loan is marked paid
   * through update_loan and the borrower's counters through save_user.
   */
  method PayLoan(store: Store, userId: int, loanId: int) returns (r: Result<(User, Loan)>)
    modifies store
    ensures (r, store.Snap()) == PayLoanStep(old(store.Snap()), userId, loanId)
  {
    var user := FindUserById(store.users, userId);
    if user.None? {
      return Err(UserNotFound);
    }
    var loan := FindLoanById(store.loans, loanId);
    if loan.None? {
      return Err(LoanNotFound);
    }
    if loan.value.borrowerId != userId {
      return Err(NotLoanOwner);
    }
    if loan.value.status == Paid {
      return Err(AlreadyPaid);
    }
    var paid := loan.value.(status := Paid);
    store.UpdateLoan(paid);
    var payments := user.value.successfulPayments + 1;
    var updated := user.value.(successfulPayments := payments,
                               creditLimit := GrownLimit(user.value.creditLimit, payments));
    store.SaveUser(updated);
    return Ok((updated, paid));
  }
}
