/*
 * The record store of the lending ledger: one snapshot holding the user
 * records, the loan records and the next loan id, with first-match lookups
 * over the record lists and the three writes (save_user, create_loan,
 * update_loan) that the ledger handlers use.
 */
module Db {

  datatype Option<+T> = None | Some(value: T)

  /** The `type` field of a user record. */
  datatype Role = Investor | Borrower

  /** A user record. Fields that a record of the other role lacks read as 0. */
  datatype User = User(
    id: int,
    email: string,
    role: Role,
    balance: real,
    creditLimit: real,
    successfulPayments: int)

  datatype LoanStatus = Active | Paid

  datatype Loan = Loan(
    id: int,
    borrowerId: int,
    investorId: int,
    amount: real,
    status: LoanStatus)

  /** The whole persisted state. */
  datatype Snapshot = Snapshot(users: seq<User>, loans: seq<Loan>, nextLoanId: int)

  /** The state written when nothing has been persisted yet. */
  const SeedInvestor := User(1, "investor@test.com", Investor, 5000.0, 0.0, 0)
  const SeedBorrower := User(2, "borrower@test.com", Borrower, 0.0, 40.0, 0)
  const Seed := Snapshot([SeedInvestor, SeedBorrower], [], 1)

  // ---------------------------------------------------------------------
  // First-match searches
  //
  // db.py writes one linear search per key (user id, email, loan id); each
  // is kept as its own function here so that every lookup and write reads
  // like the loop it models.

  /** Position of the first user with id `uid`, or |users| when there is none. */
  function UserIndex(users: seq<User>, uid: int): (i: nat)
    ensures i <= |users|
    ensures i < |users| ==> users[i].id == uid
    ensures forall j :: 0 <= j < i ==> users[j].id != uid
  {
    if users == [] then 0
    else if users[0].id == uid then 0
    else 1 + UserIndex(users[1..], uid)
  }

  /** Position of the first user with the given email, or |users| when there is none. */
  function EmailIndex(users: seq<User>, email: string): (i: nat)
    ensures i <= |users|
    ensures i < |users| ==> users[i].email == email
    ensures forall j :: 0 <= j < i ==> users[j].email != email
  {
    if users == [] then 0
    else if users[0].email == email then 0
    else 1 + EmailIndex(users[1..], email)
  }

  /** Position of the first loan with id `lid`, or |loans| when there is none. */
  function LoanIndex(loans: seq<Loan>, lid: int): (i: nat)
    ensures i <= |loans|
    ensures i < |loans| ==> loans[i].id == lid
    ensures forall j :: 0 <= j < i ==> loans[j].id != lid
  {
    if loans == [] then 0
    else if loans[0].id == lid then 0
    else 1 + LoanIndex(loans[1..], lid)
  }

  /** get_user_by_id: the first user whose id matches. */
  function FindUserById(users: seq<User>, uid: int): (r: Option<User>)
    ensures r.None? <==> forall j :: 0 <= j < |users| ==> users[j].id != uid
    ensures r.Some? ==> r.value.id == uid && r.value in users
    ensures r.Some? ==> UserIndex(users, uid) < |users| && r.value == users[UserIndex(users, uid)]
  {
    var i := UserIndex(users, uid);
    if i < |users| then Some(users[i]) else None
  }

  /** get_user_by_email: the first user whose email matches. */
  function FindUserByEmail(users: seq<User>, email: string): (r: Option<User>)
    ensures r.None? <==> forall j :: 0 <= j < |users| ==> users[j].email != email
    ensures r.Some? ==> r.value.email == email && r.value in users
    ensures r.Some? ==> EmailIndex(users, email) < |users| && r.value == users[EmailIndex(users, email)]
  {
    var i := EmailIndex(users, email);
    if i < |users| then Some(users[i]) else None
  }

  /** get_loan_by_id: the first loan whose id matches. */
  function FindLoanById(loans: seq<Loan>, lid: int): (r: Option<Loan>)
    ensures r.None? <==> forall j :: 0 <= j < |loans| ==> loans[j].id != lid
    ensures r.Some? ==> r.value.id == lid && r.value in loans
    ensures r.Some? ==> LoanIndex(loans, lid) < |loans| && r.value == loans[LoanIndex(loans, lid)]
  {
    var i := LoanIndex(loans, lid);
    if i < |loans| then Some(loans[i]) else None
  }

  /** A first-match position is determined by its defining property. */
  lemma UserIndexIs(users: seq<User>, uid: int, k: nat)
    requires k <= |users|
    requires k < |users| ==> users[k].id == uid
    requires forall j :: 0 <= j < k ==> users[j].id != uid
    ensures UserIndex(users, uid) == k
  {
  }

  lemma LoanIndexIs(loans: seq<Loan>, lid: int, k: nat)
    requires k <= |loans|
    requires k < |loans| ==> loans[k].id == lid
    requires forall j :: 0 <= j < k ==> loans[j].id != lid
    ensures LoanIndex(loans, lid) == k
  {
  }

  // ---------------------------------------------------------------------
  // The writes, as functions of the old lists

  /**
   * save_user on the user list: overwrite the first user with u's id, else
   * append u. A known id keeps the list's length, a new id grows it by u at
   * the end, and no record but u is brought in.
   */
  function UpsertUser(users: seq<User>, u: User): (r: seq<User>)
    ensures FindUserById(users, u.id).Some? ==> |r| == |users|
    ensures FindUserById(users, u.id).None? ==> r == users + [u]
    ensures forall x :: x in r ==> x == u || x in users
  {
    var i := UserIndex(users, u.id);
    if i < |users| then users[i := u] else users + [u]
  }

  /**
   * update_loan on the loan list: overwrite the first loan with l's id. The
   * list never grows, an unknown id leaves it as it was, and no record but l
   * is brought in.
   */
  function ReplaceLoan(loans: seq<Loan>, l: Loan): (r: seq<Loan>)
    ensures |r| == |loans|
    ensures FindLoanById(loans, l.id).None? ==> r == loans
    ensures forall x :: x in r ==> x == l || x in loans
  {
    var i := LoanIndex(loans, l.id);
    if i < |loans| then loans[i := l] else loans
  }

  /**
   * create_loan on a snapshot: an active loan under the current counter,
   * appended after every existing loan, with the counter moved one past it and
   * the users untouched.
   */
  function WithNewLoan(s: Snapshot, borrowerId: int, amount: real, investorId: int): (out: (Loan, Snapshot))
    ensures out.0.id == s.nextLoanId && out.1.nextLoanId == s.nextLoanId + 1
    ensures out.0.status == Active && out.0.borrowerId == borrowerId
            && out.0.investorId == investorId && out.0.amount == amount
    ensures |out.1.loans| == |s.loans| + 1 && out.1.loans[..|s.loans|] == s.loans
            && out.1.loans[|s.loans|] == out.0
    ensures out.1.users == s.users
  {
    var loan := Loan(s.nextLoanId, borrowerId, investorId, amount, Active);
    (loan, s.(loans := s.loans + [loan], nextLoanId := s.nextLoanId + 1))
  }

  /** Loan ids are strictly increasing along the list and all below the counter. */
  ghost predicate LoanIdsFresh(loans: seq<Loan>, nextLoanId: int)
  {
    && (forall i, j :: 0 <= i < j < |loans| ==> loans[i].id < loans[j].id)
    && (forall i :: 0 <= i < |loans| ==> loans[i].id < nextLoanId)
  }

  // ---------------------------------------------------------------------
  // Properties of the writes

  /** Saving u makes u the user found under its id; every other id finds what it found before. */
  lemma FindAfterUpsert(users: seq<User>, u: User, uid: int)
    ensures FindUserById(UpsertUser(users, u), uid)
            == if uid == u.id then Some(u) else FindUserById(users, uid)
  {
    var i := UserIndex(users, u.id);
    var r := UpsertUser(users, u);
    if uid == u.id {
      UserIndexIs(r, uid, i);
    } else {
      var k := UserIndex(users, uid);
      if k < |users| {
        assert k != i;
        UserIndexIs(r, uid, k);
      } else {
        UserIndexIs(r, uid, |r|);
      }
    }
  }

  /**
   * Saving a user with a known id puts it at the position of the first
   * record with that id; every other position, including later records with
   * the same id, keeps its record.
   */
  lemma UpsertUserShape(users: seq<User>, u: User)
    ensures FindUserById(users, u.id).Some? ==>
              UpsertUser(users, u)[UserIndex(users, u.id)] == u
    ensures forall j :: 0 <= j < |users| && j != UserIndex(users, u.id) ==> UpsertUser(users, u)[j] == users[j]
  {
  }

  /** Saving the same user twice leaves the state of saving it once. */
  lemma {:induction false} UpsertUserIdempotent(users: seq<User>, u: User)
    ensures UpsertUser(UpsertUser(users, u), u) == UpsertUser(users, u)
  {
    var i := UserIndex(users, u.id);
    var r := UpsertUser(users, u);
    if i < |users| {
      UserIndexIs(r, u.id, i);
    } else {
      UserIndexIs(r, u.id, |users|);
    }
  }

  /**
   * After update_loan the replacing loan is found under its id (when a loan
   * with that id existed), and every other id finds what it found before.
   */
  lemma FindAfterReplace(loans: seq<Loan>, l: Loan, lid: int)
    ensures FindLoanById(ReplaceLoan(loans, l), lid)
            == if lid == l.id && FindLoanById(loans, l.id).Some? then Some(l) else FindLoanById(loans, lid)
  {
    var i := LoanIndex(loans, l.id);
    var r := ReplaceLoan(loans, l);
    if i < |loans| {
      if lid == l.id {
        LoanIndexIs(r, lid, i);
      } else {
        var k := LoanIndex(loans, lid);
        if k < |loans| {
          assert k != i;
          LoanIndexIs(r, lid, k);
        } else {
          LoanIndexIs(r, lid, |r|);
        }
      }
    }
  }

  /**
   * update_loan keeps every id at its position and overwrites only the first
   * loan filed under the replacement's id; every other position, including
   * later loans with the same id, keeps its loan.
   */
  lemma ReplaceLoanKeepsIds(loans: seq<Loan>, l: Loan)
    ensures forall j :: 0 <= j < |loans| ==> ReplaceLoan(loans, l)[j].id == loans[j].id
    ensures FindLoanById(loans, l.id).Some? ==> ReplaceLoan(loans, l)[LoanIndex(loans, l.id)] == l
    ensures forall j :: 0 <= j < |loans| && j != LoanIndex(loans, l.id) ==> ReplaceLoan(loans, l)[j] == loans[j]
    ensures forall j :: 0 <= j < |loans| && loans[j].id != l.id ==> ReplaceLoan(loans, l)[j] == loans[j]
  {
  }

  /**
   * create_loan hands out an id no existing loan has, and keeps the ids
   * strictly increasing and below the counter.
   */
  lemma WithNewLoanKeepsIdsFresh(s: Snapshot, borrowerId: int, amount: real, investorId: int)
    requires LoanIdsFresh(s.loans, s.nextLoanId)
    ensures var (loan, s') := WithNewLoan(s, borrowerId, amount, investorId);
            && FindLoanById(s.loans, loan.id).None?
            && LoanIdsFresh(s'.loans, s'.nextLoanId)
  {
  }

  // ---------------------------------------------------------------------
  // The store

  /** The persisted snapshot, with the three writes of db.py as methods. */
  class Store {
    var users: seq<User>
    var loans: seq<Loan>
    var nextLoanId: int

    function Snap(): Snapshot
      reads this
    {
      Snapshot(users, loans, nextLoanId)
    }

    /** _load when nothing is persisted: the store starts from the seed. */
    constructor ()
      ensures Snap() == Seed
      ensures FindUserById(users, 1).Some? && FindUserById(users, 1).value.balance == 5000.0
      ensures FindUserById(users, 2).Some? && FindUserById(users, 2).value.role == Borrower
      ensures FindUserById(users, 2).value.creditLimit == 40.0
              && FindUserById(users, 2).value.successfulPayments == 0
      ensures loans == [] && nextLoanId == 1
    {
      users := Seed.users;
      loans := Seed.loans;
      nextLoanId := Seed.nextLoanId;
      UserIndexIs(Seed.users, 2, 1);
    }

    /** save_user: overwrite the first user with u's id in place, or append u. */
    method SaveUser(u: User)
      modifies this
      ensures users == UpsertUser(old(users), u)
      ensures FindUserById(users, u.id) == Some(u)
      ensures loans == old(loans) && nextLoanId == old(nextLoanId)
    {
      var i := 0;
      while i < |users|
        invariant 0 <= i <= |users|
        invariant users == old(users)
        invariant forall j :: 0 <= j < i ==> users[j].id != u.id
      {
        if users[i].id == u.id {
          users := users[i := u];
          FindAfterUpsert(old(users), u, u.id);
          return;
        }
        i := i + 1;
      }
      users := users + [u];
      FindAfterUpsert(old(users), u, u.id);
    }

    /** create_loan: append an active loan under the next id and bump the counter. */
    method CreateLoan(borrowerId: int, amount: real, investorId: int) returns (loan: Loan)
      modifies this
      ensures loan == Loan(old(nextLoanId), borrowerId, investorId, amount, Active)
      ensures loans == old(loans) + [loan]
      ensures nextLoanId == old(nextLoanId) + 1
      ensures users == old(users)
    {
      var lid := nextLoanId;
      loan := Loan(lid, borrowerId, investorId, amount, Active);
      loans := loans + [loan];
      nextLoanId := lid + 1;
    }

    /** update_loan: overwrite the first loan with l's id in place; nothing is appended. */
    method UpdateLoan(l: Loan)
      modifies this
      ensures loans == ReplaceLoan(old(loans), l)
      ensures |loans| == |old(loans)|
      ensures users == old(users) && nextLoanId == old(nextLoanId)
    {
      var i := 0;
      while i < |loans|
        invariant 0 <= i <= |loans|
        invariant loans == old(loans)
        invariant forall j :: 0 <= j < i ==> loans[j].id != l.id
      {
        if loans[i].id == l.id {
          loans := loans[i := l];
          return;
        }
        i := i + 1;
      }
    }
  }
}
