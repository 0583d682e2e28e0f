# Lending ledger model

A Dafny model of the core of a peer-to-peer micro-lending backend. One
investor (user id 1) lends to borrowers. A borrower may request a loan up to
their credit limit, which is drawn from the investor's balance. Paying a loan
back marks it paid and grows the borrower's credit limit by
`15 + 5 * successful_payments`, capped at 500.

The model has three modules:

- `Db` (`db.dfy`) models `db.py`. It holds the record types, the seed
  snapshot, the first-match lookups by user id, by email and by loan id, and
  the writes as functions of the old lists: `UpsertUser` for `save_user`,
  `ReplaceLoan` for `update_loan` and `WithNewLoan` for `create_loan`. It also
  has the class `Store`, the persisted snapshot. Its methods `SaveUser` and
  `UpdateLoan` loop over the list and overwrite in place, and `CreateLoan`
  appends and bumps the counter.
- `Ledger` (`ledger.dfy`) models `app.py`. It holds the constants
  `InvestorId` and `CreditLimitCap`, one error variant per error response,
  `Login` and `UserProfile` as lookups, and `request_loan` and `pay_loan`
  twice over. `RequestLoanStep` and `PayLoanStep` are pure steps from one
  snapshot to the next. `RequestLoan` and `PayLoan` are methods over a
  `Store` that run the same guard chain, write through the store's methods,
  and are proved equal to the steps.
- `LedgerProperties` (`ledger_properties.dfy`) holds the lemmas. They cover
  each guard of both handlers and the exact effect of a success. They show
  that paying a loan twice succeeds once. They prove invariants over any
  sequence of requests: no negative balance, credit limits within the cap,
  unique loan ids, status only moving from active to paid, and conservation
  of the investor's funds. Last comes the seeded scenario of the repository's
  test script.

Amounts, balances and credit limits are exact `real`s. A record field that the
source reads with a default of 0 (`balance`, `credit_limit`,
`successful_payments`) is modelled as always present, holding 0 where the
source's record lacks it.

## Model

| member | source | states |
|---|---|---|
| Db.UserIndex | db.py:34-39 | the position of the first user with the given id, or the list length when no user has it |
| Db.EmailIndex | db.py:42-47 | the position of the first user with the given email, or the list length when none has it |
| Db.LoanIndex | db.py:67-71 | the position of the first loan with the given id, or the list length when none has it |
| Db.FindUserById | db.py:34-39 | returns the user at the first matching position; returns None exactly when no user has the id |
| Db.FindUserByEmail | db.py:42-47 | returns the first user whose email matches; returns None exactly when none matches |
| Db.FindLoanById | db.py:67-71 | returns the first loan whose id matches; returns None exactly when none matches |
| Db.UpsertUser | db.py:50-60 | `save_user` with a known id keeps the list length; with an unknown id it appends the user at the end; every record afterwards is the saved user or one that was there before |
| Db.ReplaceLoan | db.py:90-96 | `update_loan` keeps the list length; with an unknown id the list is unchanged (it never appends); every loan afterwards is the replacement or one that was there before |
| Db.WithNewLoan | db.py:74-87 | `create_loan` returns an active loan with the given borrower, investor and amount under the old counter, which grows by 1; it is appended after the old loans, and users are unchanged |
| Db.FindAfterUpsert | db.py:50-60 | after `save_user(u)`, looking up `u.id` gives `u`, and every other id gives what it gave before |
| Db.UpsertUserShape | db.py:50-60 | a known id is overwritten at the position of the first record with that id; every other position, including later records with the same id, keeps its record |
| Db.UpsertUserIdempotent | db.py:50-60 | saving the same user twice gives the same user list as saving it once |
| Db.FindAfterReplace | db.py:90-96 | after `update_loan(l)`, looking up `l.id` gives `l` when a loan with that id existed; every other lookup gives what it gave before |
| Db.ReplaceLoanKeepsIds | db.py:90-96 | `update_loan` keeps every loan id at its position; only the first loan with the id changes, and it becomes the replacement; every other position, including later loans with the same id, keeps its loan |
| Db.WithNewLoanKeepsIdsFresh | db.py:74-87 | if loan ids were strictly increasing and below `next_loan_id`, the new loan's id is unused and that still holds afterwards |
| Db.Store.constructor | db.py:7-20 | with nothing persisted the store is the seed: investor 1 with balance 5000, borrower 2 with credit limit 40 and no payments, no loans, counter 1 |
| Db.Store.SaveUser | db.py:50-60 | the user list becomes the upsert of `u`, `u` is then found under its id, and loans and the counter are unchanged |
| Db.Store.CreateLoan | db.py:74-87 | returns an active loan under the old counter with the given borrower, investor and amount; it is appended, the counter grows by 1, and users are unchanged |
| Db.Store.UpdateLoan | db.py:90-96 | the first loan with the same id is overwritten in place and nothing is appended; users and the counter are unchanged |
| Ledger.Login | app.py:13-22 | an empty email is refused, and only an empty email is refused that way; otherwise it returns the first user with that email whenever one exists, and user-not-found exactly when there is none |
| Ledger.UserProfile | app.py:25-30 | returns the user with that id exactly when one exists, otherwise user-not-found |
| Ledger.GrownLimit | app.py:88-91 | the new limit is min(limit + 15 + 5·payments, 500): it is at most 500, at most the grown value, and equal to one of the two |
| Ledger.RequestLoanStep | app.py:33-63 | a refusal leaves the snapshot unchanged; a granted loan has the requested (positive) amount, is active, belongs to the requester, is drawn on investor 1 and is appended after the existing loans |
| Ledger.PayLoanStep | app.py:66-94 | a refusal leaves the snapshot unchanged; a payment returns the payer and the paid loan, which is the payer's own; the payer's new limit is at most 500; the number of loans and the counter are unchanged |
| Ledger.RequestLoan | app.py:33-63 | the result and the new store are those of `RequestLoanStep` on the old store |
| Ledger.PayLoan | app.py:66-94 | the result and the new store are those of `PayLoanStep` on the old store |
| LedgerProperties.RequestLoanGuards | app.py:44-58 | refused when: the amount is at most 0; the user is missing; the user is not a borrower; the amount exceeds the credit limit (the error carries the unchanged limit, and an amount equal to the limit is allowed); investor 1 is missing or short of funds. Granted exactly when every guard passes |
| LedgerProperties.RequestLoanEffect | app.py:60-63 | on success the investor's balance drops by exactly the amount and stays at least 0. Exactly one active loan (borrower, investor 1, amount, the old counter) is appended. The counter grows by 1. No user record other than the investor's changes |
| LedgerProperties.PayLoanGuards | app.py:74-83 | refused when the user or loan is missing, the loan belongs to someone else, or it is already paid; succeeds exactly on an active loan of the payer's own |
| LedgerProperties.GrownLimitBounds | app.py:88-91 | the growth never lowers a limit already within the cap, and strictly raises it until it reaches the cap |
| LedgerProperties.PayLoanEffect | app.py:85-94 | on success the loan becomes paid with nothing else about it changed. The payer's successful payments grow by 1, and the credit limit becomes min(old + 15 + 5·new count, 500). The payer's balance, the investor's balance, other users, other loans and the counter are unchanged |
| LedgerProperties.PayLoanTwice | app.py:82-91 | paying the same loan again is refused as already paid and changes nothing, so the counter and limit moved exactly once |
| LedgerProperties.SeedValid | db.py:7-14 | the seed satisfies the ledger invariant |
| LedgerProperties.RequestLoanPreservesValid | app.py:44-63 | request_loan keeps the invariant: balances at least 0, limits in [0, 500], counters at least 0, loan amounts positive, loan ids strictly increasing and below the counter |
| LedgerProperties.PayLoanPreservesValid | app.py:74-92 | pay_loan keeps the same invariant; in particular every credit limit stays at most 500 |
| LedgerProperties.StepPreservesValid | app.py:33-94 | either request keeps the invariant |
| LedgerProperties.StepLoansEvolve | app.py:60-86 | loans are only appended. An existing loan keeps its id, parties and amount. Its status only moves from active to paid |
| LedgerProperties.RequestLoanConservesFunds | app.py:56-63 | a granted loan moves its amount from the investor's balance into the total lent |
| LedgerProperties.PayLoanConservesFunds | app.py:85-92 | a payment leaves the investor's balance and the total lent unchanged |
| LedgerProperties.StepConservesFunds | app.py:56-92 | investor balance plus the total lent is unchanged by either request |
| LedgerProperties.RunInvariants | app.py:33-94 | over any sequence of requests the invariant holds, loans only move forward, and investor balance plus total lent is conserved |
| LedgerProperties.NoOverdrawFromSeed | app.py:56-60 | from the seed, after any sequence of requests, the investor's balance is 5000 minus everything lent and never negative, so at most 5000 is ever lent (in exact arithmetic) |
| LedgerProperties.SeedScenario | test_backend.py:38-106 | from the seed: the borrower logs in with limit 40; a request for 30 is granted as loan 1 and the investor has 4970 left; a request for 50 is refused against limit 40 with no change; paying loan 1 leaves limit 60 and 1 successful payment |
| LedgerProperties.SeedScenarioOnStore | test_backend.py:61-106 | the same scenario, run through the store methods from a fresh seeded store, gives balance 4970, the limit error at 40, limit 60 and 1 payment |

## Left out

- HTTP routing, JSON request and response bodies, status codes and CORS are left out. Results are the `Result` datatype, with one `LedgerError` variant per error response.
- The checks for a missing `user_id`, `amount`, `loan_id` or `email` field are left out, and so is the `float(amount)` parse. Amounts arrive as exact reals; an absent email is modelled only as the empty string. IEEE rounding is not modelled.
- File persistence is left out: `os.path.exists`, `json.load`/`json.dump` and the `data.json` path. The store is the in-memory snapshot. Only the seed path of `_load` is modelled, as the `Store` constructor; loading a previously written file is not.
- The shallow `DUMMY.copy()` in `_load` shares the seed's lists with the module constant. That aliasing is not modelled; the store holds values.
- The seed fields `rate`, `vudy_balance` and `kyc_verified` are never read or written by the handlers, so they are left out. The last two hint at an identity-verification gate and wallet transfers, but no handler in `app.py` implements either, so neither is modelled.
- The `type` field is modelled as investor or borrower only. The source compares it with the string "borrower", so any other string behaves like investor here.
- Concurrency is not modelled. Each handler loads and saves the store several times, and two concurrent requests can both pass the funds check. The model runs each handler as one step over the store.
- `app/__init__.py`, `app/routes.py` and `wsgi.py` only configure and serve the web application and are not part of this model.
- NaN amounts are left out. In the source `float("nan")` is accepted, every comparison with NaN is false, so a NaN amount passes the guards `amount <= 0`, `amount > credit_limit` and `balance < amount`, and the investor's balance becomes NaN. Amounts here are reals, so the model has no such value and its balance and conservation properties hold only for finite amounts.
- Db.FindUserById, Db.FindUserByEmail, Db.FindLoanById: "first match" is stated as "the element at the position `UserIndex`/`EmailIndex`/`LoanIndex` gives". Those functions' own contracts say that position is the first matching one.

## Notes on the source

- `update_loan` never appends: a loan with an unknown id is dropped. The model follows the code here; a contract that also appends would not describe it.
- `request_loan` checks the amount before looking up the user. It checks only the single amount against `credit_limit`, not the sum of the borrower's active loans, and the model keeps that exact check.
- `pay_loan` does not check that the payer is a borrower, and the model does not either.
- `request_loan` reads the investor as whichever record has id 1, whatever its type. If a borrower filed under id 1 requests a loan, that same record is debited. The "borrower record unchanged" property is therefore stated for borrowers other than id 1.
- Paying a loan does not credit the investor back. In the model's exact arithmetic, investor balance plus the total of all loans ever granted is constant, so from the seed at most 5000 is ever lent. The source keeps amounts as doubles, so there this holds only up to floating-point rounding: an amount below half a unit in the last place of the balance (such as 1e-13 against 5000.0) is recorded as a loan while `balance - amount` rounds back to the old balance. It also needs finite amounts and requests handled one at a time (see the IEEE, NaN and concurrency lines under "Left out").
