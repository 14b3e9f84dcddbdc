# An in-memory double-entry ledger, in Dafny

This project models the ledger kernel of `tryout.py`. The kernel has three parts:

- An **Account** has a name, a type, an optional code, a per-asset balance map and an append-only log of the postings applied to it. The five types are ASSET, LIABILITY, EQUITY, INCOME and EXPENSE. A posting changes the balance by the normal-balance sign rule:
  - ASSET and EXPENSE accounts add `debit - credit`;
  - the other three types subtract it.
- A **Journal** is an append-only list of postings `(account, debit, credit, asset, description)`.
- A **Book** registers accounts under unique codes and commits journals. A commit has two passes:
  1. It totals debits and credits per asset and refuses the journal unless the two totals are equal for every asset.
  2. It hands every posting, in order, to its account, then appends the journal to the book's transactions.

`ledger.dfy` (module `Ledger`) holds the model.

- **Entities as classes.** `Account`, `Journal` and `Book` are classes whose methods update fields in place.
- **Pure functions as specifications.** Several pure functions specify those methods:
  - `Post`, the sign rule;
  - `Fold`, a replay of postings over a balance map;
  - `DebitTotal` and `CreditTotal`, with `Balanced` built on them;
  - `Position`, the per-asset difference between debit-normal and credit-normal balances.
- **Ghost state of the book.** The `Book` carries two ghost fields:
  - `history`, the contents of each committed journal at commit time;
  - `opening`, each account's balance right after registration.
- **Book properties.** The book's properties are stated over that ghost state. `Valid` is kept by every operation. Registration keeps `Closed`, and keeps `Replays` when `Closed` also held; it moves each position by the new account's standing. A successful commit keeps `Replays`; when all its postings target registered accounts it also keeps `Closed` and leaves every position unchanged. Every failed commit keeps `Closed`, and a refused unbalanced journal changes no balance, so it keeps all of them:
  - `Valid`: the index is built from the account list, and the codes are unique;
  - `Closed`: every committed posting targets a registered account;
  - `Replays`: every balance is its opening map with the committed postings replayed over it;
  - the accounting equation, as `Standings(a)` staying the same.

`demo.dfy` (module `Scenarios`) restates the deposit walk-through at the end of `tryout.py` with integer amounts. It adds four further scenarios: an unbalanced journal, a commit stopped by a missing asset, registration and lookup by code, and iterating a journal twice.

### Commits are not atomic

The validation pass does not check that each posting's asset is enabled on its account. A posting in a missing asset raises `KeyError` midway through the commit loop:

- the postings before it stay applied;
- the failing posting is already logged on its account;
- the journal is not recorded.

The model keeps this behaviour. `Book.AddJournal` returns `Fail(UnknownAsset(..))`. Its contract (through `Applied` and `Reached`) states exactly which postings reached their accounts. Nothing claims atomicity.

A commit stopped by a missing asset can break the equation and `Replays`, and no contract promises them afterwards. `Replays` breaks once an earlier posting has changed a registered account's balance, since no transaction was recorded. The equation breaks only when the postings applied to registered accounts have a non-zero net in some asset; two cancelling postings keep it. (A commit that fails on its first record only grows one log, so both still hold, although no contract states it.) `Scenarios.MissingAssetStopsCommit` shows the break: afterwards C holds 5 EUR with no committed journal, so the book no longer `Replays()`, and its EUR position is -5.

### Where the model follows the code

- **Liability sign.** A LIABILITY account credited 500 ends at **+500**. The code computes `-= 0 - 500` at `tryout.py:94`, and the model follows the code.
- **Accounting equation.** `add_journal` never checks that a posting's account is registered in the book. A journal may post to an account outside the book; the equation over the registered accounts and `Closed` then need not hold. `Book.AddJournal` therefore promises those two after a successful commit only when every posting of the journal targets a registered account (`AllRegistered`). `Replays` needs no such condition: a posting to an outside account never touches a registered account's balance.

## Model

| member | source | states |
|---|---|---|
| Ledger.TypeCode | tryout.py:57-61 | each type has its integer constant, in 0..4 |
| Ledger.TypeFromCode | tryout.py:57-66 | a code gives a type exactly when it is in 0..4; the type found maps back to the same code |
| Ledger.NewAccount | tryout.py:67-77 | construction fails with `InvalidType(n)` exactly when `n` is outside the five type constants; otherwise a fresh account with the given name, type and code, an empty balance map and an empty log |
| Ledger.Account.constructor | tryout.py:67-77 | name, type and code are stored; balance and log start empty |
| Ledger.Account.EnableCurrency | tryout.py:81-82 | the currency's balance becomes 0 whether or not it was present (an existing balance is reset); the log is unchanged |
| Ledger.Account.ProcessRecord | tryout.py:84-94 | a record for another account fails `ForeignRecord` and changes nothing; otherwise the record is logged first, and the balance becomes `Post(kind, old balance, r)`; a missing asset fails `UnknownAsset` after the log entry |
| Ledger.SignRule | tryout.py:89-94 | ASSET/EXPENSE balances move by `debit - credit`, other types by `credit - debit`; no other asset's balance changes and no key is added |
| Ledger.Fold | tryout.py:84-94 | replaying postings over a balance map keeps its key set (postings never enable an asset) |
| Ledger.FoldStep | tryout.py:87-94 | one more record grows the replay and the log of an account exactly when it targets that account |
| Ledger.FoldUntouched | tryout.py:47-48 | an account no posting targets keeps its balance |
| Ledger.FoldConcat | tryout.py:47-50 | replaying two batches in turn equals replaying their concatenation |
| Ledger.FoldIsSignedSum | tryout.py:89-94 | a replayed balance is its starting value plus the signed sum of the account's postings in that asset |
| Ledger.EnableAll | tryout.py:26-27 | enabling a list of currencies adds exactly those keys, sets each to 0, and keeps every other balance |
| Ledger.Effective | tryout.py:26 | an empty or omitted list means `DEFAULT_CURRENCIES` (`["EUR"]`, tryout.py:9); a non-empty list is used as given; the result is never empty |
| Ledger.EnableCurrencies | tryout.py:26-27 | the loop leaves the account's balance equal to `EnableAll` of its old balance and its log unchanged |
| Ledger.Book.constructor | tryout.py:14-19 | a new book has no accounts, no transactions and an empty index, and satisfies its invariants |
| Ledger.Book.AddAccount | tryout.py:21-30 | a taken code fails `DuplicateCode` and changes neither book nor account; otherwise the currencies (or the default) are enabled, the code maps to the account, it is appended last, and committed journals are untouched; the position in every asset changes by the new account's standing; `Closed` is kept, and `Replays` is kept when `Closed` also held |
| Ledger.Book.Register | tryout.py:29-30 | index and account list grow together by the new account; `Valid` and `Closed` are kept, and `Replays` when `Closed` also held |
| Ledger.Book.NotRegistered | tryout.py:24 | a code that is not indexed belongs to no registered account |
| Ledger.Book.DistinctAccounts | tryout.py:24 | unique codes make the registered accounts pairwise distinct |
| Ledger.IndexOfSound | tryout.py:29 | every indexed code maps to a registered account carrying that code |
| Ledger.IndexOfComplete | tryout.py:29-30 | with unique codes, every registered account is found under its own code |
| Ledger.Book.GetAccount | tryout.py:52-53 | lookup fails `UnknownAccount(code)` exactly when the code is not indexed; otherwise it returns a registered account with that code |
| Ledger.ValidateTotals | tryout.py:36-45 | the two accumulation maps and the comparison loop answer true exactly when, for every asset that appears, the debits sum to the credits |
| Ledger.TotalsStep | tryout.py:39-42 | one more record adds its asset to the seen set and its amounts to that asset's two totals |
| Ledger.TotalsOutside | tryout.py:36-42 | an asset that no record mentions has zero debit, credit and net totals |
| Ledger.NetIsDifference | tryout.py:41-42 | the net debit of an asset is its debit total minus its credit total |
| Ledger.BalancedHasZeroNet | tryout.py:44-45 | a balanced journal has zero net debit in every asset, mentioned or not |
| Ledger.FirstDisabled | tryout.py:47-48 | the index of the first record whose asset is not enabled on its account: every earlier one is enabled, that one is not |
| Ledger.FirstMissing | tryout.py:47-48 | the same index, computed over a snapshot of the balance maps |
| Ledger.FirstMissingIsFirstDisabled | tryout.py:47-48 | over a snapshot of the touched accounts' balances the two indexes agree |
| Ledger.ApplyOne | tryout.py:48 | one `process_record` step extends the replay and the logs of all touched accounts by record `i`, and fails exactly when its asset is missing |
| Ledger.ApplyFrom | tryout.py:47-48 | the commit loop stops right after the first record with a missing asset and returns `UnknownAsset` of it, or `Pass`; the records up to and including that one are applied and logged |
| Ledger.ApplyRecords | tryout.py:47-48 | the commit pass ends with `CommitOutcome` of the records, and leaves every touched account with exactly the reached records replayed and logged |
| Ledger.Book.AddJournal | tryout.py:32-50 | an unbalanced journal fails `Unbalanced` with no account and no transaction changed; a balanced one commits until the first missing asset; on success the journal is appended exactly once and last; the accounts list, index and every untouched account stay as they were; a refused journal keeps every position and `Replays`, and every failure keeps `Closed`; success keeps `Replays`, and when every posting targets a registered account it keeps the per-asset accounting equation (every `Standings(a)`) and `Closed` |
| Ledger.Book.Commit | tryout.py:47-50 | the commit pass on a balanced journal: the outcome is `CommitOutcome`; on success each registered account's balance is its old balance with the journal replayed and the journal joins the transactions; on failure the transactions are unchanged |
| Ledger.Book.CommitPreserves | tryout.py:44-50 | a successful commit of a balanced journal keeps `Replays`; when its postings all target registered accounts it also keeps every position and `Closed` |
| Ledger.Book.Settled | tryout.py:47-50 | with the journal joined to the history, the positions equal those before it, and covering and replay carry over to the longer history |
| Ledger.PositionIsSideDifference | tryout.py:89-94 | the position is the debit-normal side's sum minus the credit-normal side's sum |
| Ledger.PositionUpdate | tryout.py:89-94 | replacing one account's balance changes the position by the change of its standing |
| Ledger.FoldedPosition | tryout.py:47-48 | applying postings to listed accounts in enabled assets moves each position by the journal's net debit in that asset |
| Ledger.CommitPosition | tryout.py:44-48 | a balanced journal so applied leaves every position unchanged (the accounting equation is kept) |
| Ledger.Book.EquationIsZeroStanding | tryout.py:89-94 | the accounting equation holds exactly when the position is zero in every asset |
| Ledger.Book.ReplayBalance | tryout.py:47-50 | each registered balance is its opening value plus the signed sum of all committed postings to it, in order |
| Ledger.ReplayedRegister | tryout.py:29-30 | registering an account that no committed posting targets keeps the replay |
| Ledger.CoversGrow | tryout.py:30 | registering more accounts keeps every committed posting on a registered account |
| Ledger.ReplayedCommit | tryout.py:47-50 | committing one more journal keeps the replay over the longer history |
| Ledger.Journal.constructor | tryout.py:107-108 | a new journal is empty |
| Ledger.Journal.AddRecord | tryout.py:110-114 | exactly one posting is appended, unvalidated |
| Ledger.Journal.Iterate | tryout.py:115-116 | iteration yields the postings in insertion order |
| Scenarios.Open | tryout.py:136-139 | creating and registering an account under a free code adds it last, with exactly the enabled currencies at 0 |
| Scenarios.UserAndBank | tryout.py:135-139 | A (liability, EUR and BTC) and B (asset, default EUR) are registered, with zero balances and empty logs |
| Scenarios.JournalOf | tryout.py:141-143 | a journal built by repeated `add_record` holds exactly the given postings |
| Scenarios.DepositPostings | tryout.py:140-144 | the deposit journal balances, and replaying it gives A `EUR 500` (the credited liability ends positive) and B `EUR 500` |
| Scenarios.DepositReachesEnd | tryout.py:144 | both deposit postings find their asset, so the commit pass runs to the end |
| Scenarios.Deposit | tryout.py:135-144 | the deposit commits: A and B both hold 500 EUR and the book has one transaction |
| Scenarios.ShortCredit | tryout.py:44-45 | 500 EUR of debits against 400 EUR of credits does not balance |
| Scenarios.UnbalancedRefused | tryout.py:36-45 | that journal is refused `Unbalanced` and no balance or transaction changes |
| Scenarios.UserAndWallet | tryout.py:155-158 | C (liability, EUR and BTC) and D (asset, BTC only) are registered with zero balances |
| Scenarios.StrandedPostings | tryout.py:87-91 | crediting C 5 EUR and debiting D 5 EUR balances; C's replay ends at 5 EUR, D's balance stays as it was, and D still logs the posting |
| Scenarios.Unreplayed | tryout.py:47-50 | an account whose balance moved away from its opening value while nothing was committed breaks `Replays` |
| Scenarios.TwoAccountStanding | tryout.py:89-94 | a liability holding 5 EUR beside an asset without EUR gives the book an EUR position of -5 |
| Scenarios.StrandedStopsAtDebit | tryout.py:47-48 | the commit pass of that journal stops at D's posting with `UnknownAsset("EUR")`, after both postings were handed over |
| Scenarios.MissingAssetStopsCommit | tryout.py:47-50 | the commit fails half-way: C keeps the applied 5 EUR, D logged the posting without a balance change, and no transaction is recorded; the book then no longer replays its history and its EUR position is -5 |
| Scenarios.Lookup | tryout.py:52-53 | a registered code is found, an unknown one fails, a taken code is refused, and an out-of-range type fails |
| Scenarios.IterateTwice | tryout.py:160-162 | iterating a journal twice gives the same postings in insertion order |

## Left out

- `book2balance` (tryout.py:118-123) and `Account.__str__` (tryout.py:96-98) are not modelled. They only format and print.
- The exchange scenario with fees (tryout.py:166-197) is not modelled. It builds amounts from binary floats (`D(320.85)`, `FEE = D(0.006)`) and multiplies them under the decimal context's rounding.
- The demo walk-through is not reproduced as one continuous script. Each scenario starts a fresh book. The BTC deposit of tryout.py:155-163 appears only as the postings of `Scenarios.IterateTwice`.
- Amounts are `int`s of one fixed scale, and their sums are exact. tryout.py uses `Decimal`, whose `+` and `-` round to the decimal context's precision (28 significant digits by default). The model assumes every amount, running total and balance fits within that precision. Beyond it, the totals at tryout.py:41-45 and the balances at tryout.py:91 and :94 are rounded, so the program can accept a journal that `Balanced` refuses.
- Every `assert` and `KeyError` of tryout.py becomes a returned error value (`Outcome` or `Result`), never an exception:
  - a wrong type code;
  - a duplicate code;
  - a foreign record;
  - an unbalanced journal;
  - a missing asset;
  - an unknown lookup.
- Every check except the two `KeyError`s is an `assert` (tryout.py:24, 45, 73, 86) and disappears when Python runs with `-O`. The model assumes the asserts run.
- A posting is stored as the `Record` datatype, and an account logs the `Record` itself. tryout.py logs the pair `(record[0], record)`, whose first half is the account itself.
- `currencies=None` and `currencies=[]` both mean the default list in tryout.py (`currencies or DEFAULT_CURRENCIES`). The model has one parameter, where an empty sequence stands for both.
- Descriptions are carried as opaque strings. No property is stated about them.
- `Book.transactions` holds journal references, as the program's list does. A caller can still append to a committed journal. The ghost `history` keeps what each journal held when it was committed, and the replay properties speak about that history.
- `Book.AddJournal` promises the accounting equation and `Closed` after a successful commit only when every posting targets a registered account. tryout.py does not check this, so a posting to an unregistered account can break the equation over the registered accounts, and leaves a committed posting on an account outside the book.
- `Book.AddJournal` reads the journal's records directly rather than through `__iter__`. `Journal.Iterate` models `__iter__` and returns the same sequence.
- Concurrency is not modelled, and the program has none.
