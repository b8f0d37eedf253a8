# Marketplace ledger: a Dafny model

This project models the core of a small freelance-marketplace HTTP service
(`src/app.js`). The data is profiles (clients and contractors with a balance),
contracts between a client and a contractor, and jobs billed under a contract.
The model covers five handlers:

- **Pay a job** (`POST /jobs/:job_id/pay`). If the caller's balance covers the
  job's price and the job is not paid yet, the price moves from the caller to
  the contractor of the job's contract. The job is then marked paid, with the
  payment date. Otherwise nothing changes. Either way the handler answers with
  the job as it now stands.
- **Deposit** (`POST /balances/deposit/:userId`). An amount moves from the
  caller to `userId`. The amount may be at most 20% of a referenced job's price
  and at most the caller's balance.
- **Unpaid jobs** (`GET /jobs/unpaid`). The jobs whose `paid` column is null,
  under contracts that are not terminated, listed in contract order.
- **Best profession** (`GET /admin/best-profession`). Prices of jobs paid within
  a date range, under terminated contracts, summed by the contractor's
  profession, and then one profession picked.
- **Best clients** (`GET /admin/best-clients`). One paid amount per client over
  terminated contracts with jobs in the range. The list is sorted by paid
  amount, highest first, and cut to two entries.

Layout:

- `entities.dfy` (module `Entities`): the records and the small shared predicates.
- `ledger.dfy` (module `Ledger`): the store, plus the two handlers that change it.
  Each handler is a pure transition on a `Store` value (`Settle`, `DepositStep`).
  The transition's contract and the lemmas beside it state what the handler
  promises. The class `Marketplace` holds the three tables as maps. Its methods
  `Pay` and `Deposit` make the same updates step by step: decrement, look up the
  contract, increment, update the job. Each method is proved to reach the
  transition's state and reply.
- `unpaid_jobs.dfy` (module `UnpaidJobs`), `best_profession.dfy` (module
  `BestProfession`), `best_clients.dfy` (module `BestClients`): the read-only
  queries. Each takes the tables as sequences of rows, in the order the
  database returns them. The database join is a filter over those rows, taken
  in profile order, then contract order, then job order. The inclusive
  `between` is `start <= paymentDate <= end` on integer timestamps.
  The in-place reducer that builds the per-profession totals is a method with
  a loop (`TotalsByProfession`). The `flatMap`, `map`, `sort` and `slice`
  steps are functions.

Modelling choices:

- Balances and prices are integers. The cap `amount <= job.price * 20 / 100`
  is written `5 * amount <= job.price`, which is the same test on exact numbers.
- `paid` is a nullable column, `Option<bool>`. The pay guard's `!job.paid` is
  JavaScript truthiness, so only a stored `true` counts as paid. The unpaid
  filter `paid: null` matches only the null value.
- The clock (`new Date()`) is the parameter `now`.
- A record the handler reads on `null` becomes `Err(NotFound)`. In the source
  that read throws, and the request fails before any update. The deposit
  handler reads `job.price` first. It reads `client.balance` only when the cap
  test passed, because `&&` short-circuits. So a missing caller is only an
  error once the cap is met, and the model keeps that order.
- The pay and deposit handlers require `WellFormed`. This means every row is
  stored under its own id, and every contract of a job and every client and
  contractor of a contract exists (the schema's foreign keys). So the contract
  lookup at line 70 of `src/app.js` always finds a row.
- In four places the handlers do something a marketplace would not be
  expected to do. In each the model follows the code, and each has a row
  under "Findings":
  - best-profession returns the last entry, not the maximum;
  - best-clients counts only the first contract;
  - deposit accepts amounts `<= 0`;
  - deposit to an id with no profile debits the caller and credits nobody.
- The pay handler does not check that the caller is the job's client, nor
  that the job's contract is still open (line 63). Any profile can pay any
  unpaid job from its own balance. This is not listed as a finding: the money
  still goes to the contract's contractor, the total is kept
  (`SettleConservesTotal`) and a job is settled once (`PaidJobIsFinal`).
  Nothing in the code shows an intended rule to restore.
- The unpaid-jobs handler does not filter by the caller either (lines
  29-43). It lists the unpaid jobs of every profile's open contracts, so
  `UnpaidJobs` takes no caller.

## Model

| member | source | states |
|---|---|---|
| `Ledger.Settle` | src/app.js:49-91 | Missing caller or job: `NotFound`, nothing changes. Guard `balance >= price && !paid` false: no profile, contract or job changes, and the reply is the job as stored. Guard true: the price moves from the caller to the contractor of the job's contract, and no other profile changes. Only that job changes: `paid = true`, `paymentDate = now`. The reply is the updated job. The store stays well formed. |
| `Ledger.SettleConservesTotal` | src/app.js:65-79 | The sum of all balances after a pay request equals the sum before it, whatever the outcome. |
| `Ledger.AdjustTotal` | src/app.js:76-79 | An increment by `delta` changes the sum of all balances by `delta` when the id has a row, and by nothing when it has none. |
| `Ledger.TransferredTotal` | src/app.js:65-79 | A debit of one profile plus an equal credit of another keeps the total balance. A credit to an id with no row loses the amount. |
| `Ledger.SettleKeepsSolvent` | src/app.js:63-79 | When no balance and no price is negative, no balance becomes negative after a payment. |
| `Ledger.SettleKeepsPaidJobsDated` | src/app.js:81-83 | A payment keeps the rule that a job has a payment date exactly when it is paid: `paid` and `paymentDate` are only ever written together. |
| `Ledger.SettleOnce` | src/app.js:63-83 | After a successful payment, paying the same job again (any caller, any time) leaves the store unchanged. |
| `Ledger.Replay` | src/app.js:49-91 | Serving pay requests one after another keeps the store well formed. |
| `Ledger.PaidJobIsFinal` | src/app.js:63-83 | Once a job is paid, no series of pay requests changes its row again. So at most one settlement happens per job. |
| `Ledger.ReplayConservesTotal` | src/app.js:65-79 | Any series of pay requests keeps the sum of all balances. |
| `Ledger.Marketplace.Pay` | src/app.js:49-91 | The step-by-step handler ends in the state of `Settle` and gives its reply, and the tables stay well formed. |
| `Ledger.DepositStep` | src/app.js:93-129 | `Deposited` exactly when the job and caller exist, `5 * amount <= price` and `amount <= balance`. Then `amount` moves from the caller to `userId`, nothing else changes, and jobs and contracts are untouched. In every other case nothing changes. `NotFound` exactly when the job is missing, or the cap passes and the caller is missing. The reply is never anything but `Deposited`, `NotAllowed` or `NotFound`. |
| `Ledger.DepositConservesTotal` | src/app.js:113-123 | A deposit to an existing profile keeps the sum of all balances. |
| `Ledger.DepositRemovesMoneyForUnknownRecipient` | src/app.js:115-123 | An accepted deposit to an id with no profile lowers the sum of all balances by the amount. |
| `Ledger.NegativeDepositDrainsRecipient` | src/app.js:111-123 | A deposit of -30 is accepted: the recipient goes from 100 to 70 and the caller from 0 to 30. |
| `Ledger.DepositToUnknownProfileLosesMoney` | src/app.js:115-123 | A deposit of 10 to user 99, who does not exist, is accepted: the caller loses 10 and nobody gains it. |
| `Ledger.DepositCorrected` | src/app.js:93-129 | The corrected deposit refuses an amount `<= 0` and an unknown recipient. Otherwise it acts as the handler. No profile other than the caller ever loses balance, and balances stay non-negative. |
| `Ledger.DepositCorrectedConservesTotal` | src/app.js:113-123 | The corrected deposit always keeps the sum of all balances. |
| `Ledger.Marketplace.Deposit` | src/app.js:93-129 | The step-by-step handler ends in the state of `DepositStep` and gives its reply, and the tables stay well formed. |
| `UnpaidJobs.UnpaidJobsOf` | src/app.js:35-42 | A job is among a contract's joined jobs iff it is in the jobs table, belongs to that contract and has a null `paid`. |
| `UnpaidJobs.UnpaidJobsMembership` | src/app.js:29-45 | A job is in the flattened result iff it is in the table, its `paid` is null, and some contract that is not terminated has its `ContractId`. |
| `UnpaidJobs.UnpaidJobsCount` | src/app.js:29-45 | With distinct contract ids, each qualifying job occurs in the result as often as in the jobs table, and any other job does not occur. |
| `BestProfession.JobRows` | src/app.js:145-152 | The rows for one contractor and contract are exactly the jobs of that terminated contract paid within the range. |
| `BestProfession.ContractRowsMembership` | src/app.js:138-153 | The rows for one contractor are exactly its terminated contracts joined with their jobs paid within the range. |
| `BestProfession.ContractorRowsMembership` | src/app.js:135-155 | A row is in the query result iff it comes from a profile that is the contractor of a terminated contract, and a job of that contract paid within the range. |
| `BestProfession.ProfessionOrder` | src/app.js:157-164 | The key order of the totals object holds each profession of the rows exactly once and nothing else. It is empty iff there are no rows. |
| `BestProfession.ProfessionOrderFirstAppearance` | src/app.js:157-164 | The keys come in order of first appearance: for every two keys, some row of the earlier key comes before every row of the later one. |
| `BestProfession.TotalsByProfession` | src/app.js:157-164 | The in-place reducer gives keys in first-appearance order. Its key set is exactly the professions in the rows. Each value is the sum of the prices of that profession's rows. This holds despite the truthiness test on a running total of 0. |
| `BestProfession.ReduceAsWrittenIsLast` | src/app.js:168-173 | The reducer as written yields the last element, whatever the values. |
| `BestProfession.PickAsWrittenIsLast` | src/app.js:168-174 | As written, the pick is the key of the last entry, or nothing when there are no entries. |
| `BestProfession.PickAsWrittenMissesMaximum` | src/app.js:168-173 | For totals Programmer 200 then Musician 50, the pick as written is Musician. The maximum is Programmer. |
| `BestProfession.ReduceHighest` | src/app.js:168-173 | The corrected reducer returns one of its inputs, and no input has a larger value. |
| `BestProfession.PickHighest` | src/app.js:168-174 | The corrected pick is empty iff there are no entries. Otherwise its key belongs to an entry whose value no entry exceeds. |
| `BestProfession.BestProfessionAsWritten` | src/app.js:131-175 | The handler as written answers no profession iff no job qualifies. Otherwise it answers the last profession in first-appearance order. |
| `BestProfession.BestProfessionCorrected` | src/app.js:131-175 | The corrected handler answers no profession iff no job qualifies. Otherwise it answers a profession of the rows whose total no other profession exceeds. |
| `BestClients.JobsPaidWithin` | src/app.js:190-197 | A job is among a contract's joined jobs iff it belongs to that contract and was paid within the range. |
| `BestClients.ClientContracts` | src/app.js:184-198 | The contracts kept for a client are exactly its terminated contracts that have a job paid in the range. Each is paired with exactly those jobs, so every kept pair has at least one job. |
| `BestClients.ClientRows` | src/app.js:181-200 | The result holds each profile that has at least one terminated contract with a job paid in the range, with those contracts, and no other profile. |
| `BestClients.ClientRowsComplete` | src/app.js:181-200 | Every profile that has a terminated contract as client with a job paid in the range is a row of the join, carrying that contract and its jobs. So it is a candidate for the top two. |
| `BestClients.FirstClientContract` | src/app.js:203 | `Client[0]` is the earliest contract in table order that is a terminated contract of the client and has a job paid within the range, together with those jobs. |
| `BestClients.SortByPaidSpec` | src/app.js:214 | The sort gives a list in non-increasing order of `paid`, and a permutation of its input. |
| `BestClients.SortByPaidStable` | src/app.js:214 | The sort is stable: for every amount, the entries paying that amount keep their input order. |
| `BestClients.TopTwoSpec` | src/app.js:214 | `sort(...).slice(0, 2)` keeps `min(2, n)` entries, sorted and taken from the input. No entry left out pays more than any entry kept. |
| `BestClients.BestClientsRanking` | src/app.js:186-214 | The answer has at most two entries: the first `min(2, n)` summaries by paid amount, highest first. No summary left out pays more. |
| `BestClients.BestClientsEntries` | src/app.js:202-212 | Each entry of the answer belongs to a profile that has a listed contract. Its `id` is the profile's, `fullName` is `firstName + " " + lastName`, and `paid` is the sum of the prices of the joined jobs of the first such contract. |
| `BestClients.ContractsTotalIsClientTotal` | src/app.js:203-206 | The sum over all of a client's listed contracts equals the sum over every terminated contract of theirs of the jobs paid within the range. |
| `BestClients.BestClientsCorrectedEntries` | src/app.js:202-214 | In the corrected answer, each entry's `paid` is the client's whole total over all terminated contracts within the range. |
| `BestClients.FirstContractOnlyUndercounts` | src/app.js:203-206 | A client with two terminated contracts, with jobs of 10 and 20 in the range: the answer as written shows 10, the corrected answer 30. |

## Left out

- Express routing, body parsing, HTTP status codes and JSON response text
  (src/app.js:1-10, 16-17, 89-90, 125-127) are plumbing. The replies are
  `Result` values and a `Deposited`/`NotAllowed` tag.
- The profile middleware and the ORM setup are foreign code. The caller's id
  is a parameter, and a request without a resolvable profile is not modelled.
- `GET /contracts/:id` and `GET /contracts` (src/app.js:12-25) are plain
  lookups with no rule to prove, so they are not part of this model.
- Concurrency: the handlers run without a transaction, and two requests can
  interleave between the balance check and the updates. Each handler is
  modelled as one atomic step, so the race is not captured.
- Floating-point balances and prices are integers here, so rounding is not
  modelled.
- The store's row order for queries without `ORDER BY` is not specified. The
  model fixes profile, then contract, then job order. The professions' key
  order, and so the as-written best profession, follow from that choice.
- JavaScript object quirks are not modelled. These are profession names that
  look like array indices (listed first by `Object.entries`) and names of
  inherited properties such as `constructor`.
- The `!contracts` test (line 44), the `!professions` test (line 167) and the
  `!jobUpdated` test after a job was found (line 89) can never fire, so they
  are not modelled.
- With no qualifying rows, `Object.entries({}).reduce` at line 168 has no
  initial value and throws, so the request fails. The model answers `None`
  for that case, as an explicit result in place of the crash.
- Seed data that breaks the foreign keys is excluded by `WellFormed`. In the
  source such data could make the pay handler throw after the debit, at
  line 78.

## Findings

| source | as written | input that shows it | evidently intended | confidence | as-written member | corrected member |
|---|---|---|---|---|---|---|
| src/app.js:168-173 | the reducer assigns `acc = cur` to a local and always returns `cur`, so the answer is the last profession | totals Programmer 200, then Musician 50: the answer is Musician | the profession with the highest total | high (not executed) | `BestProfession.PickAsWrittenMissesMaximum` | `BestProfession.BestProfessionCorrected` |
| src/app.js:203 | `Client[0].Jobs` sums only the first terminated contract of each client | one client with two terminated contracts and jobs of 10 and 20 in range: paid is 10 | the sum over all the client's terminated contracts, 30 | high (not executed) | `BestClients.FirstContractOnlyUndercounts` | `BestClients.BestClientsCorrectedEntries` |
| src/app.js:113 | a negative `amount` passes both comparisons, and the transfer then runs backwards | amount -30, caller balance 0, recipient balance 100: the recipient drops to 70 | refuse an amount `<= 0` | high (not executed) | `Ledger.NegativeDepositDrainsRecipient` | `Ledger.DepositCorrected` |
| src/app.js:120-123 | the increment of an unknown `userId` matches no row after the caller was debited | deposit of 10 to user 99, who does not exist: the caller loses 10 and nobody gains it | refuse an unknown recipient | high (not executed) | `Ledger.DepositToUnknownProfileLosesMoney` | `Ledger.DepositCorrected` |
