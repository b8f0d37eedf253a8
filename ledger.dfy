/**
 * The two handlers that change the store: paying a job (the client's balance
 * moves to the contractor of the job's contract and the job is marked paid)
 * and depositing part of a balance into another profile, capped at a fifth of
 * a referenced job's price.
 *
 * Each handler is a pure transition on a `Store` value (`Settle`,
 * `DepositStep`) whose contract and lemmas state what the handler promises,
 * and a method of the `Marketplace` class that performs the same updates
 * step by step on the class's tables and is proved to reach that transition's
 * state.
 */
module Ledger {
  import opened Entities

  /** The three tables, keyed by id. */
  datatype Store = Store(
    profiles: map<ProfileId, Profile>,
    contracts: map<ContractId, Contract>,
    jobs: map<JobId, Job>)

  /** A new store and what the handler answers. */
  datatype Transition<T> = Transition(next: Store, reply: Result<T>)

  datatype DepositReply = Deposited | NotAllowed

  /** Every row sits under its own id and every foreign key resolves. */
  ghost predicate WellFormed(s: Store) {
    && (forall id :: id in s.profiles ==> s.profiles[id].id == id)
    && (forall id :: id in s.contracts ==>
          && s.contracts[id].id == id
          && s.contracts[id].clientId in s.profiles
          && s.contracts[id].contractorId in s.profiles)
    && (forall id :: id in s.jobs ==> s.jobs[id].id == id && s.jobs[id].contractId in s.contracts)
  }

  ghost predicate Solvent(profiles: map<ProfileId, Profile>) {
    forall id :: id in profiles ==> profiles[id].balance >= 0
  }

  ghost predicate PricesNonNegative(jobs: map<JobId, Job>) {
    forall id :: id in jobs ==> jobs[id].price >= 0
  }

  /** A job carries a payment date exactly when it is paid. */
  ghost predicate PaidJobsDated(jobs: map<JobId, Job>) {
    forall id :: id in jobs ==> (IsPaid(jobs[id]) <==> jobs[id].paymentDate.Some?)
  }

  /** Sum of the balances of the profiles `ids`. */
  ghost function SumBalances(profiles: map<ProfileId, Profile>, ids: set<ProfileId>): int
    requires ids <= profiles.Keys
    decreases ids
  {
    if forall id :: id !in ids then 0
    else
      var id :| id in ids;
      profiles[id].balance + SumBalances(profiles, ids - {id})
  }

  /** Sum of all balances. */
  ghost function TotalBalance(profiles: map<ProfileId, Profile>): int {
    SumBalances(profiles, profiles.Keys)
  }

  lemma {:induction false} SumBalancesRemove(profiles: map<ProfileId, Profile>, ids: set<ProfileId>, id: ProfileId)
    requires ids <= profiles.Keys && id in ids
    ensures SumBalances(profiles, ids) == profiles[id].balance + SumBalances(profiles, ids - {id})
    decreases ids
  {
    var x :| x in ids && SumBalances(profiles, ids) == profiles[x].balance + SumBalances(profiles, ids - {x});
    if x != id {
      SumBalancesRemove(profiles, ids - {x}, id);
      SumBalancesRemove(profiles, ids - {id}, x);
      assert ids - {x} - {id} == ids - {id} - {x};
    }
  }

  /** The sum reads only the balances of `ids`. */
  lemma {:induction false} SumBalancesFrame(p: map<ProfileId, Profile>, q: map<ProfileId, Profile>, ids: set<ProfileId>)
    requires ids <= p.Keys && ids <= q.Keys
    requires forall id :: id in ids ==> p[id].balance == q[id].balance
    ensures SumBalances(p, ids) == SumBalances(q, ids)
    decreases ids
  {
    if exists id :: id in ids {
      var x :| x in ids && SumBalances(p, ids) == p[x].balance + SumBalances(p, ids - {x});
      SumBalancesRemove(q, ids, x);
      SumBalancesFrame(p, q, ids - {x});
    }
  }

  /**
   * `Profile.increment('balance', {by: delta, where: {id}})`; `decrement` is a
   * negative `delta`.  A key with no row updates nothing.
   */
  function Adjust(profiles: map<ProfileId, Profile>, id: ProfileId, delta: int): (r: map<ProfileId, Profile>)
    ensures r.Keys == profiles.Keys
    ensures id in profiles ==> r[id] == profiles[id].(balance := profiles[id].balance + delta)
    ensures forall other :: other in profiles && other != id ==> r[other] == profiles[other]
  {
    if id in profiles then profiles[id := profiles[id].(balance := profiles[id].balance + delta)] else profiles
  }

  lemma AdjustTotal(profiles: map<ProfileId, Profile>, id: ProfileId, delta: int)
    ensures TotalBalance(Adjust(profiles, id, delta)) == TotalBalance(profiles) + (if id in profiles then delta else 0)
  {
    if id in profiles {
      var after := Adjust(profiles, id, delta);
      SumBalancesRemove(after, after.Keys, id);
      SumBalancesRemove(profiles, profiles.Keys, id);
      SumBalancesFrame(after, profiles, profiles.Keys - {id});
    }
  }

  /**
   * `after` is `before` with `amount` taken from `from` and given to `to`:
   * only the two balances change, and a `to` with no row receives nothing.
   */
  ghost predicate Transferred(
    before: map<ProfileId, Profile>, after: map<ProfileId, Profile>,
    from: ProfileId, to: ProfileId, amount: int)
  {
    && from in before
    && after.Keys == before.Keys
    && after[from] == before[from].(balance := before[from].balance - (if to == from then 0 else amount))
    && (to in before && to != from ==> after[to] == before[to].(balance := before[to].balance + amount))
    && (forall id :: id in before && id != from && id != to ==> after[id] == before[id])
  }

  /** A debit followed by a credit is a transfer. */
  lemma DebitCreditTransfers(profiles: map<ProfileId, Profile>, from: ProfileId, to: ProfileId, amount: int)
    requires from in profiles
    ensures Transferred(profiles, Adjust(Adjust(profiles, from, -amount), to, amount), from, to, amount)
  {
  }

  /** A transfer moves money between rows; only a missing recipient loses it. */
  lemma TransferredTotal(
    before: map<ProfileId, Profile>, after: map<ProfileId, Profile>,
    from: ProfileId, to: ProfileId, amount: int)
    requires Transferred(before, after, from, to, amount)
    ensures TotalBalance(after) == TotalBalance(before) - (if to in before then 0 else amount)
  {
    var debited := Adjust(before, from, -amount);
    var credited := Adjust(debited, to, amount);
    forall id | id in after
      ensures after[id] == credited[id]
    {
      if id == from {
      } else if id == to {
      } else {
      }
    }
    assert after.Keys == credited.Keys;
    assert after == credited;
    AdjustTotal(before, from, -amount);
    AdjustTotal(debited, to, amount);
  }

  /** The update of lines 81-83: the one job becomes paid on `now`. */
  ghost predicate MarkedPaid(before: map<JobId, Job>, after: map<JobId, Job>, jobId: JobId, now: Timestamp) {
    && jobId in before
    && after.Keys == before.Keys
    && after[jobId] == before[jobId].(paid := Some(true), paymentDate := Some(now))
    && (forall id :: id in before && id != jobId ==> after[id] == before[id])
  }

  /** The guard of line 63. */
  predicate CanPay(s: Store, callerId: ProfileId, jobId: JobId)
    requires callerId in s.profiles && jobId in s.jobs
  {
    s.profiles[callerId].balance >= s.jobs[jobId].price && !IsPaid(s.jobs[jobId])
  }

  /** Changing balances and one job's payment fields keeps every key and reference. */
  lemma PaymentKeepsWellFormed(s: Store, profiles: map<ProfileId, Profile>, jobs: map<JobId, Job>, jobId: JobId)
    requires WellFormed(s) && jobId in s.jobs
    requires profiles.Keys == s.profiles.Keys
    requires forall id :: id in profiles ==> profiles[id].id == s.profiles[id].id
    requires jobs.Keys == s.jobs.Keys
    requires forall id :: id in jobs ==> jobs[id].id == s.jobs[id].id && jobs[id].contractId == s.jobs[id].contractId
    ensures WellFormed(Store(profiles, s.contracts, jobs))
  {
  }

  /** `POST /jobs/:job_id/pay` as one atomic step. */
  function Settle(s: Store, callerId: ProfileId, jobId: JobId, now: Timestamp): (t: Transition<Job>)
    requires WellFormed(s)
    ensures WellFormed(t.next)
    ensures t.next.contracts == s.contracts
    ensures callerId !in s.profiles || jobId !in s.jobs ==> t == Transition(s, Err(NotFound))
    ensures callerId in s.profiles && jobId in s.jobs && !CanPay(s, callerId, jobId) ==>
              t == Transition(s, Ok(s.jobs[jobId]))
    ensures callerId in s.profiles && jobId in s.jobs && CanPay(s, callerId, jobId) ==>
              var job := s.jobs[jobId];
              && Transferred(s.profiles, t.next.profiles, callerId, s.contracts[job.contractId].contractorId, job.price)
              && MarkedPaid(s.jobs, t.next.jobs, jobId, now)
              && t.reply == Ok(t.next.jobs[jobId])
              && IsPaid(t.next.jobs[jobId])
  {
    if callerId !in s.profiles || jobId !in s.jobs then
      Transition(s, Err(NotFound))
    else if CanPay(s, callerId, jobId) then
      var job := s.jobs[jobId];
      var debited := Adjust(s.profiles, callerId, -job.price);
      var contractor := s.contracts[job.contractId].contractorId;
      var credited := Adjust(debited, contractor, job.price);
      var jobs := s.jobs[jobId := job.(paid := Some(true), paymentDate := Some(now))];
      DebitCreditTransfers(s.profiles, callerId, contractor, job.price);
      PaymentKeepsWellFormed(s, credited, jobs, jobId);
      Transition(Store(credited, s.contracts, jobs), Ok(jobs[jobId]))
    else
      Transition(s, Ok(s.jobs[jobId]))
  }

  /** Whatever the outcome, a payment leaves the total of all balances as it was. */
  lemma SettleConservesTotal(s: Store, callerId: ProfileId, jobId: JobId, now: Timestamp)
    requires WellFormed(s)
    ensures TotalBalance(Settle(s, callerId, jobId, now).next.profiles) == TotalBalance(s.profiles)
  {
    if callerId in s.profiles && jobId in s.jobs && CanPay(s, callerId, jobId) {
      var job := s.jobs[jobId];
      TransferredTotal(s.profiles, Settle(s, callerId, jobId, now).next.profiles,
                       callerId, s.contracts[job.contractId].contractorId, job.price);
    }
  }

  /** With non-negative prices a payment never leaves a balance below zero. */
  lemma SettleKeepsSolvent(s: Store, callerId: ProfileId, jobId: JobId, now: Timestamp)
    requires WellFormed(s)
    requires Solvent(s.profiles) && PricesNonNegative(s.jobs)
    ensures Solvent(Settle(s, callerId, jobId, now).next.profiles)
    ensures PricesNonNegative(Settle(s, callerId, jobId, now).next.jobs)
  {
    var t := Settle(s, callerId, jobId, now);
    if callerId in s.profiles && jobId in s.jobs && CanPay(s, callerId, jobId) {
      var job := s.jobs[jobId];
      var contractor := s.contracts[job.contractId].contractorId;
      forall id | id in t.next.profiles
        ensures t.next.profiles[id].balance >= 0
      {
        if id == callerId {
          assert s.profiles[callerId].balance >= job.price;
        } else if id == contractor {
          assert s.profiles[id].balance >= 0;
        }
      }
    }
  }

  /** A payment keeps "a job has a payment date exactly when it is paid". */
  lemma SettleKeepsPaidJobsDated(s: Store, callerId: ProfileId, jobId: JobId, now: Timestamp)
    requires WellFormed(s)
    requires PaidJobsDated(s.jobs)
    ensures PaidJobsDated(Settle(s, callerId, jobId, now).next.jobs)
  {
    var t := Settle(s, callerId, jobId, now);
    forall id | id in t.next.jobs
      ensures IsPaid(t.next.jobs[id]) <==> t.next.jobs[id].paymentDate.Some?
    {
      if id != jobId {
        assert t.next.jobs[id] == s.jobs[id];
      }
    }
  }

  /** Paying a job a second time, by anyone and at any time, changes nothing. */
  lemma SettleOnce(s: Store, callerId: ProfileId, jobId: JobId, now: Timestamp,
                   laterCaller: ProfileId, later: Timestamp)
    requires WellFormed(s)
    requires callerId in s.profiles && jobId in s.jobs && CanPay(s, callerId, jobId)
    ensures var paid := Settle(s, callerId, jobId, now).next;
            Settle(paid, laterCaller, jobId, later).next == paid
  {
  }

  datatype PayRequest = PayRequest(callerId: ProfileId, jobId: JobId, now: Timestamp)

  /** The store after serving a series of pay requests one at a time. */
  function Replay(s: Store, requests: seq<PayRequest>): (t: Store)
    requires WellFormed(s)
    ensures WellFormed(t)
    decreases |requests|
  {
    if requests == [] then s
    else
      var r := requests[0];
      Replay(Settle(s, r.callerId, r.jobId, r.now).next, requests[1..])
  }

  /** Once paid, a job is never settled again: its row is final. */
  lemma {:induction false} PaidJobIsFinal(s: Store, requests: seq<PayRequest>, jobId: JobId)
    requires WellFormed(s)
    requires jobId in s.jobs && IsPaid(s.jobs[jobId])
    ensures jobId in Replay(s, requests).jobs
    ensures Replay(s, requests).jobs[jobId] == s.jobs[jobId]
    decreases |requests|
  {
    if requests != [] {
      var r := requests[0];
      var s' := Settle(s, r.callerId, r.jobId, r.now).next;
      PaidJobIsFinal(s', requests[1..], jobId);
    }
  }

  /** Every pay request keeps the total of all balances. */
  lemma {:induction false} ReplayConservesTotal(s: Store, requests: seq<PayRequest>)
    requires WellFormed(s)
    ensures TotalBalance(Replay(s, requests).profiles) == TotalBalance(s.profiles)
    decreases |requests|
  {
    if requests != [] {
      var r := requests[0];
      SettleConservesTotal(s, r.callerId, r.jobId, r.now);
      ReplayConservesTotal(Settle(s, r.callerId, r.jobId, r.now).next, requests[1..]);
    }
  }

  /** The guard of line 113, with `amount <= price * 20 / 100` written `5 * amount <= price`. */
  predicate DepositAllowed(s: Store, callerId: ProfileId, amount: int, jobId: JobId) {
    && jobId in s.jobs
    && callerId in s.profiles
    && 5 * amount <= s.jobs[jobId].price
    && amount <= s.profiles[callerId].balance
  }

  /**
   * `POST /balances/deposit/:userId` as one atomic step.  The handler reads
   * `job.price` first and `client.balance` only when the cap is met, so a
   * missing job always fails and a missing caller fails only past the cap.
   */
  function DepositStep(s: Store, callerId: ProfileId, userId: ProfileId, amount: int, jobId: JobId)
    : (t: Transition<DepositReply>)
    requires WellFormed(s)
    ensures WellFormed(t.next)
    ensures t.next.contracts == s.contracts && t.next.jobs == s.jobs
    ensures t.reply == Ok(Deposited) <==> DepositAllowed(s, callerId, amount, jobId)
    ensures t.reply == Ok(Deposited) ==> Transferred(s.profiles, t.next.profiles, callerId, userId, amount)
    ensures t.reply != Ok(Deposited) ==> t.next == s
    ensures t.reply in {Ok(Deposited), Ok(NotAllowed), Err(NotFound)}
    ensures t.reply == Err(NotFound) <==>
              jobId !in s.jobs || (5 * amount <= s.jobs[jobId].price && callerId !in s.profiles)
  {
    if jobId !in s.jobs then
      Transition(s, Err(NotFound))
    else if !(5 * amount <= s.jobs[jobId].price) then
      Transition(s, Ok(NotAllowed))
    else if callerId !in s.profiles then
      Transition(s, Err(NotFound))
    else if amount <= s.profiles[callerId].balance then
      DebitCreditTransfers(s.profiles, callerId, userId, amount);
      Transition(s.(profiles := Adjust(Adjust(s.profiles, callerId, -amount), userId, amount)), Ok(Deposited))
    else
      Transition(s, Ok(NotAllowed))
  }

  /**
   * An accepted deposit to an existing profile keeps the total of all balances;
   * see `DepositToUnknownProfileLosesMoney` for the other case.
   */
  lemma DepositConservesTotal(s: Store, callerId: ProfileId, userId: ProfileId, amount: int, jobId: JobId)
    requires WellFormed(s)
    requires userId in s.profiles
    ensures TotalBalance(DepositStep(s, callerId, userId, amount, jobId).next.profiles) == TotalBalance(s.profiles)
  {
    var t := DepositStep(s, callerId, userId, amount, jobId);
    if t.reply == Ok(Deposited) {
      TransferredTotal(s.profiles, t.next.profiles, callerId, userId, amount);
    }
  }

  /** The deposit handler as written also accepts negative amounts and unknown recipients. */
  lemma DepositRemovesMoneyForUnknownRecipient(s: Store, callerId: ProfileId, userId: ProfileId, amount: int, jobId: JobId)
    requires WellFormed(s)
    requires userId !in s.profiles
    requires DepositAllowed(s, callerId, amount, jobId)
    ensures TotalBalance(DepositStep(s, callerId, userId, amount, jobId).next.profiles) == TotalBalance(s.profiles) - amount
  {
    var t := DepositStep(s, callerId, userId, amount, jobId);
    TransferredTotal(s.profiles, t.next.profiles, callerId, userId, amount);
  }

  /** A small store: client 1 and contractor 2 under contract 1, with one unpaid job of price 50. */
  function SampleStore(clientBalance: int, contractorBalance: int): (s: Store)
    ensures WellFormed(s)
  {
    Store(
      map[1 := Profile(1, "Ada", "Client", "", clientBalance, Client),
          2 := Profile(2, "Bo", "Builder", "Builder", contractorBalance, Contractor)],
      map[1 := Contract(1, 1, 2, InProgress)],
      map[1 := Job(1, 1, "work", 50, None, None)])
  }

  /** A negative amount passes both comparisons of line 113 and is taken from the recipient. */
  lemma NegativeDepositDrainsRecipient()
    ensures var t := DepositStep(SampleStore(0, 100), 1, 2, -30, 1);
            && t.reply == Ok(Deposited)
            && t.next.profiles[1].balance == 30
            && t.next.profiles[2].balance == 70
  {
  }

  /** An unknown `userId` matches no row: the caller is debited and nobody is credited. */
  lemma DepositToUnknownProfileLosesMoney()
    ensures var t := DepositStep(SampleStore(100, 0), 1, 99, 10, 1);
            && t.reply == Ok(Deposited)
            && t.next.profiles[1].balance == 90
            && t.next.profiles[2].balance == 0
            && 99 !in t.next.profiles
  {
  }

  /** The deposit as evidently intended: a positive amount to an existing profile. */
  function DepositCorrected(s: Store, callerId: ProfileId, userId: ProfileId, amount: int, jobId: JobId)
    : (t: Transition<DepositReply>)
    requires WellFormed(s)
    ensures WellFormed(t.next)
    ensures t.next.contracts == s.contracts && t.next.jobs == s.jobs
    ensures t.reply == Ok(Deposited) <==> amount > 0 && userId in s.profiles && DepositAllowed(s, callerId, amount, jobId)
    ensures t.reply == Ok(Deposited) ==> Transferred(s.profiles, t.next.profiles, callerId, userId, amount)
    ensures t.reply != Ok(Deposited) ==> t.next == s
    ensures amount <= 0 ==> t.reply == Err(InvalidInput)
    ensures forall id :: id in s.profiles && id != callerId ==> t.next.profiles[id].balance >= s.profiles[id].balance
    ensures Solvent(s.profiles) ==> Solvent(t.next.profiles)
  {
    if amount <= 0 then
      Transition(s, Err(InvalidInput))
    else if userId !in s.profiles then
      Transition(s, Err(NotFound))
    else
      DepositStep(s, callerId, userId, amount, jobId)
  }

  lemma DepositCorrectedConservesTotal(s: Store, callerId: ProfileId, userId: ProfileId, amount: int, jobId: JobId)
    requires WellFormed(s)
    ensures TotalBalance(DepositCorrected(s, callerId, userId, amount, jobId).next.profiles) == TotalBalance(s.profiles)
  {
    var t := DepositCorrected(s, callerId, userId, amount, jobId);
    if t.reply == Ok(Deposited) {
      TransferredTotal(s.profiles, t.next.profiles, callerId, userId, amount);
    }
  }

  /** The server's tables. */
  class Marketplace {
    var profiles: map<ProfileId, Profile>
    var contracts: map<ContractId, Contract>
    var jobs: map<JobId, Job>

    function State(): Store
      reads this
    {
      Store(profiles, contracts, jobs)
    }

    ghost predicate Valid()
      reads this
    {
      WellFormed(State())
    }

    constructor (s: Store)
      requires WellFormed(s)
      ensures Valid() && State() == s
    {
      profiles, contracts, jobs := s.profiles, s.contracts, s.jobs;
    }

    /** Lines 49-91: pay job `jobId` on behalf of `callerId` at time `now`. */
    method Pay(callerId: ProfileId, jobId: JobId, now: Timestamp) returns (r: Result<Job>)
      requires Valid()
      modifies this
      ensures Valid()
      ensures State() == Settle(old(State()), callerId, jobId, now).next
      ensures r == Settle(old(State()), callerId, jobId, now).reply
    {
      if callerId !in profiles || jobId !in jobs {
        // client.balance or job.price is read on null
        return Err(NotFound);
      }
      var client := profiles[callerId];
      var job := jobs[jobId];
      if client.balance >= job.price && !IsPaid(job) {
        profiles := Adjust(profiles, callerId, -job.price);
        var contract := contracts[job.contractId];
        profiles := Adjust(profiles, contract.contractorId, job.price);
        jobs := jobs[jobId := job.(paid := Some(true), paymentDate := Some(now))];
      }
      r := Ok(jobs[jobId]);
    }

    /** Lines 93-129: move `amount` from `callerId` to `userId`, capped by job `jobId`. */
    method Deposit(callerId: ProfileId, userId: ProfileId, amount: int, jobId: JobId)
      returns (r: Result<DepositReply>)
      requires Valid()
      modifies this
      ensures Valid()
      ensures State() == DepositStep(old(State()), callerId, userId, amount, jobId).next
      ensures r == DepositStep(old(State()), callerId, userId, amount, jobId).reply
    {
      if jobId !in jobs {
        // job.price is read on null
        return Err(NotFound);
      }
      if !(5 * amount <= jobs[jobId].price) {
        return Ok(NotAllowed);
      }
      if callerId !in profiles {
        // client.balance is read on null
        return Err(NotFound);
      }
      if amount <= profiles[callerId].balance {
        profiles := Adjust(profiles, callerId, -amount);
        profiles := Adjust(profiles, userId, amount);
        r := Ok(Deposited);
      } else {
        r := Ok(NotAllowed);
      }
    }
  }

  /** Scenario: balance 100, price 50: the client keeps 50, the contractor gains 50. */
  method PayScenario() {
    var m := new Marketplace(SampleStore(100, 0));
    var r := m.Pay(1, 1, 7);
    assert r.Ok? && IsPaid(r.value) && r.value.paymentDate == Some(7);
    assert m.profiles[1].balance == 50 && m.profiles[2].balance == 50;
    r := m.Pay(1, 1, 8);
    assert m.profiles[1].balance == 50 && m.profiles[2].balance == 50;
    assert r.Ok? && r.value.paymentDate == Some(7);
  }
}
