/**
 * `GET /admin/best-clients`: every profile with its terminated contracts as
 * client, each with its jobs paid within [start, end] (profiles and contracts
 * without such jobs drop out of the join), summarised as id, full name and
 * paid amount, sorted by paid amount, highest first, and cut to two.
 *
 * As written the paid amount counts only the first contract of each client;
 * the intended total over every contract is `SummarizeAll`.
 */
module BestClients {
  import opened Entities

  datatype ContractJobs = ContractJobs(contract: Contract, jobs: seq<Job>)

  /** One nested result instance: a profile and its `Client` contracts. */
  datatype ClientRow = ClientRow(profile: Profile, contracts: seq<ContractJobs>)

  datatype ClientSummary = ClientSummary(id: ProfileId, fullName: string, paid: int)

  /** `c` is a terminated contract with `p` as its client. */
  predicate TerminatedClientContract(p: Profile, c: Contract) {
    c.clientId == p.id && c.status == Terminated
  }

  /** The jobs of contract `c` paid within the range, in table order. */
  function JobsPaidWithin(c: Contract, jobs: seq<Job>, start: Timestamp, end: Timestamp): (r: seq<Job>)
    ensures forall j :: j in r <==> j in jobs && j.contractId == c.id && PaidWithin(j, start, end)
  {
    if jobs == [] then []
    else
      (if jobs[0].contractId == c.id && PaidWithin(jobs[0], start, end) then [jobs[0]] else [])
      + JobsPaidWithin(c, jobs[1..], start, end)
  }

  /** A contract of `p` that survives the join, with its jobs. */
  predicate Listed(p: Profile, c: Contract, jobs: seq<Job>, start: Timestamp, end: Timestamp) {
    TerminatedClientContract(p, c) && JobsPaidWithin(c, jobs, start, end) != []
  }

  /** The `Client` contracts of `p` in contract order. */
  function ClientContracts(p: Profile, contracts: seq<Contract>, jobs: seq<Job>, start: Timestamp, end: Timestamp)
    : (r: seq<ContractJobs>)
    ensures forall k :: 0 <= k < |r| ==> r[k].jobs != []
    ensures forall cj :: cj in r <==>
              exists c :: c in contracts && Listed(p, c, jobs, start, end)
                          && cj == ContractJobs(c, JobsPaidWithin(c, jobs, start, end))
  {
    if contracts == [] then []
    else
      var c := contracts[0];
      assert forall d :: d in contracts <==> d == c || d in contracts[1..];
      (if Listed(p, c, jobs, start, end) then [ContractJobs(c, JobsPaidWithin(c, jobs, start, end))] else [])
      + ClientContracts(p, contracts[1..], jobs, start, end)
  }

  /** Lines 181-200: the profiles that have at least one listed contract, in profile order. */
  function ClientRows(profiles: seq<Profile>, contracts: seq<Contract>, jobs: seq<Job>, start: Timestamp, end: Timestamp)
    : (r: seq<ClientRow>)
    ensures forall k :: 0 <= k < |r| ==> r[k].contracts != []
    ensures forall row :: row in r <==>
              exists p :: p in profiles && row == ClientRow(p, ClientContracts(p, contracts, jobs, start, end))
                          && row.contracts != []
  {
    if profiles == [] then []
    else
      var p := profiles[0];
      var cs := ClientContracts(p, contracts, jobs, start, end);
      assert forall q :: q in profiles <==> q == p || q in profiles[1..];
      (if cs != [] then [ClientRow(p, cs)] else []) + ClientRows(profiles[1..], contracts, jobs, start, end)
  }

  /** Every profile with a listed contract is a row of the join, so a candidate for the top two. */
  lemma ClientRowsComplete(
    profiles: seq<Profile>, contracts: seq<Contract>, jobs: seq<Job>, start: Timestamp, end: Timestamp,
    p: Profile, c: Contract)
    requires p in profiles && c in contracts && Listed(p, c, jobs, start, end)
    ensures exists row :: row in ClientRows(profiles, contracts, jobs, start, end) && row.profile == p
              && ContractJobs(c, JobsPaidWithin(c, jobs, start, end)) in row.contracts
  {
    var cs := ClientContracts(p, contracts, jobs, start, end);
    assert ContractJobs(c, JobsPaidWithin(c, jobs, start, end)) in cs;
    assert ClientRow(p, cs) in ClientRows(profiles, contracts, jobs, start, end);
  }

  /** `Client[0]` is the first terminated contract of the client that has a job paid within the range. */
  lemma {:induction false} FirstClientContract(
    p: Profile, contracts: seq<Contract>, jobs: seq<Job>, start: Timestamp, end: Timestamp)
    requires ClientContracts(p, contracts, jobs, start, end) != []
    ensures exists k :: 0 <= k < |contracts|
              && Listed(p, contracts[k], jobs, start, end)
              && ClientContracts(p, contracts, jobs, start, end)[0]
                 == ContractJobs(contracts[k], JobsPaidWithin(contracts[k], jobs, start, end))
              && forall i :: 0 <= i < k ==> !Listed(p, contracts[i], jobs, start, end)
  {
    var c := contracts[0];
    if !Listed(p, c, jobs, start, end) {
      var tail := contracts[1..];
      FirstClientContract(p, tail, jobs, start, end);
      var k :| 0 <= k < |tail|
               && Listed(p, tail[k], jobs, start, end)
               && ClientContracts(p, tail, jobs, start, end)[0]
                  == ContractJobs(tail[k], JobsPaidWithin(tail[k], jobs, start, end))
               && forall i :: 0 <= i < k ==> !Listed(p, tail[i], jobs, start, end);
      assert contracts[k + 1] == tail[k];
      forall i | 0 <= i < k + 1 ensures !Listed(p, contracts[i], jobs, start, end) {
        if i > 0 {
          assert contracts[i] == tail[i - 1];
        }
      }
    }
  }

  function PriceSum(jobs: seq<Job>): int {
    if jobs == [] then 0 else jobs[0].price + PriceSum(jobs[1..])
  }

  /** Lines 202-212 as written: the paid amount of `Client[0]` only. */
  function Summarize(row: ClientRow): ClientSummary
    requires row.contracts != []
  {
    ClientSummary(row.profile.id, FullName(row.profile), PriceSum(row.contracts[0].jobs))
  }

  /** `profiles.map(...)` over the join. */
  function Summaries(rows: seq<ClientRow>): (r: seq<ClientSummary>)
    requires forall k :: 0 <= k < |rows| ==> rows[k].contracts != []
  {
    seq(|rows|, k requires 0 <= k < |rows| => Summarize(rows[k]))
  }

  ghost predicate SortedByPaid(s: seq<ClientSummary>) {
    forall i, k :: 0 <= i < k < |s| ==> s[i].paid >= s[k].paid
  }

  /** Place `x` before the first entry that does not pay more than it. */
  function InsertByPaid(x: ClientSummary, sorted: seq<ClientSummary>): seq<ClientSummary> {
    if sorted == [] || sorted[0].paid <= x.paid then [x] + sorted
    else [sorted[0]] + InsertByPaid(x, sorted[1..])
  }

  /** `sort((a, b) => b.paid - a.paid)`: a stable sort, highest paid first. */
  function SortByPaid(s: seq<ClientSummary>): seq<ClientSummary> {
    if s == [] then [] else InsertByPaid(s[0], SortByPaid(s[1..]))
  }

  lemma {:induction false} InsertByPaidKeeps(x: ClientSummary, sorted: seq<ClientSummary>)
    ensures multiset(InsertByPaid(x, sorted)) == multiset(sorted) + multiset{x}
  {
    if sorted != [] && sorted[0].paid > x.paid {
      InsertByPaidKeeps(x, sorted[1..]);
      assert sorted == [sorted[0]] + sorted[1..];
    }
  }

  lemma {:induction false} InsertByPaidElements(x: ClientSummary, sorted: seq<ClientSummary>)
    ensures forall e :: e in InsertByPaid(x, sorted) ==> e == x || e in sorted
  {
    if sorted != [] && sorted[0].paid > x.paid {
      InsertByPaidElements(x, sorted[1..]);
    }
  }

  lemma {:induction false} InsertByPaidSorted(x: ClientSummary, sorted: seq<ClientSummary>)
    requires SortedByPaid(sorted)
    ensures SortedByPaid(InsertByPaid(x, sorted))
  {
    if sorted != [] && sorted[0].paid > x.paid {
      var head, tail := sorted[0], sorted[1..];
      var rest := InsertByPaid(x, tail);
      InsertByPaidSorted(x, tail);
      InsertByPaidElements(x, tail);
      var r := [head] + rest;
      assert InsertByPaid(x, sorted) == r;
      forall e | e in rest ensures e.paid <= head.paid {
        if e != x {
          var k :| 0 <= k < |tail| && tail[k] == e;
          assert sorted[k + 1] == e;
        }
      }
      forall i, k | 0 <= i < k < |r| ensures r[i].paid >= r[k].paid {
        assert r[k] == rest[k - 1];
        if i > 0 {
          assert r[i] == rest[i - 1];
        }
      }
    }
  }

  /** The sort orders by paid amount and keeps every entry. */
  lemma {:induction false} SortByPaidSpec(s: seq<ClientSummary>)
    ensures SortedByPaid(SortByPaid(s))
    ensures multiset(SortByPaid(s)) == multiset(s)
  {
    if s != [] {
      SortByPaidSpec(s[1..]);
      InsertByPaidSorted(s[0], SortByPaid(s[1..]));
      InsertByPaidKeeps(s[0], SortByPaid(s[1..]));
      assert s == [s[0]] + s[1..];
    }
  }

  /** The entries of `s` that paid exactly `amount`, in order. */
  function PaidExactly(s: seq<ClientSummary>, amount: int): seq<ClientSummary> {
    if s == [] then [] else (if s[0].paid == amount then [s[0]] else []) + PaidExactly(s[1..], amount)
  }

  lemma {:induction false} InsertByPaidStable(x: ClientSummary, sorted: seq<ClientSummary>, amount: int)
    ensures PaidExactly(InsertByPaid(x, sorted), amount)
            == (if x.paid == amount then [x] else []) + PaidExactly(sorted, amount)
  {
    if sorted == [] || sorted[0].paid <= x.paid {
      assert ([x] + sorted)[1..] == sorted;
      if x.paid != amount || sorted == [] {
      } else if sorted[0].paid == amount {
      }
    } else {
      InsertByPaidStable(x, sorted[1..], amount);
      assert ([sorted[0]] + InsertByPaid(x, sorted[1..]))[1..] == InsertByPaid(x, sorted[1..]);
      if x.paid == amount {
        assert sorted[0].paid != amount;
      }
    }
  }

  /** The sort is stable: entries with the same paid amount keep the order of the query. */
  lemma {:induction false} SortByPaidStable(s: seq<ClientSummary>, amount: int)
    ensures PaidExactly(SortByPaid(s), amount) == PaidExactly(s, amount)
  {
    if s != [] {
      SortByPaidStable(s[1..], amount);
      InsertByPaidStable(s[0], SortByPaid(s[1..]), amount);
    }
  }

  /** `.slice(0, 2)` of the sorted list. */
  function TopTwo(s: seq<ClientSummary>): seq<ClientSummary> {
    var sorted := SortByPaid(s);
    sorted[..Min(2, |sorted|)]
  }

  /**
   * The top two: at most two entries, highest paid first, taken from `s`, and
   * no entry left out pays more than an entry kept.
   */
  lemma TopTwoSpec(s: seq<ClientSummary>)
    ensures var r := TopTwo(s);
            && |r| == Min(2, |s|)
            && SortedByPaid(r)
            && multiset(r) <= multiset(s)
            && forall e :: e in multiset(s) - multiset(r) ==> forall k :: 0 <= k < |r| ==> e.paid <= r[k].paid
  {
    var sorted := SortByPaid(s);
    SortByPaidSpec(s);
    assert |sorted| == |s| by {
      assert |sorted| == |multiset(sorted)|;
    }
    var n := Min(2, |sorted|);
    SplitSorted(sorted, n);
  }

  /** Cutting a sorted list at `n`: the prefix is sorted and dominates the rest. */
  lemma SplitSorted(sorted: seq<ClientSummary>, n: nat)
    requires SortedByPaid(sorted) && n <= |sorted|
    ensures SortedByPaid(sorted[..n])
    ensures multiset(sorted) - multiset(sorted[..n]) == multiset(sorted[n..])
    ensures multiset(sorted[..n]) <= multiset(sorted)
    ensures forall e :: e in multiset(sorted[n..]) ==> forall k :: 0 <= k < n ==> e.paid <= sorted[k].paid
  {
    assert sorted == sorted[..n] + sorted[n..];
    SortedPrefixDominates(sorted, n);
  }

  /** In a sorted list nothing after position `n` pays more than anything before it. */
  lemma SortedPrefixDominates(sorted: seq<ClientSummary>, n: nat)
    requires SortedByPaid(sorted) && n <= |sorted|
    ensures forall e :: e in multiset(sorted[n..]) ==> forall k :: 0 <= k < n ==> e.paid <= sorted[k].paid
  {
    forall e | e in multiset(sorted[n..])
      ensures forall k :: 0 <= k < n ==> e.paid <= sorted[k].paid
    {
      assert e in sorted[n..];
      var m :| 0 <= m < |sorted| - n && sorted[n..][m] == e;
      assert sorted[n + m] == e;
    }
  }

  /** Lines 181-214 as written. */
  function BestClients(profiles: seq<Profile>, contracts: seq<Contract>, jobs: seq<Job>, start: Timestamp, end: Timestamp)
    : seq<ClientSummary>
  {
    TopTwo(Summaries(ClientRows(profiles, contracts, jobs, start, end)))
  }

  /**
   * Each entry of the answer is a profile with a terminated contract in the
   * range: its id, `firstName + " " + lastName`, and the prices of the jobs of
   * its first such contract added up.
   */
  lemma BestClientsEntries(
    profiles: seq<Profile>, contracts: seq<Contract>, jobs: seq<Job>, start: Timestamp, end: Timestamp, e: ClientSummary)
    requires e in BestClients(profiles, contracts, jobs, start, end)
    ensures exists p :: p in profiles &&
              var cs := ClientContracts(p, contracts, jobs, start, end);
              && cs != []
              && e == ClientSummary(p.id, p.firstName + " " + p.lastName, PriceSum(cs[0].jobs))
  {
    var rows := ClientRows(profiles, contracts, jobs, start, end);
    var all := Summaries(rows);
    TopTwoSpec(all);
    assert e in multiset(TopTwo(all));
    assert e in all;
    var k :| 0 <= k < |all| && all[k] == e;
    assert rows[k] in rows;
  }

  /** Lines 186-214: at most two entries, ordered, and none left out pays more. */
  lemma BestClientsRanking(
    profiles: seq<Profile>, contracts: seq<Contract>, jobs: seq<Job>, start: Timestamp, end: Timestamp)
    ensures var all := Summaries(ClientRows(profiles, contracts, jobs, start, end));
            var r := BestClients(profiles, contracts, jobs, start, end);
            && |r| == Min(2, |all|)
            && SortedByPaid(r)
            && multiset(r) <= multiset(all)
            && forall e :: e in multiset(all) - multiset(r) ==> forall k :: 0 <= k < |r| ==> e.paid <= r[k].paid
  {
    TopTwoSpec(Summaries(ClientRows(profiles, contracts, jobs, start, end)));
  }

  function ContractsTotal(cs: seq<ContractJobs>): int {
    if cs == [] then 0 else PriceSum(cs[0].jobs) + ContractsTotal(cs[1..])
  }

  /** The paid amount as evidently intended: every contract of the client. */
  function SummarizeAll(row: ClientRow): ClientSummary {
    ClientSummary(row.profile.id, FullName(row.profile), ContractsTotal(row.contracts))
  }

  function BestClientsCorrected(
    profiles: seq<Profile>, contracts: seq<Contract>, jobs: seq<Job>, start: Timestamp, end: Timestamp)
    : seq<ClientSummary>
  {
    TopTwo(CorrectedSummaries(ClientRows(profiles, contracts, jobs, start, end)))
  }

  function CorrectedSummaries(rows: seq<ClientRow>): seq<ClientSummary> {
    seq(|rows|, k requires 0 <= k < |rows| => SummarizeAll(rows[k]))
  }

  /** What a client paid: every job of a terminated contract of theirs paid within the range. */
  function ClientTotal(p: Profile, contracts: seq<Contract>, jobs: seq<Job>, start: Timestamp, end: Timestamp): int {
    if contracts == [] then 0
    else
      (if TerminatedClientContract(p, contracts[0]) then PriceSum(JobsPaidWithin(contracts[0], jobs, start, end)) else 0)
      + ClientTotal(p, contracts[1..], jobs, start, end)
  }

  lemma {:induction false} ContractsTotalIsClientTotal(
    p: Profile, contracts: seq<Contract>, jobs: seq<Job>, start: Timestamp, end: Timestamp)
    ensures ContractsTotal(ClientContracts(p, contracts, jobs, start, end)) == ClientTotal(p, contracts, jobs, start, end)
  {
    if contracts != [] {
      var c := contracts[0];
      var own := if Listed(p, c, jobs, start, end) then [ContractJobs(c, JobsPaidWithin(c, jobs, start, end))] else [];
      var rest := ClientContracts(p, contracts[1..], jobs, start, end);
      ContractsTotalIsClientTotal(p, contracts[1..], jobs, start, end);
      if TerminatedClientContract(p, c) && own == [] {
        assert JobsPaidWithin(c, jobs, start, end) == [];
        assert PriceSum([]) == 0;
      }
      assert ClientContracts(p, contracts, jobs, start, end) == own + rest;
      if own != [] {
        assert (own + rest)[0] == own[0];
        assert (own + rest)[1..] == rest;
        assert ContractsTotal(own + rest) == PriceSum(own[0].jobs) + ContractsTotal(rest);
      } else {
        assert own + rest == rest;
      }
    }
  }

  /** In the corrected answer every entry's paid amount is the client's whole total. */
  lemma BestClientsCorrectedEntries(
    profiles: seq<Profile>, contracts: seq<Contract>, jobs: seq<Job>, start: Timestamp, end: Timestamp, e: ClientSummary)
    requires e in BestClientsCorrected(profiles, contracts, jobs, start, end)
    ensures exists p :: p in profiles
              && ClientContracts(p, contracts, jobs, start, end) != []
              && e == ClientSummary(p.id, FullName(p), ClientTotal(p, contracts, jobs, start, end))
  {
    var rows := ClientRows(profiles, contracts, jobs, start, end);
    var all := CorrectedSummaries(rows);
    TopTwoSpec(all);
    assert e in multiset(TopTwo(all));
    assert e in all;
    var k :| 0 <= k < |all| && all[k] == e;
    assert rows[k] in rows;
    var p :| p in profiles && rows[k] == ClientRow(p, ClientContracts(p, contracts, jobs, start, end));
    ContractsTotalIsClientTotal(p, contracts, jobs, start, end);
  }

  /** A client with two terminated contracts in the range, with jobs of 10 and 20. */
  function SampleClient(): Profile {
    Profile(1, "Ada", "Lovelace", "", 0, Client)
  }

  function SampleContracts(): seq<Contract> {
    [Contract(1, 1, 9, Terminated), Contract(2, 1, 9, Terminated)]
  }

  function SampleJobs(): seq<Job> {
    [Job(1, 1, "a", 10, Some(true), Some(5)), Job(2, 2, "b", 20, Some(true), Some(6))]
  }

  function SampleGroups(): seq<ContractJobs> {
    [ContractJobs(SampleContracts()[0], [SampleJobs()[0]]), ContractJobs(SampleContracts()[1], [SampleJobs()[1]])]
  }

  lemma SampleJobsPaidWithin()
    ensures JobsPaidWithin(SampleContracts()[0], SampleJobs(), 0, 10) == [SampleJobs()[0]]
    ensures JobsPaidWithin(SampleContracts()[1], SampleJobs(), 0, 10) == [SampleJobs()[1]]
  {
    var js := SampleJobs();
    assert js[1..][1..] == [];
  }

  lemma SampleClientContracts()
    ensures ClientContracts(SampleClient(), SampleContracts(), SampleJobs(), 0, 10) == SampleGroups()
  {
    var cs := SampleContracts();
    SampleJobsPaidWithin();
    assert cs[1..][1..] == [];
  }

  lemma SampleClientRows()
    ensures ClientRows([SampleClient()], SampleContracts(), SampleJobs(), 0, 10) == [ClientRow(SampleClient(), SampleGroups())]
  {
    SampleClientContracts();
    assert [SampleClient()][1..] == [];
  }

  lemma SampleTotals()
    ensures PriceSum(SampleGroups()[0].jobs) == 10
    ensures ContractsTotal(SampleGroups()) == 30
  {
    var groups := SampleGroups();
    var js := SampleJobs();
    assert [js[0]][1..] == [] && [js[1]][1..] == [];
    assert PriceSum(groups[0].jobs) == 10;
    assert PriceSum(groups[1].jobs) == 20;
    assert groups[1..] == [groups[1]] && groups[1..][1..] == [];
    assert ContractsTotal(groups[1..]) == 20;
  }

  lemma SampleSummaries()
    ensures Summaries([ClientRow(SampleClient(), SampleGroups())]) == [ClientSummary(1, "Ada Lovelace", 10)]
    ensures CorrectedSummaries([ClientRow(SampleClient(), SampleGroups())]) == [ClientSummary(1, "Ada Lovelace", 30)]
  {
    SampleTotals();
    assert FullName(SampleClient()) == "Ada Lovelace";
  }

  /** As written the sample client is credited 10; the corrected total is 30. */
  lemma FirstContractOnlyUndercounts()
    ensures BestClients([SampleClient()], SampleContracts(), SampleJobs(), 0, 10)
            == [ClientSummary(1, "Ada Lovelace", 10)]
    ensures BestClientsCorrected([SampleClient()], SampleContracts(), SampleJobs(), 0, 10)
            == [ClientSummary(1, "Ada Lovelace", 30)]
  {
    SampleClientRows();
    SampleSummaries();
    var rows := [ClientRow(SampleClient(), SampleGroups())];
    assert BestClients([SampleClient()], SampleContracts(), SampleJobs(), 0, 10) == TopTwo(Summaries(rows));
    assert BestClientsCorrected([SampleClient()], SampleContracts(), SampleJobs(), 0, 10) == TopTwo(CorrectedSummaries(rows));
    assert TopTwo([ClientSummary(1, "Ada Lovelace", 10)]) == [ClientSummary(1, "Ada Lovelace", 10)];
    assert TopTwo([ClientSummary(1, "Ada Lovelace", 30)]) == [ClientSummary(1, "Ada Lovelace", 30)];
  }
}
