/**
 * `GET /jobs/unpaid`: every contract that is not terminated, joined with its
 * jobs whose `paid` column is null, flattened into one list of jobs in
 * contract order.  The tables are sequences of rows in the order the store
 * returns them.
 */
module UnpaidJobs {
  import opened Entities

  /** The jobs of contract `c` whose `paid` column is null, in table order. */
  function UnpaidJobsOf(c: Contract, jobs: seq<Job>): (r: seq<Job>)
    ensures forall j :: j in r <==> j in jobs && j.contractId == c.id && j.paid == None
  {
    if jobs == [] then []
    else
      (if jobs[0].contractId == c.id && jobs[0].paid == None then [jobs[0]] else [])
      + UnpaidJobsOf(c, jobs[1..])
  }

  /** A contract of the query: not terminated, and the one job `j` belongs to. */
  predicate OpenContractOf(c: Contract, j: Job) {
    c.status != Terminated && c.id == j.contractId
  }

  /** Lines 29-45: `contracts.flatMap(contract => contract.Jobs)`. */
  function UnpaidJobs(contracts: seq<Contract>, jobs: seq<Job>): seq<Job>
  {
    if contracts == [] then []
    else
      (if contracts[0].status != Terminated then UnpaidJobsOf(contracts[0], jobs) else [])
      + UnpaidJobs(contracts[1..], jobs)
  }

  /** A job is listed iff it is unpaid and belongs to a contract that is not terminated. */
  lemma {:induction false} UnpaidJobsMembership(contracts: seq<Contract>, jobs: seq<Job>, j: Job)
    ensures j in UnpaidJobs(contracts, jobs) <==>
            j in jobs && j.paid == None && exists c :: c in contracts && OpenContractOf(c, j)
  {
    if contracts != [] {
      var head, tail := contracts[0], contracts[1..];
      UnpaidJobsMembership(tail, jobs, j);
      var own := if head.status != Terminated then UnpaidJobsOf(head, jobs) else [];
      assert UnpaidJobs(contracts, jobs) == own + UnpaidJobs(tail, jobs);
      if j in own {
        assert head in contracts && OpenContractOf(head, j);
      }
      if exists c :: c in tail && OpenContractOf(c, j) {
        var c :| c in tail && OpenContractOf(c, j);
        assert c in contracts;
      }
      if exists c :: c in contracts && OpenContractOf(c, j) {
        var c :| c in contracts && OpenContractOf(c, j);
        if c != head {
          assert c in tail;
        }
      }
    }
  }

  predicate DistinctContractIds(contracts: seq<Contract>) {
    forall i, k :: 0 <= i < k < |contracts| ==> contracts[i].id != contracts[k].id
  }

  lemma {:induction false} UnpaidJobsOfCount(c: Contract, jobs: seq<Job>, j: Job)
    ensures multiset(UnpaidJobsOf(c, jobs))[j] ==
            if j.contractId == c.id && j.paid == None then multiset(jobs)[j] else 0
  {
    if jobs != [] {
      UnpaidJobsOfCount(c, jobs[1..], j);
      assert jobs == [jobs[0]] + jobs[1..];
    }
  }

  /**
   * With distinct contract ids the result holds each qualifying job exactly
   * as often as the jobs table does, and nothing else.
   */
  lemma {:induction false} UnpaidJobsCount(contracts: seq<Contract>, jobs: seq<Job>, j: Job)
    requires DistinctContractIds(contracts)
    ensures multiset(UnpaidJobs(contracts, jobs))[j] ==
            if j.paid == None && exists c :: c in contracts && OpenContractOf(c, j) then multiset(jobs)[j] else 0
  {
    if contracts != [] {
      var head, tail := contracts[0], contracts[1..];
      assert DistinctContractIds(tail) by {
        forall i, k | 0 <= i < k < |tail| ensures tail[i].id != tail[k].id {
          assert tail[i] == contracts[i + 1] && tail[k] == contracts[k + 1];
        }
      }
      UnpaidJobsCount(tail, jobs, j);
      UnpaidJobsOfCount(head, jobs, j);
      if head.id == j.contractId {
        forall c | c in tail ensures c.id != j.contractId {
          var k :| 0 <= k < |tail| && tail[k] == c;
          assert contracts[k + 1] == c;
        }
      }
      assert forall c :: c in contracts <==> c == head || c in tail;
    }
  }
}
