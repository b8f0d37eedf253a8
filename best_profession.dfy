/**
 * `GET /admin/best-profession`: join every contractor with its terminated
 * contracts and their jobs paid within [start, end], add the prices up per
 * profession, and pick one profession from the totals.
 *
 * The totals are a JavaScript object: a key order (first insertion) and a
 * value per key.  The pick, as written, keeps the last entry; the intended
 * maximum is `PickHighest`.
 */
module BestProfession {
  import opened Entities

  /** One flat row of the raw join: a contractor, a contract, a job. */
  datatype ProfessionRow = ProfessionRow(
    contractorId: ProfileId,
    profession: string,
    contractId: ContractId,
    jobId: JobId,
    price: int)

  /** `p` is the contractor of terminated contract `c`, and `j` is a job of `c` paid within the range. */
  predicate Joined(p: Profile, c: Contract, j: Job, start: Timestamp, end: Timestamp) {
    && c.contractorId == p.id
    && c.status == Terminated
    && j.contractId == c.id
    && PaidWithin(j, start, end)
  }

  function RowOf(p: Profile, c: Contract, j: Job): ProfessionRow {
    ProfessionRow(p.id, p.profession, c.id, j.id, j.price)
  }

  function JobRows(p: Profile, c: Contract, jobs: seq<Job>, start: Timestamp, end: Timestamp)
    : (rows: seq<ProfessionRow>)
    ensures forall row :: row in rows <==>
              exists j :: j in jobs && Joined(p, c, j, start, end) && row == RowOf(p, c, j)
  {
    if jobs == [] then []
    else
      assert forall j :: j in jobs <==> j == jobs[0] || j in jobs[1..];
      (if Joined(p, c, jobs[0], start, end) then [RowOf(p, c, jobs[0])] else [])
      + JobRows(p, c, jobs[1..], start, end)
  }

  function ContractRows(p: Profile, contracts: seq<Contract>, jobs: seq<Job>, start: Timestamp, end: Timestamp)
    : seq<ProfessionRow>
  {
    if contracts == [] then []
    else JobRows(p, contracts[0], jobs, start, end) + ContractRows(p, contracts[1..], jobs, start, end)
  }

  /** Lines 135-155: the rows in profile order, then contract order, then job order. */
  function ContractorRows(profiles: seq<Profile>, contracts: seq<Contract>, jobs: seq<Job>, start: Timestamp, end: Timestamp)
    : seq<ProfessionRow>
  {
    if profiles == [] then []
    else ContractRows(profiles[0], contracts, jobs, start, end) + ContractorRows(profiles[1..], contracts, jobs, start, end)
  }

  lemma {:induction false} ContractRowsMembership(
    p: Profile, contracts: seq<Contract>, jobs: seq<Job>, start: Timestamp, end: Timestamp, row: ProfessionRow)
    ensures row in ContractRows(p, contracts, jobs, start, end) <==>
            exists c, j :: c in contracts && j in jobs && Joined(p, c, j, start, end) && row == RowOf(p, c, j)
  {
    if contracts != [] {
      var head, tail := contracts[0], contracts[1..];
      ContractRowsMembership(p, tail, jobs, start, end, row);
      if row in JobRows(p, head, jobs, start, end) {
        var j :| j in jobs && Joined(p, head, j, start, end) && row == RowOf(p, head, j);
        assert head in contracts;
      }
      if exists c, j :: c in tail && j in jobs && Joined(p, c, j, start, end) && row == RowOf(p, c, j) {
        var c, j :| c in tail && j in jobs && Joined(p, c, j, start, end) && row == RowOf(p, c, j);
        assert c in contracts;
      }
      if exists c, j :: c in contracts && j in jobs && Joined(p, c, j, start, end) && row == RowOf(p, c, j) {
        var c, j :| c in contracts && j in jobs && Joined(p, c, j, start, end) && row == RowOf(p, c, j);
        if c != head {
          assert c in tail;
        }
      }
    }
  }

  /** The query returns exactly one row per joined (contractor, contract, job) triple. */
  lemma {:induction false} ContractorRowsMembership(
    profiles: seq<Profile>, contracts: seq<Contract>, jobs: seq<Job>, start: Timestamp, end: Timestamp, row: ProfessionRow)
    ensures row in ContractorRows(profiles, contracts, jobs, start, end) <==>
            exists p, c, j :: p in profiles && c in contracts && j in jobs && Joined(p, c, j, start, end) && row == RowOf(p, c, j)
  {
    if profiles != [] {
      var head, tail := profiles[0], profiles[1..];
      ContractorRowsMembership(tail, contracts, jobs, start, end, row);
      ContractRowsMembership(head, contracts, jobs, start, end, row);
      if row in ContractRows(head, contracts, jobs, start, end) {
        var c, j :| c in contracts && j in jobs && Joined(head, c, j, start, end) && row == RowOf(head, c, j);
        assert head in profiles;
      }
      if exists p, c, j :: p in tail && c in contracts && j in jobs && Joined(p, c, j, start, end) && row == RowOf(p, c, j) {
        var p, c, j :| p in tail && c in contracts && j in jobs && Joined(p, c, j, start, end) && row == RowOf(p, c, j);
        assert p in profiles;
      }
      if exists p, c, j :: p in profiles && c in contracts && j in jobs && Joined(p, c, j, start, end) && row == RowOf(p, c, j) {
        var p, c, j :| p in profiles && c in contracts && j in jobs && Joined(p, c, j, start, end) && row == RowOf(p, c, j);
        if p != head {
          assert p in tail;
        }
      }
    }
  }

  /** The professions of `rows` in order of first appearance. */
  function ProfessionOrder(rows: seq<ProfessionRow>): (keys: seq<string>)
    ensures forall k :: k in keys <==> exists row :: row in rows && row.profession == k
    ensures forall i, k :: 0 <= i < k < |keys| ==> keys[i] != keys[k]
    ensures |keys| == 0 <==> |rows| == 0
  {
    if rows == [] then []
    else
      var init := rows[..|rows| - 1];
      var last := rows[|rows| - 1];
      assert forall row :: row in rows <==> row in init || row == last;
      var keys := ProfessionOrder(init);
      if last.profession in keys then keys else keys + [last.profession]
  }

  /** Some row of profession `x` comes before every row of profession `y`. */
  ghost predicate Before(rows: seq<ProfessionRow>, x: string, y: string) {
    exists a :: 0 <= a < |rows| && rows[a].profession == x && forall b :: 0 <= b <= a ==> rows[b].profession != y
  }

  /** The keys come in order of first appearance in the rows. */
  lemma {:induction false} ProfessionOrderFirstAppearance(rows: seq<ProfessionRow>)
    ensures forall i, k :: 0 <= i < k < |ProfessionOrder(rows)| ==>
              Before(rows, ProfessionOrder(rows)[i], ProfessionOrder(rows)[k])
  {
    if rows != [] {
      var init := rows[..|rows| - 1];
      var last := rows[|rows| - 1];
      ProfessionOrderFirstAppearance(init);
      var old_keys := ProfessionOrder(init);
      var keys := ProfessionOrder(rows);
      assert keys == if last.profession in old_keys then old_keys else old_keys + [last.profession];
      forall i, k | 0 <= i < k < |keys| ensures Before(rows, keys[i], keys[k]) {
        if k < |old_keys| {
          assert keys[i] == old_keys[i] && keys[k] == old_keys[k];
          assert Before(init, old_keys[i], old_keys[k]);
          var a :| 0 <= a < |init| && init[a].profession == keys[i]
                   && forall b :: 0 <= b <= a ==> init[b].profession != keys[k];
          assert rows[a] == init[a];
          assert forall b :: 0 <= b <= a ==> rows[b] == init[b];
        } else {
          assert keys[k] == last.profession && last.profession !in old_keys;
          assert keys[i] == old_keys[i] && old_keys[i] in old_keys;
          var row :| row in init && row.profession == keys[i];
          var a :| 0 <= a < |init| && init[a] == row;
          forall b | 0 <= b <= a ensures rows[b].profession != keys[k] {
            assert rows[b] == init[b] && init[b] in init;
          }
          assert rows[a] == row;
        }
      }
    }
  }

  /** The sum of the prices of the rows of `profession`. */
  function ProfessionTotal(rows: seq<ProfessionRow>, profession: string): int {
    if rows == [] then 0
    else
      var last := rows[|rows| - 1];
      ProfessionTotal(rows[..|rows| - 1], profession) + (if last.profession == profession then last.price else 0)
  }

  lemma {:induction false} ProfessionTotalAbsent(rows: seq<ProfessionRow>, profession: string)
    requires forall row :: row in rows ==> row.profession != profession
    ensures ProfessionTotal(rows, profession) == 0
  {
    if rows != [] {
      ProfessionTotalAbsent(rows[..|rows| - 1], profession);
    }
  }

  /**
   * Lines 157-164: the reducer that builds the totals object in place.  The
   * test `acc[cur.profession]` is JavaScript truthiness, false for a missing
   * key and for a total of 0; assigning an existing key keeps its position.
   */
  method TotalsByProfession(rows: seq<ProfessionRow>) returns (keys: seq<string>, totals: map<string, int>)
    ensures keys == ProfessionOrder(rows)
    ensures totals.Keys == set row | row in rows :: row.profession
    ensures forall p :: p in totals ==> totals[p] == ProfessionTotal(rows, p)
  {
    keys, totals := [], map[];
    var i := 0;
    while i < |rows|
      invariant 0 <= i <= |rows|
      invariant keys == ProfessionOrder(rows[..i])
      invariant totals.Keys == set row | row in rows[..i] :: row.profession
      invariant forall p :: p in totals ==> totals[p] == ProfessionTotal(rows[..i], p)
    {
      var cur := rows[i];
      assert rows[..i + 1][..i] == rows[..i];
      assert forall row :: row in rows[..i + 1] <==> row in rows[..i] || row == cur;
      if cur.profession !in totals {
        ProfessionTotalAbsent(rows[..i], cur.profession);
      }
      if cur.profession in totals && totals[cur.profession] != 0 {
        totals := totals[cur.profession := totals[cur.profession] + cur.price];
      } else {
        totals := totals[cur.profession := cur.price];
        if cur.profession !in keys {
          keys := keys + [cur.profession];
        }
      }
      i := i + 1;
    }
    assert rows[..i] == rows;
  }

  /** `Object.entries`: the (key, value) pairs in key order. */
  function Entries(keys: seq<string>, totals: map<string, int>): (entries: seq<(string, int)>)
    requires forall k :: k in keys ==> k in totals
    ensures |entries| == |keys|
    ensures forall i :: 0 <= i < |keys| ==> entries[i] == (keys[i], totals[keys[i]])
  {
    seq(|keys|, i requires 0 <= i < |keys| => (keys[i], totals[keys[i]]))
  }

  /**
   * Lines 168-173 as written: the comparison only rebinds the callback's
   * local `acc`, and the callback returns `cur` in every case.
   */
  function ReduceAsWritten(acc: (string, int), rest: seq<(string, int)>): (string, int)
    decreases |rest|
  {
    if rest == [] then acc else ReduceAsWritten(rest[0], rest[1..])
  }

  /** `reduce` without an initial value; an empty list throws, here `None`. */
  function PickAsWritten(entries: seq<(string, int)>): Option<string> {
    if entries == [] then None else Some(ReduceAsWritten(entries[0], entries[1..]).0)
  }

  lemma {:induction false} ReduceAsWrittenIsLast(acc: (string, int), rest: seq<(string, int)>)
    ensures ReduceAsWritten(acc, rest) == if rest == [] then acc else rest[|rest| - 1]
    decreases |rest|
  {
    if rest != [] {
      ReduceAsWrittenIsLast(rest[0], rest[1..]);
    }
  }

  /** As written the pick is the key of the last entry, whatever the totals. */
  lemma PickAsWrittenIsLast(entries: seq<(string, int)>)
    ensures PickAsWritten(entries) == if entries == [] then None else Some(entries[|entries| - 1].0)
  {
    if entries != [] {
      ReduceAsWrittenIsLast(entries[0], entries[1..]);
    }
  }

  /** The pick as written is not the maximum: two professions, the larger total first. */
  lemma PickAsWrittenMissesMaximum()
    ensures PickAsWritten([("Programmer", 200), ("Musician", 50)]) == Some("Musician")
    ensures PickHighest([("Programmer", 200), ("Musician", 50)]) == Some("Programmer")
  {
  }

  /** The reducer as evidently intended: keep `acc` unless `cur` is strictly larger. */
  function ReduceHighest(acc: (string, int), rest: seq<(string, int)>): (best: (string, int))
    ensures best == acc || best in rest
    ensures best.1 >= acc.1
    ensures forall e :: e in rest ==> e.1 <= best.1
    decreases |rest|
  {
    if rest == [] then acc
    else
      assert forall e :: e in rest <==> e == rest[0] || e in rest[1..];
      ReduceHighest(if acc.1 < rest[0].1 then rest[0] else acc, rest[1..])
  }

  function PickHighest(entries: seq<(string, int)>): (r: Option<string>)
    ensures r.None? <==> entries == []
    ensures r.Some? ==> exists e :: e in entries && e.0 == r.value && forall f :: f in entries ==> f.1 <= e.1
  {
    if entries == [] then None
    else
      var best := ReduceHighest(entries[0], entries[1..]);
      assert best in entries;
      Some(best.0)
  }

  /**
   * Lines 135-174 as written: the answer is the last profession to appear
   * first in the join, and there is none when no job qualifies.
   */
  method BestProfessionAsWritten(
    profiles: seq<Profile>, contracts: seq<Contract>, jobs: seq<Job>, start: Timestamp, end: Timestamp)
    returns (best: Option<string>)
    ensures var rows := ContractorRows(profiles, contracts, jobs, start, end);
            var order := ProfessionOrder(rows);
            && (best.None? <==> rows == [])
            && (best.Some? ==> best.value == order[|order| - 1])
  {
    var rows := ContractorRows(profiles, contracts, jobs, start, end);
    var keys, totals := TotalsByProfession(rows);
    var entries := Entries(keys, totals);
    best := PickAsWritten(entries);
    PickAsWrittenIsLast(entries);
  }

  /** The query as evidently intended: a profession whose total no other profession exceeds. */
  method BestProfessionCorrected(
    profiles: seq<Profile>, contracts: seq<Contract>, jobs: seq<Job>, start: Timestamp, end: Timestamp)
    returns (best: Option<string>)
    ensures var rows := ContractorRows(profiles, contracts, jobs, start, end);
            && (best.None? <==> rows == [])
            && (best.Some? ==>
                  && (exists row :: row in rows && row.profession == best.value)
                  && forall row :: row in rows ==>
                       ProfessionTotal(rows, row.profession) <= ProfessionTotal(rows, best.value))
  {
    var rows := ContractorRows(profiles, contracts, jobs, start, end);
    var keys, totals := TotalsByProfession(rows);
    var entries := Entries(keys, totals);
    best := PickHighest(entries);
    if best.Some? {
      var e :| e in entries && e.0 == best.value && forall f :: f in entries ==> f.1 <= e.1;
      var i :| 0 <= i < |entries| && entries[i] == e;
      assert best.value in keys;
      forall row | row in rows
        ensures ProfessionTotal(rows, row.profession) <= ProfessionTotal(rows, best.value)
      {
        assert row.profession in keys;
        var k :| 0 <= k < |keys| && keys[k] == row.profession;
        assert entries[k] in entries;
      }
    }
  }
}
