/**
 The commit logs and their validator, the sequential specification of the transaction engine.
 */
module Validator {

  /** One line of a commit log: the order number, the records read, raised and lowered, and the three values. */
  datatype Log = Log(commitId: int, i: nat, j: nat, k: nat, vi: int, vj: int, vk: int)

  const DEFAULT_RECORD_VALUE: int := 100

  function InitialRecords(numRecords: nat): (records: seq<int>) {
    seq(numRecords, r => DEFAULT_RECORD_VALUE)
  }

  predicate InRange(log: Log, numRecords: nat) {
    log.i < numRecords && log.j < numRecords && log.k < numRecords
  }

  /** The effect of one transaction: raise record j by record i plus one, then lower record k by record i. */
  function Apply(records: seq<int>, log: Log): (records': seq<int>)
    requires InRange(log, |records|)
    ensures |records'| == |records|
  {
    var raised := records[log.j := records[log.j] + records[log.i] + 1];
    raised[log.k := raised[log.k] - raised[log.i]]
  }

  ghost predicate AllInRange(logs: seq<Log>, numRecords: nat) {
    forall n :: 0 <= n < |logs| ==> InRange(logs[n], numRecords)
  }

  /** The records after running `logs` one after the other. */
  ghost function Replay(logs: seq<Log>, numRecords: nat): (records: seq<int>)
    requires AllInRange(logs, numRecords)
    ensures |records| == numRecords
  {
    if logs == [] then InitialRecords(numRecords)
    else Apply(Replay(logs[..|logs|-1], numRecords), logs[|logs|-1])
  }

  lemma ReplaySnoc(logs: seq<Log>, log: Log, numRecords: nat)
    requires AllInRange(logs, numRecords) && InRange(log, numRecords)
    ensures AllInRange(logs + [log], numRecords)
    ensures Replay(logs + [log], numRecords) == Apply(Replay(logs, numRecords), log)
  {
    assert (logs + [log])[..|logs|] == logs;
  }

  ghost predicate Numbered(logs: seq<Log>, base: int) {
    forall n :: 0 <= n < |logs| ==> logs[n].commitId == base + n + 1
  }

  /** Line `n` has the next order number, valid indexes, and the values of the serial execution up to that line. */
  ghost predicate LineOk(logs: seq<Log>, numRecords: nat, n: nat)
    requires n < |logs|
  {
    && logs[n].commitId == n + 1
    && AllInRange(logs[..n+1], numRecords)
    && var records := Replay(logs[..n+1], numRecords);
      logs[n].vj == records[logs[n].j] && logs[n].vk == records[logs[n].k]
  }

  /** `logs` is the record of a serial execution of exactly `last` transactions, numbered from 1. */
  ghost predicate SerialHistory(logs: seq<Log>, numRecords: nat, last: nat) {
    && |logs| == last
    && forall n :: 0 <= n < |logs| ==> LineOk(logs, numRecords, n)
  }

  predicate Distinct(log: Log) {
    log.i != log.j && log.j != log.k && log.k != log.i
  }

  /** The first line, of distinct records: they all hold 100, and record j is raised to 201 and record k lowered to 0.
      */
  lemma FirstLine(log: Log, numRecords: nat)
    requires InRange(log, numRecords) && Distinct(log)
    ensures forall r :: 0 <= r < numRecords ==> InitialRecords(numRecords)[r] == 100
    ensures SerialHistory([log], numRecords, 1) <==> log.commitId == 1 && log.vj == 201 && log.vk == 0
  {
    assert [log][..1] == [log];
    ReplaySnoc([], log, numRecords);
    assert [] + [log] == [log];
    assert LineOk([log], numRecords, 0) <==> log.commitId == 1 && log.vj == 201 && log.vk == 0;
  }

  // ---------- the sum of the records ----------

  /** The sum of the first `n` records. */
  ghost function SumTo(records: seq<int>, n: nat): int
    requires n <= |records|
  {
    if n == 0 then 0 else SumTo(records, n - 1) + records[n-1]
  }

  ghost function Sum(records: seq<int>): int {
    SumTo(records, |records|)
  }

  lemma {:induction false} SumUpdate(records: seq<int>, r: nat, value: int, n: nat)
    requires r < |records| && n <= |records|
    ensures SumTo(records[r := value], n) == SumTo(records, n) + if r < n then value - records[r] else 0
  {
    if n > 0 { SumUpdate(records, r, value, n - 1); }
  }

  lemma {:induction false} SumInitial(numRecords: nat, n: nat)
    requires n <= numRecords
    ensures SumTo(InitialRecords(numRecords), n) == 100 * n
  {
    if n > 0 { SumInitial(numRecords, n - 1); }
  }

  ghost predicate AllDistinct(logs: seq<Log>) {
    forall n :: 0 <= n < |logs| ==> Distinct(logs[n])
  }

  lemma ApplySum(records: seq<int>, log: Log)
    requires InRange(log, |records|) && Distinct(log)
    ensures Sum(Apply(records, log)) == Sum(records) + 1
  {
    var raised := records[log.j := records[log.j] + records[log.i] + 1];
    SumUpdate(records, log.j, records[log.j] + records[log.i] + 1, |records|);
    SumUpdate(raised, log.k, raised[log.k] - raised[log.i], |records|);
  }

  /** A transaction on three distinct records raises the sum of all records by one, whatever their values. */
  lemma {:induction false} SumOfReplay(logs: seq<Log>, numRecords: nat)
    requires AllInRange(logs, numRecords) && AllDistinct(logs)
    ensures Sum(Replay(logs, numRecords)) == 100 * numRecords + |logs|
  {
    if logs == [] {
      SumInitial(numRecords, numRecords);
    } else {
      SumOfReplay(logs[..|logs|-1], numRecords);
      ApplySum(Replay(logs[..|logs|-1], numRecords), logs[|logs|-1]);
    }
  }

  function Concat(files: seq<seq<Log>>): seq<Log> {
    if files == [] then [] else Concat(files[..|files|-1]) + files[|files|-1]
  }

  // ---------- sorting ----------

  ghost predicate SortedById(logs: seq<Log>) {
    forall a, b :: 0 <= a < b < |logs| ==> logs[a].commitId <= logs[b].commitId
  }

  function InsertById(log: Log, logs: seq<Log>): (res: seq<Log>)
    ensures multiset(res) == multiset{log} + multiset(logs)
  {
    if logs == [] || log.commitId <= logs[0].commitId then [log] + logs
    else
      assert logs == [logs[0]] + logs[1..];
      [logs[0]] + InsertById(log, logs[1..])
  }

  lemma {:induction false} InsertSorted(log: Log, logs: seq<Log>)
    requires SortedById(logs)
    ensures SortedById(InsertById(log, logs))
  {
    if logs != [] && log.commitId > logs[0].commitId {
      var rest := InsertById(log, logs[1..]);
      InsertSorted(log, logs[1..]);
      forall n | 0 <= n < |rest| ensures logs[0].commitId <= rest[n].commitId {
        assert rest[n] in multiset(rest);
        assert rest[n] == log || rest[n] in logs[1..];
      }
    }
  }

  /** Stands for `std::sort` by order number. */
  function SortById(logs: seq<Log>): (res: seq<Log>)
    ensures SortedById(res) && multiset(res) == multiset(logs)
  {
    if logs == [] then [] else
    assert logs == [logs[0]] + logs[1..];
    InsertSorted(logs[0], SortById(logs[1..]));
    InsertById(logs[0], SortById(logs[1..]))
  }

  lemma HeadMember(logs: seq<Log>, others: seq<Log>)
    requires multiset(logs) == multiset(others) && logs != []
    ensures logs[0] in others
  {
    assert logs[0] in multiset(others);
  }

  lemma TailMultiset(logs: seq<Log>)
    requires logs != []
    ensures multiset(logs[1..]) == multiset(logs) - multiset{logs[0]}
  {
    assert logs == [logs[0]] + logs[1..];
  }

  lemma HeadsAgree(sorted: seq<Log>, order: seq<Log>, base: int)
    requires SortedById(sorted) && Numbered(order, base) && sorted != [] && order != []
    requires sorted[0] in order && order[0] in sorted
    ensures sorted[0] == order[0]
  {
    var a :| 0 <= a < |sorted| && sorted[a] == order[0];
    assert sorted[0].commitId <= sorted[a].commitId;
  }

  /** There is only one way to sort lines whose numbers are consecutive. */
  lemma {:induction false} SortedUnique(sorted: seq<Log>, order: seq<Log>, base: int)
    requires SortedById(sorted) && Numbered(order, base) && multiset(sorted) == multiset(order)
    ensures sorted == order
  {
    assert |sorted| == |multiset(sorted)| == |multiset(order)| == |order|;
    if order != [] {
      HeadMember(sorted, order);
      HeadMember(order, sorted);
      HeadsAgree(sorted, order, base);
      TailMultiset(sorted);
      TailMultiset(order);
      SortedUnique(sorted[1..], order[1..], base + 1);
    }
  }

  /** The replay loop: the sorted lines are those of a serial execution. */
  method CheckReplay(logs: seq<Log>, numRecords: nat) returns (ok: bool)
    ensures ok <==> SerialHistory(logs, numRecords, |logs|)
  {
    var records := InitialRecords(numRecords);
    for n := 0 to |logs|
      invariant AllInRange(logs[..n], numRecords) && records == Replay(logs[..n], numRecords)
      invariant forall m :: 0 <= m < n ==> LineOk(logs, numRecords, m)
    {
      if logs[n].commitId != n + 1 || !InRange(logs[n], numRecords) {
        assert logs[..n+1][n] == logs[n];
        assert !LineOk(logs, numRecords, n);
        return false;
      }
      ReplaySnoc(logs[..n], logs[n], numRecords);
      assert logs[..n+1] == logs[..n] + [logs[n]];
      records := Apply(records, logs[n]);
      if logs[n].vj != records[logs[n].j] || logs[n].vk != records[logs[n].k] {
        assert !LineOk(logs, numRecords, n);
        return false;
      }
    }
    return true;
  }

  method ReadLogs(files: seq<seq<Log>>) returns (logs: seq<Log>)
    ensures logs == Concat(files)
  {
    logs := [];
    for f := 0 to |files|
      invariant logs == Concat(files[..f])
    {
      assert files[..f+1][..f] == files[..f];
      logs := logs + files[f];
    }
    assert files[..|files|] == files;
  }

  /** Reads the log files of all workers and replays them; `ok` stands for "Validation succeeded!". */
  method Validate(files: seq<seq<Log>>, numRecords: nat, last: nat) returns (ok: bool)
    ensures ok <==> exists order: seq<Log> :: multiset(order) == multiset(Concat(files))
                      && SerialHistory(order, numRecords, last)
  {
    var logs := ReadLogs(files);
    forall order: seq<Log> | multiset(order) == multiset(logs) ensures |order| == |logs| {
      assert |multiset(order)| == |order| && |multiset(logs)| == |logs|;
    }
    if |logs| != last {
      return false;
    }
    var sorted := SortById(logs);
    forall order: seq<Log> | multiset(order) == multiset(logs) && SerialHistory(order, numRecords, last)
      ensures order == sorted {
      forall n | 0 <= n < |order| ensures order[n].commitId == n + 1 { assert LineOk(order, numRecords, n); }
      SortedUnique(sorted, order, 0);
    }
    assert |sorted| == |multiset(sorted)| == |multiset(logs)| == |logs|;
    ok := CheckReplay(sorted, numRecords);
  }
}
