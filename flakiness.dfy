/**
 * Flakiness detection: the suite is run `runs` times, every reported status is appended to
 * its test's history, and the tests whose history holds two or more distinct statuses are
 * flagged. The executor is an input: `run(i)` is what the `i`-th call reports.
 */
module Flakiness {

  import opened Wrappers
  import opened PyValues
  import opened Results
  import opened FirstWins

  /** `results_per_test`: each test name's statuses, in insertion order of the names. */
  type History = Dict<seq<Status>>

  /** `results_per_test.get(name, [])` */
  function Statuses(h: History, name: string): seq<Status>
  {
    Get(h, name).GetOr([])
  }

  /** `results_per_test.setdefault(name, []).append(status)` */
  function AppendStatus(h: History, name: string, status: Status): History
  {
    Put(h, name, Statuses(h, name) + [status])
  }

  /** The history after recording one run's results, in report order. */
  function Record(h: History, rs: seq<TestResult>): History
    decreases |rs|
  {
    if rs == [] then h
    else
      var last := rs[|rs| - 1];
      AppendStatus(Record(h, rs[..|rs| - 1]), last.testName, last.status)
  }

  /** The history after the first `k` runs. */
  function Histories(run: nat -> ExecutionResult, k: nat): History
  {
    if k == 0 then [] else Record(Histories(run, k - 1), run(k - 1).testResults)
  }

  /** `len(set(statuses)) > 1` */
  predicate IsFlaky(statuses: seq<Status>)
  {
    |set s | s in statuses| > 1
  }

  /** The flagged names, in the history's key order. */
  function FlakyNames(h: History): seq<string>
  {
    if h == [] then []
    else FlakyNames(h[..|h| - 1]) + (if IsFlaky(h[|h| - 1].1) then [h[|h| - 1].0] else [])
  }

  // ---------------------------------------------------------------- reference definitions

  /** The statuses one run reports for `name`, in report order. */
  function StatusesIn(rs: seq<TestResult>, name: string): seq<Status>
    decreases |rs|
  {
    if rs == [] then []
    else StatusesIn(rs[..|rs| - 1], name) + (if rs[|rs| - 1].testName == name then [rs[|rs| - 1].status] else [])
  }

  /** The statuses reported for `name` over the first `k` runs, in run order. */
  function HistoryOf(run: nat -> ExecutionResult, k: nat, name: string): seq<Status>
  {
    if k == 0 then [] else HistoryOf(run, k - 1, name) + StatusesIn(run(k - 1).testResults, name)
  }

  /** Every name reported over the first `k` runs, in run order and report order. */
  function AllNames(run: nat -> ExecutionResult, k: nat): seq<string>
  {
    if k == 0 then [] else AllNames(run, k - 1) + NamesOf(run(k - 1).testResults, TestName)
  }

  function TestName(r: TestResult): string { r.testName }

  /** The names in order of first appearance, each once. */
  function FirstSeen(names: seq<string>): seq<string>
    decreases |names|
  {
    if names == [] then []
    else
      var prev := FirstSeen(names[..|names| - 1]);
      if names[|names| - 1] in prev then prev else prev + [names[|names| - 1]]
  }

  /** Every name is listed, and nothing else. */
  lemma {:induction false} FirstSeenMember(names: seq<string>, n: string)
    ensures n in FirstSeen(names) <==> n in names
    decreases |names|
  {
    if names != [] {
      FirstSeenMember(names[..|names| - 1], n);
      assert names == names[..|names| - 1] + [names[|names| - 1]];
    }
  }

  /** The names among `names` whose reference history is flaky, in the order given. */
  function FlakyAmong(names: seq<string>, run: nat -> ExecutionResult, k: nat): seq<string>
  {
    if names == [] then []
    else
      var n := names[|names| - 1];
      FlakyAmong(names[..|names| - 1], run, k) + (if IsFlaky(HistoryOf(run, k, n)) then [n] else [])
  }

  // ---------------------------------------------------------------- histories

  /** Recording a run appends exactly that run's statuses to each history. */
  lemma {:induction false} RecordStatuses(h: History, rs: seq<TestResult>, name: string)
    ensures Statuses(Record(h, rs), name) == Statuses(h, name) + StatusesIn(rs, name)
    decreases |rs|
  {
    if rs != [] {
      var prefix := rs[..|rs| - 1];
      var last := rs[|rs| - 1];
      RecordStatuses(h, prefix, name);
      var before := Record(h, prefix);
      var v := Statuses(before, last.testName) + [last.status];
      assert Record(h, rs) == Put(before, last.testName, v);
      PutGet(before, last.testName, v);
      if last.testName == name {
        assert StatusesIn(rs, name) == StatusesIn(prefix, name) + [last.status];
        assert Statuses(Record(h, rs), name) == v;
      } else {
        assert StatusesIn(rs, name) == StatusesIn(prefix, name);
        assert Statuses(Record(h, rs), name) == Statuses(before, name);
      }
    }
  }

  /** Recording a run adds exactly the names it reports. */
  lemma {:induction false} RecordHasKey(h: History, rs: seq<TestResult>, name: string)
    ensures HasKey(Record(h, rs), name) <==> HasKey(h, name) || StatusesIn(rs, name) != []
    decreases |rs|
  {
    if rs != [] {
      var prefix := rs[..|rs| - 1];
      var last := rs[|rs| - 1];
      RecordHasKey(h, prefix, name);
      var before := Record(h, prefix);
      var v := Statuses(before, last.testName) + [last.status];
      assert Record(h, rs) == Put(before, last.testName, v);
      assert StatusesIn(rs, name) == StatusesIn(prefix, name) + (if last.testName == name then [last.status] else []);
      PutHasKey(before, last.testName, v, name);
    }
  }

  /** The dict built by the runs holds, for each name, exactly its reference history, and holds the names reported at least once. */
  lemma {:induction false} HistoriesSpec(run: nat -> ExecutionResult, k: nat, name: string)
    ensures Statuses(Histories(run, k), name) == HistoryOf(run, k, name)
    ensures HasKey(Histories(run, k), name) <==> HistoryOf(run, k, name) != []
  {
    if k > 0 {
      HistoriesSpec(run, k - 1, name);
      RecordStatuses(Histories(run, k - 1), run(k - 1).testResults, name);
      RecordHasKey(Histories(run, k - 1), run(k - 1).testResults, name);
    }
  }

  /** Appending a result appends its name. */
  lemma NamesOfSnoc(rs: seq<TestResult>, r: TestResult)
    ensures NamesOf(rs + [r], TestName) == NamesOf(rs, TestName) + [r.testName]
  {
  }

  lemma SnocAssoc(a: seq<string>, b: seq<string>, x: string)
    ensures a + (b + [x]) == (a + b) + [x]
  {
  }

  /** A name seen for the first time goes to the end; a repeated one changes nothing. */
  lemma FirstSeenSnoc(names: seq<string>, n: string)
    ensures FirstSeen(names + [n]) == if n in FirstSeen(names) then FirstSeen(names) else FirstSeen(names) + [n]
  {
    assert (names + [n])[..|names|] == names;
  }

  /** Recording keeps the keys in first-appearance order. */
  lemma {:induction false} RecordKeys(h: History, rs: seq<TestResult>, names: seq<string>)
    requires Keys(h) == FirstSeen(names)
    ensures Keys(Record(h, rs)) == FirstSeen(names + NamesOf(rs, TestName))
    decreases |rs|
  {
    if rs == [] {
      assert names + NamesOf(rs, TestName) == names;
    } else {
      var prefix := rs[..|rs| - 1];
      var last := rs[|rs| - 1];
      LastSplit(rs);
      RecordKeys(h, prefix, names);
      NamesOfSnoc(prefix, last);
      var all := names + NamesOf(rs, TestName);
      var earlier := names + NamesOf(prefix, TestName);
      SnocAssoc(names, NamesOf(prefix, TestName), last.testName);
      var before := Record(h, prefix);
      assert Record(h, rs) == Put(before, last.testName, Statuses(before, last.testName) + [last.status]);
      PutKeysStep(before, last.testName, Statuses(before, last.testName) + [last.status], earlier);
    }
  }

  lemma LastSplit<T>(s: seq<T>)
    requires s != []
    ensures s == s[..|s| - 1] + [s[|s| - 1]]
  {
  }

  /** Putting a name extends the keys as one more sighting of that name would. */
  lemma PutKeysStep(before: History, n: string, v: seq<Status>, names: seq<string>)
    requires Keys(before) == FirstSeen(names)
    ensures Keys(Put(before, n, v)) == FirstSeen(names + [n])
  {
    FirstSeenSnoc(names, n);
    assert HasKey(before, n) <==> n in Keys(before);
  }

  /** The keys of the history are the reported names in order of first appearance. */
  lemma {:induction false} HistoriesKeys(run: nat -> ExecutionResult, k: nat)
    ensures Keys(Histories(run, k)) == FirstSeen(AllNames(run, k))
  {
    if k > 0 {
      var h := Histories(run, k - 1);
      var rs := run(k - 1).testResults;
      var names := AllNames(run, k - 1);
      HistoriesKeys(run, k - 1);
      RecordKeys(h, rs, names);
      assert Histories(run, k) == Record(h, rs);
      assert AllNames(run, k) == names + NamesOf(rs, TestName);
    }
  }

  /** The history's keys are distinct. */
  lemma {:induction false} RecordDistinct(h: History, rs: seq<TestResult>)
    requires DistinctKeys(h)
    ensures DistinctKeys(Record(h, rs))
    decreases |rs|
  {
    if rs != [] {
      RecordDistinct(h, rs[..|rs| - 1]);
      var last := rs[|rs| - 1];
      var before := Record(h, rs[..|rs| - 1]);
      PutDistinct(before, last.testName, Statuses(before, last.testName) + [last.status]);
    }
  }

  lemma {:induction false} HistoriesDistinct(run: nat -> ExecutionResult, k: nat)
    ensures DistinctKeys(Histories(run, k))
  {
    if k > 0 {
      HistoriesDistinct(run, k - 1);
      RecordDistinct(Histories(run, k - 1), run(k - 1).testResults);
    }
  }

  // ---------------------------------------------------------------- the flagged names

  /** `FlakyNames` picks the keys whose stored history is flaky. */
  lemma {:induction false} FlakyNamesByKey(h: History, run: nat -> ExecutionResult, k: nat)
    requires DistinctKeys(h)
    requires forall i :: 0 <= i < |h| ==> h[i].1 == HistoryOf(run, k, h[i].0)
    ensures FlakyNames(h) == FlakyAmong(Keys(h), run, k)
    decreases |h|
  {
    if h != [] {
      var prefix := h[..|h| - 1];
      assert DistinctKeys(prefix);
      FlakyNamesByKey(prefix, run, k);
      assert Keys(h)[..|h| - 1] == Keys(prefix);
    }
  }

  /** The stored entry of each key is that key's reference history. */
  lemma HistoryEntries(run: nat -> ExecutionResult, k: nat)
    ensures var h := Histories(run, k); forall i :: 0 <= i < |h| ==> h[i].1 == HistoryOf(run, k, h[i].0)
  {
    var h := Histories(run, k);
    HistoriesDistinct(run, k);
    forall i | 0 <= i < |h|
      ensures h[i].1 == HistoryOf(run, k, h[i].0)
    {
      GetAt(h, i);
      HistoriesSpec(run, k, h[i].0);
    }
  }

  /**
   * The flagged names are the reported names, in order of first appearance, whose history over
   * the runs holds two or more distinct statuses.
   */
  lemma FlakySpec(run: nat -> ExecutionResult, k: nat)
    ensures FlakyNames(Histories(run, k)) == FlakyAmong(FirstSeen(AllNames(run, k)), run, k)
  {
    HistoriesDistinct(run, k);
    HistoryEntries(run, k);
    HistoriesKeys(run, k);
    FlakyNamesByKey(Histories(run, k), run, k);
  }

  /** A name is among the flagged iff it is given and its history is flaky. */
  lemma {:induction false} FlakyAmongMember(names: seq<string>, run: nat -> ExecutionResult, k: nat, n: string)
    ensures n in FlakyAmong(names, run, k) <==> n in names && IsFlaky(HistoryOf(run, k, n))
    decreases |names|
  {
    if names != [] {
      FlakyAmongMember(names[..|names| - 1], run, k, n);
      assert names == names[..|names| - 1] + [names[|names| - 1]];
    }
  }

  /** Names in order of first appearance are distinct. */
  lemma {:induction false} FirstSeenDistinct(names: seq<string>)
    ensures forall a, b :: 0 <= a < b < |FirstSeen(names)| ==> FirstSeen(names)[a] != FirstSeen(names)[b]
    decreases |names|
  {
    if names != [] {
      FirstSeenDistinct(names[..|names| - 1]);
    }
  }

  /** Filtering distinct names keeps them distinct. */
  lemma {:induction false} FlakyAmongDistinct(names: seq<string>, run: nat -> ExecutionResult, k: nat)
    requires forall a, b :: 0 <= a < b < |names| ==> names[a] != names[b]
    ensures forall a, b :: 0 <= a < b < |FlakyAmong(names, run, k)| ==> FlakyAmong(names, run, k)[a] != FlakyAmong(names, run, k)[b]
    decreases |names|
  {
    if names != [] {
      var prefix := names[..|names| - 1];
      var n := names[|names| - 1];
      FlakyAmongDistinct(prefix, run, k);
      FlakyAmongMember(prefix, run, k, n);
      assert n !in prefix;
    }
  }

  /** The output holds no name twice, and a name is in it iff it was reported and its history is flaky. */
  lemma FlakyMembers(run: nat -> ExecutionResult, k: nat, n: string)
    ensures n in FlakyNames(Histories(run, k)) <==> n in AllNames(run, k) && IsFlaky(HistoryOf(run, k, n))
    ensures var f := FlakyNames(Histories(run, k)); forall a, b :: 0 <= a < b < |f| ==> f[a] != f[b]
  {
    FlakySpec(run, k);
    FlakyAmongMember(FirstSeen(AllNames(run, k)), run, k, n);
    FirstSeenMember(AllNames(run, k), n);
    FirstSeenDistinct(AllNames(run, k));
    FlakyAmongDistinct(FirstSeen(AllNames(run, k)), run, k);
  }

  /** A history is flaky iff two of its entries differ; a history of one repeated status never is. */
  lemma FlakyIff(statuses: seq<Status>)
    ensures IsFlaky(statuses) <==> exists i, j :: 0 <= i < |statuses| && 0 <= j < |statuses| && statuses[i] != statuses[j]
  {
    var distinct := set s | s in statuses;
    if exists i, j :: 0 <= i < |statuses| && 0 <= j < |statuses| && statuses[i] != statuses[j] {
      var i, j :| 0 <= i < |statuses| && 0 <= j < |statuses| && statuses[i] != statuses[j];
      assert {statuses[i], statuses[j]} <= distinct;
      assert |{statuses[i], statuses[j]}| == 2;
      SubsetCard({statuses[i], statuses[j]}, distinct);
    } else if statuses != [] {
      assert distinct == {statuses[0]};
    } else {
      assert distinct == {};
    }
  }

  lemma {:induction false} SubsetCard<T>(a: set<T>, b: set<T>)
    requires a <= b
    ensures |a| <= |b|
    decreases |b|
  {
    if a != {} {
      var x :| x in a;
      SubsetCard(a - {x}, b - {x});
    }
  }

  /** With at most one result per name in each run, a history is no longer than the number of runs. */
  lemma {:induction false} HistoryBound(run: nat -> ExecutionResult, k: nat, name: string)
    requires forall i :: 0 <= i < k ==> DistinctNames(run(i).testResults, TestName)
    ensures |HistoryOf(run, k, name)| <= k
  {
    if k > 0 {
      HistoryBound(run, k - 1, name);
      StatusesInBound(run(k - 1).testResults, name);
    }
  }

  lemma {:induction false} StatusesInBound(rs: seq<TestResult>, name: string)
    requires DistinctNames(rs, TestName)
    ensures |StatusesIn(rs, name)| <= 1
    ensures |StatusesIn(rs, name)| == 1 <==> name in NamesOf(rs, TestName)
    decreases |rs|
  {
    if rs != [] {
      var prefix := rs[..|rs| - 1];
      assert DistinctNames(prefix, TestName);
      StatusesInBound(prefix, name);
      if rs[|rs| - 1].testName == name {
        assert name !in NamesOf(prefix, TestName);
      }
      assert NamesOf(rs, TestName) == NamesOf(prefix, TestName) + [rs[|rs| - 1].testName];
    }
  }

  // ---------------------------------------------------------------- the detector

  /**
   * `detect_flaky_tests`. `calls` counts the executor runs: none when `runs < 2`, otherwise
   * exactly `runs`, one after another.
   */
  method DetectFlakyTests(runs: int, run: nat -> ExecutionResult) returns (flaky: seq<string>, ghost calls: nat)
    ensures runs < 2 ==> flaky == [] && calls == 0
    ensures runs >= 2 ==> calls == runs && flaky == FlakyNames(Histories(run, runs))
  {
    calls := 0;
    if runs < 2 {
      return [], calls;
    }
    var resultsPerTest: History := [];
    var i := 0;
    while i < runs
      invariant 0 <= i <= runs && calls == i
      invariant resultsPerTest == Histories(run, i)
    {
      var output := run(i);
      calls := calls + 1;
      resultsPerTest := RecordRun(resultsPerTest, output.testResults);
      i := i + 1;
    }
    flaky := CollectFlaky(resultsPerTest);
  }

  /** The inner loop: append each reported status to its test's history. */
  method RecordRun(h: History, rs: seq<TestResult>) returns (h': History)
    ensures h' == Record(h, rs)
  {
    h' := h;
    var j := 0;
    while j < |rs|
      invariant 0 <= j <= |rs|
      invariant h' == Record(h, rs[..j])
    {
      assert rs[..j + 1][..j] == rs[..j];
      var statuses := Get(h', rs[j].testName).GetOr([]);
      h' := Put(h', rs[j].testName, statuses + [rs[j].status]);
      j := j + 1;
    }
    assert rs[..j] == rs;
  }

  /** The second loop: the names whose statuses hold two or more distinct values. */
  method CollectFlaky(h: History) returns (flaky: seq<string>)
    ensures flaky == FlakyNames(h)
  {
    flaky := [];
    var j := 0;
    while j < |h|
      invariant 0 <= j <= |h|
      invariant flaky == FlakyNames(h[..j])
    {
      assert h[..j + 1][..j] == h[..j];
      var (testName, statuses) := h[j];
      if |set s | s in statuses| > 1 {
        flaky := flaky + [testName];
      }
      j := j + 1;
    }
    assert h[..j] == h;
  }
}
