/**
 * The per-application context that accumulates knowledge across pipeline runs, and its
 * update after one run: the endpoint map is merged append-only, new test names and tested
 * endpoints are added once each, the untested endpoints are recomputed, and the run is
 * recorded. The clock and the run id are parameters; persisting the context is not modelled.
 */
module ContextStore {

  import opened Wrappers
  import opened Text
  import opened Picking
  import opened Sorting
  import opened TestModel
  import opened Results

  /** One pipeline run, as recorded in the history. */
  datatype RunRecord = RunRecord(
    runId: string,
    mode: string,
    timestamp: int,
    testsGenerated: nat,
    testsPassed: nat,
    testsFailed: nat)

  // ---------------------------------------------------------------- specification

  /** `xs` extended by each element of `ys` not yet present, in order: `if y not in xs: xs.append(y)`. */
  function AddNew(xs: seq<string>, ys: seq<string>): seq<string>
    decreases |ys|
  {
    if ys == [] then xs
    else
      var prev := AddNew(xs, ys[..|ys| - 1]);
      var y := ys[|ys| - 1];
      if y in prev then prev else prev + [y]
  }

  /** The identity of an endpoint in the merge. */
  function EndpointKey(ep: EndpointInfo): (string, string)
  {
    (ep.httpMethod, ep.path)
  }

  /** `{(ep.method, ep.path) for ep in endpoints}` */
  function KeysOf(eps: seq<EndpointInfo>): set<(string, string)>
  {
    set ep | ep in eps :: EndpointKey(ep)
  }

  /** The incoming endpoints whose key is absent from `existing`, in incoming order. */
  function NewEndpoints(existing: seq<EndpointInfo>, incoming: seq<EndpointInfo>): seq<EndpointInfo>
  {
    Pick(incoming, Unseen(KeysOf(existing)))
  }

  /** An endpoint, unless its key is among `known`. */
  function Unseen(known: set<(string, string)>): EndpointInfo -> Option<EndpointInfo>
  {
    (ep: EndpointInfo) => if EndpointKey(ep) in known then None else Some(ep)
  }

  /** The map after merging `incoming` into `current`. */
  function MergedMap(current: Option<EndpointMap>, incoming: Option<EndpointMap>): Option<EndpointMap>
  {
    match incoming
    case None => current
    case Some(m) =>
      match current
      case None => Some(m)
      case Some(c) => Some(c.(endpoints := c.endpoints + NewEndpoints(c.endpoints, m.endpoints)))
  }

  /** `test.name` */
  function NameOf(t: GeneratedTest): Option<string>
  {
    Some(t.name)
  }

  /** `"METHOD endpoint"` for a test whose target method and endpoint are both non-empty. */
  function TargetKey(t: GeneratedTest): Option<string>
  {
    match (t.targetMethod, t.targetEndpoint)
    case (Some(m), Some(e)) => if m != [] && e != [] then Some(m + " " + e) else None
    case _ => None
  }

  /** The tests of an optional suite. */
  function TestsOf(suite: Option<TestSuite>): seq<GeneratedTest>
  {
    match suite
    case None => []
    case Some(s) => s.tests
  }

  /** `"METHOD path"` of an endpoint. */
  function EndpointLabel(ep: EndpointInfo): string
  {
    ep.httpMethod + " " + ep.path
  }

  /** The label of an endpoint, unless it is among the tested ones. */
  function UntestedLabel(tested: seq<string>): EndpointInfo -> Option<string>
  {
    (ep: EndpointInfo) => if EndpointLabel(ep) in tested then None else Some(EndpointLabel(ep))
  }

  /** `sorted(all_endpoints - set(tested))` */
  function Untested(eps: seq<EndpointInfo>, tested: seq<string>): seq<string>
  {
    StrLtIsOrder();
    SortedSet(Pick(eps, UntestedLabel(tested)), StrLt)
  }

  /** The run record: counts of the suite and of the execution result, 0 when absent. */
  function RecordOf(runId: string, mode: string, now: int, suite: Option<TestSuite>,
                    validation: Option<ValidationResult>): (r: RunRecord)
    ensures r.testsGenerated == |TestsOf(suite)|
    ensures (validation.None? || validation.value.executionResult.None?) ==> r.testsPassed == 0 && r.testsFailed == 0
  {
    var generated := if suite.Some? then suite.value.TestCount() else 0;
    var execution := if validation.Some? then validation.value.executionResult else None;
    var passed := if execution.Some? then PassedCount(execution.value) else 0;
    var failed := if execution.Some? then FailedCount(execution.value) else 0;
    RunRecord(runId, mode, now, generated, passed, failed)
  }

  /** The sum of one counter over a run history. */
  function SumOf(history: seq<RunRecord>, counter: RunRecord -> nat): nat
    decreases |history|
  {
    if history == [] then 0 else SumOf(history[..|history| - 1], counter) + counter(history[|history| - 1])
  }

  function Generated(r: RunRecord): nat { r.testsGenerated }
  function PassedOf(r: RunRecord): nat { r.testsPassed }
  function FailedOf(r: RunRecord): nat { r.testsFailed }

  // ---------------------------------------------------------------- the context

  /** `AppContext`, updated in place by `update_from_run`. */
  class AppContext {
    const appId: string
    const appName: string
    const baseUrl: string
    const description: string
    var endpointMap: Option<EndpointMap>
    var knownTestNames: seq<string>
    var testedEndpoints: seq<string>
    var untestedEndpoints: seq<string>
    var coverageGaps: seq<string>
    var totalTestsGenerated: nat
    var totalTestsPassed: nat
    var totalTestsFailed: nat
    var runHistory: seq<RunRecord>
    var createdAt: int
    var updatedAt: int

    /** A fresh context: no map, empty lists, zero totals. */
    constructor (appId: string, appName: string, baseUrl: string, description: string, now: int)
      ensures this.appId == appId && this.appName == appName && this.baseUrl == baseUrl
      ensures this.description == description
      ensures endpointMap == None && knownTestNames == [] && testedEndpoints == []
      ensures untestedEndpoints == [] && coverageGaps == [] && runHistory == []
      ensures totalTestsGenerated == 0 && totalTestsPassed == 0 && totalTestsFailed == 0
      ensures createdAt == now && updatedAt == now
      ensures Consistent()
    {
      this.appId := appId;
      this.appName := appName;
      this.baseUrl := baseUrl;
      this.description := description;
      endpointMap := None;
      knownTestNames := [];
      testedEndpoints := [];
      untestedEndpoints := [];
      coverageGaps := [];
      totalTestsGenerated := 0;
      totalTestsPassed := 0;
      totalTestsFailed := 0;
      runHistory := [];
      createdAt := now;
      updatedAt := now;
    }

    /** The totals are the sums over the run history, as they are for a context built only by updates. */
    predicate Consistent()
      reads this
    {
      totalTestsGenerated == SumOf(runHistory, Generated)
      && totalTestsPassed == SumOf(runHistory, PassedOf)
      && totalTestsFailed == SumOf(runHistory, FailedOf)
    }

    /**
     * `update_from_run`, with the clock reading `now` and the fresh run id given. The map is
     * merged, the names and tested endpoints grow, the untested list is recomputed when a map
     * exists, and the run is appended to the history and added to the totals.
     */
    method UpdateFromRun(mode: string, suite: Option<TestSuite>, validation: Option<ValidationResult>,
                         incoming: Option<EndpointMap>, runId: string, now: int)
      modifies this
      ensures updatedAt == now
      ensures endpointMap == MergedMap(old(endpointMap), incoming)
      ensures knownTestNames == AddNew(old(knownTestNames), Pick(TestsOf(suite), NameOf))
      ensures testedEndpoints == AddNew(old(testedEndpoints), Pick(TestsOf(suite), TargetKey))
      ensures untestedEndpoints == (if endpointMap.Some? then Untested(endpointMap.value.endpoints, testedEndpoints)
                                    else old(untestedEndpoints))
      ensures runHistory == old(runHistory) + [RecordOf(runId, mode, now, suite, validation)]
      ensures totalTestsGenerated == old(totalTestsGenerated) + RecordOf(runId, mode, now, suite, validation).testsGenerated
      ensures totalTestsPassed == old(totalTestsPassed) + RecordOf(runId, mode, now, suite, validation).testsPassed
      ensures totalTestsFailed == old(totalTestsFailed) + RecordOf(runId, mode, now, suite, validation).testsFailed
      ensures coverageGaps == old(coverageGaps) && createdAt == old(createdAt)
      ensures old(Consistent()) ==> Consistent()
    {
      MergeEndpointMap(incoming);
      TrackTests(suite);
      RecordRun(RecordOf(runId, mode, now, suite, validation));
      updatedAt := now;
    }

    /** The endpoint-map merge: adopt the incoming map when there is none, else append the endpoints whose key is new. */
    method MergeEndpointMap(incoming: Option<EndpointMap>)
      modifies this
      ensures endpointMap == MergedMap(old(endpointMap), incoming)
      ensures knownTestNames == old(knownTestNames) && testedEndpoints == old(testedEndpoints)
      ensures untestedEndpoints == old(untestedEndpoints) && runHistory == old(runHistory)
      ensures coverageGaps == old(coverageGaps) && createdAt == old(createdAt) && updatedAt == old(updatedAt)
      ensures totalTestsGenerated == old(totalTestsGenerated) && totalTestsPassed == old(totalTestsPassed)
      ensures totalTestsFailed == old(totalTestsFailed)
    {
      if incoming.Some? {
        if endpointMap.None? {
          endpointMap := incoming;
        } else {
          var eps := AppendNewEndpoints(endpointMap.value.endpoints, incoming.value.endpoints);
          endpointMap := Some(endpointMap.value.(endpoints := eps));
        }
      }
    }

    /** Test tracking: new names and new tested endpoints are appended, then the untested list is recomputed from the map. */
    method TrackTests(suite: Option<TestSuite>)
      modifies this
      ensures knownTestNames == AddNew(old(knownTestNames), Pick(TestsOf(suite), NameOf))
      ensures testedEndpoints == AddNew(old(testedEndpoints), Pick(TestsOf(suite), TargetKey))
      ensures untestedEndpoints == (if endpointMap.Some? then Untested(endpointMap.value.endpoints, testedEndpoints)
                                    else old(untestedEndpoints))
      ensures endpointMap == old(endpointMap) && runHistory == old(runHistory)
      ensures coverageGaps == old(coverageGaps) && createdAt == old(createdAt) && updatedAt == old(updatedAt)
      ensures totalTestsGenerated == old(totalTestsGenerated) && totalTestsPassed == old(totalTestsPassed)
      ensures totalTestsFailed == old(totalTestsFailed)
    {
      var tests := TestsOf(suite);
      knownTestNames := AddPicked(knownTestNames, tests, NameOf);
      testedEndpoints := AddPicked(testedEndpoints, tests, TargetKey);
      if endpointMap.Some? {
        untestedEndpoints := Untested(endpointMap.value.endpoints, testedEndpoints);
      }
    }

    /** Appending a run to the history and adding its counts to the totals. */
    method RecordRun(record: RunRecord)
      modifies this
      ensures runHistory == old(runHistory) + [record]
      ensures totalTestsGenerated == old(totalTestsGenerated) + record.testsGenerated
      ensures totalTestsPassed == old(totalTestsPassed) + record.testsPassed
      ensures totalTestsFailed == old(totalTestsFailed) + record.testsFailed
      ensures endpointMap == old(endpointMap) && knownTestNames == old(knownTestNames)
      ensures testedEndpoints == old(testedEndpoints) && untestedEndpoints == old(untestedEndpoints)
      ensures coverageGaps == old(coverageGaps) && createdAt == old(createdAt) && updatedAt == old(updatedAt)
      ensures old(Consistent()) ==> Consistent()
    {
      SumsStep(runHistory, record);
      runHistory := runHistory + [record];
      totalTestsGenerated := totalTestsGenerated + record.testsGenerated;
      totalTestsPassed := totalTestsPassed + record.testsPassed;
      totalTestsFailed := totalTestsFailed + record.testsFailed;
    }
  }

  /** The merge loop: each incoming endpoint whose key was absent before the loop is appended. */
  method AppendNewEndpoints(existing: seq<EndpointInfo>, incoming: seq<EndpointInfo>) returns (eps: seq<EndpointInfo>)
    ensures eps == existing + NewEndpoints(existing, incoming)
  {
    var known := KeysOf(existing);
    eps := existing;
    for i := 0 to |incoming|
      invariant eps == existing + Pick(incoming[..i], Unseen(known))
    {
      PickSnoc(incoming, i, Unseen(known));
      if EndpointKey(incoming[i]) !in known {
        eps := eps + [incoming[i]];
      }
    }
    assert incoming[..|incoming|] == incoming;
  }

  /** `for test in tests: if <value> and value not in xs: xs.append(value)` */
  method AddPicked(xs: seq<string>, tests: seq<GeneratedTest>, pick: GeneratedTest -> Option<string>) returns (r: seq<string>)
    ensures r == AddNew(xs, Pick(tests, pick))
  {
    r := xs;
    assert tests[..0] == [];
    for i := 0 to |tests|
      invariant r == AddNew(xs, Pick(tests[..i], pick))
    {
      PickSnoc(tests, i, pick);
      ghost var before := Pick(tests[..i], pick);
      var picked := pick(tests[i]);
      if picked.Some? {
        assert Pick(tests[..i + 1], pick) == before + [picked.value];
        AddNewSnoc(xs, before, picked.value);
        if picked.value !in r {
          r := r + [picked.value];
        }
      } else {
        assert Pick(tests[..i + 1], pick) == before;
      }
    }
    assert tests[..|tests|] == tests;
  }

  // ---------------------------------------------------------------- properties

  /** Adding one more candidate. */
  lemma AddNewSnoc(xs: seq<string>, ys: seq<string>, y: string)
    ensures AddNew(xs, ys + [y]) == if y in AddNew(xs, ys) then AddNew(xs, ys) else AddNew(xs, ys) + [y]
  {
    assert (ys + [y])[..|ys|] == ys;
  }

  /** Each total grows by the record's count. */
  lemma SumsStep(history: seq<RunRecord>, r: RunRecord)
    ensures SumOf(history + [r], Generated) == SumOf(history, Generated) + r.testsGenerated
    ensures SumOf(history + [r], PassedOf) == SumOf(history, PassedOf) + r.testsPassed
    ensures SumOf(history + [r], FailedOf) == SumOf(history, FailedOf) + r.testsFailed
  {
    SumOfSnoc(history, r, Generated);
    SumOfSnoc(history, r, PassedOf);
    SumOfSnoc(history, r, FailedOf);
  }

  /** Summing one more record. */
  lemma SumOfSnoc(history: seq<RunRecord>, r: RunRecord, counter: RunRecord -> nat)
    ensures SumOf(history + [r], counter) == SumOf(history, counter) + counter(r)
  {
    assert (history + [r])[..|history|] == history;
  }

  /** Existing entries are never removed or reordered: the old list is a prefix of the new one. */
  lemma {:induction false} AddNewPrefix(xs: seq<string>, ys: seq<string>)
    ensures |AddNew(xs, ys)| >= |xs| && AddNew(xs, ys)[..|xs|] == xs
    decreases |ys|
  {
    if ys != [] {
      AddNewPrefix(xs, ys[..|ys| - 1]);
    }
  }

  /** An entry is in the result exactly when it was there before or is among the candidates. */
  lemma {:induction false} AddNewMember(xs: seq<string>, ys: seq<string>, z: string)
    ensures z in AddNew(xs, ys) <==> z in xs || z in ys
    decreases |ys|
  {
    if ys != [] {
      var init := ys[..|ys| - 1];
      AddNewMember(xs, init, z);
      assert ys == init + [ys[|ys| - 1]];
    }
  }

  /** No entry occurs twice. */
  predicate Distinct(s: seq<string>)
  {
    forall i, j :: 0 <= i < j < |s| ==> s[i] != s[j]
  }

  /** Appending an absent entry keeps a list duplicate-free. */
  lemma DistinctSnoc(s: seq<string>, y: string)
    requires Distinct(s) && y !in s
    ensures Distinct(s + [y])
  {
    var r := s + [y];
    forall i, j | 0 <= i < j < |r|
      ensures r[i] != r[j]
    {
      assert r[i] == s[i];
      if j < |s| {
        assert r[j] == s[j];
      }
    }
  }

  /** The appended entries are new and each is appended once: a duplicate-free list stays duplicate-free. */
  lemma {:induction false} AddNewDistinct(xs: seq<string>, ys: seq<string>)
    requires Distinct(xs)
    ensures Distinct(AddNew(xs, ys))
    decreases |ys|
  {
    if ys != [] {
      var prev := AddNew(xs, ys[..|ys| - 1]);
      var y := ys[|ys| - 1];
      AddNewDistinct(xs, ys[..|ys| - 1]);
      if y !in prev {
        DistinctSnoc(prev, y);
      }
    }
  }

  /** Candidates that are all present already add nothing. */
  lemma {:induction false} AddNewPresent(xs: seq<string>, ys: seq<string>)
    requires forall k :: 0 <= k < |ys| ==> ys[k] in xs
    ensures AddNew(xs, ys) == xs
    decreases |ys|
  {
    if ys != [] {
      AddNewPresent(xs, ys[..|ys| - 1]);
    }
  }

  /** Recording the same tests twice adds nothing the second time. */
  lemma AddNewIdempotent(xs: seq<string>, ys: seq<string>)
    ensures AddNew(AddNew(xs, ys), ys) == AddNew(xs, ys)
  {
    forall k | 0 <= k < |ys|
      ensures ys[k] in AddNew(xs, ys)
    {
      AddNewMember(xs, ys, ys[k]);
    }
    AddNewPresent(AddNew(xs, ys), ys);
  }

  /** After a merge the keys are exactly the keys of the current map and of the incoming one. */
  lemma MergedKeys(c: EndpointMap, m: EndpointMap)
    ensures var r := MergedMap(Some(c), Some(m)).value;
      r.endpoints[..|c.endpoints|] == c.endpoints
      && KeysOf(r.endpoints) == KeysOf(c.endpoints) + KeysOf(m.endpoints)
  {
    var known := KeysOf(c.endpoints);
    var added := NewEndpoints(c.endpoints, m.endpoints);
    var r := c.endpoints + added;
    assert r[..|c.endpoints|] == c.endpoints;
    forall k
      ensures k in KeysOf(r) <==> k in known || k in KeysOf(m.endpoints)
    {
      if k in KeysOf(r) {
        var ep :| ep in r && EndpointKey(ep) == k;
        if ep !in c.endpoints {
          assert ep in added;
          PickMember(m.endpoints, Unseen(known), ep);
          var i :| 0 <= i < |m.endpoints| && Unseen(known)(m.endpoints[i]) == Some(ep);
          assert m.endpoints[i] == ep;
        }
      }
      if k in KeysOf(m.endpoints) && k !in known {
        var ep :| ep in m.endpoints && EndpointKey(ep) == k;
        var i :| 0 <= i < |m.endpoints| && m.endpoints[i] == ep;
        assert Unseen(known)(m.endpoints[i]) == Some(ep);
        PickMember(m.endpoints, Unseen(known), ep);
        assert ep in r;
      }
    }
  }

  /** Every appended endpoint's key was absent before the merge. */
  lemma MergedOnlyNew(c: EndpointMap, m: EndpointMap, i: nat)
    requires |c.endpoints| <= i < |MergedMap(Some(c), Some(m)).value.endpoints|
    ensures EndpointKey(MergedMap(Some(c), Some(m)).value.endpoints[i]) !in KeysOf(c.endpoints)
  {
    var known := KeysOf(c.endpoints);
    var added := NewEndpoints(c.endpoints, m.endpoints);
    var ep := added[i - |c.endpoints|];
    assert MergedMap(Some(c), Some(m)).value.endpoints[i] == ep;
    PickMember(m.endpoints, Unseen(known), ep);
  }

  /** Merging the same map twice changes nothing the second time. */
  lemma MergeIdempotent(c: Option<EndpointMap>, m: EndpointMap)
    ensures MergedMap(MergedMap(c, Some(m)), Some(m)) == MergedMap(c, Some(m))
  {
    var once := MergedMap(c, Some(m)).value;
    if c.Some? {
      MergedKeys(c.value, m);
    }
    var known := KeysOf(once.endpoints);
    forall i | 0 <= i < |m.endpoints|
      ensures Unseen(known)(m.endpoints[i]).None?
    {
      assert EndpointKey(m.endpoints[i]) in KeysOf(m.endpoints);
    }
    PickNone(m.endpoints, Unseen(known));
    assert once.endpoints + [] == once.endpoints;
  }

  /** The untested list is sorted, free of duplicates, and holds exactly the map's labels that are not tested. */
  lemma UntestedSpec(eps: seq<EndpointInfo>, tested: seq<string>, name: string)
    ensures StrictlySorted(Untested(eps, tested), StrLt)
    ensures name in Untested(eps, tested) <==>
      (exists i :: 0 <= i < |eps| && EndpointLabel(eps[i]) == name) && name !in tested
  {
    StrLtIsOrder();
    PickMember(eps, UntestedLabel(tested), name);
  }

  /** A run never records more passed and failed tests than its execution result holds. */
  lemma RecordCountsBounded(runId: string, mode: string, now: int, suite: Option<TestSuite>, er: ExecutionResult,
                            v: ValidationResult)
    requires v.executionResult == Some(er)
    ensures var r := RecordOf(runId, mode, now, suite, Some(v)); r.testsPassed + r.testsFailed <= |er.testResults|
  {
    CountersBounded(er.testResults);
  }
}
