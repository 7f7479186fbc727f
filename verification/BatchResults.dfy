/** Batch latency tests, from the application call down to the worker pools. Whatever fails early
    and however the workers interleave, every node gets one final result under its own name, and
    the progress callback fires once per node with completed = 1, 2, ..., total. */
module BatchResults {
  import opened Finite
  import opened Text
  import opened Wrappers

  type ErrorText = s: string | s != "" witness "error"

  datatype Node = Node(name: string, protocol: string, server: string, port: int)

  datatype TestResult = TestResult(nodeName: string, ok: bool, latencyMs: int, error: string)

  /** The outcome of one network probe, decided by the environment. */
  datatype Probe = Answered(latencyMs: int) | Failed(error: ErrorText)

  /** Where a shared core run stops early, if it does: before the outbounds are built, before the
      workers start, and whether the batch context had ended when the workers were done. */
  datatype CoreRun = CoreRun(preflight: Option<ErrorText>, launch: Option<ErrorText>, contextEnd: Option<ErrorText>)

  const DEFAULT_BATCH_TEST_CONCURRENCY := 32
  const DEFAULT_TCP_TEST_CONCURRENCY := 64

  predicate Final(r: TestResult) {
    r.ok || r.error != ""
  }

  predicate TcpHandshakeProtocol(protocol: string) {
    protocol in {"ss", "vmess", "vless", "trojan", "anytls"}
  }

  predicate KnownProtocol(protocol: string) {
    TcpHandshakeProtocol(protocol) || protocol in {"hysteria", "hysteria2", "tuic"}
  }

  predicate Addressable(node: Node) {
    node.server != "" && node.port > 0
  }

  function FromProbe(name: string, p: Probe): (r: TestResult)
    ensures Final(r) && r.nodeName == name && Tells(r, p)
  {
    match p
    case Answered(latency) => TestResult(name, true, latency, "")
    case Failed(error) => TestResult(name, false, 0, error)
  }

  function FailedResult(name: string, error: ErrorText): (r: TestResult)
    ensures Final(r) && r.nodeName == name
  {
    TestResult(name, false, 0, error)
  }

  // ---------- what each node's result is ----------

  const INVALID_NODE: ErrorText := "proxy node has invalid server or port"
  const UNSUPPORTED: ErrorText := "unsupported proxy protocol"
  const NOT_FOUND: ErrorText := "proxy node not found"

  /** Why a node gets no outbound in the shared core, if it gets none. */
  function OutboundError(node: Node): Option<ErrorText> {
    if !Addressable(node) then Some(INVALID_NODE) else if !KnownProtocol(node.protocol) then Some(UNSUPPORTED) else None
  }

  function CoreResult(node: Node, run: CoreRun, p: Probe): (r: TestResult)
    ensures Final(r) && r.nodeName == node.name
  {
    if run.preflight.Some? then FailedResult(node.name, run.preflight.value)
    else if OutboundError(node).Some? then FailedResult(node.name, OutboundError(node).value)
    else if run.launch.Some? then FailedResult(node.name, run.launch.value)
    else FromProbe(node.name, p)
  }

  /** The results of a shared-core batch: `probe(i)` is what probing node i says. */
  function CoreResults(nodes: seq<Node>, run: CoreRun, probe: nat -> Probe): (rs: seq<TestResult>)
    ensures |rs| == |nodes| && forall i :: 0 <= i < |nodes| ==> rs[i] == CoreResult(nodes[i], run, probe(i))
  {
    seq(|nodes|, i requires 0 <= i < |nodes| => CoreResult(nodes[i], run, probe(i)))
  }

  /** The nodes of a batch that go through the shared core, in order. */
  function CoreNodes(nodes: seq<Node>): seq<Node> {
    if nodes == [] then []
    else
      var node, before := nodes[|nodes| - 1], CoreNodes(nodes[..|nodes| - 1]);
      if Addressable(node) && !TcpHandshakeProtocol(node.protocol) then before + [node] else before
  }

  /** The result of one node: its own TCP probe, or its place among the core nodes. */
  function NodeResult(nodes: seq<Node>, i: nat, run: CoreRun, tcpProbe: nat -> Probe,
                      coreProbe: nat -> Probe): (r: TestResult)
    requires i < |nodes|
    ensures Final(r) && r.nodeName == nodes[i].name
  {
    if !Addressable(nodes[i]) then FailedResult(nodes[i].name, INVALID_NODE)
    else if TcpHandshakeProtocol(nodes[i].protocol) then FromProbe(nodes[i].name, tcpProbe(i))
    else CoreResult(nodes[i], run, coreProbe(|CoreNodes(nodes[..i])|))
  }

  /** The results of a batch behind the runner's test slots. */
  function NodeResults(nodes: seq<Node>, slot: Option<ErrorText>, run: CoreRun, tcpProbe: nat -> Probe,
                       coreProbe: nat -> Probe): (rs: seq<TestResult>)
    ensures |rs| == |nodes| && forall i :: 0 <= i < |nodes| ==>
      rs[i] ==
        if slot.Some? then FailedResult(nodes[i].name, slot.value)
        else NodeResult(nodes, i, run, tcpProbe, coreProbe)
  {
    seq(|nodes|, i requires 0 <= i < |nodes| =>
      if slot.Some? then FailedResult(nodes[i].name, slot.value) else NodeResult(nodes, i, run, tcpProbe, coreProbe))
  }

  // ---------- what a caller reads off a result ----------

  /** A probe that answered shows its latency and no error, one that failed shows its error. */
  ghost predicate Tells(r: TestResult, p: Probe) {
    && (r.ok <==> p.Answered?)
    && (p.Answered? ==> r.latencyMs == p.latencyMs && r.error == "")
    && (p.Failed? ==> r.latencyMs == 0 && r.error == p.error)
  }

  ghost predicate Refused(r: TestResult, error: string) {
    !r.ok && r.latencyMs == 0 && r.error == error
  }

  ghost predicate HasAddress(node: Node) {
    node.server != "" && node.port > 0
  }

  ghost predicate TestedByTcp(node: Node) {
    HasAddress(node) && node.protocol in {"ss", "vmess", "vless", "trojan", "anytls"}
  }

  ghost predicate TestedByCore(node: Node) {
    HasAddress(node) && node.protocol !in {"ss", "vmess", "vless", "trojan", "anytls"}
  }

  /** In a shared-core batch the first thing that goes wrong shows: preflight, address, protocol, launch. */
  ghost predicate CoreTells(r: TestResult, node: Node, run: CoreRun, p: Probe) {
    && r.nodeName == node.name
    && if run.preflight.Some? then Refused(r, run.preflight.value)
       else if !HasAddress(node) then Refused(r, "proxy node has invalid server or port")
       else if TestedByCore(node) && node.protocol !in {"hysteria", "hysteria2", "tuic"}
         then Refused(r, "unsupported proxy protocol")
       else if run.launch.Some? then Refused(r, run.launch.value)
       else Tells(r, p)
  }

  /** How many nodes before position i are tested by the shared core. */
  ghost function CoreRank(nodes: seq<Node>, i: nat): nat
    requires i <= |nodes|
  {
    |set j | 0 <= j < i && TestedByCore(nodes[j])|
  }

  /** Result i of a batch: the slot's error, the address error, or the node's own probe. */
  ghost predicate NodeTells(r: TestResult, nodes: seq<Node>, i: nat, slot: Option<ErrorText>, run: CoreRun,
                            tcpProbe: nat -> Probe, coreProbe: nat -> Probe)
    requires i < |nodes|
  {
    && r.nodeName == nodes[i].name
    && (slot.Some? ==> Refused(r, slot.value))
    && (slot.None? && !HasAddress(nodes[i]) ==> Refused(r, "proxy node has invalid server or port"))
    && (slot.None? && TestedByTcp(nodes[i]) ==> Tells(r, tcpProbe(i)))
    && (slot.None? && TestedByCore(nodes[i]) ==> CoreTells(r, nodes[i], run, coreProbe(CoreRank(nodes, i))))
  }

  lemma CoreRankNext(nodes: seq<Node>, i: nat)
    requires i < |nodes|
    ensures CoreRank(nodes, i + 1) == CoreRank(nodes, i) + if TestedByCore(nodes[i]) then 1 else 0
  {
    hide TestedByCore;
    var before := set j | 0 <= j < i && TestedByCore(nodes[j]);
    var ranked := set j | 0 <= j < i + 1 && TestedByCore(nodes[j]);
    assert ranked == before + if TestedByCore(nodes[i]) then {i} else {};
  }

  lemma NothingRanked(nodes: seq<Node>, i: nat)
    requires i <= |nodes|
    ensures i == 0 ==> CoreRank(nodes, i) == 0
  {
    hide TestedByCore;
    var ranked := set j | 0 <= j < i && TestedByCore(nodes[j]);
    assert i == 0 ==> ranked == {};
  }

  lemma CoreNodesNext(nodes: seq<Node>, i: nat)
    requires i < |nodes|
    ensures |CoreNodes(nodes[..i + 1])| == |CoreNodes(nodes[..i])| + if TestedByCore(nodes[i]) then 1 else 0
  {
    assert nodes[..i + 1][..i] == nodes[..i];
  }

  lemma {:induction false} CoreNodesRank(nodes: seq<Node>, i: nat)
    requires i <= |nodes|
    ensures |CoreNodes(nodes[..i])| == CoreRank(nodes, i)
  {
    hide TestedByCore, CoreRank;
    if i == 0 {
      NothingRanked(nodes, i);
    } else {
      CoreNodesRank(nodes, i - 1);
      CoreRankNext(nodes, i - 1);
      CoreNodesNext(nodes, i - 1);
    }
  }

  lemma CoreResultTells(node: Node, run: CoreRun, p: Probe)
    ensures CoreTells(CoreResult(node, run, p), node, run, p)
  {
  }

  lemma NodeResultTells(nodes: seq<Node>, i: nat, slot: Option<ErrorText>, run: CoreRun,
                        tcpProbe: nat -> Probe, coreProbe: nat -> Probe)
    requires i < |nodes|
    ensures NodeTells(NodeResults(nodes, slot, run, tcpProbe, coreProbe)[i], nodes, i, slot, run, tcpProbe, coreProbe)
  {
    hide CoreResult, CoreNodes, CoreRank, CoreTells;
    CoreNodesRank(nodes, i);
    CoreResultTells(nodes[i], run, coreProbe(CoreRank(nodes, i)));
  }

  /** Every result of a batch, in plain terms. */
  lemma BatchTells(nodes: seq<Node>, slot: Option<ErrorText>, run: CoreRun, tcpProbe: nat -> Probe,
                   coreProbe: nat -> Probe)
    ensures forall i :: 0 <= i < |nodes| ==>
      NodeTells(NodeResults(nodes, slot, run, tcpProbe, coreProbe)[i], nodes, i, slot, run, tcpProbe, coreProbe)
  {
    hide NodeTells, NodeResults;
    forall i | 0 <= i < |nodes|
      ensures NodeTells(NodeResults(nodes, slot, run, tcpProbe, coreProbe)[i], nodes, i, slot, run, tcpProbe, coreProbe)
    {
      NodeResultTells(nodes, i, slot, run, tcpProbe, coreProbe);
    }
  }

  lemma CoreBatchTells(nodes: seq<Node>, run: CoreRun, probe: nat -> Probe)
    ensures forall i :: 0 <= i < |nodes| ==> CoreTells(CoreResults(nodes, run, probe)[i], nodes[i], run, probe(i))
  {
    hide CoreTells, CoreResult;
    forall i | 0 <= i < |nodes|
      ensures CoreTells(CoreResults(nodes, run, probe)[i], nodes[i], run, probe(i))
    {
      CoreResultTells(nodes[i], run, probe(i));
    }
  }

  /** On the way to the intended results: each is there or still blank. */
  ghost predicate Towards(results: seq<TestResult>, want: seq<TestResult>) {
    |results| == |want|
    && forall i :: 0 <= i < |want| ==>
      Final(want[i]) && (results[i] == want[i] || results[i] == TestResult(want[i].nodeName, false, 0, ""))
  }

  lemma TowardsStep(results: seq<TestResult>, want: seq<TestResult>, i: nat)
    requires Towards(results, want) && i < |want|
    ensures Towards(results[i := want[i]], want)
    ensures !Final(results[i]) ==> results[i] == TestResult(want[i].nodeName, false, 0, "")
  {
  }

  lemma TowardsDone(results: seq<TestResult>, want: seq<TestResult>)
    requires Towards(results, want) && forall i :: 0 <= i < |results| ==> Final(results[i])
    ensures results == want
  {
  }

  lemma TowardsFinish(results: seq<TestResult>, want: seq<TestResult>, err: ErrorText, after: seq<TestResult>)
    requires Towards(results, want) && |after| == |results|
    requires after == Finished(results, err)
    requires forall i :: 0 <= i < |results| && !Final(results[i]) ==> want[i] == FailedResult(want[i].nodeName, err)
    ensures after == want
  {
  }

  // ---------- the progress callback ----------

  datatype ProgressEvent = ProgressEvent(result: TestResult, completed: nat, total: nat)

  ghost function ResultsOf(events: seq<ProgressEvent>): (rs: seq<TestResult>)
    ensures |rs| == |events| && forall k :: 0 <= k < |rs| ==> rs[k] == events[k].result
  {
    seq(|events|, k requires 0 <= k < |events| => events[k].result)
  }

  /** What was delivered since `start`, before and after more events came in. */
  lemma ResultsSplit(older: seq<ProgressEvent>, events: seq<ProgressEvent>, start: nat)
    requires start <= |older| && older <= events
    ensures ResultsOf(events[start..]) == ResultsOf(older[start..]) + ResultsOf(events[|older|..])
  {
    assert events[start..] == older[start..] + events[|older|..];
  }

  /** The closure of TestProxyNodes: a counter and the events sent to the user interface. */
  class Progress {
    const total: nat
    var completed: nat
    var events: seq<ProgressEvent>

    constructor (total: nat)
      ensures this.total == total && events == [] && Valid()
    {
      this.total, completed, events := total, 0, [];
    }

    ghost predicate Valid()
      reads this
    {
      completed == |events|
      && forall k :: 0 <= k < |events| ==> events[k].completed == k + 1 && events[k].total == total
    }

    /** The results delivered since event number `start`. */
    ghost function Since(start: nat): (rs: seq<TestResult>)
      requires start <= |events|
      reads this
      ensures |rs| == |events| - start
    {
      ResultsOf(events[start..])
    }

    method OnResult(r: TestResult)
      requires Valid()
      modifies this
      ensures Valid()
      ensures events == old(events) + [ProgressEvent(r, old(completed) + 1, total)]
      ensures forall start: nat :: start <= |old(events)| ==> Since(start) == old(Since(start)) + [r]
    {
      completed := completed + 1;
      events := events + [ProgressEvent(r, completed, total)];
      forall start: nat | start <= |old(events)|
        ensures Since(start) == old(Since(start)) + [r]
      {
        ResultsSplit(old(events), events, start);
        assert ResultsOf(events[|old(events)|..]) == [r];
      }
    }
  }

  // ---------- bookkeeping: which index each callback was for ----------

  /** `order` lists the indexes whose result has been delivered, each once; those are exactly the
      indexes with a final result, and `emitted` holds their results. */
  ghost predicate Tracks(results: seq<TestResult>, names: seq<string>, emitted: seq<TestResult>, order: seq<nat>) {
    && |results| == |names| && |order| == |emitted| && Distinct(order)
    && (forall i: nat :: i < |results| ==> results[i].nodeName == names[i])
    && (forall i: nat :: i < |results| ==> (Final(results[i]) <==> i in order))
    && (forall k :: 0 <= k < |order| ==> order[k] < |results| && emitted[k] == results[order[k]])
  }

  lemma TrackOne(results: seq<TestResult>, names: seq<string>, emitted: seq<TestResult>, order: seq<nat>, i: nat,
                 r: TestResult)
    requires Tracks(results, names, emitted, order)
    requires i < |results| && !Final(results[i]) && Final(r) && r.nodeName == names[i]
    ensures Tracks(results[i := r], names, emitted + [r], order + [i])
  {
    var after := results[i := r];
    forall j: nat | j < |results|
      ensures Final(after[j]) <==> j in order + [i]
    {
      assert (order + [i])[|order|] == i;
      if j != i && j in order {
        assert j in order + [i];
      }
    }
  }

  /** All results are named and final, and delivered once each. */
  ghost predicate ExactlyOnce(results: seq<TestResult>, names: seq<string>, emitted: seq<TestResult>, order: seq<nat>) {
    Tracks(results, names, emitted, order) && forall i :: 0 <= i < |results| ==> Final(results[i])
  }

  /** Exactly once, as a statement about multiplicities: the callback's results are the returned
      results in some order. */
  lemma ExactlyOnceIsPermutation(results: seq<TestResult>, names: seq<string>, emitted: seq<TestResult>,
                                 order: seq<nat>)
    requires ExactlyOnce(results, names, emitted, order)
    ensures |emitted| == |results| && multiset(emitted) == multiset(results)
  {
    var all := Interval(0, |results|);
    assert Elements(order) == all;
    DistinctSize(order);
    PermutedMultiset(results, emitted, order);
  }

  ghost function Without<T>(s: seq<T>, k: nat): (t: seq<T>)
    requires k < |s|
    ensures |t| == |s| - 1
    ensures forall j :: 0 <= j < |t| ==> t[j] == s[if j < k then j else j + 1]
  {
    s[..k] + s[k + 1..]
  }

  lemma {:induction false} PermutedMultiset(results: seq<TestResult>, emitted: seq<TestResult>, order: seq<nat>)
    requires |order| == |emitted| == |results| && Distinct(order)
    requires forall k :: 0 <= k < |order| ==> order[k] < |results| && emitted[k] == results[order[k]]
    ensures multiset(emitted) == multiset(results)
  {
    hide Without;
    if results != [] {
      var n := |results| - 1;
      Pigeonhole(order, 0, |results|);
      assert n in order;
      var k :| 0 <= k < |order| && order[k] == n;
      var order', emitted' := Without(order, k), Without(emitted, k);
      PermutedMultiset(results[..n], emitted', order');
      MultisetWithout(emitted, k);
      MultisetWithout(results, n);
      assert Without(results, n) == results[..n];
    }
  }

  lemma MultisetWithout(s: seq<TestResult>, k: nat)
    requires k < |s|
    ensures multiset(s) == multiset(Without(s, k)) + multiset{s[k]}
  {
    assert s == s[..k] + [s[k]] + s[k + 1..];
  }

  function Names(nodes: seq<Node>): (names: seq<string>)
    ensures |names| == |nodes|
    ensures forall i :: 0 <= i < |nodes| ==> names[i] == nodes[i].name
  {
    seq(|nodes|, i requires 0 <= i < |nodes| => nodes[i].name)
  }

  /** Store a final result and deliver it. */
  method Deliver(results: array<TestResult>, progress: Progress, i: nat, r: TestResult,
                 ghost names: seq<string>, ghost start: nat, ghost order: seq<nat>)
    requires start <= |progress.events| && progress.Valid()
    requires Tracks(results[..], names, progress.Since(start), order)
    requires i < results.Length && !Final(results[i]) && Final(r) && r.nodeName == names[i]
    modifies results, progress
    ensures progress.Valid() && |progress.events| == |old(progress.events)| + 1
    ensures results[..] == old(results[..])[i := r]
    ensures old(progress.events) <= progress.events
    ensures Tracks(results[..], names, progress.Since(start), order + [i])
  {
    TrackOne(results[..], names, progress.Since(start), order, i, r);
    results[i] := r;
    progress.OnResult(r);
  }

  ghost function Finished(results: seq<TestResult>, err: ErrorText): (after: seq<TestResult>)
    ensures |after| == |results|
    ensures forall i :: 0 <= i < |after| ==>
      Final(after[i]) && after[i] == if Final(results[i]) then results[i] else results[i].(error := err)
  {
    seq(|results|, i requires 0 <= i < |results| => if Final(results[i]) then results[i] else results[i].(error := err))
  }

  /** Give every pending result the same error; without an error nothing changes. */
  method FinishPending(results: array<TestResult>, err: Option<ErrorText>, progress: Progress,
                       ghost names: seq<string>, ghost start: nat, ghost order0: seq<nat>)
    returns (ghost order: seq<nat>)
    requires start <= |progress.events| && progress.Valid()
    requires Tracks(results[..], names, progress.Since(start), order0)
    modifies results, progress
    ensures progress.Valid() && old(progress.events) <= progress.events
    ensures Tracks(results[..], names, progress.Since(start), order)
    ensures err.Some? ==> results[..] == Finished(old(results[..]), err.value)
    ensures err.None? ==> results[..] == old(results[..]) && order == order0
  {
    order := order0;
    if err.None? {
      return;
    }
    ghost var before := results[..];
    NothingFinished(before, err.value);
    hide Tracks, FinishedSoFar, Finished;
    for i := 0 to results.Length
      invariant progress.Valid() && old(progress.events) <= progress.events
      invariant Tracks(results[..], names, progress.Since(start), order)
      invariant FinishedSoFar(before, results[..], err.value, i)
    {
      FinishNext(before, results[..], err.value, i);
      TracksName(results[..], names, progress.Since(start), order, i);
      if !Final(results[i]) {
        Deliver(results, progress, i, results[i].(error := err.value), names, start, order);
        order := order + [i];
      }
    }
    AllFinished(before, results[..], err.value);
  }

  lemma TracksName(results: seq<TestResult>, names: seq<string>, emitted: seq<TestResult>, order: seq<nat>, i: nat)
    requires Tracks(results, names, emitted, order) && i < |results|
    ensures i < |names| && results[i].nodeName == names[i]
  {
  }

  /** The first i results are finished, the others as before. */
  ghost predicate FinishedSoFar(before: seq<TestResult>, now: seq<TestResult>, err: ErrorText, i: nat) {
    && |now| == |before|
    && forall j :: 0 <= j < |before| ==> now[j] == if j < i then Finished(before, err)[j] else before[j]
  }

  lemma NothingFinished(before: seq<TestResult>, err: ErrorText)
    ensures FinishedSoFar(before, before, err, 0)
  {
  }

  lemma FinishNext(before: seq<TestResult>, now: seq<TestResult>, err: ErrorText, i: nat)
    requires FinishedSoFar(before, now, err, i) && i < |before|
    ensures |now| == |before|
    ensures FinishedSoFar(before, if Final(now[i]) then now else now[i := now[i].(error := err)], err, i + 1)
  {
  }

  lemma AllFinished(before: seq<TestResult>, now: seq<TestResult>, err: ErrorText)
    requires FinishedSoFar(before, now, err, |before|)
    ensures now == Finished(before, err)
  {
  }

  // ---------- the two worker pools ----------

  /** Where an index is between the dispatcher and its callback. */
  datatype Stage = Elsewhere | Queued | Running | Reported

  /** Jobs before `next` have been dispatched; of those, the ones in `running` are being probed and
      the ones in `attempts` wait in the report channel, in order of arrival. */
  datatype Pool = Pool(jobs: seq<nat>, next: nat, running: set<nat>, attempts: seq<nat>, stage: seq<Stage>) {
    predicate Working() {
      next < |jobs| || running != {} || attempts != []
    }

    predicate CanDispatch(workers: nat) {
      next < |jobs| && |running| < workers
    }

    ghost predicate Inv(n: nat) {
      && next <= |jobs| && |stage| == n && Distinct(jobs) && Distinct(attempts)
      && (forall k :: 0 <= k < |jobs| ==> jobs[k] < n && (stage[jobs[k]] == Queued <==> next <= k))
      && (forall i: nat :: i < n ==> (stage[i] == Running <==> i in running || i in attempts))
      && (forall i: nat :: i in running ==> i < n && i !in attempts)
      && (forall k :: 0 <= k < |attempts| ==> attempts[k] < n)
      && (forall i: nat :: i < n ==> (stage[i] == Elsewhere <==> i !in jobs))
    }

    ghost function Work(): nat
      requires next <= |jobs|
    {
      3 * (|jobs| - next) + 2 * |running| + |attempts|
    }

    function Dispatch(): Pool
      requires next < |jobs| && jobs[next] < |stage|
    {
      this.(next := next + 1, running := running + {jobs[next]}, stage := stage[jobs[next] := Running])
    }

    function Report(i: nat): Pool {
      this.(running := running - {i}, attempts := attempts + [i])
    }

    function Collect(): Pool
      requires attempts != [] && attempts[0] < |stage|
    {
      this.(attempts := attempts[1..], stage := stage[attempts[0] := Reported])
    }

    /** A TCP worker stores its own result: reporting and collecting are one step. */
    function Finish(i: nat): Pool
      requires i < |stage|
    {
      this.(running := running - {i}, stage := stage[i := Reported])
    }

    lemma DispatchStep(n: nat)
      requires Inv(n) && next < |jobs|
      ensures jobs[next] < n == |stage| && stage[jobs[next]] == Queued
      ensures Dispatch().Inv(n) && Dispatch().Work() < Work()
    {
      assert jobs[next] !in running;
    }

    lemma ReportStep(n: nat, i: nat)
      requires Inv(n) && i in running
      ensures Report(i).Inv(n) && Report(i).Work() < Work()
    {
      var after := attempts + [i];
      forall j: nat | j < n
        ensures stage[j] == Running <==> j in running - {i} || j in after
      {
        assert after[|attempts|] == i;
        if j in attempts {
          assert j in after;
        }
      }
    }

    lemma CollectStep(n: nat)
      requires Inv(n) && attempts != []
      ensures attempts[0] < n == |stage| && stage[attempts[0]] == Running && attempts[0] in jobs
      ensures Collect().Inv(n) && Collect().Work() < Work()
    {
      var i, rest, after := attempts[0], attempts[1..], stage[attempts[0] := Reported];
      assert attempts == [i] + rest;
      forall j: nat | j < n
        ensures after[j] == Running <==> j in running || j in rest
      {
        if j in attempts && j != i {
          assert j in rest;
        }
      }
      assert i in attempts;
    }

    lemma FinishStep(n: nat, i: nat)
      requires Inv(n) && i in running && attempts == []
      ensures i < n == |stage| && stage[i] == Running && i in jobs
      ensures Finish(i).Inv(n) && Finish(i).Work() < Work()
    {
    }

    lemma Drained(n: nat)
      requires Inv(n) && !Working()
      ensures stage == FinalStage(n, jobs)
    {
      forall i: nat | i < n && i in jobs
        ensures stage[i] == Reported
      {
        var k :| 0 <= k < |jobs| && jobs[k] == i;
        assert stage[jobs[k]] != Queued;
      }
    }
  }

  function StartPool(n: nat, jobs: seq<nat>): Pool {
    Pool(jobs, 0, {}, [], seq(n, i => if i in jobs then Queued else Elsewhere))
  }

  ghost function FinalStage(n: nat, jobs: seq<nat>): (stage: seq<Stage>)
    ensures |stage| == n
  {
    seq(n, i => if i in jobs then Reported else Elsewhere)
  }

  lemma PoolStart(n: nat, jobs: seq<nat>)
    requires Distinct(jobs) && forall k :: 0 <= k < |jobs| ==> jobs[k] < n
    ensures StartPool(n, jobs).Inv(n)
  {
  }

  /** The result slice while the pool works: reported indexes hold their probe's result. */
  ghost function Filled(before: seq<TestResult>, nodes: seq<Node>, probe: nat -> Probe,
                        stage: seq<Stage>): (after: seq<TestResult>)
    requires |before| == |nodes| == |stage|
    ensures |after| == |before|
    ensures forall i :: 0 <= i < |after| ==>
      after[i] == if stage[i] == Reported then FromProbe(nodes[i].name, probe(i)) else before[i]
  {
    seq(|before|, i requires 0 <= i < |before| =>
      if stage[i] == Reported then FromProbe(nodes[i].name, probe(i)) else before[i])
  }

  lemma UnreportedIsPending(before: seq<TestResult>, nodes: seq<Node>, probe: nat -> Probe, jobs: seq<nat>,
                            stage: seq<Stage>, i: nat)
    requires |before| == |nodes| == |stage| && i < |nodes|
    requires stage[i] == Running && i in jobs
    requires Pending(before, jobs)
    ensures !Final(Filled(before, nodes, probe, stage)[i])
  {
    var k :| 0 <= k < |jobs| && jobs[k] == i;
  }

  ghost predicate Pending(results: seq<TestResult>, jobs: seq<nat>) {
    forall k :: 0 <= k < |jobs| ==> jobs[k] < |results| && !Final(results[jobs[k]])
  }

  /** Store and deliver the probe result of an index that is in flight. */
  method DeliverProbe(nodes: seq<Node>, results: array<TestResult>, probe: nat -> Probe, progress: Progress, i: nat,
                      ghost before: seq<TestResult>, ghost pool: Pool, ghost start: nat, ghost order: seq<nat>)
    requires start <= |progress.events| && progress.Valid()
    requires |before| == |nodes| == |pool.stage| == results.Length && i < |nodes|
    requires results[..] == Filled(before, nodes, probe, pool.stage)
    requires pool.stage[i] == Running && i in pool.jobs && Pending(before, pool.jobs)
    requires Tracks(results[..], Names(nodes), progress.Since(start), order)
    modifies results, progress
    ensures progress.Valid() && old(progress.events) <= progress.events
    ensures Tracks(results[..], Names(nodes), progress.Since(start), order + [i])
    ensures results[..] == Filled(before, nodes, probe, pool.stage[i := Reported])
  {
    UnreportedIsPending(before, nodes, probe, pool.jobs, pool.stage, i);
    Deliver(results, progress, i, FromProbe(nodes[i].name, probe(i)), Names(nodes), start, order);
    assert results[..] == Filled(before, nodes, probe, pool.stage[i := Reported]);
  }

  lemma DispatchKeepsFilled(before: seq<TestResult>, nodes: seq<Node>, probe: nat -> Probe, pool: Pool)
    requires |before| == |nodes| == |pool.stage|
    requires pool.next < |pool.jobs| && pool.jobs[pool.next] < |nodes| && pool.stage[pool.jobs[pool.next]] == Queued
    ensures Filled(before, nodes, probe, pool.Dispatch().stage) == Filled(before, nodes, probe, pool.stage)
  {
  }

  /** The given positions show their own probe under their own name, the others are as before. */
  ghost predicate Probed(before: seq<TestResult>, after: seq<TestResult>, nodes: seq<Node>, jobs: seq<nat>,
                         probe: nat -> Probe) {
    && |before| == |after| == |nodes|
    && forall i :: 0 <= i < |nodes| ==>
      if i in jobs then after[i].nodeName == nodes[i].name && Tells(after[i], probe(i)) else after[i] == before[i]
  }

  lemma FilledTells(before: seq<TestResult>, nodes: seq<Node>, probe: nat -> Probe, jobs: seq<nat>)
    requires |before| == |nodes|
    ensures Probed(before, Filled(before, nodes, probe, FinalStage(|nodes|, jobs)), nodes, jobs, probe)
  {
    hide Tells;
  }

  lemma StartFilled(before: seq<TestResult>, nodes: seq<Node>, probe: nat -> Probe, jobs: seq<nat>)
    requires |before| == |nodes|
    ensures Filled(before, nodes, probe, StartPool(|nodes|, jobs).stage) == before
  {
  }

  /** TCP probes: each worker stores its result and calls back under one mutex. The scheduler
      picks dispatches and completions in any order. */
  method TestTcpNodes(nodes: seq<Node>, indexes: seq<nat>, results: array<TestResult>, probe: nat -> Probe,
                      progress: Progress, ghost start: nat, ghost order0: seq<nat>) returns (ghost order: seq<nat>)
    requires start <= |progress.events| && progress.Valid() && results.Length == |nodes|
    requires Tracks(results[..], Names(nodes), progress.Since(start), order0)
    requires Distinct(indexes) && Pending(results[..], indexes)
    modifies results, progress
    ensures progress.Valid() && old(progress.events) <= progress.events
    ensures Tracks(results[..], Names(nodes), progress.Since(start), order)
    ensures results[..] == Filled(old(results[..]), nodes, probe, FinalStage(|nodes|, indexes))
    ensures Probed(old(results[..]), results[..], nodes, indexes, probe)
  {
    hide Probed;
    var workers := if |indexes| < DEFAULT_TCP_TEST_CONCURRENCY then |indexes| else DEFAULT_TCP_TEST_CONCURRENCY;
    var pool := StartPool(|nodes|, indexes);
    ghost var before := results[..];
    PoolStart(|nodes|, indexes);
    StartFilled(before, nodes, probe, indexes);
    order := order0;
    hide Tracks, Pending, Pool.Inv, Names, Filled, FinalStage, StartPool, Distinct, Pool.Work;
    while pool.Working()
      invariant pool.Inv(|nodes|) && pool.jobs == indexes && pool.attempts == []
      invariant |pool.stage| == |nodes| && pool.next <= |pool.jobs|
      invariant |pool.running| <= workers
      invariant progress.Valid() && old(progress.events) <= progress.events
      invariant Tracks(results[..], Names(nodes), progress.Since(start), order)
      invariant results[..] == Filled(before, nodes, probe, pool.stage)
      decreases pool.Work()
    {
      if {
        case pool.CanDispatch(workers) =>
          pool.DispatchStep(|nodes|);
          DispatchKeepsFilled(before, nodes, probe, pool);
          pool := pool.Dispatch();
        case pool.running != {} =>
          var i: nat :| i in pool.running;
          pool.FinishStep(|nodes|, i);
          DeliverProbe(nodes, results, probe, progress, i, before, pool, start, order);
          pool := pool.Finish(i);
          order := order + [i];
      }
    }
    pool.Drained(|nodes|);
    FilledTells(before, nodes, probe, indexes);
  }

  /** Delay probes through one shared core: workers report into a channel, and a single collector
      stores and calls back in the order the reports arrive. */
  method CollectCoreProbes(nodes: seq<Node>, outbounds: seq<nat>, results: array<TestResult>, probe: nat -> Probe,
                           progress: Progress, ghost start: nat, ghost order0: seq<nat>) returns (ghost order: seq<nat>)
    requires start <= |progress.events| && progress.Valid() && results.Length == |nodes|
    requires Tracks(results[..], Names(nodes), progress.Since(start), order0)
    requires Distinct(outbounds) && Pending(results[..], outbounds)
    modifies results, progress
    ensures progress.Valid() && old(progress.events) <= progress.events
    ensures Tracks(results[..], Names(nodes), progress.Since(start), order)
    ensures results[..] == Filled(old(results[..]), nodes, probe, FinalStage(|nodes|, outbounds))
    ensures Probed(old(results[..]), results[..], nodes, outbounds, probe)
  {
    hide Probed;
    var workers := if |outbounds| < DEFAULT_BATCH_TEST_CONCURRENCY then |outbounds| else DEFAULT_BATCH_TEST_CONCURRENCY;
    var pool := StartPool(|nodes|, outbounds);
    ghost var before := results[..];
    PoolStart(|nodes|, outbounds);
    StartFilled(before, nodes, probe, outbounds);
    order := order0;
    hide Tracks, Pending, Pool.Inv, Names, Filled, FinalStage, StartPool, Distinct, Pool.Work;
    while pool.Working()
      invariant pool.Inv(|nodes|) && pool.jobs == outbounds
      invariant |pool.stage| == |nodes| && pool.next <= |pool.jobs|
      invariant |pool.running| <= workers
      invariant progress.Valid() && old(progress.events) <= progress.events
      invariant Tracks(results[..], Names(nodes), progress.Since(start), order)
      invariant results[..] == Filled(before, nodes, probe, pool.stage)
      decreases pool.Work()
    {
      if {
        case pool.CanDispatch(workers) =>
          pool.DispatchStep(|nodes|);
          DispatchKeepsFilled(before, nodes, probe, pool);
          pool := pool.Dispatch();
        case pool.running != {} =>
          var i: nat :| i in pool.running;
          pool.ReportStep(|nodes|, i);
          pool := pool.Report(i);
        case pool.attempts != [] =>
          var i := pool.attempts[0];
          pool.CollectStep(|nodes|);
          DeliverProbe(nodes, results, probe, progress, i, before, pool, start, order);
          pool := pool.Collect();
          order := order + [i];
      }
    }
    pool.Drained(|nodes|);
    FilledTells(before, nodes, probe, outbounds);
  }

  // ---------- the batch below the application ----------

  method PendingResults(names: seq<string>) returns (results: array<TestResult>)
    ensures fresh(results) && results.Length == |names|
    ensures Tracks(results[..], names, [], [])
    ensures forall i :: 0 <= i < |names| ==> results[i] == TestResult(names[i], false, 0, "")
  {
    results := new TestResult[|names|](i requires 0 <= i < |names| => TestResult(names[i], false, 0, ""));
  }

  /** Outbounds are built for nodes without an outbound error, and for no others. */
  ghost predicate Kept(nodes: seq<Node>, outbounds: seq<nat>) {
    forall k :: 0 <= k < |outbounds| ==> outbounds[k] < |nodes| && OutboundError(nodes[outbounds[k]]).None?
  }

  lemma StartTowards(results: seq<TestResult>, want: seq<TestResult>)
    requires |results| == |want|
    requires forall i :: 0 <= i < |want| ==> Final(want[i]) && results[i] == TestResult(want[i].nodeName, false, 0, "")
    ensures Towards(results, want)
  {
  }

  /** Fail one blank result with the error it is to have, and deliver it. */
  method FailOne(results: array<TestResult>, progress: Progress, i: nat, err: ErrorText, ghost names: seq<string>,
                 ghost want: seq<TestResult>, ghost start: nat, ghost order0: seq<nat>) returns (ghost order: seq<nat>)
    requires start <= |progress.events| && progress.Valid() && i < results.Length == |names| == |want|
    requires Tracks(results[..], names, progress.Since(start), order0) && Towards(results[..], want)
    requires !Final(results[i]) && want[i] == FailedResult(names[i], err)
    modifies results, progress
    ensures progress.Valid() && old(progress.events) <= progress.events
    ensures Tracks(results[..], names, progress.Since(start), order) && Towards(results[..], want)
    ensures results[..] == old(results[..])[i := want[i]]
  {
    hide Tracks, Towards;
    TowardsStep(results[..], want, i);
    Deliver(results, progress, i, results[i].(error := err), names, start, order0);
    order := order0 + [i];
  }

  /** The first part of a shared-core batch: nodes without an outbound fail at once. */
  method BuildOutbounds(nodes: seq<Node>, results: array<TestResult>, progress: Progress, ghost run: CoreRun,
                        ghost probe: nat -> Probe,
                        ghost start: nat) returns (outbounds: seq<nat>, ghost order: seq<nat>)
    requires start == |progress.events| && progress.Valid() && results.Length == |nodes|
    requires Tracks(results[..], Names(nodes), [], [])
    requires run.preflight.None? && Towards(results[..], CoreResults(nodes, run, probe))
    requires forall i :: 0 <= i < |nodes| ==> !Final(results[i])
    modifies results, progress
    ensures progress.Valid() && old(progress.events) <= progress.events
    ensures Tracks(results[..], Names(nodes), progress.Since(start), order)
    ensures SplitSoFar(results[..], outbounds, |nodes|) && Kept(nodes, outbounds)
    ensures Towards(results[..], CoreResults(nodes, run, probe))
  {
    ghost var want := CoreResults(nodes, run, probe);
    assert progress.Since(start) == [];
    assert SplitSoFar(results[..], [], 0);
    outbounds, order := [], [];
    hide Tracks, SplitSoFar, Towards, Names, CoreResults, Addressable, KnownProtocol;
    for i := 0 to |nodes|
      invariant progress.Valid() && old(progress.events) <= progress.events
      invariant Tracks(results[..], Names(nodes), progress.Since(start), order)
      invariant SplitSoFar(results[..], outbounds, i) && Kept(nodes, outbounds)
      invariant Towards(results[..], want)
    {
      SplitNext(results[..], outbounds, i);
      if OutboundError(nodes[i]).Some? {
        SplitFinal(results[..], outbounds, i, want[i]);
        order := FailOne(results, progress, i, OutboundError(nodes[i]).value, Names(nodes), want, start, order);
      } else {
        outbounds := outbounds + [i];
      }
    }
  }

  /** One shared core for the nodes it can probe; every early exit finishes what is pending. */
  method TestNodesWithCore(nodes: seq<Node>, run: CoreRun, probe: nat -> Probe, progress: Progress)
    returns (results: array<TestResult>, ghost order: seq<nat>)
    requires progress.Valid()
    modifies progress
    ensures progress.Valid() && old(progress.events) <= progress.events
    ensures fresh(results) && results.Length == |nodes|
    ensures ExactlyOnce(results[..], Names(nodes), progress.Since(|old(progress.events)|), order)
    ensures results[..] == CoreResults(nodes, run, probe)
    ensures forall i :: 0 <= i < |nodes| ==> CoreTells(results[i], nodes[i], run, probe(i))
  {
    CoreBatchTells(nodes, run, probe);
    hide CoreTells;
    ghost var start := |progress.events|;
    ghost var names, want := Names(nodes), CoreResults(nodes, run, probe);
    results := PendingResults(Names(nodes));
    order := [];
    assert progress.Since(start) == [];
    StartTowards(results[..], want);
    if |nodes| == 0 {
      return;
    }
    ghost var blank := results[..];
    if run.preflight.Some? {
      order := FinishPending(results, run.preflight, progress, names, start, order);
      TowardsFinish(blank, want, run.preflight.value, results[..]);
      return;
    }
    hide Tracks, SplitSoFar, Towards, Names, CoreResults, Kept, Finished, Filled, FinalStage;
    var outbounds;
    outbounds, order := BuildOutbounds(nodes, results, progress, run, probe, start);
    ghost var before := results[..];
    if outbounds == [] {
      SplitAll(before);
      TowardsDone(before, want);
      return;
    }
    SplitDone(before, outbounds);
    if run.launch.Some? {
      order := FinishPending(results, run.launch, progress, names, start, order);
      LaunchFails(nodes, run, probe, before, outbounds);
      return;
    }
    order := CollectCoreProbes(nodes, outbounds, results, probe, progress, start, order);
    FilledIsWanted(nodes, run, probe, before, outbounds);
    FinishedIsSame(want);
    order := FinishPending(results, run.contextEnd, progress, names, start, order);
  }

  lemma SplitAll(results: seq<TestResult>)
    requires SplitSoFar(results, [], |results|)
    ensures forall i :: 0 <= i < |results| ==> Final(results[i])
  {
  }

  lemma LaunchFails(nodes: seq<Node>, run: CoreRun, probe: nat -> Probe, before: seq<TestResult>, outbounds: seq<nat>)
    requires run.preflight.None? && run.launch.Some?
    requires Towards(before, CoreResults(nodes, run, probe)) && SplitSoFar(before, outbounds, |nodes|)
      && Kept(nodes, outbounds)
    ensures Finished(before, run.launch.value) == CoreResults(nodes, run, probe)
  {
    hide Towards, Finished, OutboundError;
    assert |before| == |nodes| by { TowardsLength(before, CoreResults(nodes, run, probe)); }
    forall i | 0 <= i < |before| && !Final(before[i])
      ensures CoreResults(nodes, run, probe)[i] == FailedResult(nodes[i].name, run.launch.value)
    {
      assert i in outbounds;
    }
    TowardsFinish(before, CoreResults(nodes, run, probe), run.launch.value, Finished(before, run.launch.value));
  }

  lemma TowardsLength(results: seq<TestResult>, want: seq<TestResult>)
    requires Towards(results, want)
    ensures |results| == |want|
  {
  }

  lemma FilledIsWanted(nodes: seq<Node>, run: CoreRun, probe: nat -> Probe, before: seq<TestResult>,
                       outbounds: seq<nat>)
    requires run.preflight.None? && run.launch.None? && |before| == |nodes|
    requires Towards(before, CoreResults(nodes, run, probe)) && SplitSoFar(before, outbounds, |nodes|)
      && Kept(nodes, outbounds)
    ensures Filled(before, nodes, probe, FinalStage(|nodes|, outbounds)) == CoreResults(nodes, run, probe)
  {
    hide OutboundError;
    var after, want := Filled(before, nodes, probe, FinalStage(|nodes|, outbounds)), CoreResults(nodes, run, probe);
    forall i | 0 <= i < |nodes|
      ensures after[i] == want[i]
    {
      if i in outbounds {
        assert want[i] == FromProbe(nodes[i].name, probe(i));
      }
    }
  }

  lemma FinishedIsSame(results: seq<TestResult>)
    requires forall i :: 0 <= i < |results| ==> Final(results[i])
    ensures forall err :: Finished(results, err) == results
    ensures forall names, emitted, order :: Tracks(results, names, emitted, order) ==>
      ExactlyOnce(results, names, emitted, order)
  {
  }

  /** After looking at the first `i` nodes: those kept as outbounds are pending, the others of them
      are final, and the rest are untouched. */
  ghost predicate SplitSoFar(results: seq<TestResult>, kept: seq<nat>, i: nat) {
    && i <= |results| && Distinct(kept)
    && (forall k :: 0 <= k < |kept| ==> kept[k] < i)
    && (forall j: nat :: j < |results| ==> (Final(results[j]) <==> j < i && j !in kept))
  }

  lemma SplitNext(results: seq<TestResult>, kept: seq<nat>, i: nat)
    requires SplitSoFar(results, kept, i) && i < |results|
    ensures !Final(results[i]) && SplitSoFar(results, kept + [i], i + 1)
  {
    var after := kept + [i];
    assert after[|kept|] == i;
    forall j: nat | j < |results|
      ensures Final(results[j]) <==> j < i + 1 && j !in after
    {
      if j in kept {
        assert j in after;
      }
    }
  }

  lemma SplitFinal(results: seq<TestResult>, kept: seq<nat>, i: nat, r: TestResult)
    requires SplitSoFar(results, kept, i) && i < |results| && Final(r)
    ensures SplitSoFar(results[i := r], kept, i + 1)
  {
  }

  // ---------- merging a sub-batch back by index ----------

  /** `after` is `before` with the sub-batch's results written to the selected indexes. */
  ghost predicate Scattered(before: seq<TestResult>, selected: seq<nat>, sub: seq<TestResult>, after: seq<TestResult>) {
    && |after| == |before| && |selected| == |sub|
    && (forall k :: 0 <= k < |selected| ==> selected[k] < |after| && after[selected[k]] == sub[k])
    && (forall j: nat :: j < |after| && j !in selected ==> after[j] == before[j])
  }

  ghost function Mapped(selected: seq<nat>, order: seq<nat>): (m: seq<nat>)
    requires forall k :: 0 <= k < |order| ==> order[k] < |selected|
    ensures |m| == |order| && forall k :: 0 <= k < |m| ==> m[k] == selected[order[k]]
  {
    seq(|order|, k requires 0 <= k < |order| => selected[order[k]])
  }

  /** What is pending is exactly the selection. */
  ghost predicate PendingExactly(results: seq<TestResult>, selected: seq<nat>) {
    && Distinct(selected) && Pending(results, selected)
    && forall j: nat :: j < |results| ==> Final(results[j]) || j in selected
  }

  lemma MergedOrderDistinct(before: seq<TestResult>, order: seq<nat>, selected: seq<nat>, subOrder: seq<nat>)
    requires Distinct(order) && Distinct(subOrder) && PendingExactly(before, selected)
    requires forall k :: 0 <= k < |order| ==> order[k] < |before| && Final(before[order[k]])
    requires forall k :: 0 <= k < |subOrder| ==> subOrder[k] < |selected|
    ensures Distinct(order + Mapped(selected, subOrder))
  {
    var m := Mapped(selected, subOrder);
    forall i, j | 0 <= i < j < |order + m|
      ensures (order + m)[i] != (order + m)[j]
    {
      if i < |order| <= j {
        assert !Final(before[m[j - |order|]]) && Final(before[order[i]]);
      }
    }
  }

  lemma MergedOrderComplete(before: seq<TestResult>, order: seq<nat>, selected: seq<nat>, subOrder: seq<nat>)
    requires PendingExactly(before, selected)
    requires forall i: nat :: i < |before| && Final(before[i]) ==> i in order
    requires forall k :: 0 <= k < |subOrder| ==> subOrder[k] < |selected|
    requires forall k: nat :: k < |selected| ==> k in subOrder
    ensures forall i: nat :: i < |before| ==> i in order + Mapped(selected, subOrder)
  {
    var m := Mapped(selected, subOrder);
    forall i: nat | i < |before|
      ensures i in order + m
    {
      if !Final(before[i]) {
        assert i in selected;
        var k :| 0 <= k < |selected| && selected[k] == i;
        assert k in subOrder;
        var p :| 0 <= p < |subOrder| && subOrder[p] == k;
        assert m[p] in m;
      }
    }
  }

  lemma MergedEmitted(before: seq<TestResult>, emitted: seq<TestResult>, order: seq<nat>, selected: seq<nat>,
                      sub: seq<TestResult>, subEmitted: seq<TestResult>, subOrder: seq<nat>, after: seq<TestResult>)
    requires PendingExactly(before, selected) && Scattered(before, selected, sub, after)
    requires |order| == |emitted| && |subOrder| == |subEmitted|
    requires forall k :: 0 <= k < |order| ==>
      order[k] < |before| && Final(before[order[k]]) && emitted[k] == before[order[k]]
    requires forall k :: 0 <= k < |subOrder| ==> subOrder[k] < |sub| && subEmitted[k] == sub[subOrder[k]]
    ensures var merged := order + Mapped(selected, subOrder);
      forall k :: 0 <= k < |merged| ==> merged[k] < |after| && (emitted + subEmitted)[k] == after[merged[k]]
  {
    forall k | 0 <= k < |order|
      ensures after[order[k]] == before[order[k]]
    {
      assert order[k] !in selected;
    }
  }

  lemma OrderIsFinal(results: seq<TestResult>, names: seq<string>, emitted: seq<TestResult>, order: seq<nat>)
    requires Tracks(results, names, emitted, order)
    ensures forall k :: 0 <= k < |order| ==> Final(results[order[k]])
    ensures forall i: nat :: i < |results| && Final(results[i]) ==> i in order
  {
    assert forall k :: 0 <= k < |order| ==> order[k] in order;
  }

  /** Exactly-once composes: a batch whose pending part was delegated to a sub-batch that keeps the
      rule keeps it as a whole. */
  lemma MergeExactlyOnce(before: seq<TestResult>, names: seq<string>, emitted: seq<TestResult>, order: seq<nat>,
                         selected: seq<nat>,
                         sub: seq<TestResult>, subNames: seq<string>, subEmitted: seq<TestResult>, subOrder: seq<nat>,
                         after: seq<TestResult>)
    requires Tracks(before, names, emitted, order) && PendingExactly(before, selected)
    requires ExactlyOnce(sub, subNames, subEmitted, subOrder)
    requires |subNames| == |selected| && forall k :: 0 <= k < |selected| ==> subNames[k] == names[selected[k]]
    requires Scattered(before, selected, sub, after)
    ensures forall k :: 0 <= k < |subOrder| ==> subOrder[k] < |selected|
    ensures ExactlyOnce(after, names, emitted + subEmitted, order + Mapped(selected, subOrder))
  {
    hide Distinct, Final;
    OrderIsFinal(before, names, emitted, order);
    OrderIsFinal(sub, subNames, subEmitted, subOrder);
    MergeResults(before, names, selected, sub, subNames, after);
    hide PendingExactly;
    MergedOrderDistinct(before, order, selected, subOrder);
    MergedOrderComplete(before, order, selected, subOrder);
    MergedEmitted(before, emitted, order, selected, sub, subEmitted, subOrder, after);
    hide Mapped, Scattered;
  }

  lemma MergeResults(before: seq<TestResult>, names: seq<string>, selected: seq<nat>, sub: seq<TestResult>,
                     subNames: seq<string>, after: seq<TestResult>)
    requires |names| == |before| && PendingExactly(before, selected)
    requires forall i: nat :: i < |before| ==> before[i].nodeName == names[i]
    requires |subNames| == |sub| && forall k: nat :: k < |sub| ==> sub[k].nodeName == subNames[k] && Final(sub[k])
    requires |subNames| == |selected| && forall k :: 0 <= k < |selected| ==> subNames[k] == names[selected[k]]
    requires Scattered(before, selected, sub, after)
    ensures forall i: nat :: i < |after| ==> after[i].nodeName == names[i] && Final(after[i])
  {
    forall i: nat | i < |after|
      ensures after[i].nodeName == names[i] && Final(after[i])
    {
      if i in selected {
        var k :| 0 <= k < |selected| && selected[k] == i;
      }
    }
  }

  method Scatter(results: array<TestResult>, selected: seq<nat>, sub: array<TestResult>)
    requires results != sub && |selected| == sub.Length && Distinct(selected)
    requires forall k :: 0 <= k < |selected| ==> selected[k] < results.Length
    modifies results
    ensures Scattered(old(results[..]), selected, sub[..], results[..])
  {
    for i := 0 to sub.Length
      invariant forall k :: 0 <= k < i ==> results[selected[k]] == sub[k]
      invariant forall j: nat :: j < results.Length && j !in selected[..i] ==> results[j] == old(results[j])
    {
      results[selected[i]] := sub[i];
      assert selected[..i + 1] == selected[..i] + [selected[i]];
    }
    assert selected[..|selected|] == selected;
  }

  /** After partitioning the first `i` nodes into TCP nodes, core nodes and invalid ones. */
  ghost predicate PartitionSoFar(results: seq<TestResult>, tcp: seq<nat>, core: seq<nat>, i: nat) {
    && i <= |results| && Distinct(tcp) && Distinct(core)
    && (forall k :: 0 <= k < |tcp| ==> tcp[k] < i && tcp[k] !in core)
    && (forall k :: 0 <= k < |core| ==> core[k] < i)
    && (forall j: nat :: j < |results| ==> (Final(results[j]) <==> j < i && j !in tcp && j !in core))
  }

  lemma PartitionNext(results: seq<TestResult>, tcp: seq<nat>, core: seq<nat>, i: nat)
    requires PartitionSoFar(results, tcp, core, i) && i < |results|
    ensures !Final(results[i])
    ensures PartitionSoFar(results, tcp + [i], core, i + 1)
    ensures PartitionSoFar(results, tcp, core + [i], i + 1)
  {
    assert forall j: nat :: j in tcp + [i] <==> j in tcp || j == i;
    assert forall j: nat :: j in core + [i] <==> j in core || j == i;
  }

  lemma PartitionFinal(results: seq<TestResult>, tcp: seq<nat>, core: seq<nat>, i: nat, r: TestResult)
    requires PartitionSoFar(results, tcp, core, i) && i < |results| && Final(r)
    ensures PartitionSoFar(results[i := r], tcp, core, i + 1)
  {
  }

  lemma AfterTcp(before: seq<TestResult>, nodes: seq<Node>, probe: nat -> Probe, tcp: seq<nat>, core: seq<nat>)
    requires |before| == |nodes| && PartitionSoFar(before, tcp, core, |nodes|)
    ensures Pending(before, tcp)
    ensures PendingExactly(Filled(before, nodes, probe, FinalStage(|nodes|, tcp)), core)
  {
    var after := Filled(before, nodes, probe, FinalStage(|nodes|, tcp));
    forall k | 0 <= k < |core|
      ensures core[k] < |after| && !Final(after[core[k]])
    {
      assert core[k] in core;
      assert forall t :: 0 <= t < |tcp| ==> tcp[t] != core[k];
    }
    forall k | 0 <= k < |tcp|
      ensures tcp[k] < |before| && !Final(before[tcp[k]])
    {
      assert tcp[k] in tcp;
    }
  }

  /** Where the first i nodes were sent: TCP nodes, and core nodes with their rank among those. */
  ghost predicate Routed(nodes: seq<Node>, tcp: seq<nat>, core: seq<nat>, coreNodes: seq<Node>, i: nat) {
    && i <= |nodes| && coreNodes == CoreNodes(nodes[..i]) && |core| == |coreNodes|
    && (forall k :: 0 <= k < |tcp| ==>
        tcp[k] < i && Addressable(nodes[tcp[k]]) && TcpHandshakeProtocol(nodes[tcp[k]].protocol))
    && (forall k :: 0 <= k < |core| ==>
          && core[k] < i && coreNodes[k] == nodes[core[k]] && |CoreNodes(nodes[..core[k]])| == k
          && Addressable(nodes[core[k]]) && !TcpHandshakeProtocol(nodes[core[k]].protocol))
  }

  lemma RoutedNext(nodes: seq<Node>, tcp: seq<nat>, core: seq<nat>, coreNodes: seq<Node>, i: nat)
    requires Routed(nodes, tcp, core, coreNodes, i) && i < |nodes|
    ensures !Addressable(nodes[i]) ==> Routed(nodes, tcp, core, coreNodes, i + 1)
    ensures Addressable(nodes[i]) && TcpHandshakeProtocol(nodes[i].protocol) ==>
      Routed(nodes, tcp + [i], core, coreNodes, i + 1)
    ensures Addressable(nodes[i]) && !TcpHandshakeProtocol(nodes[i].protocol) ==>
      Routed(nodes, tcp, core + [i], coreNodes + [nodes[i]], i + 1)
  {
    hide Addressable, TcpHandshakeProtocol;
    assert nodes[..i + 1][..i] == nodes[..i];
  }

  ghost predicate InvalidWanted(nodes: seq<Node>, want: seq<TestResult>) {
    |want| == |nodes|
    && forall i :: 0 <= i < |nodes| && !Addressable(nodes[i]) ==> want[i] == FailedResult(nodes[i].name, INVALID_NODE)
  }

  lemma NodesWantInvalid(nodes: seq<Node>, run: CoreRun, tcpProbe: nat -> Probe, coreProbe: nat -> Probe)
    ensures InvalidWanted(nodes, NodeResults(nodes, None, run, tcpProbe, coreProbe))
  {
    var want := NodeResults(nodes, None, run, tcpProbe, coreProbe);
    forall i | 0 <= i < |nodes| && !Addressable(nodes[i])
      ensures want[i] == FailedResult(nodes[i].name, INVALID_NODE)
    {
      assert want[i] == NodeResult(nodes, i, run, tcpProbe, coreProbe);
    }
  }

  /** After sending off the first i nodes. */
  ghost predicate PartitionInv(results: seq<TestResult>, nodes: seq<Node>, want: seq<TestResult>, tcp: seq<nat>,
                               core: seq<nat>,
                               coreNodes: seq<Node>, emitted: seq<TestResult>, order: seq<nat>, i: nat) {
    && Tracks(results, Names(nodes), emitted, order) && PartitionSoFar(results, tcp, core, i) && Towards(results, want)
    && Routed(nodes, tcp, core, coreNodes, i) && InvalidWanted(nodes, want) && |results| == |nodes|
  }

  lemma PartitionStart(results: seq<TestResult>, nodes: seq<Node>, want: seq<TestResult>)
    requires Tracks(results, Names(nodes), [], []) && Towards(results, want) && InvalidWanted(nodes, want)
      && |results| == |nodes|
    requires forall i :: 0 <= i < |results| ==> !Final(results[i])
    ensures PartitionInv(results, nodes, want, [], [], [], [], [], 0)
  {
  }

  lemma PartitionInvalid(results: seq<TestResult>, nodes: seq<Node>, want: seq<TestResult>, tcp: seq<nat>,
                         core: seq<nat>, coreNodes: seq<Node>, emitted: seq<TestResult>, order: seq<nat>, i: nat)
    requires PartitionInv(results, nodes, want, tcp, core, coreNodes, emitted, order, i) && i < |results| == |nodes|
    requires !Addressable(nodes[i])
    ensures |want| == |results| && results[i].(error := INVALID_NODE) == want[i]
    ensures PartitionInv(results[i := want[i]], nodes, want, tcp, core, coreNodes, emitted + [want[i]], order + [i],
                         i + 1)
  {
    hide Tracks, PartitionSoFar, Towards, Routed, Addressable;
    TowardsLength(results, want);
    PartitionNext(results, tcp, core, i);
    RoutedNext(nodes, tcp, core, coreNodes, i);
    TowardsStep(results, want, i);
    PartitionFinal(results, tcp, core, i, want[i]);
    TrackOne(results, Names(nodes), emitted, order, i, want[i]);
  }

  lemma PartitionValid(results: seq<TestResult>, nodes: seq<Node>, want: seq<TestResult>, tcp: seq<nat>, core: seq<nat>,
                       coreNodes: seq<Node>, emitted: seq<TestResult>, order: seq<nat>, i: nat)
    requires PartitionInv(results, nodes, want, tcp, core, coreNodes, emitted, order, i) && i < |results| == |nodes|
    requires Addressable(nodes[i])
    ensures if TcpHandshakeProtocol(nodes[i].protocol)
      then PartitionInv(results, nodes, want, tcp + [i], core, coreNodes, emitted, order, i + 1)
      else PartitionInv(results, nodes, want, tcp, core + [i], coreNodes + [nodes[i]], emitted, order, i + 1)
  {
    hide Tracks, PartitionSoFar, Towards, Routed, Addressable, TcpHandshakeProtocol, InvalidWanted;
    PartitionNext(results, tcp, core, i);
    RoutedNext(nodes, tcp, core, coreNodes, i);
  }

  /** The partitioning loop of a batch: invalid nodes fail at once. */
  method Partition(nodes: seq<Node>, results: array<TestResult>, progress: Progress, ghost want: seq<TestResult>,
                   ghost start: nat)
    returns (tcp: seq<nat>, core: seq<nat>, coreNodes: seq<Node>, ghost order: seq<nat>)
    requires start == |progress.events| && progress.Valid() && results.Length == |nodes|
    requires PartitionInv(results[..], nodes, want, [], [], [], [], [], 0)
    modifies results, progress
    ensures progress.Valid() && old(progress.events) <= progress.events
    ensures PartitionInv(results[..], nodes, want, tcp, core, coreNodes, progress.Since(start), order, |nodes|)
  {
    assert progress.Since(start) == [];
    tcp, core, coreNodes, order := [], [], [], [];
    hide PartitionInv, Addressable, TcpHandshakeProtocol, Final, ResultsOf, Progress.Since, Progress.Valid;
    for i := 0 to |nodes|
      invariant progress.Valid() && old(progress.events) <= progress.events
      invariant PartitionInv(results[..], nodes, want, tcp, core, coreNodes, progress.Since(start), order, i)
    {
      if !Addressable(nodes[i]) {
        PartitionInvalid(results[..], nodes, want, tcp, core, coreNodes, progress.Since(start), order, i);
        results[i] := results[i].(error := INVALID_NODE);
        progress.OnResult(results[i]);
        order := order + [i];
      } else {
        PartitionValid(results[..], nodes, want, tcp, core, coreNodes, progress.Since(start), order, i);
        if TcpHandshakeProtocol(nodes[i].protocol) {
          tcp := tcp + [i];
        } else {
          core := core + [i];
          coreNodes := coreNodes + [nodes[i]];
        }
      }
    }
  }

  /** The package-level batch: invalid nodes fail at once, TCP nodes go through the TCP pool, the
      rest through one shared core whose results are scattered back by index. */
  method TestNodes(nodes: seq<Node>, run: CoreRun, tcpProbe: nat -> Probe, coreProbe: nat -> Probe, progress: Progress)
    returns (results: array<TestResult>, ghost order: seq<nat>)
    requires progress.Valid()
    modifies progress
    ensures progress.Valid() && old(progress.events) <= progress.events
    ensures fresh(results) && results.Length == |nodes|
    ensures ExactlyOnce(results[..], Names(nodes), progress.Since(|old(progress.events)|), order)
    ensures results[..] == NodeResults(nodes, None, run, tcpProbe, coreProbe)
    ensures forall i :: 0 <= i < |nodes| ==> NodeTells(results[i], nodes, i, None, run, tcpProbe, coreProbe)
  {
    BatchTells(nodes, None, run, tcpProbe, coreProbe);
    hide NodeTells;
    ghost var start := |progress.events|;
    ghost var want := NodeResults(nodes, None, run, tcpProbe, coreProbe);
    results := PendingResults(Names(nodes));
    order := [];
    assert progress.Since(start) == [];
    StartTowards(results[..], want);
    if |nodes| == 0 {
      return;
    }
    NodesWantInvalid(nodes, run, tcpProbe, coreProbe);
    PartitionStart(results[..], nodes, want);
    hide Tracks, PartitionSoFar, Towards, Names, Routed, NodeResults, Filled, FinalStage, PendingExactly;
    var tcp, core, coreNodes;
    tcp, core, coreNodes, order := Partition(nodes, results, progress, want, start);
    ghost var split := results[..];
    AfterTcp(split, nodes, tcpProbe, tcp, core);
    PartitionDistinct(split, tcp, core);
    order := TestTcpNodes(nodes, tcp, results, tcpProbe, progress, start, order);
    TcpWanted(nodes, run, tcpProbe, coreProbe, split, tcp, core, coreNodes);
    order := MergeCore(nodes, core, coreNodes, results, run, tcpProbe, coreProbe, progress, tcp, start, order);
  }

  lemma PartitionDistinct(results: seq<TestResult>, tcp: seq<nat>, core: seq<nat>)
    requires PartitionSoFar(results, tcp, core, |results|)
    ensures Distinct(tcp)
  {
  }

  lemma TcpWanted(nodes: seq<Node>, run: CoreRun, tcpProbe: nat -> Probe, coreProbe: nat -> Probe,
                  before: seq<TestResult>, tcp: seq<nat>, core: seq<nat>, coreNodes: seq<Node>)
    requires |before| == |nodes| && Towards(before, NodeResults(nodes, None, run, tcpProbe, coreProbe))
    requires Routed(nodes, tcp, core, coreNodes, |nodes|)
    ensures Towards(Filled(before, nodes, tcpProbe, FinalStage(|nodes|, tcp)),
                    NodeResults(nodes, None, run, tcpProbe, coreProbe))
  {
    hide Addressable, TcpHandshakeProtocol, CoreNodes;
    var after, want := Filled(before, nodes, tcpProbe, FinalStage(|nodes|, tcp)),
      NodeResults(nodes, None, run, tcpProbe, coreProbe);
    forall i | 0 <= i < |nodes| && i in tcp
      ensures after[i] == want[i]
    {
      assert want[i] == NodeResult(nodes, i, run, tcpProbe, coreProbe);
    }
  }

  method MergeCore(nodes: seq<Node>, core: seq<nat>, coreNodes: seq<Node>, results: array<TestResult>, run: CoreRun,
                   ghost tcpProbe: nat -> Probe, probe: nat -> Probe, progress: Progress, ghost tcp: seq<nat>,
                   ghost start: nat, ghost order0: seq<nat>)
    returns (ghost order: seq<nat>)
    requires start <= |progress.events| && progress.Valid() && results.Length == |nodes|
    requires Tracks(results[..], Names(nodes), progress.Since(start), order0)
    requires PendingExactly(results[..], core) && Routed(nodes, tcp, core, coreNodes, |nodes|)
    requires Towards(results[..], NodeResults(nodes, None, run, tcpProbe, probe))
    modifies results, progress
    ensures progress.Valid() && old(progress.events) <= progress.events
    ensures ExactlyOnce(results[..], Names(nodes), progress.Since(start), order)
    ensures results[..] == NodeResults(nodes, None, run, tcpProbe, probe)
  {
    ghost var before, emitted := results[..], progress.Since(start);
    ghost var mid := |progress.events|;
    RoutedPairs(nodes, tcp, core, coreNodes);
    PendingDistinct(before, core);
    hide Tracks, PendingExactly, Routed, Towards, Names, NodeResults, CoreResults, ExactlyOnce, Scattered, Distinct;
    ghost var subOrder := ScatterCore(coreNodes, core, results, run, probe, progress);
    ResultsSplit(old(progress.events), progress.events, start);
    order := CoreMerged(nodes, run, tcpProbe, probe, before, emitted, order0, tcp, core, coreNodes, progress.Since(mid),
                        subOrder, results[..]);
  }

  method ScatterCore(coreNodes: seq<Node>, core: seq<nat>, results: array<TestResult>, run: CoreRun,
                     probe: nat -> Probe, progress: Progress)
    returns (ghost subOrder: seq<nat>)
    requires progress.Valid() && |coreNodes| == |core| && Distinct(core)
    requires forall k :: 0 <= k < |core| ==> core[k] < results.Length
    modifies results, progress
    ensures progress.Valid() && old(progress.events) <= progress.events
    ensures ExactlyOnce(CoreResults(coreNodes, run, probe), Names(coreNodes), progress.Since(|old(progress.events)|),
                        subOrder)
    ensures Scattered(old(results[..]), core, CoreResults(coreNodes, run, probe), results[..])
  {
    hide Names, CoreResults, ExactlyOnce, Scattered, Distinct;
    var sub;
    sub, subOrder := TestNodesWithCore(coreNodes, run, probe, progress);
    Scatter(results, core, sub);
  }

  /** The shared-core batch merged back: exactly once, and with each node's own result. */
  lemma CoreMerged(nodes: seq<Node>, run: CoreRun, tcpProbe: nat -> Probe, probe: nat -> Probe, before: seq<TestResult>,
                   emitted: seq<TestResult>, order0: seq<nat>, tcp: seq<nat>, core: seq<nat>, coreNodes: seq<Node>,
                   subEmitted: seq<TestResult>, subOrder: seq<nat>, after: seq<TestResult>) returns (order: seq<nat>)
    requires Tracks(before, Names(nodes), emitted, order0) && PendingExactly(before, core)
    requires Routed(nodes, tcp, core, coreNodes, |nodes|)
    requires Towards(before, NodeResults(nodes, None, run, tcpProbe, probe))
    requires ExactlyOnce(CoreResults(coreNodes, run, probe), Names(coreNodes), subEmitted, subOrder)
    requires Scattered(before, core, CoreResults(coreNodes, run, probe), after)
    ensures ExactlyOnce(after, Names(nodes), emitted + subEmitted, order)
    ensures after == NodeResults(nodes, None, run, tcpProbe, probe)
  {
    RoutedPairs(nodes, tcp, core, coreNodes);
    CorePairs(nodes, core, coreNodes);
    hide Tracks, PendingExactly, Routed, Towards, Names, NodeResults, CoreResults, ExactlyOnce, Scattered;
    MergeExactlyOnce(before, Names(nodes), emitted, order0, core, CoreResults(coreNodes, run, probe), Names(coreNodes),
                     subEmitted, subOrder, after);
    CoreWanted(nodes, run, tcpProbe, probe, before, tcp, core, coreNodes, after);
    order := order0 + Mapped(core, subOrder);
  }

  lemma PendingDistinct(results: seq<TestResult>, selected: seq<nat>)
    requires PendingExactly(results, selected)
    ensures Distinct(selected) && forall k :: 0 <= k < |selected| ==> selected[k] < |results|
  {
  }

  lemma RoutedPairs(nodes: seq<Node>, tcp: seq<nat>, core: seq<nat>, coreNodes: seq<Node>)
    requires Routed(nodes, tcp, core, coreNodes, |nodes|)
    ensures |coreNodes| == |core| && forall k :: 0 <= k < |core| ==> core[k] < |nodes| && coreNodes[k] == nodes[core[k]]
  {
  }

  lemma CorePairs(nodes: seq<Node>, selected: seq<nat>, chosen: seq<Node>)
    requires |chosen| == |selected| && forall k :: 0 <= k < |selected| ==>
      selected[k] < |nodes| && chosen[k] == nodes[selected[k]]
    ensures |Names(chosen)| == |selected| && |Names(nodes)| == |nodes|
    ensures forall k :: 0 <= k < |selected| ==> Names(chosen)[k] == Names(nodes)[selected[k]]
  {
  }

  lemma CoreWanted(nodes: seq<Node>, run: CoreRun, tcpProbe: nat -> Probe, probe: nat -> Probe, before: seq<TestResult>,
                   tcp: seq<nat>, core: seq<nat>, coreNodes: seq<Node>, after: seq<TestResult>)
    requires Routed(nodes, tcp, core, coreNodes, |nodes|) && PendingExactly(before, core)
    requires Towards(before, NodeResults(nodes, None, run, tcpProbe, probe))
    requires Scattered(before, core, CoreResults(coreNodes, run, probe), after)
    ensures after == NodeResults(nodes, None, run, tcpProbe, probe)
  {
    hide Addressable, TcpHandshakeProtocol, CoreNodes, CoreResult;
    var want := NodeResults(nodes, None, run, tcpProbe, probe);
    forall k | 0 <= k < |core|
      ensures after[core[k]] == want[core[k]]
    {
      assert CoreResults(coreNodes, run, probe)[k] == CoreResult(nodes[core[k]], run, probe(k));
      assert want[core[k]] == NodeResult(nodes, core[k], run, tcpProbe, probe);
    }
    forall i | 0 <= i < |nodes|
      ensures after[i] == want[i]
    {
      if i in core {
        var k :| 0 <= k < |core| && core[k] == i;
      } else {
        assert Final(before[i]);
      }
    }
  }

  /** The runner's batch: without a test slot every node fails with the context's error. */
  method RunnerTestNodes(nodes: seq<Node>, slot: Option<ErrorText>, run: CoreRun, tcpProbe: nat -> Probe,
                         coreProbe: nat -> Probe, progress: Progress)
    returns (results: array<TestResult>, ghost order: seq<nat>)
    requires progress.Valid()
    modifies progress
    ensures progress.Valid() && old(progress.events) <= progress.events
    ensures fresh(results) && results.Length == |nodes|
    ensures ExactlyOnce(results[..], Names(nodes), progress.Since(|old(progress.events)|), order)
    ensures results[..] == NodeResults(nodes, slot, run, tcpProbe, coreProbe)
    ensures forall i :: 0 <= i < |nodes| ==> NodeTells(results[i], nodes, i, slot, run, tcpProbe, coreProbe)
  {
    BatchTells(nodes, slot, run, tcpProbe, coreProbe);
    hide NodeTells;
    if slot.Some? {
      ghost var start := |progress.events|;
      results := PendingResults(Names(nodes));
      assert progress.Since(start) == [];
      order := FinishPending(results, slot, progress, Names(nodes), start, []);
      assert results[..] == NodeResults(nodes, slot, run, tcpProbe, coreProbe);
      return;
    }
    results, order := TestNodes(nodes, run, tcpProbe, coreProbe, progress);
  }

  // ---------- the application call ----------

  /** Position k holds the first active node of this name. */
  ghost predicate FirstNamed(active: seq<Node>, k: nat, name: string) {
    k < |active| && active[k].name == name && forall j :: 0 <= j < k ==> active[j].name != name
  }

  function FindActive(active: seq<Node>, name: string): (found: Option<Node>)
    ensures found.Some? ==> exists k: nat :: FirstNamed(active, k, name) && found.value == active[k]
    ensures found.None? ==> forall k :: 0 <= k < |active| ==> active[k].name != name
  {
    if active == [] then None
    else if active[0].name == name then
      assert FirstNamed(active, 0, name);
      Some(active[0])
    else
      var found := FindActive(active[1..], name);
      assert forall k: nat :: FirstNamed(active[1..], k, name) ==> FirstNamed(active, k + 1, name);
      found
  }

  function TrimmedNames(nodeNames: seq<string>): (names: seq<string>)
    ensures |names| == |nodeNames| && forall i :: 0 <= i < |names| ==> names[i] == Trim(nodeNames[i])
  {
    seq(|nodeNames|, i requires 0 <= i < |nodeNames| => Trim(nodeNames[i]))
  }

  /** The active nodes found for the names, in order; names without one are left out. */
  function FoundNodes(names: seq<string>, active: seq<Node>): seq<Node> {
    if names == [] then []
    else
      var found, before := FindActive(active, names[|names| - 1]), FoundNodes(names[..|names| - 1], active);
      if found.Some? then before + [found.value] else before
  }

  /** The node found for name i sits where the count of the names found before it says. */
  lemma {:induction false} FoundAt(names: seq<string>, active: seq<Node>, i: nat)
    requires i < |names| && FindActive(active, names[i]).Some?
    ensures |FoundNodes(names[..i], active)| < |FoundNodes(names, active)|
    ensures FoundNodes(names, active)[|FoundNodes(names[..i], active)|] == FindActive(active, names[i]).value
  {
    if i < |names| - 1 {
      assert names[..|names| - 1][..i] == names[..i];
      FoundAt(names[..|names| - 1], active, i);
    }
  }

  ghost predicate IsActive(active: seq<Node>, name: string) {
    exists k :: 0 <= k < |active| && active[k].name == name
  }

  /** How many of the names before position i have an active node. */
  ghost function FoundRank(names: seq<string>, active: seq<Node>, i: nat): nat
    requires i <= |names|
  {
    |set j | 0 <= j < i && IsActive(active, names[j])|
  }

  lemma FindActiveIs(active: seq<Node>, name: string)
    ensures FindActive(active, name).Some? <==> IsActive(active, name)
  {
  }

  lemma FoundRankNext(names: seq<string>, active: seq<Node>, i: nat)
    requires i < |names|
    ensures FoundRank(names, active, i + 1) == FoundRank(names, active, i) + if IsActive(active, names[i]) then 1 else 0
  {
    hide IsActive;
    var before := set j | 0 <= j < i && IsActive(active, names[j]);
    var ranked := set j | 0 <= j < i + 1 && IsActive(active, names[j]);
    assert ranked == before + if IsActive(active, names[i]) then {i} else {};
  }

  lemma NothingFound(names: seq<string>, active: seq<Node>, i: nat)
    requires i <= |names|
    ensures i == 0 ==> FoundRank(names, active, i) == 0
  {
    hide IsActive;
    var ranked := set j | 0 <= j < i && IsActive(active, names[j]);
    assert i == 0 ==> ranked == {};
  }

  lemma FoundNodesNext(names: seq<string>, active: seq<Node>, i: nat)
    requires i < |names|
    ensures |FoundNodes(names[..i + 1], active)|
         == |FoundNodes(names[..i], active)| + if IsActive(active, names[i]) then 1 else 0
  {
    hide FindActive, IsActive;
    FindActiveIs(active, names[i]);
    assert names[..i + 1][..i] == names[..i];
  }

  lemma {:induction false} FoundNodesRank(names: seq<string>, active: seq<Node>, i: nat)
    requires i <= |names|
    ensures |FoundNodes(names[..i], active)| == FoundRank(names, active, i)
  {
    hide FindActive, IsActive, FoundRank;
    if i == 0 {
      NothingFound(names, active, i);
    } else {
      FoundNodesRank(names, active, i - 1);
      FoundRankNext(names, active, i - 1);
      FoundNodesNext(names, active, i - 1);
    }
  }

  /** The result for a name, in plain terms: not found, or the batch result of the first active node of
      that name, which sits among the found nodes where the names found before it put it. */
  ghost predicate NameTells(r: TestResult, names: seq<string>, i: nat, active: seq<Node>, slot: Option<ErrorText>,
                            run: CoreRun, tcpProbe: nat -> Probe, coreProbe: nat -> Probe)
    requires i < |names|
  {
    && r.nodeName == names[i]
    && (!IsActive(active, names[i]) ==> Refused(r, "proxy node not found"))
    && (IsActive(active, names[i]) ==>
         var nodes, k := FoundNodes(names, active), FoundRank(names, active, i);
         && k < |nodes| && NodeTells(r, nodes, k, slot, run, tcpProbe, coreProbe)
         && exists q: nat :: FirstNamed(active, q, names[i]) && nodes[k] == active[q])
  }

  lemma NameResultTells(names: seq<string>, i: nat, active: seq<Node>, slot: Option<ErrorText>, run: CoreRun,
                        tcpProbe: nat -> Probe, coreProbe: nat -> Probe)
    requires i < |names|
    ensures NameTells(ApplicationResult(names, i, active, slot, run, tcpProbe, coreProbe),
                      names, i, active, slot, run, tcpProbe, coreProbe)
  {
    hide NodeTells, NodeResults, FoundNodes, FoundRank, IsActive, FirstNamed;
    FindActiveIs(active, names[i]);
    FoundNodesRank(names, active, i);
    if IsActive(active, names[i]) {
      FoundAt(names, active, i);
      BatchTells(FoundNodes(names, active), slot, run, tcpProbe, coreProbe);
    }
  }

  lemma ApplicationTells(names: seq<string>, active: seq<Node>, slot: Option<ErrorText>, run: CoreRun,
                         tcpProbe: nat -> Probe, coreProbe: nat -> Probe)
    ensures forall i :: 0 <= i < |names| ==>
      NameTells(ApplicationResults(names, active, slot, run, tcpProbe, coreProbe)[i],
                names, i, active, slot, run, tcpProbe, coreProbe)
  {
    hide NameTells, ApplicationResult;
    forall i | 0 <= i < |names|
      ensures NameTells(ApplicationResults(names, active, slot, run, tcpProbe, coreProbe)[i],
                        names, i, active, slot, run, tcpProbe, coreProbe)
    {
      NameResultTells(names, i, active, slot, run, tcpProbe, coreProbe);
    }
  }

  /** The result for name i: not found, or what the runner's batch of the found nodes has for it. */
  function ApplicationResult(names: seq<string>, i: nat, active: seq<Node>, slot: Option<ErrorText>, run: CoreRun,
                             tcpProbe: nat -> Probe, coreProbe: nat -> Probe): (r: TestResult)
    requires i < |names|
    ensures Final(r) && r.nodeName == names[i]
  {
    if FindActive(active, names[i]).None? then FailedResult(names[i], NOT_FOUND)
    else
      FoundAt(names, active, i);
      NodeResults(FoundNodes(names, active), slot, run, tcpProbe, coreProbe)[|FoundNodes(names[..i], active)|]
  }

  function ApplicationResults(names: seq<string>, active: seq<Node>, slot: Option<ErrorText>, run: CoreRun,
                              tcpProbe: nat -> Probe, coreProbe: nat -> Probe): (rs: seq<TestResult>)
    ensures |rs| == |names| && forall i :: 0 <= i < |names| ==>
      Final(rs[i]) && rs[i].nodeName == names[i]
        && rs[i] == ApplicationResult(names, i, active, slot, run, tcpProbe, coreProbe)
  {
    seq(|names|, i requires 0 <= i < |names| => ApplicationResult(names, i, active, slot, run, tcpProbe, coreProbe))
  }

  /** The selected positions are those whose name has an active node, paired with that node. */
  ghost predicate Resolved(names: seq<string>, active: seq<Node>, selected: seq<nat>, nodes: seq<Node>, i: nat) {
    && i <= |names| && nodes == FoundNodes(names[..i], active) && |nodes| == |selected|
    && forall k :: 0 <= k < |selected| ==>
      && selected[k] < i && FindActive(active, names[selected[k]]) == Some(nodes[k])
      && nodes[k].name == names[selected[k]]
      && |FoundNodes(names[..selected[k]], active)| == k
  }

  lemma ResolvedNext(names: seq<string>, active: seq<Node>, selected: seq<nat>, nodes: seq<Node>, i: nat)
    requires Resolved(names, active, selected, nodes, i) && i < |names|
    ensures match FindActive(active, names[i])
      case None => Resolved(names, active, selected, nodes, i + 1)
      case Some(node) => Resolved(names, active, selected + [i], nodes + [node], i + 1)
  {
    assert names[..i + 1][..i] == names[..i];
  }

  lemma SplitDone(results: seq<TestResult>, selected: seq<nat>)
    requires SplitSoFar(results, selected, |results|)
    ensures PendingExactly(results, selected)
  {
  }

  /** Names without an active node are to fail as not found. */
  ghost predicate NotFoundWanted(names: seq<string>, active: seq<Node>, want: seq<TestResult>) {
    |want| == |names|
    && forall i :: 0 <= i < |names| && FindActive(active, names[i]).None? ==>
      want[i] == FailedResult(names[i], NOT_FOUND)
  }

  lemma ApplicationWantsNotFound(names: seq<string>, active: seq<Node>, slot: Option<ErrorText>, run: CoreRun,
                                 tcpProbe: nat -> Probe, coreProbe: nat -> Probe)
    ensures NotFoundWanted(names, active, ApplicationResults(names, active, slot, run, tcpProbe, coreProbe))
  {
    hide FoundNodes, NodeResults, FindActive;
    var want := ApplicationResults(names, active, slot, run, tcpProbe, coreProbe);
    forall i | 0 <= i < |names| && FindActive(active, names[i]).None?
      ensures want[i] == FailedResult(names[i], NOT_FOUND)
    {
      assert want[i] == ApplicationResult(names, i, active, slot, run, tcpProbe, coreProbe);
    }
  }

  lemma WantNotFound(names: seq<string>, active: seq<Node>, want: seq<TestResult>, i: nat)
    requires NotFoundWanted(names, active, want) && i < |names| && FindActive(active, names[i]).None?
    ensures want[i] == FailedResult(names[i], NOT_FOUND)
  {
  }

  lemma NothingResolved(names: seq<string>, active: seq<Node>, results: seq<TestResult>)
    requires forall i :: 0 <= i < |results| ==> !Final(results[i])
    ensures SplitSoFar(results, [], 0) && Resolved(names, active, [], [], 0)
  {
  }

  /** After looking up the first i names. */
  ghost predicate ResolveInv(results: seq<TestResult>, names: seq<string>, active: seq<Node>, want: seq<TestResult>,
                             selected: seq<nat>, nodes: seq<Node>, emitted: seq<TestResult>, order: seq<nat>, i: nat) {
    && Tracks(results, names, emitted, order) && SplitSoFar(results, selected, i) && Towards(results, want)
    && Resolved(names, active, selected, nodes, i) && NotFoundWanted(names, active, want) && |results| == |names|
  }

  lemma ResolveMissing(results: seq<TestResult>, names: seq<string>, active: seq<Node>, want: seq<TestResult>,
                       selected: seq<nat>, nodes: seq<Node>, emitted: seq<TestResult>, order: seq<nat>, i: nat)
    requires ResolveInv(results, names, active, want, selected, nodes, emitted, order, i) && i < |results|
    requires |names| == |results| && FindActive(active, names[i]).None?
    ensures |want| == |results| && results[i].(error := NOT_FOUND) == want[i]
    ensures ResolveInv(results[i := want[i]], names, active, want, selected, nodes, emitted + [want[i]], order + [i],
                       i + 1)
  {
    hide Tracks, SplitSoFar, Towards, Resolved, NotFoundWanted, FindActive;
    TowardsLength(results, want);
    SplitNext(results, selected, i);
    ResolvedNext(names, active, selected, nodes, i);
    WantNotFound(names, active, want, i);
    TowardsStep(results, want, i);
    SplitFinal(results, selected, i, want[i]);
    TrackOne(results, names, emitted, order, i, want[i]);
  }

  lemma ResolveFound(results: seq<TestResult>, names: seq<string>, active: seq<Node>, want: seq<TestResult>,
                     selected: seq<nat>, nodes: seq<Node>, emitted: seq<TestResult>, order: seq<nat>, i: nat)
    requires ResolveInv(results, names, active, want, selected, nodes, emitted, order, i) && i < |results|
    requires |names| == |results| && FindActive(active, names[i]).Some?
    ensures ResolveInv(results, names, active, want, selected + [i], nodes + [FindActive(active, names[i]).value],
                       emitted, order, i + 1)
  {
    hide Tracks, SplitSoFar, Towards, Resolved, NotFoundWanted, FindActive;
    SplitNext(results, selected, i);
    ResolvedNext(names, active, selected, nodes, i);
  }

  lemma ResolveDone(results: seq<TestResult>, names: seq<string>, active: seq<Node>, want: seq<TestResult>,
                    selected: seq<nat>, nodes: seq<Node>, emitted: seq<TestResult>, order: seq<nat>)
    requires ResolveInv(results, names, active, want, selected, nodes, emitted, order, |names|)
    ensures Tracks(results, names, emitted, order) && PendingExactly(results, selected) && Towards(results, want)
    ensures Resolved(names, active, selected, nodes, |names|)
  {
    hide Tracks, SplitSoFar, Towards, Resolved, NotFoundWanted, PendingExactly;
    SplitDone(results, selected);
  }

  /** Look up every requested name; the ones that match no active node fail at once. */
  method ResolveNames(names: seq<string>, active: seq<Node>, results: array<TestResult>, progress: Progress,
                      ghost want: seq<TestResult>)
    returns (selected: seq<nat>, nodes: seq<Node>, ghost order: seq<nat>)
    requires progress.Valid() && progress.events == [] && results.Length == |names|
    requires ResolveInv(results[..], names, active, want, [], [], [], [], 0)
    modifies results, progress
    ensures progress.Valid()
    ensures Tracks(results[..], names, progress.Since(0), order)
    ensures PendingExactly(results[..], selected) && Towards(results[..], want)
    ensures Resolved(names, active, selected, nodes, |names|)
  {
    assert progress.Since(0) == [];
    selected, nodes, order := [], [], [];
    hide Tracks, Resolved, Towards, FindActive, PendingExactly, ResolveInv, Final, ResultsOf, Progress.Since,
      Progress.Valid;
    for i := 0 to |names|
      invariant progress.Valid()
      invariant ResolveInv(results[..], names, active, want, selected, nodes, progress.Since(0), order, i)
    {
      var found := FindActive(active, names[i]);
      if found.None? {
        ResolveMissing(results[..], names, active, want, selected, nodes, progress.Since(0), order, i);
        results[i] := results[i].(error := NOT_FOUND);
        progress.OnResult(results[i]);
        order := order + [i];
      } else {
        ResolveFound(results[..], names, active, want, selected, nodes, progress.Since(0), order, i);
        selected := selected + [i];
        nodes := nodes + [found.value];
      }
    }
    ResolveDone(results[..], names, active, want, selected, nodes, progress.Since(0), order);
  }

  /** Names that match no active node fail at once, the others go to the runner, and the results
      come back under the (trimmed) names that were asked for. The progress events count
      1, 2, ..., total and carry the returned results, each once. */
  method TestProxyNodes(nodeNames: seq<string>, active: seq<Node>, slot: Option<ErrorText>, run: CoreRun,
                        tcpProbe: nat -> Probe, coreProbe: nat -> Probe)
    returns (results: array<TestResult>, progress: Progress)
    ensures fresh(results) && results.Length == |nodeNames|
    ensures results[..] == ApplicationResults(TrimmedNames(nodeNames), active, slot, run, tcpProbe, coreProbe)
    ensures forall i :: 0 <= i < |nodeNames| ==>
      NameTells(results[i], TrimmedNames(nodeNames), i, active, slot, run, tcpProbe, coreProbe)
    ensures ProgressComplete(progress, results[..], TrimmedNames(nodeNames))
  {
    ApplicationTells(TrimmedNames(nodeNames), active, slot, run, tcpProbe, coreProbe);
    hide Tracks, NameTells, Towards, ApplicationResult, Resolved, PendingExactly, SplitSoFar, NotFoundWanted,
         FoundNodes, NodeResults, NodeResult, FindActive, TrimmedNames, Trim, ProgressComplete;
    var names := TrimmedNames(nodeNames);
    ghost var want := ApplicationResults(names, active, slot, run, tcpProbe, coreProbe);
    progress := new Progress(|nodeNames|);
    results := PendingResults(names);
    StartTowards(results[..], want);
    NothingResolved(names, active, results[..]);
    ApplicationWantsNotFound(names, active, slot, run, tcpProbe, coreProbe);
    assert ResolveInv(results[..], names, active, want, [], [], [], [], 0);
    hide ApplicationResults, ResolveInv;
    var selected, nodes, order := ResolveNames(names, active, results, progress, want);
    RunSelected(names, active, results, selected, nodes, slot, run, tcpProbe, coreProbe, progress, order);
  }

  /** Run the resolved nodes and write their results back to the positions they were asked at. */
  method RunSelected(names: seq<string>, active: seq<Node>, results: array<TestResult>, selected: seq<nat>,
                     nodes: seq<Node>,
                     slot: Option<ErrorText>, run: CoreRun, tcpProbe: nat -> Probe, coreProbe: nat -> Probe,
                     progress: Progress, ghost order: seq<nat>)
    requires progress.Valid() && progress.total == |names| == results.Length
    requires Tracks(results[..], names, progress.Since(0), order) && PendingExactly(results[..], selected)
    requires Resolved(names, active, selected, nodes, |names|)
    requires Towards(results[..], ApplicationResults(names, active, slot, run, tcpProbe, coreProbe))
    modifies results, progress
    ensures results[..] == ApplicationResults(names, active, slot, run, tcpProbe, coreProbe)
    ensures ProgressComplete(progress, results[..], names)
  {
    ghost var before, emitted := results[..], progress.Since(0);
    ghost var mid := |progress.events|;
    PendingDistinct(before, selected);
    ResolvedNames(names, active, selected, nodes);
    hide Tracks, Resolved, Names, ExactlyOnce, Scattered, ProgressComplete, PendingExactly, Towards, NodeResults,
      Distinct;
    ghost var subOrder := ScatterSelected(nodes, selected, results, slot, run, tcpProbe, coreProbe, progress);
    ResultsSplit(old(progress.events), progress.events, 0);
    SelectedMerged(names, active, slot, run, tcpProbe, coreProbe, before, emitted, order, selected, nodes,
                   progress.Since(mid), subOrder, results[..]);
    ProgressDone(progress, results[..], names);
  }

  method ScatterSelected(nodes: seq<Node>, selected: seq<nat>, results: array<TestResult>, slot: Option<ErrorText>,
                         run: CoreRun, tcpProbe: nat -> Probe, coreProbe: nat -> Probe, progress: Progress)
    returns (ghost subOrder: seq<nat>)
    requires progress.Valid() && |nodes| == |selected| && Distinct(selected)
    requires forall k :: 0 <= k < |selected| ==> selected[k] < results.Length
    modifies results, progress
    ensures progress.Valid() && old(progress.events) <= progress.events
    ensures ExactlyOnce(NodeResults(nodes, slot, run, tcpProbe, coreProbe), Names(nodes),
                        progress.Since(|old(progress.events)|), subOrder)
    ensures Scattered(old(results[..]), selected, NodeResults(nodes, slot, run, tcpProbe, coreProbe), results[..])
  {
    hide Names, NodeResults, ExactlyOnce, Scattered, Distinct;
    var sub;
    sub, subOrder := RunnerTestNodes(nodes, slot, run, tcpProbe, coreProbe, progress);
    Scatter(results, selected, sub);
  }

  /** The runner's batch merged back at the positions the names were asked at. */
  lemma SelectedMerged(names: seq<string>, active: seq<Node>, slot: Option<ErrorText>, run: CoreRun,
                       tcpProbe: nat -> Probe, coreProbe: nat -> Probe,
                       before: seq<TestResult>, emitted: seq<TestResult>, order: seq<nat>, selected: seq<nat>,
                       nodes: seq<Node>, subEmitted: seq<TestResult>, subOrder: seq<nat>, after: seq<TestResult>)
    requires Tracks(before, names, emitted, order) && PendingExactly(before, selected)
    requires Resolved(names, active, selected, nodes, |names|)
    requires Towards(before, ApplicationResults(names, active, slot, run, tcpProbe, coreProbe))
    requires ExactlyOnce(NodeResults(nodes, slot, run, tcpProbe, coreProbe), Names(nodes), subEmitted, subOrder)
    requires Scattered(before, selected, NodeResults(nodes, slot, run, tcpProbe, coreProbe), after)
    ensures after == ApplicationResults(names, active, slot, run, tcpProbe, coreProbe)
    ensures multiset(emitted + subEmitted) == multiset(after)
  {
    ResolvedNames(names, active, selected, nodes);
    hide Tracks, PendingExactly, Resolved, Towards, Names, NodeResults, ApplicationResults, ExactlyOnce, Scattered;
    MergeExactlyOnce(before, names, emitted, order, selected, NodeResults(nodes, slot, run, tcpProbe, coreProbe),
                     Names(nodes), subEmitted, subOrder, after);
    ExactlyOnceIsPermutation(after, names, emitted + subEmitted, order + Mapped(selected, subOrder));
    SelectedWanted(names, active, slot, run, tcpProbe, coreProbe, before, selected, nodes, after);
  }

  lemma ResolvedNames(names: seq<string>, active: seq<Node>, selected: seq<nat>, nodes: seq<Node>)
    requires Resolved(names, active, selected, nodes, |names|)
    ensures |Names(nodes)| == |nodes| == |selected|
    ensures forall k :: 0 <= k < |selected| ==> selected[k] < |names| && Names(nodes)[k] == names[selected[k]]
  {
  }

  lemma SelectedWanted(names: seq<string>, active: seq<Node>, slot: Option<ErrorText>, run: CoreRun,
                       tcpProbe: nat -> Probe, coreProbe: nat -> Probe,
                       before: seq<TestResult>, selected: seq<nat>, nodes: seq<Node>, after: seq<TestResult>)
    requires Resolved(names, active, selected, nodes, |names|) && PendingExactly(before, selected)
    requires Towards(before, ApplicationResults(names, active, slot, run, tcpProbe, coreProbe))
    requires Scattered(before, selected, NodeResults(nodes, slot, run, tcpProbe, coreProbe), after)
    ensures after == ApplicationResults(names, active, slot, run, tcpProbe, coreProbe)
  {
    hide FindActive, FoundNodes, NodeResults;
    var want := ApplicationResults(names, active, slot, run, tcpProbe, coreProbe);
    assert names[..|names|] == names;
    forall k | 0 <= k < |selected|
      ensures after[selected[k]] == want[selected[k]]
    {
      assert want[selected[k]] == ApplicationResult(names, selected[k], active, slot, run, tcpProbe, coreProbe);
    }
    forall i | 0 <= i < |names|
      ensures after[i] == want[i]
    {
      if i in selected {
        var k :| 0 <= k < |selected| && selected[k] == i;
      } else {
        assert Final(before[i]);
      }
    }
  }

  /** The event stream of a finished batch: counted 1 to total, one event per result. */
  ghost predicate ProgressComplete(progress: Progress, results: seq<TestResult>, names: seq<string>)
    reads progress
  {
    && |results| == |names| == |progress.events|
    && (forall i :: 0 <= i < |names| ==> results[i].nodeName == names[i] && Final(results[i]))
    && (forall k :: 0 <= k < |names| ==> progress.events[k].completed == k + 1 && progress.events[k].total == |names|)
    && multiset(progress.Since(0)) == multiset(results)
  }

  lemma ProgressDone(progress: Progress, results: seq<TestResult>, names: seq<string>)
    requires progress.Valid() && progress.total == |names| == |results|
    requires forall i :: 0 <= i < |names| ==> results[i].nodeName == names[i] && Final(results[i])
    requires multiset(progress.Since(0)) == multiset(results)
    ensures ProgressComplete(progress, results, names)
  {
    assert |multiset(progress.Since(0))| == |progress.events|;
  }

  /** When the application is not ready, or the active nodes cannot be loaded, every node fails
      under the name as given. */
  method ProxyTestBatchFailure(nodeNames: seq<string>, err: ErrorText)
    returns (results: array<TestResult>, events: seq<ProgressEvent>)
    ensures fresh(results) && results.Length == |nodeNames| == |events|
    ensures forall i :: 0 <= i < |nodeNames| ==> results[i] == TestResult(nodeNames[i], false, 0, err)
    ensures forall i :: 0 <= i < |nodeNames| ==> events[i] == ProgressEvent(results[i], i + 1, |nodeNames|)
  {
    results := new TestResult[|nodeNames|];
    events := [];
    for i := 0 to |nodeNames|
      invariant |events| == i
      invariant forall j :: 0 <= j < i ==> results[j] == TestResult(nodeNames[j], false, 0, err)
      invariant forall j :: 0 <= j < i ==> events[j] == ProgressEvent(results[j], j + 1, |nodeNames|)
    {
      results[i] := TestResult(nodeNames[i], false, 0, err);
      events := events + [ProgressEvent(results[i], i + 1, |nodeNames|)];
    }
  }
}
