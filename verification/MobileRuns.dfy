/** Tunnel runs of the mobile core: start, stop, the supervisor's state callback and the end of a
    run are critical sections under one mutex, and they interleave in any order. */
module MobileRuns {
  import opened Finite

  datatype RunState = Connecting | Running | Reconnecting | Stopped

  datatype Report = Report(state: RunState, error: string)

  /** A run record; `cancel` stands for a non-nil cancel function, `exited` for a run goroutine
      that has executed its final section. */
  datatype Record = Record(name: string, cancel: bool, state: RunState, lastError: string, exited: bool)

  /** All records ever made, the name table, and the runs whose cancel a stopper has taken. */
  datatype State = State(tunnels: map<string, nat>, records: seq<Record>, claims: seq<nat>)

  datatype Event =
    | Start(name: string, accepted: bool)
    | Stop(name: string)
    | StateChange(id: nat, report: Report)
    | Exit(id: nat)

  predicate Busy(s: State, name: string) {
    name in s.tunnels && s.tunnels[name] < |s.records| && s.records[s.tunnels[name]].cancel
  }

  /** `accepted` is whether the configuration validates and builds. */
  function StartStep(s: State, name: string, accepted: bool): State {
    if Busy(s, name) || !accepted then s
    else State(s.tunnels[name := |s.records|], s.records + [Record(name, true, Connecting, "", false)], s.claims)
  }

  function StopStep(s: State, name: string): State {
    if name in s.tunnels && s.tunnels[name] < |s.records| then
      var id := s.tunnels[name];
      var r := s.records[id];
      s.(records := s.records[id := r.(cancel := false, state := Stopped)],
         claims := if r.cancel then s.claims + [id] else s.claims)
    else s
  }

  function Reported(r: Record, report: Report): Record {
    r.(state := report.state,
       lastError := if report.error != "" then report.error else if report.state.Running? then "" else r.lastError)
  }

  function StateChangeStep(s: State, id: nat, report: Report): State {
    if id < |s.records| && !s.records[id].exited
    then s.(records := s.records[id := Reported(s.records[id], report)]) else s
  }

  function ExitStep(s: State, id: nat): State {
    if id < |s.records| && !s.records[id].exited
    then s.(records := s.records[id := s.records[id].(cancel := false, state := Stopped, exited := true)]) else s
  }

  function Step(s: State, e: Event): State {
    match e
    case Start(name, accepted) => StartStep(s, name, accepted)
    case Stop(name) => StopStep(s, name)
    case StateChange(id, report) => StateChangeStep(s, id, report)
    case Exit(id) => ExitStep(s, id)
  }

  function RunFrom(s: State, es: seq<Event>): State {
    if es == [] then s else Step(RunFrom(s, es[..|es| - 1]), es[|es| - 1])
  }

  function Run(es: seq<Event>): State {
    RunFrom(State(map[], [], []), es)
  }

  ghost predicate Inv(s: State) {
    && (forall name :: name in s.tunnels ==> s.tunnels[name] < |s.records| && s.records[s.tunnels[name]].name == name)
    && (forall id :: 0 <= id < |s.records| && s.records[id].cancel ==>
          s.records[id].name in s.tunnels && s.tunnels[s.records[id].name] == id)
    && (forall id: nat :: id < |s.records| ==> (s.records[id].cancel || s.records[id].exited || id in s.claims))
    && (forall id: nat :: id in s.claims ==> id < |s.records| && !s.records[id].cancel)
    && (forall id :: 0 <= id < |s.records| && s.records[id].exited ==>
        !s.records[id].cancel && s.records[id].state.Stopped?)
    && Distinct(s.claims)
  }

  lemma StartKeepsInv(s: State, name: string, accepted: bool)
    requires Inv(s)
    ensures Inv(StartStep(s, name, accepted))
  {
  }

  lemma StopKeepsInv(s: State, name: string)
    requires Inv(s)
    ensures Inv(StopStep(s, name))
  {
    var t := StopStep(s, name);
    if Busy(s, name) {
      var id := s.tunnels[name];
      assert t.claims[|s.claims|] == id;
      assert forall i: nat :: i in s.claims ==> i in t.claims;
      assert forall i: nat :: i in t.claims ==> i in s.claims || i == id;
    }
  }

  lemma StepKeepsInv(s: State, e: Event)
    requires Inv(s)
    ensures Inv(Step(s, e))
  {
    match e
    case Start(name, accepted) => StartKeepsInv(s, name, accepted);
    case Stop(name) => StopKeepsInv(s, name);
    case StateChange(id, report) =>
    case Exit(id) =>
  }

  lemma {:induction false} RunKeepsInv(es: seq<Event>)
    ensures Inv(Run(es))
  {
    if es != [] {
      RunKeepsInv(es[..|es| - 1]);
      StepKeepsInv(Run(es[..|es| - 1]), es[|es| - 1]);
    }
  }

  // ---------- the promises, for every interleaving ----------

  /** Per name at most one record holds a cancel function, and it is the one in the table. */
  lemma SingleLiveRun(es: seq<Event>, i: nat, j: nat)
    requires i < |Run(es).records| && j < |Run(es).records|
    requires Run(es).records[i].name == Run(es).records[j].name
    requires Run(es).records[i].cancel
    ensures Run(es).records[i].name in Run(es).tunnels && Run(es).tunnels[Run(es).records[i].name] == i
    ensures Run(es).records[j].cancel ==> i == j
  {
    RunKeepsInv(es);
  }

  /** A record without a cancel function, in particular a superseded one, was either taken by
      exactly one stopper or has ended. */
  lemma ClaimedOnce(es: seq<Event>, id: nat)
    requires id < |Run(es).records| && !Run(es).records[id].cancel
    ensures Run(es).records[id].exited || multiset(Run(es).claims)[id] == 1
  {
    RunKeepsInv(es);
    DistinctMultiplicity(Run(es).claims, id);
  }

  lemma {:induction false} DistinctMultiplicity(s: seq<nat>, x: nat)
    requires Distinct(s)
    ensures multiset(s)[x] == if x in s then 1 else 0
  {
    if s != [] {
      var k := |s| - 1;
      DistinctMultiplicity(s[..k], x);
      assert s == s[..k] + [s[k]];
    }
  }

  lemma StepKeepsFinished(s: State, e: Event, id: nat)
    requires Inv(s) && id < |s.records| && s.records[id].exited
    ensures id < |Step(s, e).records| && Step(s, e).records[id] == s.records[id]
  {
  }

  /** A finished run's record never changes again: no cancel function, state stopped. */
  lemma {:induction false} FinishedIsPermanent(es: seq<Event>, later: seq<Event>, id: nat)
    requires id < |Run(es).records| && Run(es).records[id].exited
    ensures var s := RunFrom(Run(es), later);
      Inv(s) && id < |s.records| && s.records[id] == Run(es).records[id] && !s.records[id].cancel
        && s.records[id].state.Stopped?
  {
    RunKeepsInv(es);
    if later != [] {
      FinishedIsPermanent(es, later[..|later| - 1], id);
      var s := RunFrom(Run(es), later[..|later| - 1]);
      StepKeepsInv(s, later[|later| - 1]);
      StepKeepsFinished(s, later[|later| - 1], id);
    }
  }

  /** Two runs of one name can be winding down and starting up at once, but then the older one has
      been taken by a stopper. */
  lemma OverlapOnlyAfterStop(es: seq<Event>, i: nat, j: nat)
    requires i < |Run(es).records| && j < |Run(es).records| && i != j
    requires Run(es).records[i].name == Run(es).records[j].name
    requires !Run(es).records[i].exited && !Run(es).records[j].exited
    ensures i in Run(es).claims || j in Run(es).claims
  {
    RunKeepsInv(es);
  }

  /** At most one unfinished run per name. */
  ghost predicate NoOverlap(s: State) {
    forall i, j :: 0 <= i < j < |s.records| && !s.records[i].exited && !s.records[j].exited ==>
      s.records[i].name != s.records[j].name
  }

  /** An accepted start finds no record in the table, one that still holds its cancel function (and is
      then only reported), or one whose run has ended. */
  predicate StartsClear(s: State, e: Event) {
    e.Start? && e.accepted && e.name in s.tunnels && s.tunnels[e.name] < |s.records| ==>
      s.records[s.tunnels[e.name]].cancel || s.records[s.tunnels[e.name]].exited
  }

  /** Every unfinished record is the one in the table. */
  ghost predicate Current(s: State) {
    forall i :: 0 <= i < |s.records| && !s.records[i].exited ==>
      s.records[i].name in s.tunnels && s.tunnels[s.records[i].name] == i
  }

  lemma ClearStepKeepsCurrent(s: State, e: Event)
    requires Inv(s) && Current(s) && StartsClear(s, e)
    ensures Current(Step(s, e))
  {
  }

  lemma UnclearStartOverlaps(s: State, e: Event)
    requires Inv(s) && !StartsClear(s, e)
    ensures !NoOverlap(Step(s, e))
  {
    var u, i, j := Step(s, e), s.tunnels[e.name], |s.records|;
    assert i < j < |u.records| && u.records[i].name == u.records[j].name && !u.records[i].exited
      && !u.records[j].exited;
  }

  lemma {:induction false} ClearRunIsCurrent(es: seq<Event>)
    requires forall k :: 0 <= k < |es| ==> StartsClear(Run(es[..k]), es[k])
    ensures Current(Run(es))
  {
    if es != [] {
      var n := |es| - 1;
      forall k | 0 <= k < n
        ensures StartsClear(Run(es[..n][..k]), es[..n][k])
      {
        assert es[..n][..k] == es[..k];
      }
      ClearRunIsCurrent(es[..n]);
      RunKeepsInv(es[..n]);
      ClearStepKeepsCurrent(Run(es[..n]), es[n]);
    }
  }

  lemma CurrentMeansNoOverlap(s: State)
    requires Current(s)
    ensures NoOverlap(s)
  {
  }

  /** A run never has two unfinished runs of one name, at any moment, exactly when every accepted
      start waits until the run before it, once stopped, has ended. */
  lemma NoOverlapIff(es: seq<Event>)
    ensures (forall k :: 0 <= k <= |es| ==> NoOverlap(Run(es[..k]))) <==>
            (forall k :: 0 <= k < |es| ==> StartsClear(Run(es[..k]), es[k]))
  {
    hide Inv, Current, NoOverlap, StartsClear, Step;
    if forall k :: 0 <= k < |es| ==> StartsClear(Run(es[..k]), es[k]) {
      forall k | 0 <= k <= |es|
        ensures NoOverlap(Run(es[..k]))
      {
        forall m | 0 <= m < k
          ensures StartsClear(Run(es[..k][..m]), es[..k][m])
        {
          assert es[..k][..m] == es[..m];
        }
        ClearRunIsCurrent(es[..k]);
        CurrentMeansNoOverlap(Run(es[..k]));
      }
    } else {
      var k :| 0 <= k < |es| && !StartsClear(Run(es[..k]), es[k]);
      RunKeepsInv(es[..k]);
      UnclearStartOverlaps(Run(es[..k]), es[k]);
      assert es[..k + 1][..k] == es[..k];
    }
  }

  /** Such an overlap does happen: start, stop, start, before the first run has ended. */
  lemma OverlapHappens(name: string)
    ensures var s := Run([Start(name, true), Stop(name), Start(name, true)]);
      |s.records| == 2 && !s.records[0].exited && !s.records[1].exited && s.records[1].cancel
  {
    var es := [Start(name, true), Stop(name), Start(name, true)];
    assert es[..2] == [Start(name, true), Stop(name)];
    assert es[..2][..1] == [Start(name, true)];
    assert es[..2][..1][..0] == [];
    assert Run([]) == State(map[], [], []);
    var s1 := Run(es[..2][..1]);
    assert s1 == StartStep(Run([]), name, true);
    var s2 := Run(es[..2]);
    assert s2 == StopStep(s1, name);
    assert Run(es) == StartStep(s2, name, true);
  }

  lemma RunSnoc(es: seq<Event>, e: Event)
    ensures Run(es + [e]) == Step(Run(es), e)
  {
    assert (es + [e])[..|es|] == es;
  }

  /** After an accepted start and before its reply is read, the new run can have reported any state. */
  lemma StartedShowsAny(es: seq<Event>, name: string, state: RunState)
    requires !Busy(Run(es), name)
    ensures var id := |Run(es).records|;
      var s := Run(es + [Start(name, true)] + [StateChange(id, Report(state, ""))]);
      name in s.tunnels && s.tunnels[name] == id && id < |s.records| && s.records[id].cancel
        && s.records[id].state == state
  {
    hide Run;
    RunSnoc(es, Start(name, true));
    RunSnoc(es + [Start(name, true)], StateChange(|Run(es).records|, Report(state, "")));
  }

  /** An accepted start under a name without an uncancelled run enters a fresh record in its place:
      connecting, with its cancel function and no error; the other records and names stay. Any other
      start changes nothing. */
  lemma StartLeaves(es: seq<Event>, name: string, accepted: bool)
    ensures var s, u := Run(es), Run(es + [Start(name, accepted)]);
      if accepted && (name in s.tunnels ==> s.tunnels[name] < |s.records| && !s.records[s.tunnels[name]].cancel) then
        && u.records == s.records + [Record(name, true, Connecting, "", false)]
        && u.tunnels == s.tunnels[name := |s.records|] && u.claims == s.claims
      else u == s
  {
    RunKeepsInv(es);
    RunSnoc(es, Start(name, accepted));
  }

  /** A report changes the state and error of its own record only: an error is kept until the next error
      or the next running report. */
  lemma ReportLeaves(es: seq<Event>, id: nat, report: Report)
    ensures var s, u := Run(es), Run(es + [StateChange(id, report)]);
      && u.tunnels == s.tunnels && u.claims == s.claims && |u.records| == |s.records|
      && forall k :: 0 <= k < |s.records| ==>
        if k == id && !s.records[k].exited then
          && u.records[k] == s.records[k].(state := report.state, lastError := u.records[k].lastError)
          && (report.error != "" ==> u.records[k].lastError == report.error)
          && (report.error == "" && report.state == Running ==> u.records[k].lastError == "")
          && (report.error == "" && report.state != Running ==> u.records[k].lastError == s.records[k].lastError)
        else u.records[k] == s.records[k]
  {
    RunSnoc(es, StateChange(id, report));
  }

  /** A stop takes the cancel function of the named record, if it has one, and shows it as stopped. */
  lemma StopLeaves(es: seq<Event>, name: string)
    ensures var s, u := Run(es), Run(es + [Stop(name)]);
      && u.tunnels == s.tunnels && |u.records| == |s.records|
      && (name !in s.tunnels ==> u == s)
      && forall k :: 0 <= k < |s.records| ==>
        if name in s.tunnels && k == s.tunnels[name] then
          && u.records[k] == s.records[k].(cancel := false, state := Stopped)
          && u.claims == if s.records[k].cancel then s.claims + [k] else s.claims
        else u.records[k] == s.records[k]
  {
    RunKeepsInv(es);
    RunSnoc(es, Stop(name));
  }

  /** The end of a run shows its own record as stopped, without a cancel function, for good. */
  lemma ExitLeaves(es: seq<Event>, id: nat)
    ensures var s, u := Run(es), Run(es + [Exit(id)]);
      && u.tunnels == s.tunnels && u.claims == s.claims && |u.records| == |s.records|
      && forall k :: 0 <= k < |s.records| ==>
        if k == id then u.records[k] == s.records[k].(cancel := false, state := Stopped, exited := true)
        else u.records[k] == s.records[k]
  {
    RunKeepsInv(es);
    RunSnoc(es, Exit(id));
  }

  // ---------- the core object ----------

  /** A start that is not refused answers with the state of a run record, which it reads after the
      lock is released: the reply shows whatever that record holds by then. */
  datatype StartReply = Invalid | BuildFailed | Showing(record: MobileTunnel)

  class MobileTunnel {
    const name: string
    ghost const id: nat
    var cancel: bool
    var state: RunState
    var lastError: string
    ghost var exited: bool

    constructor (name: string, ghost id: nat)
      ensures this.name == name && this.id == id
      ensures View() == Record(name, true, Connecting, "", false)
    {
      this.name, this.id := name, id;
      cancel, state, lastError, exited := true, Connecting, "", false;
    }

    ghost function View(): Record
      reads this
    {
      Record(name, cancel, state, lastError, exited)
    }
  }

  /** The mobile core: its table of run records, and (for the specification) every record ever made
      and the runs whose cancel a stopper has taken. */
  class Core {
    var tunnels: map<string, MobileTunnel>
    ghost var all: seq<MobileTunnel>
    ghost var claims: seq<nat>

    constructor ()
      ensures Valid() && all == [] && View() == State(map[], [], [])
    {
      tunnels, all, claims := map[], [], [];
    }

    ghost predicate Valid()
      reads this, all
    {
      && (forall k :: 0 <= k < |all| ==> all[k].id == k)
      && (forall name :: name in tunnels ==> tunnels[name] in all)
    }

    ghost function Records(): (rs: seq<Record>)
      reads this, all
      ensures |rs| == |all| && forall k :: 0 <= k < |all| ==> rs[k] == all[k].View()
    {
      seq(|all|, k requires 0 <= k < |all| reads this, all => all[k].View())
    }

    ghost function View(): State
      reads this, all
    {
      State(Table(), Records(), claims)
    }

    ghost function Table(): map<string, nat>
      reads this, all
    {
      map name | name in tunnels :: tunnels[name].id
    }

    /** A new record, entered in the table in place of any older one of that name. */
    method AddRun(name: string) returns (t: MobileTunnel)
      requires Valid()
      modifies this
      ensures Valid() && old(all) <= all && forall t :: t in all && t !in old(all) ==> fresh(t)
      ensures View() == State(old(View()).tunnels[name := |old(all)|],
                              old(View()).records + [Record(name, true, Connecting, "", false)], old(View()).claims)
      ensures fresh(t) && name in tunnels && t == tunnels[name] && t.state == Connecting
    {
      t := new MobileTunnel(name, |all|);
      all := all + [t];
      tunnels := tunnels[name := t];
      assert Table() == old(Table())[name := |old(all)|];
      assert Records() == old(Records()) + [t.View()];
    }

    /** An existing run that has not been stopped is reported, not replaced. */
    method StartTunnel(name: string, valid: bool, builds: bool) returns (reply: StartReply)
      requires Valid()
      modifies this
      ensures Valid() && View() == StartStep(old(View()), name, valid && builds)
      ensures reply.Invalid? <==> !valid
      ensures reply.BuildFailed? <==> valid && !builds && !Busy(old(View()), name)
      ensures reply.Showing? ==> name in tunnels && reply.record == tunnels[name]
      ensures reply.Showing? && !Busy(old(View()), name) ==> fresh(reply.record) && reply.record.state == Connecting
      ensures old(all) <= all && forall t :: t in all && t !in old(all) ==> fresh(t)
    {
      if !valid {
        return Invalid;
      }
      if name in tunnels && tunnels[name].cancel {
        return Showing(tunnels[name]);
      }
      if !builds {
        return BuildFailed;
      }
      var t := AddRun(name);
      return Showing(t);
    }

    method StopTunnel(name: string) returns (found: bool)
      requires Valid()
      modifies this`claims, if name in tunnels then {tunnels[name]} else {}
      ensures Valid() && found == (name in tunnels)
      ensures View() == StopStep(old(View()), name)
    {
      if name !in tunnels {
        return false;
      }
      var t := tunnels[name];
      if t.cancel {
        claims := claims + [t.id];
      }
      t.cancel := false;
      t.state := Stopped;
      assert Records() == old(Records())[t.id := t.View()];
      return true;
    }

    /** The supervisor's callback, while the run goroutine is alive. */
    method OnStateChange(t: MobileTunnel, report: Report)
      requires Valid() && t in all && !t.exited
      modifies t
      ensures Valid() && View() == StateChangeStep(old(View()), t.id, report)
    {
      t.state := report.state;
      if report.error != "" {
        t.lastError := report.error;
      } else if report.state.Running? {
        t.lastError := "";
      }
      assert Records() == old(Records())[t.id := t.View()];
    }

    /** The last section of the run goroutine. */
    method RunExit(t: MobileTunnel)
      requires Valid() && t in all && !t.exited
      modifies t
      ensures Valid() && View() == ExitStep(old(View()), t.id)
    {
      t.cancel := false;
      t.state := Stopped;
      t.exited := true;
      assert Records() == old(Records())[t.id := t.View()];
    }
  }
}
