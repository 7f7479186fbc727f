/** The runner of the sing-box process: Start, Stop and the exit watcher share fields under one
    mutex; callers, process exits and watchers interleave in any order. */
module CoreRunner {
  import opened Wrappers

  datatype RunnerState = Stopped | Running | Error

  /** The mutex-protected fields; processes are named by the order in which they were started, and
      a process's `done` channel by the process. */
  datatype Fields = Fields(cmd: Option<nat>, cancel: Option<nat>, done: Option<nat>, state: RunnerState,
                           nodeName: string)

  function Spawned(f: Fields, p: nat, node: string): Fields {
    Fields(Some(p), Some(p), Some(p), Running, node)
  }

  /** The watcher's section: only the current process clears the fields; an exit nobody asked for
      counts as an error when the process reported one. */
  function Reaped(f: Fields, p: nat, unexpected: bool): Fields {
    if f.cmd == Some(p)
    then f.(cmd := None, cancel := None, state := if unexpected then Error else Stopped)
    else f
  }

  function NotReady(f: Fields, node: string): Fields {
    f.(state := Error, nodeName := node)
  }

  class Runner {
    var cmd: Option<nat>
    var cancel: Option<nat>
    var done: Option<nat>
    var state: RunnerState
    var nodeName: string

    constructor ()
      ensures View() == Fields(None, None, None, Stopped, "")
    {
      cmd, cancel, done, state, nodeName := None, None, None, Stopped, "";
    }

    ghost function View(): Fields
      reads this
    {
      Fields(cmd, cancel, done, state, nodeName)
    }

    /** The locked part of start: refuse while a process is recorded, give up when anything before
        or at the spawn fails, otherwise record the new process. */
    method StartLocked(p: nat, node: string, spawned: bool) returns (refused: bool)
      modifies this
      ensures refused <==> old(cmd).Some?
      ensures View() == if refused || !spawned then old(View()) else Spawned(old(View()), p, node)
    {
      if cmd.Some? {
        return true;
      }
      if !spawned {
        return false;
      }
      cmd := Some(p);
      cancel := Some(p);
      done := Some(p);
      state := Running;
      nodeName := node;
      return false;
    }

    method WatcherLocked(p: nat, failed: bool, cancelled: bool)
      modifies this
      ensures View() == Reaped(old(View()), p, failed && !cancelled)
    {
      if cmd == Some(p) {
        cmd := None;
        cancel := None;
        state := Stopped;
        if failed && !cancelled {
          state := Error;
        }
      }
    }

    method FailLocked(node: string)
      modifies this
      ensures View() == NotReady(old(View()), node)
    {
      state := Error;
      nodeName := node;
    }

    method StopLocked() returns (captured: Option<nat>, waitFor: Option<nat>)
      ensures captured == View().cancel && waitFor == View().done
    {
      return cancel, done;
    }
  }

  // ---------- all interleavings ----------

  /** A started process: cancelled by its context, dead, whether its watcher goroutine is still there,
      and how often its done channel was closed. It is live until its watcher has reaped it, that is,
      until done is closed. */
  datatype Process = Process(cancelled: bool, dead: bool, watched: bool, closed: nat)

  /** Where a caller of Start or Stop is between two of its steps. */
  datatype Caller =
    | AwaitingReady(p: nat, withRuleSets: bool, node: string)
    | Draining(p: nat, withRuleSets: bool, node: string)
    | ReportingFailure(p: nat, withRuleSets: bool, node: string)
    | RetryDue(node: string)
    | StopCaptured(p: nat)
    | StopWaiting(p: nat)

  datatype System = System(fields: Fields, processes: seq<Process>, callers: map<nat, Caller>)

  datatype Event =
    | StartEnter(c: nat, node: string, spawned: bool, ruleSetFailure: bool)
    | RetryEnter(c: nat, spawned: bool)
    | Ready(c: nat) | GiveUp(c: nat) | Drained(c: nat) | ReportFailure(c: nat, ruleSetFailure: bool)
    | StopEnter(c: nat) | StopCancel(c: nat) | StopReturn(c: nat)
    | Die(p: nat) | Reap(p: nat, failed: bool)

  function Initial(): System {
    System(Fields(None, None, None, Stopped, ""), [], map[])
  }

  /** The locked section of start run by caller c; `otherwise` is where c goes without a process. */
  function Enter(s: System, c: nat, node: string, withRuleSets: bool, spawned: bool,
                 otherwise: map<nat, Caller>): System {
    if s.fields.cmd.Some? then s.(callers := s.callers - {c})
    else if !spawned then s.(callers := otherwise)
    else
      var p := |s.processes|;
      System(Spawned(s.fields, p, node), s.processes + [Process(false, false, true, 0)],
             s.callers[c := AwaitingReady(p, withRuleSets, node)])
  }

  function Cancel(s: System, p: nat): System {
    if p < |s.processes| then s.(processes := s.processes[p := s.processes[p].(cancelled := true)]) else s
  }

  function DoneClosed(s: System, p: nat): bool {
    p < |s.processes| && s.processes[p].closed > 0
  }

  /** Events that are not enabled change nothing. */
  function Step(s: System, e: Event): System {
    match e
    case StartEnter(c, node, spawned, ruleSetFailure) =>
      if c in s.callers then s
      else Enter(s, c, node, true, spawned, if ruleSetFailure then s.callers[c := RetryDue(node)] else s.callers)
    case RetryEnter(c, spawned) =>
      if c in s.callers && s.callers[c].RetryDue?
      then Enter(s, c, s.callers[c].node, false, spawned, s.callers - {c}) else s
    case Ready(c) =>
      if c in s.callers && s.callers[c].AwaitingReady? then s.(callers := s.callers - {c}) else s
    case GiveUp(c) =>
      if c in s.callers && s.callers[c].AwaitingReady? then
        var w := s.callers[c];
        Cancel(s, w.p).(callers := s.callers[c := Draining(w.p, w.withRuleSets, w.node)])
      else s
    case Drained(c) =>
      if c in s.callers && s.callers[c].Draining? && DoneClosed(s, s.callers[c].p) then
        var w := s.callers[c];
        s.(callers := s.callers[c := ReportingFailure(w.p, w.withRuleSets, w.node)])
      else s
    case ReportFailure(c, ruleSetFailure) =>
      if c in s.callers && s.callers[c].ReportingFailure? then
        var w := s.callers[c];
        s.(fields := NotReady(s.fields, w.node),
           callers := if w.withRuleSets && ruleSetFailure then s.callers[c := RetryDue(w.node)] else s.callers - {c})
      else s
    case StopEnter(c) =>
      if c !in s.callers && s.fields.cancel.Some?
      then s.(callers := s.callers[c := StopCaptured(s.fields.cancel.value)]) else s
    case StopCancel(c) =>
      if c in s.callers && s.callers[c].StopCaptured?
      then Cancel(s, s.callers[c].p).(callers := s.callers[c := StopWaiting(s.callers[c].p)]) else s
    case StopReturn(c) =>
      if c in s.callers && s.callers[c].StopWaiting? && DoneClosed(s, s.callers[c].p)
      then s.(callers := s.callers - {c}) else s
    case Die(p) =>
      if p < |s.processes| then s.(processes := s.processes[p := s.processes[p].(dead := true)]) else s
    case Reap(p, failed) =>
      if p < |s.processes| && s.processes[p].dead && s.processes[p].watched then
        var q := s.processes[p];
        s.(fields := Reaped(s.fields, p, failed && !q.cancelled),
           processes := s.processes[p := q.(watched := false, closed := q.closed + 1)])
      else s
  }

  function Run(es: seq<Event>): System {
    if es == [] then Initial() else Step(Run(es[..|es| - 1]), es[|es| - 1])
  }

  lemma RunSnoc(es: seq<Event>, e: Event)
    ensures Run(es + [e]) == Step(Run(es), e)
  {
    assert (es + [e])[..|es|] == es;
  }

  function CallerProcess(w: Caller): Option<nat> {
    if w.RetryDue? then None else Some(w.p)
  }

  ghost predicate ProcessInv(s: System) {
    && s.fields.cmd == s.fields.cancel
    && (s.fields.cmd.Some? ==> s.fields.cmd.value < |s.processes| && s.fields.done == s.fields.cmd)
    && (forall p :: 0 <= p < |s.processes| ==> (s.processes[p].closed == 0 <==> s.fields.cmd == Some(p)))
    && (forall p :: 0 <= p < |s.processes| ==> s.processes[p].closed == if s.processes[p].watched then 0 else 1)
    && (forall p :: 0 <= p < |s.processes| && s.processes[p].closed == 1 ==> s.processes[p].dead)
    && (s.fields.state.Running? ==> s.fields.cmd.Some?)
  }

  ghost predicate CallersInv(s: System) {
    forall c :: c in s.callers && CallerProcess(s.callers[c]).Some? ==>
      CallerProcess(s.callers[c]).value < |s.processes|
  }

  ghost predicate Inv(s: System) {
    ProcessInv(s) && CallersInv(s)
  }

  /** A step that touches neither fields nor processes. */
  lemma SameProcesses(s: System, t: System)
    requires ProcessInv(s) && t.fields == s.fields && t.processes == s.processes
    ensures ProcessInv(t)
  {
  }

  lemma EnterKeepsProcesses(s: System, c: nat, node: string, withRuleSets: bool, spawned: bool,
                            otherwise: map<nat, Caller>)
    requires ProcessInv(s)
    ensures ProcessInv(Enter(s, c, node, withRuleSets, spawned, otherwise))
  {
  }

  lemma CancelKeepsProcesses(s: System, p: nat)
    requires ProcessInv(s)
    ensures ProcessInv(Cancel(s, p))
  {
  }

  lemma ExitKeepsProcesses(s: System, e: Event)
    requires ProcessInv(s) && (e.Die? || e.Reap? || e.ReportFailure?)
    ensures ProcessInv(Step(s, e))
  {
  }

  lemma StepKeepsProcesses(s: System, e: Event)
    requires ProcessInv(s)
    ensures ProcessInv(Step(s, e))
  {
    hide ProcessInv, Enter, Cancel;
    match e
    case StartEnter(c, node, spawned, ruleSetFailure) =>
      EnterKeepsProcesses(s, c, node, true, spawned,
                          if ruleSetFailure then s.callers[c := RetryDue(node)] else s.callers);
    case RetryEnter(c, spawned) =>
      if c in s.callers && s.callers[c].RetryDue? {
        EnterKeepsProcesses(s, c, s.callers[c].node, false, spawned, s.callers - {c});
      }
    case GiveUp(c) =>
      if c in s.callers && s.callers[c].AwaitingReady? {
        CancelKeepsProcesses(s, s.callers[c].p);
        SameProcesses(Cancel(s, s.callers[c].p), Step(s, e));
      }
    case StopCancel(c) =>
      if c in s.callers && s.callers[c].StopCaptured? {
        CancelKeepsProcesses(s, s.callers[c].p);
        SameProcesses(Cancel(s, s.callers[c].p), Step(s, e));
      }
    case ReportFailure(_, _) => ExitKeepsProcesses(s, e);
    case Die(_) => ExitKeepsProcesses(s, e);
    case Reap(_, _) => ExitKeepsProcesses(s, e);
    case Ready(_) => SameProcesses(s, Step(s, e));
    case Drained(_) => SameProcesses(s, Step(s, e));
    case StopEnter(_) => SameProcesses(s, Step(s, e));
    case StopReturn(_) => SameProcesses(s, Step(s, e));
  }

  lemma StepKeepsCallers(s: System, e: Event)
    requires Inv(s)
    ensures CallersInv(Step(s, e))
  {
  }

  lemma StepKeepsInv(s: System, e: Event)
    requires Inv(s)
    ensures Inv(Step(s, e))
  {
    hide Step, ProcessInv, CallersInv;
    StepKeepsProcesses(s, e);
    StepKeepsCallers(s, e);
  }

  lemma {:induction false} RunKeepsInv(es: seq<Event>)
    ensures Inv(Run(es))
  {
    if es != [] {
      RunKeepsInv(es[..|es| - 1]);
      StepKeepsInv(Run(es[..|es| - 1]), es[|es| - 1]);
    }
  }

  predicate Live(s: System, p: nat) {
    p < |s.processes| && s.processes[p].closed == 0
  }

  /** In every interleaving: at most one process is live, it is the recorded one, cmd and cancel are
      set and cleared together, and `running` is only shown while a process is recorded. */
  lemma AtMostOneProcess(es: seq<Event>, p: nat, q: nat)
    requires Live(Run(es), p)
    ensures Run(es).fields.cmd == Run(es).fields.cancel == Run(es).fields.done == Some(p)
    ensures Live(Run(es), q) ==> p == q
  {
    RunKeepsInv(es);
  }

  lemma RunningMeansRecorded(es: seq<Event>)
    ensures Run(es).fields.cmd == Run(es).fields.cancel
    ensures Run(es).fields.state.Running? ==> Run(es).fields.cmd.Some? && Live(Run(es), Run(es).fields.cmd.value)
    ensures Run(es).fields.cmd.None? ==> forall p: nat :: !Live(Run(es), p)
  {
    RunKeepsInv(es);
  }

  /** A done channel is closed once, when its process is dead, and stays closed. */
  lemma DoneClosedOnce(es: seq<Event>, e: Event, p: nat)
    requires p < |Run(es).processes|
    ensures Run(es).processes[p].closed <= 1 && p < |Run(es + [e]).processes|
    ensures Run(es).processes[p].closed == 1 ==> Run(es).processes[p].dead && Run(es + [e]).processes[p].closed == 1
  {
    RunKeepsInv(es);
    RunSnoc(es, e);
  }

  lemma ReturnAfterReap(s: System, e: Event, c: nat)
    requires ProcessInv(s) && c in s.callers && s.callers[c].StopWaiting? && c !in Step(s, e).callers
    ensures e == StopReturn(c) && DoneClosed(s, s.callers[c].p) && Step(s, e).processes == s.processes
  {
  }

  /** Stop returns only after the process it captured has been reaped. */
  lemma StopWaitsForItsProcess(es: seq<Event>, e: Event, c: nat)
    requires c in Run(es).callers && Run(es).callers[c].StopWaiting?
    requires c !in Run(es + [e]).callers
    ensures var p := Run(es).callers[c].p;
      && p < |Run(es).processes| && Run(es).processes[p].dead && Run(es).processes[p].closed == 1
      && !Live(Run(es + [e]), p)
  {
    hide Run, Step;
    RunKeepsInv(es);
    RunSnoc(es, e);
    ReturnAfterReap(Run(es), e, c);
  }

  /** When a retry comes due, it is refused - no process is spawned - exactly when some process is
      live, and that is the recorded one. */
  lemma RetryRefusedIff(es: seq<Event>, c: nat)
    requires c in Run(es).callers && Run(es).callers[c].RetryDue?
    ensures Run(es).fields.cmd.Some? <==> exists p :: Live(Run(es), p)
    ensures Run(es + [RetryEnter(c, true)]).processes == Run(es).processes <==> exists p :: Live(Run(es), p)
  {
    RunKeepsInv(es);
    RunSnoc(es, RetryEnter(c, true));
    if Run(es).fields.cmd.Some? {
      assert Live(Run(es), Run(es).fields.cmd.value);
    }
  }

  // ---------- what the runner shows ----------

  /** A process's exit, noticed by its watcher while the process is recorded - and it always is then:
      an exit nobody asked for that reported an error shows as an error, any other as stopped. */
  lemma ReapShows(es: seq<Event>, p: nat, failed: bool)
    requires p < |Run(es).processes| && Run(es).processes[p].dead && Run(es).processes[p].watched
    ensures Run(es).fields.cmd == Some(p)
    ensures var f := Run(es + [Reap(p, failed)]).fields;
      && (f.state == Error <==> failed && !Run(es).processes[p].cancelled)
      && (f.state == Stopped <==> !failed || Run(es).processes[p].cancelled)
      && f.cmd == f.cancel == None && f.nodeName == Run(es).fields.nodeName
  {
    RunKeepsInv(es);
    RunSnoc(es, Reap(p, failed));
  }

  /** A reap that is not enabled - no such process, still alive, or reaped already - changes nothing. */
  lemma OtherReaps(es: seq<Event>, p: nat, failed: bool)
    requires p < |Run(es).processes| ==> !Run(es).processes[p].dead || Run(es).processes[p].closed > 0
    ensures Run(es + [Reap(p, failed)]) == Run(es)
  {
    RunKeepsInv(es);
    RunSnoc(es, Reap(p, failed));
  }

  /** The caller's locked section is about to run: a call to start, or a due retry. */
  ghost predicate Enters(s: System, e: Event) {
    (e.StartEnter? && e.c !in s.callers) || (e.RetryEnter? && e.c in s.callers && s.callers[e.c].RetryDue?)
  }

  ghost function EnterNode(s: System, e: Event): string
    requires Enters(s, e)
  {
    if e.StartEnter? then e.node else s.callers[e.c].node
  }

  /** A start that finds no process and spawns one shows running under its node; one that finds a
      process, or cannot spawn, leaves fields and processes alone; only a failed start may retry. */
  lemma StartShows(es: seq<Event>, e: Event)
    requires Enters(Run(es), e)
    ensures var s, t := Run(es), Run(es + [e]);
      if s.fields.cmd.None? && e.spawned then
        && t.fields.state == Running && t.fields.nodeName == EnterNode(s, e)
        && t.fields.cmd == Some(|s.processes|) && |t.processes| == |s.processes| + 1
        && !t.processes[|s.processes|].cancelled && !t.processes[|s.processes|].dead
        && e.c in t.callers && t.callers[e.c].AwaitingReady? && t.callers[e.c].p == |s.processes|
      else
        && t.fields == s.fields && t.processes == s.processes
        && (e.c in t.callers <==> e.StartEnter? && s.fields.cmd.None? && e.ruleSetFailure)
        && (e.c in t.callers ==> t.callers[e.c] == RetryDue(e.node))
  {
    RunSnoc(es, e);
  }

  /** A start that waited in vain and saw its process end shows an error under its node; it retries
      without rule sets exactly when it ran with them and they were what failed. */
  lemma FailureShows(es: seq<Event>, c: nat, ruleSetFailure: bool)
    requires c in Run(es).callers && Run(es).callers[c].ReportingFailure?
    ensures var w, t := Run(es).callers[c], Run(es + [ReportFailure(c, ruleSetFailure)]);
      && t.fields == Run(es).fields.(state := Error, nodeName := w.node) && t.processes == Run(es).processes
      && (c in t.callers <==> w.withRuleSets && ruleSetFailure)
      && (c in t.callers ==> t.callers[c] == RetryDue(w.node))
  {
    RunSnoc(es, ReportFailure(c, ruleSetFailure));
  }

  /** No other step changes what is shown. */
  lemma OnlyTheseShow(es: seq<Event>, e: Event)
    requires !Enters(Run(es), e) && !e.Reap? && !e.ReportFailure?
    ensures Run(es + [e]).fields == Run(es).fields
  {
    RunSnoc(es, e);
  }

  /** Who waits for a process to end has cancelled it. */
  ghost predicate WaitersCancelled(s: System) {
    forall c :: c in s.callers && (s.callers[c].StopWaiting? || s.callers[c].Draining?) ==>
      s.callers[c].p < |s.processes| && s.processes[s.callers[c].p].cancelled
  }

  lemma CancelMarks(s: System, p: nat)
    requires p < |s.processes|
    ensures Cancel(s, p).processes == s.processes[p := s.processes[p].(cancelled := true)]
    ensures Cancel(s, p).callers == s.callers && Cancel(s, p).fields == s.fields
  {
  }

  lemma StepKeepsWaiters(s: System, e: Event)
    requires Inv(s) && WaitersCancelled(s)
    ensures WaitersCancelled(Step(s, e))
  {
    hide ProcessInv, Reaped, NotReady, Spawned;
  }

  lemma {:induction false} RunKeepsWaiters(es: seq<Event>)
    ensures WaitersCancelled(Run(es))
  {
    hide WaitersCancelled, Step;
    if es == [] {
      NobodyWaits();
    } else {
      RunKeepsWaiters(es[..|es| - 1]);
      RunKeepsInv(es[..|es| - 1]);
      StepKeepsWaiters(Run(es[..|es| - 1]), es[|es| - 1]);
    }
  }

  lemma NobodyWaits()
    ensures WaitersCancelled(Initial())
  {
  }

  /** A process that ends while a stop, or a start that gave up, waits for it shows as stopped,
      whatever it reports. */
  lemma AskedForMeansStopped(es: seq<Event>, c: nat, failed: bool)
    requires c in Run(es).callers && (Run(es).callers[c].StopWaiting? || Run(es).callers[c].Draining?)
    requires var p := Run(es).callers[c].p;
      p < |Run(es).processes| && Run(es).processes[p].dead && Run(es).processes[p].watched
    ensures Run(es + [Reap(Run(es).callers[c].p, failed)]).fields.state == Stopped
  {
    hide Run, Step;
    RunKeepsWaiters(es);
    ReapShows(es, Run(es).callers[c].p, failed);
  }

  /** A stop that finds a process runs through: it cancels the process, the process ends and is reaped,
      and the stop returns, with nothing live and the state stopped. */
  lemma StopRunsThrough(es: seq<Event>, c: nat, p: nat, failed: bool)
    requires c !in Run(es).callers && Live(Run(es), p)
    ensures var s := Run(es + [StopEnter(c)] + [StopCancel(c)] + [Die(p)] + [Reap(p, failed)] + [StopReturn(c)]);
      c !in s.callers && s.fields.state == Stopped && s.fields.cmd.None?
  {
    hide Run;
    RunKeepsInv(es);
    RunSnoc(es, StopEnter(c));
    RunSnoc(es + [StopEnter(c)], StopCancel(c));
    RunSnoc(es + [StopEnter(c)] + [StopCancel(c)], Die(p));
    RunSnoc(es + [StopEnter(c)] + [StopCancel(c)] + [Die(p)], Reap(p, failed));
    RunSnoc(es + [StopEnter(c)] + [StopCancel(c)] + [Die(p)] + [Reap(p, failed)], StopReturn(c));
  }

  /** A stop that finds no process is over at once. */
  lemma StopFindsNothing(es: seq<Event>, c: nat)
    requires c !in Run(es).callers && forall p: nat :: !Live(Run(es), p)
    ensures Run(es + [StopEnter(c)]) == Run(es)
  {
    RunKeepsInv(es);
    RunSnoc(es, StopEnter(c));
    assert Run(es).fields.cmd.Some? ==> Live(Run(es), Run(es).fields.cmd.value);
  }

  /** A start whose process is ready is over; nothing else changes. */
  lemma ReadyReturns(es: seq<Event>, c: nat)
    requires c in Run(es).callers && Run(es).callers[c].AwaitingReady?
    ensures Run(es + [Ready(c)]) == Run(es).(callers := Run(es).callers - {c})
  {
    RunSnoc(es, Ready(c));
  }

  /** A start that gives up cancels its process, waits for its end, and then reports. */
  lemma GiveUpRunsThrough(es: seq<Event>, c: nat, failed: bool)
    requires c in Run(es).callers && Run(es).callers[c].AwaitingReady? && Live(Run(es), Run(es).callers[c].p)
    ensures var w := Run(es).callers[c];
      var s := Run(es + [GiveUp(c)] + [Die(w.p)] + [Reap(w.p, failed)] + [Drained(c)]);
      && c in s.callers && s.callers[c] == ReportingFailure(w.p, w.withRuleSets, w.node)
      && s.fields.state == Stopped && s.fields.cmd.None?
  {
    hide Run;
    var p := Run(es).callers[c].p;
    RunKeepsInv(es);
    RunSnoc(es, GiveUp(c));
    RunSnoc(es + [GiveUp(c)], Die(p));
    RunSnoc(es + [GiveUp(c)] + [Die(p)], Reap(p, failed));
    RunSnoc(es + [GiveUp(c)] + [Die(p)] + [Reap(p, failed)], Drained(c));
  }

  // ---------- one caller at a time ----------

  function CallerOf(e: Event): Option<nat> {
    match e
    case Die(_) => None
    case Reap(_, _) => None
    case StartEnter(c, _, _, _) => Some(c)
    case RetryEnter(c, _) => Some(c)
    case Ready(c) => Some(c)
    case GiveUp(c) => Some(c)
    case Drained(c) => Some(c)
    case ReportFailure(c, _) => Some(c)
    case StopEnter(c) => Some(c)
    case StopCancel(c) => Some(c)
    case StopReturn(c) => Some(c)
  }

  /** Every call is made while no other call is in progress; processes still exit at any moment. */
  ghost predicate Serial(es: seq<Event>) {
    es == [] ||
    (Serial(es[..|es| - 1]) &&
     (CallerOf(es[|es| - 1]).Some? ==> Run(es[..|es| - 1]).callers.Keys <= {CallerOf(es[|es| - 1]).value}))
  }

  /** The one caller there may be has its process recorded, or finds none. */
  ghost predicate OneCaller(s: System) {
    && (forall c, d :: c in s.callers && d in s.callers ==> c == d)
    && (s.fields.state.Running? <==> s.fields.cmd.Some?)
    && (forall c :: c in s.callers ==>
          var w := s.callers[c];
          && (w.RetryDue? || w.ReportingFailure? ==> s.fields.cmd.None?)
          && (CallerProcess(w).Some? && s.fields.cmd.Some? ==> s.fields.cmd == CallerProcess(w)))
  }

  ghost predicate SerialInv(s: System) {
    Inv(s) && OneCaller(s)
  }

  lemma StartKeepsOneCaller(s: System, e: Event)
    requires SerialInv(s) && (e.StartEnter? || e.RetryEnter?) && s.callers.Keys <= {CallerOf(e).value}
    ensures OneCaller(Step(s, e))
  {
  }

  lemma CallKeepsOneCaller(s: System, e: Event)
    requires SerialInv(s) && CallerOf(e).Some? && !e.StartEnter? && !e.RetryEnter?
      && s.callers.Keys <= {CallerOf(e).value}
    ensures OneCaller(Step(s, e))
  {
  }

  lemma ExitKeepsOneCaller(s: System, e: Event)
    requires SerialInv(s) && (e.Die? || e.Reap?)
    ensures OneCaller(Step(s, e))
  {
  }

  lemma SerialStepKeepsInv(s: System, e: Event)
    requires SerialInv(s) && (CallerOf(e).Some? ==> s.callers.Keys <= {CallerOf(e).value})
    ensures SerialInv(Step(s, e))
  {
    StepKeepsInv(s, e);
    if e.StartEnter? || e.RetryEnter? {
      StartKeepsOneCaller(s, e);
    } else if CallerOf(e).Some? {
      CallKeepsOneCaller(s, e);
    } else {
      ExitKeepsOneCaller(s, e);
    }
    hide Inv, OneCaller, Step;
  }

  lemma {:induction false} SerialRunKeepsInv(es: seq<Event>)
    requires Serial(es)
    ensures SerialInv(Run(es))
  {
    if es != [] {
      SerialRunKeepsInv(es[..|es| - 1]);
      SerialStepKeepsInv(Run(es[..|es| - 1]), es[|es| - 1]);
    }
  }

  /** With serialised callers the degraded retry is never refused as already running, and starting
      it always gets to spawn the next process. */
  lemma RetryNeverRefused(es: seq<Event>, c: nat)
    requires Serial(es) && c in Run(es).callers && Run(es).callers[c].RetryDue?
    ensures Run(es).fields.cmd.None?
    ensures Run(es + [RetryEnter(c, true)]).fields.cmd == Some(|Run(es).processes|)
  {
    SerialRunKeepsInv(es);
    RunSnoc(es, RetryEnter(c, true));
  }

  /** With serialised callers nothing is live when Stop returns, and the state shown says exactly
      whether a process is recorded. */
  lemma SerialStopLeavesNothing(es: seq<Event>, c: nat)
    requires Serial(es + [StopReturn(c)])
    requires c in Run(es).callers && Run(es).callers[c].StopWaiting? && c !in Run(es + [StopReturn(c)]).callers
    ensures forall p: nat :: !Live(Run(es + [StopReturn(c)]), p)
    ensures !Run(es + [StopReturn(c)]).fields.state.Running?
  {
    assert (es + [StopReturn(c)])[..|es|] == es;
    SerialRunKeepsInv(es);
    RunSnoc(es, StopReturn(c));
  }

  /** The step at which a process was reaped. */
  lemma {:induction false} ReapedAt(es: seq<Event>, p: nat) returns (k: nat)
    requires p < |Run(es).processes| && Run(es).processes[p].closed > 0
    ensures k < |es| && es[k].Reap? && es[k].p == p && p < |Run(es[..k]).processes|
    ensures Run(es[..k]).processes[p].dead && Run(es[..k]).processes[p].watched
  {
    hide Step;
    if es == [] {
      RunNothing();
      assert false;
    }
    var n := |es| - 1;
    var before := Run(es[..n]);
    if p < |before.processes| && before.processes[p].closed > 0 {
      k := ReapedAt(es[..n], p);
      assert es[..n][..k] == es[..k];
    } else {
      k := n;
      OnlyReapCloses(before, es[n], p);
    }
  }

  lemma OnlyReapCloses(s: System, e: Event, p: nat)
    requires p < |Step(s, e).processes| && Step(s, e).processes[p].closed > 0
    requires p < |s.processes| ==> s.processes[p].closed == 0
    ensures e.Reap? && e.p == p && p < |s.processes| && s.processes[p].dead && s.processes[p].watched
  {
  }

  /** What caller c shows once the process it stops is gone. */
  ghost predicate Settled(s: System, c: nat, p: nat, state: RunnerState) {
    && p < |s.processes| && s.processes[p].closed > 0
    && (c in s.callers && (s.callers[c] == StopCaptured(p) || s.callers[c] == StopWaiting(p)) ==>
        s.fields.state == state)
  }

  lemma SettledStays(s: System, e: Event, c: nat, p: nat, state: RunnerState)
    requires SerialInv(s) && (CallerOf(e).Some? ==> s.callers.Keys <= {CallerOf(e).value})
    requires Settled(s, c, p, state)
    ensures Settled(Step(s, e), c, p, state)
  {
  }

  lemma {:induction false} SettledThrough(es: seq<Event>, k: nat, c: nat, p: nat, state: RunnerState)
    requires k <= |es| && Serial(es) && Settled(Run(es[..k]), c, p, state)
    ensures Settled(Run(es), c, p, state)
  {
    hide Settled, SerialInv, Step;
    if k == |es| {
      assert es[..k] == es;
    } else {
      var n := |es| - 1;
      assert es[..n][..k] == es[..k];
      SettledThrough(es[..n], k, c, p, state);
      SerialRunKeepsInv(es[..n]);
      SettledStays(Run(es[..n]), es[n], c, p, state);
    }
  }

  /** What is shown when a serialised Stop returns: an error exactly when the process it stopped had
      ended with an error before anybody cancelled it, and stopped otherwise. */
  lemma SerialStopShows(es: seq<Event>, c: nat) returns (k: nat)
    requires Serial(es) && c in Run(es).callers && Run(es).callers[c].StopWaiting?
    requires c !in Run(es + [StopReturn(c)]).callers
    ensures var p := Run(es).callers[c].p;
      && k < |es| && es[k].Reap? && es[k].p == p && p < |Run(es[..k]).processes| && Live(Run(es[..k]), p)
      && Run(es + [StopReturn(c)]).fields.state ==
         if es[k].failed && !Run(es[..k]).processes[p].cancelled then Error else Stopped
  {
    hide Run, Step, Settled;
    var p := Run(es).callers[c].p;
    StopWaitsForItsProcess(es, StopReturn(c), c);
    k := ReapedAt(es, p);
    RunKeepsInv(es[..k]);
    ReapShows(es[..k], p, es[k].failed);
    DoneClosedAt(es[..k], p, es[k].failed);
    assert es[..k] + [es[k]] == es[..k + 1];
    var state := Run(es[..k + 1]).fields.state;
    assert Settled(Run(es[..k + 1]), c, p, state) by { SettledNow(Run(es[..k + 1]), c, p); }
    SettledThrough(es, k + 1, c, p, state);
    SettledShows(Run(es), c, p, state);
    OnlyTheseShow(es, StopReturn(c));
  }

  lemma DoneClosedAt(es: seq<Event>, p: nat, failed: bool)
    requires p < |Run(es).processes| && Run(es).processes[p].dead && Run(es).processes[p].watched
    ensures p < |Run(es + [Reap(p, failed)]).processes| && Run(es + [Reap(p, failed)]).processes[p].closed > 0
  {
    RunSnoc(es, Reap(p, failed));
  }

  lemma SettledNow(s: System, c: nat, p: nat)
    requires p < |s.processes| && s.processes[p].closed > 0
    ensures Settled(s, c, p, s.fields.state)
  {
  }

  lemma SettledShows(s: System, c: nat, p: nat, state: RunnerState)
    requires Settled(s, c, p, state) && c in s.callers && s.callers[c] == StopWaiting(p)
    ensures s.fields.state == state
  {
  }

  lemma Then(es: seq<Event>, e: Event, s: System, t: System)
    requires Run(es) == s && Step(s, e) == t
    ensures Run(es + [e]) == t
  {
    RunSnoc(es, e);
  }

  /** A start that gives up waiting, and whose process ends without an error, comes to its retry. */
  lemma FailedStart(node: string) returns (es: seq<Event>)
    ensures Run(es) == System(Fields(None, None, Some(0), Error, node), [Process(true, true, false, 1)],
                              map[0 := RetryDue(node)])
  {
    hide Run;
    var f := Fields(Some(0), Some(0), Some(0), Running, node);
    var g := Fields(None, None, Some(0), Stopped, node);
    var s0 := System(f, [Process(false, false, true, 0)], map[0 := AwaitingReady(0, true, node)]);
    var s1 := System(f, [Process(true, false, true, 0)], map[0 := Draining(0, true, node)]);
    var s2 := s1.(processes := [Process(true, true, true, 0)]);
    var s3 := System(g, [Process(true, true, false, 1)], s2.callers);
    var s4 := s3.(callers := map[0 := ReportingFailure(0, true, node)]);
    var s5 := System(g.(state := Error), s3.processes, map[0 := RetryDue(node)]);
    RunNothing();
    es := [];
    Then(es, StartEnter(0, node, true, false), Initial(), s0);
    es := es + [StartEnter(0, node, true, false)];
    Then(es, GiveUp(0), s0, s1);
    es := es + [GiveUp(0)];
    Then(es, Die(0), s1, s2);
    es := es + [Die(0)];
    Then(es, Reap(0, true), s2, s3);
    es := es + [Reap(0, true)];
    Then(es, Drained(0), s3, s4);
    es := es + [Drained(0)];
    Then(es, ReportFailure(0, true), s4, s5);
    es := es + [ReportFailure(0, true)];
  }

  /** Before the first call nothing runs and the runner shows stopped. */
  lemma RunNothing()
    ensures Run([]) == Initial() == System(Fields(None, None, None, Stopped, ""), [], map[])
  {
  }

  /** Serialisation is needed: a second caller can get in between a failed start and its retry. */
  lemma ConcurrentRetryRefused(node: string)
    ensures exists es :: 0 in Run(es).callers && Run(es).callers[0].RetryDue? && Run(es).fields.cmd.Some?
  {
    hide Run;
    var es := FailedStart(node);
    var s := Run(es);
    RunSnoc(es, StartEnter(1, node, true, false));
    assert Run(es + [StartEnter(1, node, true, false)]).fields.cmd == Some(1);
  }
}
