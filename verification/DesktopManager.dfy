/** The desktop tunnel manager: callers come one at a time, but a run may end at any moment, also
    while a caller waits for it. A stopper takes the cancel function under the lock and waits for
    the run's done channel without it; the run's last section clears whatever cancel it finds. */
module DesktopManager {
  import opened Wrappers

  /** A run is live until its exit section has executed; its done channel is closed after that. */
  datatype Phase = Live | Exiting | Gone

  datatype Run = Run(tunnel: nat, phase: Phase, cancelled: bool)

  datatype Config = Config(vpn: bool, settings: string)

  /** A managed tunnel; `cancel` and `done` name the run they belong to. */
  datatype Tunnel = Tunnel(name: string, cfg: Config, cancel: Option<nat>, done: Option<nat>)

  datatype Table = Table(names: map<string, nat>, tunnels: seq<Tunnel>, runs: seq<Run>)

  // ---------- the locked sections ----------

  function Insert(b: Table, name: string, cfg: Config): Table {
    b.(names := b.names[name := |b.tunnels|], tunnels := b.tunnels + [Tunnel(name, cfg, None, None)])
  }

  function SetConfig(b: Table, t: nat, cfg: Config): Table
    requires t < |b.tunnels|
  {
    b.(tunnels := b.tunnels[t := b.tunnels[t].(cfg := cfg)])
  }

  predicate CanStart(b: Table, name: string) {
    name in b.names && b.names[name] < |b.tunnels| && b.tunnels[b.names[name]].cancel.None?
  }

  /** `starts`: the manager is bound to a context and the tunnel builds. */
  function StartSection(b: Table, name: string, starts: bool): Table {
    if CanStart(b, name) && starts then
      var t, r := b.names[name], |b.runs|;
      b.(tunnels := b.tunnels[t := b.tunnels[t].(cancel := Some(r), done := Some(r))],
         runs := b.runs + [Run(t, Live, false)])
    else b
  }

  function StopSection(b: Table, t: nat): Table
    requires t < |b.tunnels|
  {
    var c := b.tunnels[t].cancel;
    b.(tunnels := b.tunnels[t := b.tunnels[t].(cancel := None)],
       runs := if c.Some? && c.value < |b.runs| then b.runs[c.value := b.runs[c.value].(cancelled := true)] else b.runs)
  }

  function ExitSection(b: Table, r: nat): Table {
    if r < |b.runs| && b.runs[r].phase.Live? && b.runs[r].tunnel < |b.tunnels| then
      var t := b.runs[r].tunnel;
      b.(runs := b.runs[r := b.runs[r].(phase := Exiting)], tunnels := b.tunnels[t := b.tunnels[t].(cancel := None)])
    else b
  }

  function CloseDone(b: Table, r: nat): Table {
    if r < |b.runs| && b.runs[r].phase.Exiting? then b.(runs := b.runs[r := b.runs[r].(phase := Gone)]) else b
  }

  /** The manager object with its mutex made visible: every section ends unlocked, on every path,
      including the start of a VPN tunnel, which hands the lock to a second function. */
  class Manager {
    var locked: bool
    var names: map<string, nat>
    var tunnels: seq<Tunnel>
    var runs: seq<Run>

    constructor ()
      ensures !locked && View() == Table(map[], [], [])
    {
      locked, names, tunnels, runs := false, map[], [], [];
    }

    ghost function View(): Table
      reads this
    {
      Table(names, tunnels, runs)
    }

    ghost predicate WellFormed()
      reads this
    {
      forall name :: name in names ==> names[name] < |tunnels|
    }

    method Lock()
      requires !locked
      modifies this`locked
      ensures locked
    {
      locked := true;
    }

    method Unlock()
      requires locked
      modifies this`locked
      ensures !locked
    {
      locked := false;
    }

    method Launch(t: nat)
      requires locked && t < |tunnels|
      modifies this
      ensures !locked && names == old(names)
      ensures tunnels == old(tunnels)[t := old(tunnels)[t].(cancel := Some(|old(runs)|), done := Some(|old(runs)|))]
      ensures runs == old(runs) + [Run(t, Live, false)]
    {
      tunnels := tunnels[t := tunnels[t].(cancel := Some(|runs|), done := Some(|runs|))];
      runs := runs + [Run(t, Live, false)];
      Unlock();
    }

    method StartTunnel(name: string, bound: bool, builds: bool) returns (ok: bool)
      requires !locked && WellFormed()
      modifies this
      ensures !locked && WellFormed()
      ensures View() == StartSection(old(View()), name, bound && builds)
      ensures ok ==> name in names && tunnels[names[name]].cancel.Some?
      ensures !ok <==> !bound || name !in old(names) || (old(tunnels[names[name]]).cancel.None? && !builds)
    {
      if !bound {
        return false;
      }
      Lock();
      if name !in names {
        Unlock();
        return false;
      }
      var t := names[name];
      if tunnels[t].cancel.Some? {
        Unlock();
        return true;
      }
      if !builds {
        Unlock();
        return false;
      }
      Launch(t);
      return true;
    }

    /** The locked half of a stop: take the cancel function and call it; the caller then waits for
        the run it names, with the lock released. */
    method TakeCancel(t: nat) returns (taken: Option<nat>)
      requires !locked && t < |tunnels|
      modifies this
      ensures !locked && View() == StopSection(old(View()), t) && taken == old(tunnels)[t].cancel
    {
      Lock();
      taken := tunnels[t].cancel;
      tunnels := tunnels[t := tunnels[t].(cancel := None)];
      Unlock();
      if taken.Some? && taken.value < |runs| {
        runs := runs[taken.value := runs[taken.value].(cancelled := true)];
      }
    }

    /** The last section of a run goroutine. */
    method RunExit(r: nat)
      requires !locked && r < |runs| && runs[r].phase.Live? && runs[r].tunnel < |tunnels|
      modifies this
      ensures !locked && View() == ExitSection(old(View()), r)
    {
      Lock();
      var t := runs[r].tunnel;
      runs := runs[r := runs[r].(phase := Exiting)];
      if tunnels[t].cancel.Some? {
        tunnels := tunnels[t := tunnels[t].(cancel := None)];
      }
      Unlock();
      assert tunnels == old(tunnels)[t := old(tunnels)[t].(cancel := None)];
    }
  }

  // ---------- serialised callers, runs ending at any moment ----------

  /** A caller waiting for a run, and the tunnel it will start afterwards, if any. */
  datatype Op = Idle | Waiting(tunnel: nat, run: nat, next: Option<string>)

  datatype System = System(table: Table, op: Op)

  datatype Event =
    | Add(name: string, cfg: Config, valid: bool, persisted: bool, starts: bool)
    | Update(name: string, cfg: Config, valid: bool, persisted: bool, starts: bool)
    | Delete(name: string)
    | Start(name: string, starts: bool)
    | Stop(name: string)
    | Restart(name: string, starts: bool)
    | WaitOver(starts: bool)
    | RunExits(r: nat)
    | RunCloses(r: nat)

  function Initial(): System {
    System(Table(map[], [], []), Idle)
  }

  function StartNext(b: Table, next: Option<string>, starts: bool): System {
    System(if next.Some? then StartSection(b, next.value, starts) else b, Idle)
  }

  /** Stop a tunnel, then start `next`: with a cancel function to take, the caller has to wait. */
  function StopThen(b: Table, t: nat, next: Option<string>, starts: bool): System
    requires t < |b.tunnels|
  {
    if b.tunnels[t].cancel.Some? then System(StopSection(b, t), Waiting(t, b.tunnels[t].cancel.value, next))
    else StartNext(StopSection(b, t), next, starts)
  }

  predicate Known(b: Table, name: string) {
    name in b.names && b.names[name] < |b.tunnels|
  }

  /** Events that are not enabled change nothing; a call is enabled only when no other is going on. */
  function Step(s: System, e: Event): System {
    var b := s.table;
    match e
    case RunExits(r) => s.(table := ExitSection(b, r))
    case RunCloses(r) => s.(table := CloseDone(b, r))
    case WaitOver(starts) =>
      if s.op.Waiting? && s.op.run < |b.runs| && b.runs[s.op.run].phase.Gone?
      then StartNext(b, s.op.next, starts) else s
    case Add(name, cfg, valid, persisted, starts) =>
      if !s.op.Idle? || !valid || name in b.names then s
      else if !persisted then s.(table := Insert(b, name, cfg).(names := b.names - {name}))
      else s.(table := StartSection(Insert(b, name, cfg), name, starts))
    case Update(name, cfg, valid, persisted, starts) =>
      if !s.op.Idle? || !valid || !Known(b, name) || !persisted then s
      else StopThen(SetConfig(b, b.names[name], cfg), b.names[name], Some(name), starts)
    case Delete(name) =>
      if !s.op.Idle? || !Known(b, name) then s
      else StopThen(b.(names := b.names - {name}), b.names[name], None, false)
    case Start(name, starts) =>
      if !s.op.Idle? then s else s.(table := StartSection(b, name, starts))
    case Stop(name) =>
      if !s.op.Idle? || !Known(b, name) then s else StopThen(b, b.names[name], None, false)
    case Restart(name, starts) =>
      if !s.op.Idle? || !Known(b, name) then s else StopThen(b, b.names[name], Some(name), starts)
  }

  function RunFrom(s: System, es: seq<Event>): System {
    if es == [] then s else Step(RunFrom(s, es[..|es| - 1]), es[|es| - 1])
  }

  function After(es: seq<Event>): System {
    RunFrom(Initial(), es)
  }

  predicate IsLive(b: Table, t: nat, r: nat) {
    r < |b.runs| && b.runs[r].tunnel == t && b.runs[r].phase.Live?
  }

  ghost predicate Inv(s: System) {
    var b := s.table;
    && (forall name :: name in b.names ==> b.names[name] < |b.tunnels| && b.tunnels[b.names[name]].name == name)
    && (forall r :: 0 <= r < |b.runs| ==> b.runs[r].tunnel < |b.tunnels|)
    && (forall t :: 0 <= t < |b.tunnels| && b.tunnels[t].cancel.Some? ==>
          IsLive(b, t, b.tunnels[t].cancel.value) && b.tunnels[t].done == b.tunnels[t].cancel)
    && (forall r :: 0 <= r < |b.runs| && b.runs[r].phase.Live? ==>
          b.tunnels[b.runs[r].tunnel].cancel == Some(r) || (s.op.Waiting? && s.op.run == r))
    && (s.op.Waiting? ==>
          && s.op.run < |b.runs| && b.runs[s.op.run].tunnel == s.op.tunnel && s.op.tunnel < |b.tunnels|
          && b.tunnels[s.op.tunnel].cancel.None? && b.runs[s.op.run].cancelled
          && (s.op.next.Some? ==> s.op.next.value in b.names && b.names[s.op.next.value] == s.op.tunnel))
  }

  lemma StartKeepsInv(b: Table, name: string, starts: bool)
    requires Inv(System(b, Idle))
    ensures Inv(System(StartSection(b, name, starts), Idle))
  {
  }

  lemma StopThenKeepsInv(b: Table, t: nat, next: Option<string>, starts: bool)
    requires Inv(System(b, Idle)) && t < |b.tunnels|
    requires next.Some? ==> next.value in b.names && b.names[next.value] == t
    ensures Inv(StopThen(b, t, next, starts))
  {
    if b.tunnels[t].cancel.None? {
      assert b.tunnels[t := b.tunnels[t].(cancel := None)] == b.tunnels;
      if next.Some? {
        StartKeepsInv(b, next.value, starts);
      }
    }
  }

  lemma ExitKeepsInv(s: System, r: nat)
    requires Inv(s)
    ensures Inv(s.(table := ExitSection(s.table, r)))
  {
  }

  lemma CloseKeepsInv(s: System, r: nat)
    requires Inv(s)
    ensures Inv(s.(table := CloseDone(s.table, r)))
  {
  }

  lemma RunEventKeepsInv(s: System, e: Event)
    requires Inv(s) && (e.RunExits? || e.RunCloses?)
    ensures Inv(Step(s, e))
  {
    hide Inv, ExitSection, CloseDone;
    if e.RunExits? {
      ExitKeepsInv(s, e.r);
    } else {
      CloseKeepsInv(s, e.r);
    }
  }

  lemma WaitOverKeepsInv(s: System, starts: bool)
    requires Inv(s)
    ensures Inv(Step(s, WaitOver(starts)))
  {
    if s.op.Waiting? && s.table.runs[s.op.run].phase.Gone? {
      assert Inv(System(s.table, Idle));
      if s.op.next.Some? {
        StartKeepsInv(s.table, s.op.next.value, starts);
      }
    }
  }

  lemma AddKeepsInv(b: Table, name: string, cfg: Config, persisted: bool, starts: bool)
    requires Inv(System(b, Idle)) && name !in b.names
    ensures Inv(Step(System(b, Idle), Add(name, cfg, true, persisted, starts)))
  {
    var c := Insert(b, name, cfg);
    assert Inv(System(c, Idle));
    if persisted {
      StartKeepsInv(c, name, starts);
    } else {
      assert Inv(System(c.(names := b.names - {name}), Idle));
    }
  }

  lemma CallKeepsInv(b: Table, e: Event)
    requires Inv(System(b, Idle)) && (e.Update? || e.Delete? || e.Start? || e.Stop? || e.Restart?)
    ensures Inv(Step(System(b, Idle), e))
  {
    hide Inv, StopThen, StartSection;
    match e
    case Update(name, cfg, valid, persisted, starts) =>
      if valid && persisted && Known(b, name) {
        EditKeepsInv(b, name, cfg);
        StopThenKeepsInv(SetConfig(b, b.names[name], cfg), b.names[name], Some(name), starts);
      }
    case Delete(name) =>
      if Known(b, name) {
        EditKeepsInv(b, name, b.tunnels[b.names[name]].cfg);
        StopThenKeepsInv(b.(names := b.names - {name}), b.names[name], None, false);
      }
    case Start(name, starts) =>
      StartKeepsInv(b, name, starts);
    case Stop(name) =>
      if Known(b, name) {
        StopThenKeepsInv(b, b.names[name], None, false);
      }
    case Restart(name, starts) =>
      if Known(b, name) {
        StopThenKeepsInv(b, b.names[name], Some(name), starts);
      }
    case _ =>
  }

  lemma EditKeepsInv(b: Table, name: string, cfg: Config)
    requires Inv(System(b, Idle)) && Known(b, name)
    ensures Inv(System(SetConfig(b, b.names[name], cfg), Idle))
    ensures Inv(System(b.(names := b.names - {name}), Idle))
  {
  }

  lemma StepKeepsInv(s: System, e: Event)
    requires Inv(s)
    ensures Inv(Step(s, e))
  {
    hide Inv, StopThen, StartNext, Insert, StartSection;
    if e.RunExits? || e.RunCloses? {
      RunEventKeepsInv(s, e);
    } else if e.WaitOver? {
      WaitOverKeepsInv(s, e.starts);
    } else if s.op.Idle? {
      assert s == System(s.table, Idle);
      if !e.Add? {
        CallKeepsInv(s.table, e);
      } else if e.valid && e.name !in s.table.names {
        AddKeepsInv(s.table, e.name, e.cfg, e.persisted, e.starts);
        assert e == Add(e.name, e.cfg, true, e.persisted, e.starts);
      }
    }
  }

  lemma {:induction false} ReachableKeepsInv(es: seq<Event>)
    ensures Inv(After(es))
  {
    if es != [] {
      ReachableKeepsInv(es[..|es| - 1]);
      StepKeepsInv(After(es[..|es| - 1]), es[|es| - 1]);
    }
  }

  // ---------- the promises, for every run ----------

  /** Never two live runs of one tunnel. */
  lemma OneLiveRun(es: seq<Event>, t: nat, r: nat, q: nat)
    requires IsLive(After(es).table, t, r) && IsLive(After(es).table, t, q)
    ensures r == q
  {
    ReachableKeepsInv(es);
  }

  /** Between calls a tunnel has a cancel function exactly when it has a live run, and it is that
      run's. */
  lemma CancelMeansLive(es: seq<Event>, t: nat)
    requires After(es).op.Idle? && t < |After(es).table.tunnels|
    ensures var b := After(es).table;
      forall r: nat :: b.tunnels[t].cancel == Some(r) <==> IsLive(b, t, r)
  {
    ReachableKeepsInv(es);
  }

  /** When a stop or delete returns, the tunnel has no live run: either at once, or after its wait. */
  lemma StopReturnsDrained(es: seq<Event>, e: Event, t: nat)
    requires e.WaitOver? || e.Stop? || e.Delete?
    requires var s := After(es);
      if e.WaitOver? then s.op.Waiting? && s.op.tunnel == t && s.op.next.None?
      else s.op.Idle? && e.name in s.table.names && s.table.names[e.name] == t
    requires Step(After(es), e).op.Idle?
    ensures forall r: nat :: !IsLive(Step(After(es), e).table, t, r)
  {
    ReachableKeepsInv(es);
  }

  /** A call that ends in a start - restart, or update after a successful save - makes exactly one:
      at once or when its wait is over, never skipped as already running and never twice. */
  lemma RestartStartsOnce(es: seq<Event>, e: Event)
    requires (e.Restart? && e.starts) || (e.Update? && e.valid && e.persisted && e.starts)
    requires After(es).op.Idle? && Known(After(es).table, e.name)
    ensures var s, n := Step(After(es), e), |After(es).table.runs|;
      var t := After(es).table.names[e.name];
      || (s.op.Idle? && |s.table.runs| == n + 1 && IsLive(s.table, t, n))
      || (s.op.Waiting? && s.op.next == Some(e.name) && s.op.tunnel == t && |s.table.runs| == n)
  {
    ReachableKeepsInv(es);
  }

  lemma WaitEndsInOneStart(es: seq<Event>)
    requires After(es).op.Waiting? && After(es).op.next.Some? && After(es).op.run < |After(es).table.runs|
    requires After(es).table.runs[After(es).op.run].phase.Gone?
    ensures var s, n := Step(After(es), WaitOver(true)), |After(es).table.runs|;
      s.op.Idle? && |s.table.runs| == n + 1 && IsLive(s.table, After(es).op.tunnel, n)
  {
    ReachableKeepsInv(es);
  }

  /** While a caller waits nothing is started. */
  lemma NoStartWhileWaiting(es: seq<Event>, e: Event)
    requires After(es).op.Waiting? && Step(After(es), e).op.Waiting?
    ensures |Step(After(es), e).table.runs| == |After(es).table.runs| && Step(After(es), e).op == After(es).op
  {
  }

  /** A wait can always end: the run's two remaining steps are enabled, and after them the wait is
      over. That the waiter does not hold the mutex its run needs is proved in DesktopInterleavings. */
  lemma WaitCanEnd(es: seq<Event>, starts: bool)
    requires After(es).op.Waiting?
    ensures var s := After(es);
      Step(Step(Step(s, RunExits(s.op.run)), RunCloses(s.op.run)), WaitOver(starts)).op.Idle?
  {
    ReachableKeepsInv(es);
  }

  // ---------- what each call leaves behind ----------

  /** The tunnel a name stands for has this configuration. */
  ghost predicate Configured(b: Table, name: string, cfg: Config) {
    name in b.names && b.names[name] < |b.tunnels| && b.tunnels[b.names[name]].cfg == cfg
  }

  /** Whatever a step does, the tunnels there are stay, and only an update changes a configuration. */
  lemma OthersKeepTheirConfig(es: seq<Event>, e: Event, t: nat)
    requires t < |After(es).table.tunnels|
    requires !e.Update? || e.name !in After(es).table.names || After(es).table.names[e.name] != t
    ensures t < |Step(After(es), e).table.tunnels|
    ensures Step(After(es), e).table.tunnels[t].cfg == After(es).table.tunnels[t].cfg
    ensures Step(After(es), e).table.tunnels[t].name == After(es).table.tunnels[t].name
  {
    hide After;
  }

  /** A valid tunnel under a new name is kept if it can be saved, and then started if it can be; in every
      other case no name and no run is added. */
  lemma AddLeaves(es: seq<Event>, name: string, cfg: Config, valid: bool, persisted: bool, starts: bool)
    requires After(es).op.Idle?
    ensures var b, s := After(es).table, Step(After(es), Add(name, cfg, valid, persisted, starts));
      && s.op.Idle?
      && if valid && persisted && name !in b.names then
           && Configured(s.table, name, cfg) && s.table.names == b.names[name := |b.tunnels|]
           && |s.table.runs| == |b.runs| + (if starts then 1 else 0)
           && (starts ==> IsLive(s.table, |b.tunnels|, |b.runs|))
         else s.table.names == b.names && s.table.runs == b.runs
  {
    hide After;
  }

  /** An update of a known tunnel replaces its configuration if it is valid and can be saved; otherwise
      nothing changes. */
  lemma UpdateLeaves(es: seq<Event>, name: string, cfg: Config, valid: bool, persisted: bool, starts: bool)
    requires After(es).op.Idle?
    ensures var b, s := After(es).table, Step(After(es), Update(name, cfg, valid, persisted, starts));
      && s.table.names == b.names
      && if valid && persisted && name in b.names then Configured(s.table, name, cfg) else s == After(es)
  {
    ReachableKeepsInv(es);
    hide After;
  }

  /** Deleting a known tunnel removes its name and no other. */
  lemma DeleteLeaves(es: seq<Event>, name: string)
    requires After(es).op.Idle?
    ensures var b, s := After(es).table, Step(After(es), Delete(name));
      s.table.names == b.names - {name} && |s.table.runs| == |b.runs|
  {
    ReachableKeepsInv(es);
    hide After;
  }

  /** Starting starts exactly a known tunnel without a live run, if it can be started. */
  lemma StartLeaves(es: seq<Event>, name: string, starts: bool)
    requires After(es).op.Idle?
    ensures var b, s := After(es).table, Step(After(es), Start(name, starts));
      && s.op.Idle? && s.table.names == b.names
      && if name in b.names && starts && (forall r: nat :: !IsLive(b, b.names[name], r)) then
           |s.table.runs| == |b.runs| + 1 && IsLive(s.table, b.names[name], |b.runs|)
         else s.table.runs == b.runs
  {
    ReachableKeepsInv(es);
    hide After;
    var b := After(es).table;
    if name in b.names && b.tunnels[b.names[name]].cancel.Some? {
      assert IsLive(b, b.names[name], b.tunnels[b.names[name]].cancel.value);
    }
  }

  /** Stopping, deleting, restarting or updating a tunnel with a live run cancels that run and waits for
      it, and no other run is touched; without one there is nothing to wait for. */
  lemma StopLeaves(es: seq<Event>, e: Event, r: nat)
    requires e.Stop? || e.Delete? || e.Restart? || (e.Update? && e.valid && e.persisted)
    requires After(es).op.Idle? && Known(After(es).table, e.name)
    ensures var b, s := After(es).table, Step(After(es), e);
      var t := b.names[e.name];
      && (IsLive(b, t, r) ==>
            && s.op == Waiting(t, r, if e.Stop? || e.Delete? then None else Some(e.name))
            && s.table.runs == b.runs[r := b.runs[r].(cancelled := true)])
      && (s.op.Waiting? ==> IsLive(b, t, s.op.run))
  {
    ReachableKeepsInv(es);
    hide After;
  }
}
