/** The desktop tunnel manager with any number of callers at once. First the locked sections on their
    own, in any order: exactly when a tunnel never has two live runs. Then the same sections with the
    mutex between them: a caller that waits for a run never keeps that run from ending. */
module DesktopInterleavings {
  import opened DesktopManager
  import opened Wrappers

  /** One critical section of some caller or run goroutine; Close is a run closing its done channel. */
  datatype Section =
    | InsertTunnel(name: string, cfg: Config)
    | Configure(t: nat, cfg: Config)
    | RemoveName(name: string)
    | Launch(name: string, starts: bool)
    | Take(t: nat)
    | Exit(r: nat)
    | Close(r: nat)

  function Apply(b: Table, s: Section): Table {
    match s
    case InsertTunnel(name, cfg) => if name in b.names then b else Insert(b, name, cfg)
    case Configure(t, cfg) => if t < |b.tunnels| then SetConfig(b, t, cfg) else b
    case RemoveName(name) => b.(names := b.names - {name})
    case Launch(name, starts) => StartSection(b, name, starts)
    case Take(t) => if t < |b.tunnels| then StopSection(b, t) else b
    case Exit(r) => ExitSection(b, r)
    case Close(r) => CloseDone(b, r)
  }

  function Sections(ss: seq<Section>): Table {
    if ss == [] then Table(map[], [], []) else Apply(Sections(ss[..|ss| - 1]), ss[|ss| - 1])
  }

  ghost predicate WellFormed(b: Table) {
    && (forall name :: name in b.names ==> b.names[name] < |b.tunnels|)
    && (forall r :: 0 <= r < |b.runs| ==> b.runs[r].tunnel < |b.tunnels|)
    && (forall t :: 0 <= t < |b.tunnels| && b.tunnels[t].cancel.Some? ==> b.tunnels[t].cancel.value < |b.runs|)
  }

  lemma StartWellFormed(b: Table, name: string, starts: bool)
    requires WellFormed(b)
    ensures WellFormed(StartSection(b, name, starts))
  {
  }

  lemma TakeWellFormed(b: Table, t: nat)
    requires WellFormed(b) && t < |b.tunnels|
    ensures WellFormed(StopSection(b, t))
  {
  }

  lemma RunWellFormed(b: Table, r: nat)
    requires WellFormed(b)
    ensures WellFormed(ExitSection(b, r)) && WellFormed(CloseDone(b, r))
  {
  }

  lemma EditWellFormed(b: Table, s: Section)
    requires WellFormed(b) && (s.InsertTunnel? || s.Configure? || s.RemoveName?)
    ensures WellFormed(Apply(b, s))
  {
  }

  lemma ApplyWellFormed(b: Table, s: Section)
    requires WellFormed(b)
    ensures WellFormed(Apply(b, s))
  {
    hide WellFormed, StartSection, StopSection, ExitSection, CloseDone;
    match s
    case Launch(name, starts) => StartWellFormed(b, name, starts);
    case Take(t) =>
      if t < |b.tunnels| {
        TakeWellFormed(b, t);
      }
    case Exit(r) => RunWellFormed(b, r);
    case Close(r) => RunWellFormed(b, r);
    case InsertTunnel(_, _) => EditWellFormed(b, s);
    case Configure(_, _) => EditWellFormed(b, s);
    case RemoveName(_) => EditWellFormed(b, s);
  }

  // ---------- when a tunnel has one live run ----------

  ghost predicate OneRunEach(b: Table) {
    forall r, q :: 0 <= r < q < |b.runs| && b.runs[r].phase.Live? && b.runs[q].phase.Live? ==>
      b.runs[r].tunnel != b.runs[q].tunnel
  }

  /** A start that goes through while a run of the tunnel that a stopper has taken is still live. */
  ghost predicate StartsBesideStopped(b: Table, s: Section) {
    s.Launch? && s.starts && CanStart(b, s.name)
    && exists r: nat :: IsLive(b, b.names[s.name], r) && b.runs[r].cancelled
  }

  /** Every live run can be stopped through its tunnel, or is being stopped. */
  ghost predicate NoOrphan(b: Table) {
    forall r :: 0 <= r < |b.runs| && b.runs[r].phase.Live? && b.runs[r].tunnel < |b.tunnels| ==>
      b.tunnels[b.runs[r].tunnel].cancel == Some(r) || b.runs[r].cancelled
  }

  ghost predicate Safe(b: Table) {
    && WellFormed(b) && OneRunEach(b) && NoOrphan(b)
    && forall t :: 0 <= t < |b.tunnels| && b.tunnels[t].cancel.Some? ==> IsLive(b, t, b.tunnels[t].cancel.value)
  }

  lemma LaunchKeepsSafe(b: Table, name: string, starts: bool)
    requires Safe(b) && !StartsBesideStopped(b, Launch(name, starts))
    ensures Safe(StartSection(b, name, starts))
  {
    if starts && CanStart(b, name) {
      var t, after := b.names[name], StartSection(b, name, starts);
      forall r | 0 <= r < |b.runs| && b.runs[r].phase.Live?
        ensures b.runs[r].tunnel != t
      {
        assert IsLive(b, t, r) <==> b.runs[r].tunnel == t;
      }
      assert forall r :: 0 <= r < |b.runs| ==> after.runs[r] == b.runs[r];
    }
  }

  lemma TakeKeepsSafe(b: Table, t: nat)
    requires Safe(b) && t < |b.tunnels|
    ensures Safe(StopSection(b, t))
  {
    var after := StopSection(b, t);
    assert |after.runs| == |b.runs|;
    assert forall r :: 0 <= r < |b.runs| ==>
      after.runs[r].tunnel == b.runs[r].tunnel && after.runs[r].phase == b.runs[r].phase;
  }

  lemma ExitKeepsSafe(b: Table, r: nat)
    requires Safe(b)
    ensures Safe(ExitSection(b, r))
  {
  }

  lemma InsertKeepsSafe(b: Table, name: string, cfg: Config)
    requires Safe(b)
    ensures Safe(Insert(b, name, cfg))
  {
  }

  lemma ConfigureKeepsSafe(b: Table, t: nat, cfg: Config)
    requires Safe(b) && t < |b.tunnels|
    ensures Safe(SetConfig(b, t, cfg))
  {
  }

  lemma RemoveKeepsSafe(b: Table, name: string)
    requires Safe(b)
    ensures Safe(b.(names := b.names - {name}))
  {
  }

  lemma CloseKeepsSafe(b: Table, r: nat)
    requires Safe(b)
    ensures Safe(CloseDone(b, r))
  {
  }

  lemma QuietSectionKeepsSafe(b: Table, s: Section)
    requires Safe(b) && !StartsBesideStopped(b, s)
    ensures Safe(Apply(b, s))
  {
    hide Safe, StartsBesideStopped, StartSection, StopSection, ExitSection, CloseDone, Insert, SetConfig;
    match s
    case Launch(name, starts) => LaunchKeepsSafe(b, name, starts);
    case Take(t) =>
      if t < |b.tunnels| {
        TakeKeepsSafe(b, t);
      }
    case Exit(r) => ExitKeepsSafe(b, r);
    case InsertTunnel(name, cfg) => InsertKeepsSafe(b, name, cfg);
    case Configure(t, cfg) =>
      if t < |b.tunnels| {
        ConfigureKeepsSafe(b, t, cfg);
      }
    case RemoveName(name) => RemoveKeepsSafe(b, name);
    case Close(r) => CloseKeepsSafe(b, r);
  }

  lemma StartBesideStoppedDoubles(b: Table, s: Section)
    requires StartsBesideStopped(b, s)
    ensures !OneRunEach(Apply(b, s))
  {
    var r: nat :| IsLive(b, b.names[s.name], r) && b.runs[r].cancelled;
    var after, q := Apply(b, s), |b.runs|;
    assert after.runs[r] == b.runs[r] && after.runs[q] == Run(b.names[s.name], Live, false);
  }

  lemma {:induction false} QuietSectionsSafe(ss: seq<Section>)
    requires forall k :: 0 <= k < |ss| ==> !StartsBesideStopped(Sections(ss[..k]), ss[k])
    ensures Safe(Sections(ss))
  {
    hide Safe, Apply, StartsBesideStopped;
    if ss == [] {
      NothingIsSafe();
    } else {
      var n := |ss| - 1;
      forall k | 0 <= k < n
        ensures !StartsBesideStopped(Sections(ss[..n][..k]), ss[..n][k])
      {
        assert ss[..n][..k] == ss[..k];
      }
      QuietSectionsSafe(ss[..n]);
      QuietSectionKeepsSafe(Sections(ss[..n]), ss[n]);
    }
  }

  lemma NothingIsSafe()
    ensures Safe(Table(map[], [], []))
  {
  }

  /** With any number of concurrent callers, no tunnel ever has two live runs if and only if no start
      goes through while a run of that tunnel already taken by a stopper is still live. */
  lemma OneRunEachIff(ss: seq<Section>)
    ensures (forall k :: 0 <= k <= |ss| ==> OneRunEach(Sections(ss[..k]))) <==>
            (forall k :: 0 <= k < |ss| ==> !StartsBesideStopped(Sections(ss[..k]), ss[k]))
  {
    hide OneRunEach, StartsBesideStopped, Apply;
    if k :| 0 <= k < |ss| && StartsBesideStopped(Sections(ss[..k]), ss[k]) {
      StartBesideStoppedDoubles(Sections(ss[..k]), ss[k]);
      assert ss[..k + 1][..k] == ss[..k];
    } else {
      forall k | 0 <= k <= |ss|
        ensures OneRunEach(Sections(ss[..k]))
      {
        forall m | 0 <= m < k
          ensures !StartsBesideStopped(Sections(ss[..k][..m]), ss[..k][m])
        {
          assert ss[..k][..m] == ss[..m];
        }
        QuietSectionsSafe(ss[..k]);
      }
    }
  }

  /** On the safe side no live run is ever out of reach: each is its tunnel's, or is being stopped. */
  lemma SafeRunsHaveNoOrphan(ss: seq<Section>)
    requires forall k :: 0 <= k < |ss| ==> !StartsBesideStopped(Sections(ss[..k]), ss[k])
    ensures OneRunEach(Sections(ss)) && NoOrphan(Sections(ss))
  {
    QuietSectionsSafe(ss);
  }

  // ---------- the orphan ----------

  /** A live run that no tunnel points to and nobody has cancelled. */
  ghost predicate Orphan(b: Table, r: nat) {
    && r < |b.runs| && b.runs[r].phase.Live? && !b.runs[r].cancelled
    && forall t :: 0 <= t < |b.tunnels| ==> b.tunnels[t].cancel != Some(r)
  }

  /** An orphan stays one, whatever callers do, until its run ends of itself. */
  lemma OrphanStays(b: Table, s: Section, r: nat)
    requires Orphan(b, r) && s != Exit(r)
    ensures Orphan(Apply(b, s), r)
  {
  }

  lemma NoSections()
    ensures Sections([]) == Table(map[], [], [])
  {
  }

  lemma Then(ss: seq<Section>, s: Section, b: Table, after: Table)
    requires Sections(ss) == b && Apply(b, s) == after
    ensures Sections(ss + [s]) == after
  {
    assert (ss + [s])[..|ss|] == ss;
  }

  lemma SecondIsOrphan(b: Table)
    requires |b.runs| == 2 && b.runs[1].phase.Live? && !b.runs[1].cancelled
    requires |b.tunnels| == 1 && b.tunnels[0].cancel.None?
    ensures Orphan(b, 1)
  {
  }

  /** Reachable from the empty manager: while one caller waits for the run it took, another starts the
      tunnel; the old run's exit section then clears the new run's cancel function. */
  lemma ConcurrentStartIsOrphaned(name: string, cfg: Config)
    ensures Orphan(Sections([InsertTunnel(name, cfg), Launch(name, true), Take(0), Launch(name, true), Exit(0)]), 1)
  {
    hide Sections, Orphan;
    NoSections();
    var idle := Tunnel(name, cfg, None, None);
    var b0 := Table(map[], [], []);
    var b1 := Table(map[name := 0], [idle], []);
    var b2 := Table(b1.names, [idle.(cancel := Some(0), done := Some(0))], [Run(0, Live, false)]);
    var b3 := Table(b1.names, [idle.(done := Some(0))], [Run(0, Live, true)]);
    var b4 := Table(b1.names, [idle.(cancel := Some(1), done := Some(1))], [Run(0, Live, true), Run(0, Live, false)]);
    var b5 := Table(b1.names, [idle.(done := Some(1))], [Run(0, Exiting, true), Run(0, Live, false)]);
    Then([], InsertTunnel(name, cfg), b0, b1);
    var s1 := [] + [InsertTunnel(name, cfg)];
    Then(s1, Launch(name, true), b1, b2);
    var s2 := s1 + [Launch(name, true)];
    Then(s2, Take(0), b2, b3);
    var s3 := s2 + [Take(0)];
    Then(s3, Launch(name, true), b3, b4);
    var s4 := s3 + [Launch(name, true)];
    Then(s4, Exit(0), b4, b5);
    SecondIsOrphan(b5);
    assert s4 + [Exit(0)] == [InsertTunnel(name, cfg), Launch(name, true), Take(0), Launch(name, true), Exit(0)];
  }

  // ---------- the mutex between the sections ----------

  datatype Thread = Caller(c: nat) | Goroutine(r: nat)

  /** `holder` has the mutex and will run its section before it lets go; `waits` are the callers that
      wait for the run they took. */
  datatype Locked = Locked(table: Table, holder: Option<(Thread, Section)>, waits: map<nat, nat>)

  datatype Event = Enter(who: Thread, section: Section) | Leave | CloseChannel(r: nat) | Wake(c: nat)

  /** A caller in a wait runs no section; a goroutine only runs the exit section of its live run. */
  predicate MayEnter(s: Locked, who: Thread, section: Section) {
    match who
    case Caller(c) => c !in s.waits && !section.Exit? && !section.Close?
    case Goroutine(r) => section == Exit(r) && r < |s.table.runs| && s.table.runs[r].phase.Live?
  }

  /** The run a caller has to wait for once its section is done: the one whose cancel it took. */
  function Taken(b: Table, section: Section): Option<nat> {
    if section.Take? && section.t < |b.tunnels| then b.tunnels[section.t].cancel else None
  }

  /** Events that are not enabled change nothing. */
  function LockStep(s: Locked, e: Event): Locked {
    match e
    case Enter(who, section) =>
      if s.holder.None? && MayEnter(s, who, section) then s.(holder := Some((who, section))) else s
    case Leave =>
      if s.holder.None? then s
      else
        var (who, section) := s.holder.value;
        var taken := Taken(s.table, section);
        Locked(Apply(s.table, section), None,
               if who.Caller? && taken.Some? then s.waits[who.c := taken.value] else s.waits)
    case CloseChannel(r) => s.(table := Apply(s.table, Close(r)))
    case Wake(c) =>
      if c in s.waits && s.waits[c] < |s.table.runs| && s.table.runs[s.waits[c]].phase.Gone?
      then s.(waits := s.waits - {c}) else s
  }

  function LockRun(es: seq<Event>): Locked {
    if es == [] then Locked(Table(map[], [], []), None, map[]) else LockStep(LockRun(es[..|es| - 1]), es[|es| - 1])
  }

  /** Sections under the mutex are the bare sections in the order in which the mutex was released: the
      table of every interleaving is one the bare sections reach. */
  lemma {:induction false} MutexSerialises(es: seq<Event>) returns (ss: seq<Section>)
    ensures Sections(ss) == LockRun(es).table
  {
    hide Apply;
    ss := [];
    if es != [] {
      var s, e := LockRun(es[..|es| - 1]), es[|es| - 1];
      ss := MutexSerialises(es[..|es| - 1]);
      if e.Leave? && s.holder.Some? {
        Then(ss, s.holder.value.1, s.table, Apply(s.table, s.holder.value.1));
        ss := ss + [s.holder.value.1];
      } else if e.CloseChannel? {
        Then(ss, Close(e.r), s.table, Apply(s.table, Close(e.r)));
        ss := ss + [Close(e.r)];
      }
    }
  }

  /** The mutex is released after a start beside a live run of the tunnel that a stopper has taken. */
  ghost predicate LeavesBesideStopped(s: Locked, e: Event) {
    e.Leave? && s.holder.Some? && StartsBesideStopped(s.table, s.holder.value.1)
  }

  lemma QuietEventKeepsSafe(s: Locked, e: Event)
    requires Safe(s.table) && !LeavesBesideStopped(s, e)
    ensures Safe(LockStep(s, e).table)
  {
    hide Safe, Apply, StartsBesideStopped;
    match e
    case Leave =>
      if s.holder.Some? {
        QuietSectionKeepsSafe(s.table, s.holder.value.1);
      }
    case CloseChannel(r) =>
      CloseIsQuiet(s.table, r);
      QuietSectionKeepsSafe(s.table, Close(r));
    case Enter(_, _) =>
    case Wake(_) =>
  }

  lemma CloseIsQuiet(b: Table, r: nat)
    ensures !StartsBesideStopped(b, Close(r))
  {
  }

  lemma {:induction false} QuietEventsSafe(es: seq<Event>)
    requires forall k :: 0 <= k < |es| ==> !LeavesBesideStopped(LockRun(es[..k]), es[k])
    ensures Safe(LockRun(es).table)
  {
    hide Safe, LockStep, LeavesBesideStopped;
    if es == [] {
      NothingIsSafe();
    } else {
      var n := |es| - 1;
      forall k | 0 <= k < n
        ensures !LeavesBesideStopped(LockRun(es[..n][..k]), es[..n][k])
      {
        assert es[..n][..k] == es[..k];
      }
      QuietEventsSafe(es[..n]);
      QuietEventKeepsSafe(LockRun(es[..n]), es[n]);
    }
  }

  /** So it is for every interleaving of callers and runs under the mutex: no tunnel ever has two live
      runs if and only if no caller leaves a start section beside a live run already taken. */
  lemma LockedOneRunEachIff(es: seq<Event>)
    ensures (forall k :: 0 <= k <= |es| ==> OneRunEach(LockRun(es[..k]).table)) <==>
            (forall k :: 0 <= k < |es| ==> !LeavesBesideStopped(LockRun(es[..k]), es[k]))
  {
    hide OneRunEach, StartsBesideStopped, Apply;
    if k :| 0 <= k < |es| && LeavesBesideStopped(LockRun(es[..k]), es[k]) {
      var s := LockRun(es[..k]);
      StartBesideStoppedDoubles(s.table, s.holder.value.1);
      assert es[..k + 1][..k] == es[..k];
      assert LockRun(es[..k + 1]) == LockStep(s, es[k]);
    } else {
      forall k | 0 <= k <= |es|
        ensures OneRunEach(LockRun(es[..k]).table)
      {
        forall m | 0 <= m < k
          ensures !LeavesBesideStopped(LockRun(es[..k][..m]), es[..k][m])
        {
          assert es[..k][..m] == es[..m];
        }
        QuietEventsSafe(es[..k]);
      }
    }
  }

  ghost predicate LockInv(s: Locked) {
    && WellFormed(s.table)
    && (forall c :: c in s.waits ==> s.waits[c] < |s.table.runs|)
    && (s.holder.Some? ==> MayEnter(s, s.holder.value.0, s.holder.value.1))
  }

  lemma ApplyKeepsRuns(b: Table, s: Section)
    ensures |b.runs| <= |Apply(b, s).runs|
  {
  }

  lemma LeaveKeepsInv(s: Locked)
    requires LockInv(s) && s.holder.Some?
    ensures LockInv(LockStep(s, Leave))
  {
    var (who, section) := s.holder.value;
    ApplyWellFormed(s.table, section);
    ApplyKeepsRuns(s.table, section);
    assert Taken(s.table, section).Some? ==> Taken(s.table, section).value < |s.table.runs|;
    hide Apply;
  }

  lemma CloseKeepsLockInv(s: Locked, r: nat)
    requires LockInv(s)
    ensures LockInv(LockStep(s, CloseChannel(r)))
  {
    hide WellFormed;
    ApplyWellFormed(s.table, Close(r));
  }

  lemma LockStepKeepsInv(s: Locked, e: Event)
    requires LockInv(s)
    ensures LockInv(LockStep(s, e))
  {
    hide WellFormed, Apply;
    match e
    case Leave =>
      if s.holder.Some? {
        LeaveKeepsInv(s);
      }
    case CloseChannel(r) => CloseKeepsLockInv(s, r);
    case Enter(_, _) =>
    case Wake(_) =>
  }

  lemma {:induction false} LockRunKeepsInv(es: seq<Event>)
    ensures LockInv(LockRun(es))
  {
    if es != [] {
      LockRunKeepsInv(es[..|es| - 1]);
      LockStepKeepsInv(LockRun(es[..|es| - 1]), es[|es| - 1]);
    }
  }

  /** Once the mutex is free, the run a caller waits for can end and the caller can wake. */
  lemma FreeRunEnds(s: Locked, c: nat)
    requires LockInv(s) && s.holder.None? && c in s.waits
    ensures var r := s.waits[c];
      var ended := LockStep(LockStep(LockStep(s, Enter(Goroutine(r), Exit(r))), Leave), CloseChannel(r));
      c in ended.waits && c !in LockStep(ended, Wake(c)).waits
  {
    var r := s.waits[c];
    var exited := LockStep(LockStep(s, Enter(Goroutine(r), Exit(r))), Leave);
    assert exited.waits == s.waits && exited.holder.None?;
    assert exited.table == if s.table.runs[r].phase.Live? then ExitSection(s.table, r) else s.table;
    assert !exited.table.runs[r].phase.Live?;
  }

  lemma LeaveKeepsWaits(s: Locked, c: nat)
    requires LockInv(s) && c in s.waits
    ensures s.holder.Some? ==> s.holder.value.0 != Caller(c)
    ensures var free := LockStep(s, Leave); free.holder.None? && c in free.waits && free.waits[c] == s.waits[c]
  {
    hide WellFormed, Apply;
  }

  /** In every interleaving a waiting caller does not hold the mutex, and the run it waits for can end
      without it: whoever holds the mutex leaves, the run enters its exit section, leaves, closes its
      done channel - and the caller can wake. */
  lemma WaiterBlocksNobody(es: seq<Event>, c: nat)
    requires c in LockRun(es).waits
    ensures var s := LockRun(es);
      && (s.holder.Some? ==> s.holder.value.0 != Caller(c))
      && var r := s.waits[c];
         var free := LockStep(s, Leave);
         var ended := LockStep(LockStep(LockStep(free, Enter(Goroutine(r), Exit(r))), Leave), CloseChannel(r));
         free.holder.None? && c in ended.waits && c !in LockStep(ended, Wake(c)).waits
  {
    hide LockRun, LockStep, LockInv;
    LockRunKeepsInv(es);
    LeaveKeepsWaits(LockRun(es), c);
    LockStepKeepsInv(LockRun(es), Leave);
    FreeRunEnds(LockStep(LockRun(es), Leave), c);
  }
}
