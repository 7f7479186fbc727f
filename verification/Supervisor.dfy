/** The reconnect supervisor: dial, serve, wait, again, until its context is cancelled. The model
    proves which sequences of states it emits - all of them and no others - and what it waits. */
module Supervisor {

  datatype State = Connecting | Running | Reconnecting | Stopped

  datatype Sleep = Completed | Interrupted | CompletedButCancelled

  /** One turn of the loop as the environment decides it: whether the dial succeeds, whether the
      context is cancelled while dialling or serving, how long a session lasts in nanoseconds, and how
      the wait ends. */
  datatype Attempt = Attempt(dialOk: bool, cancelled: bool, uptime: nat, sleep: Sleep)

  const SECOND := 1_000_000_000
  const STABLE := 60 * SECOND

  predicate ResetsBackoff(a: Attempt) {
    a.dialOk && a.uptime > STABLE
  }

  /** The loop ends after this attempt. */
  predicate Last(a: Attempt) {
    a.cancelled || a.sleep != Completed
  }

  // ---------- the emitted states ----------

  function Emitted(cancelled: bool, script: seq<Attempt>): seq<State>
    decreases |script|
  {
    if cancelled || script == [] then [Stopped]
    else
      var a := script[0];
      if !a.dialOk then [Connecting, Reconnecting] + Emitted(Last(a), script[1..])
      else if a.cancelled then [Connecting, Running, Stopped]
      else [Connecting, Running, Reconnecting] + Emitted(Last(a), script[1..])
  }

  /** (connecting running? reconnecting)* (connecting running)? */
  predicate Cycles(t: seq<State>) {
    || t == []
    || t == [Connecting, Running]
    || (|t| >= 2 && t[..2] == [Connecting, Reconnecting] && Cycles(t[2..]))
    || (|t| >= 3 && t[..3] == [Connecting, Running, Reconnecting] && Cycles(t[3..]))
  }

  /** ... followed by exactly one stopped. */
  predicate TraceLanguage(t: seq<State>) {
    t != [] && t[|t| - 1] == Stopped && Cycles(t[..|t| - 1])
  }

  lemma {:induction false} CyclesNeverStop(t: seq<State>)
    requires Cycles(t)
    ensures Stopped !in t
  {
    if |t| >= 2 && t[..2] == [Connecting, Reconnecting] && Cycles(t[2..]) {
      CyclesNeverStop(t[2..]);
      assert t == t[..2] + t[2..];
    } else if |t| >= 3 && t[..3] == [Connecting, Running, Reconnecting] && Cycles(t[3..]) {
      CyclesNeverStop(t[3..]);
      assert t == t[..3] + t[3..];
    }
  }

  lemma {:induction false} EmittedIsWord(cancelled: bool, script: seq<Attempt>)
    ensures TraceLanguage(Emitted(cancelled, script))
    decreases |script|
  {
    if !cancelled && script != [] {
      var t, a := Emitted(cancelled, script), script[0];
      if a.dialOk && a.cancelled {
        assert t[..2] == [Connecting, Running];
      } else {
        EmittedIsWord(Last(a), script[1..]);
        var rest := Emitted(Last(a), script[1..]);
        var n := if a.dialOk then 3 else 2;
        assert t == t[..n] + rest;
        assert t[..|t| - 1][..n] == t[..n] && t[..|t| - 1][n..] == rest[..|rest| - 1];
      }
    }
  }

  /** Every trace is in the language, and stopped is emitted once, last. */
  lemma EmittedInLanguage(cancelled: bool, script: seq<Attempt>)
    ensures var t := Emitted(cancelled, script);
      TraceLanguage(t) && forall i :: 0 <= i < |t| - 1 ==> t[i] != Stopped
  {
    hide Cycles, Emitted;
    var t := Emitted(cancelled, script);
    EmittedIsWord(cancelled, script);
    CyclesNeverStop(t[..|t| - 1]);
    assert forall i :: 0 <= i < |t| - 1 ==> t[i] == t[..|t| - 1][i];
  }

  /** Conversely every word of the language is emitted in some environment. */
  lemma {:induction false} LanguageIsEmitted(t: seq<State>) returns (script: seq<Attempt>)
    requires TraceLanguage(t)
    ensures Emitted(false, script) == t
  {
    var u := t[..|t| - 1];
    assert t == u + [Stopped];
    if u == [] {
      script := [];
    } else if u == [Connecting, Running] {
      script := [Attempt(true, true, 0, Completed)];
    } else {
      var n := if u[..2] == [Connecting, Reconnecting] && Cycles(u[2..]) then 2 else 3;
      assert t[n..][..|t[n..]| - 1] == u[n..];
      var rest := LanguageIsEmitted(t[n..]);
      script := [Attempt(n == 3, false, 0, Completed)] + rest;
      assert t == u[..n] + t[n..];
      assert script[1..] == rest;
    }
  }

  // ---------- the waits ----------

  function Pow2(k: nat): nat {
    if k == 0 then 1 else 2 * Pow2(k - 1)
  }

  /** The backoff after k completed sleeps since the last reset. */
  function Backoff(initial: nat, max: nat, k: nat): nat {
    if k == 0 || initial * Pow2(k) <= max then initial * Pow2(k) else max
  }

  /** Completed sleeps since the last reset when attempt i comes to wait. */
  function SleepsSinceReset(script: seq<Attempt>, i: nat): nat
    requires i < |script|
  {
    if i == 0 || ResetsBackoff(script[i]) then 0 else SleepsSinceReset(script, i - 1) + 1
  }

  /** Doubling with a cap is the capped power. */
  lemma BackoffDoubles(initial: nat, max: nat, k: nat)
    ensures var d := Backoff(initial, max, k);
      Backoff(initial, max, k + 1) == if d * 2 > max then max else d * 2
  {
    assert initial * Pow2(k + 1) == 2 * (initial * Pow2(k));
  }

  lemma {:induction false} PowerGrows(initial: nat, k: nat)
    ensures initial <= initial * Pow2(k)
  {
    if k > 0 {
      PowerGrows(initial, k - 1);
      assert initial * Pow2(k) == 2 * (initial * Pow2(k - 1));
    }
  }

  /** Within [initial, max] at any time, when initial is at most max. */
  lemma BackoffInRange(initial: nat, max: nat, k: nat)
    requires initial <= max
    ensures initial <= Backoff(initial, max, k) <= max
    ensures Backoff(initial, max, k) == if initial * Pow2(k) <= max then initial * Pow2(k) else max
  {
    PowerGrows(initial, k);
  }

  /** The backoff reaches its cap, so a long outage ends in waits of max. */
  lemma BackoffReachesMax(initial: nat, max: nat, k: nat)
    requires 0 < initial <= max <= k
    ensures Backoff(initial, max, k + 1) == max
  {
    PowerExceeds(k + 1);
    AtLeast(initial, Pow2(k + 1));
  }

  lemma AtLeast(a: nat, p: nat)
    requires a >= 1
    ensures a * p >= p
  {
  }

  lemma {:induction false} PowerExceeds(k: nat)
    ensures Pow2(k) > k
  {
    if k > 0 {
      PowerExceeds(k - 1);
    }
  }

  /** How many waits a run starts. */
  function WaitCount(cancelled: bool, script: seq<Attempt>): (n: nat)
    ensures n <= |script|
    decreases |script|
  {
    if cancelled || script == [] || (script[0].dialOk && script[0].cancelled) then 0
    else 1 + WaitCount(Last(script[0]), script[1..])
  }

  function Waits(initial: nat, max: nat, cancelled: bool, script: seq<Attempt>): (ws: seq<nat>)
    ensures |ws| == WaitCount(cancelled, script)
    ensures forall i :: 0 <= i < |ws| ==> ws[i] == Backoff(initial, max, SleepsSinceReset(script, i))
  {
    seq(WaitCount(cancelled, script),
        i requires 0 <= i < WaitCount(cancelled, script) => Backoff(initial, max, SleepsSinceReset(script, i)))
  }

  ghost predicate NeverWaits(ws: seq<nat>) {
    forall i :: 0 <= i < |ws| ==> ws[i] == 0
  }

  lemma ZeroBackoffIff(initial: nat, max: nat)
    ensures (forall k :: Backoff(initial, max, k) == 0) <==> initial == 0
  {
    if initial == 0 {
      forall k
        ensures Backoff(initial, max, k) == 0
      {
        assert initial * Pow2(k) == 0;
      }
    } else {
      assert Backoff(initial, max, 0) == initial * Pow2(0) == initial;
    }
  }

  /** The loop never waits, whatever happens to it, exactly when the initial backoff is zero. The
      mobile core passes zero defaults. */
  lemma ZeroDefaultsNeverWait(initial: nat, max: nat)
    ensures (forall cancelled, script :: NeverWaits(Waits(initial, max, cancelled, script))) <==> initial == 0
  {
    ZeroBackoffIff(initial, max);
    if initial > 0 {
      var script := [Attempt(false, false, 0, Completed)];
      assert script[1..] == [];
      var ws := Waits(initial, max, false, script);
      assert |ws| == 1 && ws[0] == initial * Pow2(0);
      assert !NeverWaits(ws);
    }
  }

  // ---------- the loop ----------

  function TurnTrace(a: Attempt): seq<State> {
    if a.dialOk then [Connecting, Running, Reconnecting] else [Connecting, Reconnecting]
  }

  lemma EmittedTurn(script: seq<Attempt>, i: nat)
    requires i < |script|
    ensures var a := script[i];
      Emitted(false, script[i..]) ==
        if a.dialOk && a.cancelled then [Connecting, Running, Stopped]
        else TurnTrace(a) + Emitted(Last(a), script[i + 1..])
  {
    assert script[i..][1..] == script[i + 1..];
  }

  lemma WaitCountTurn(script: seq<Attempt>, i: nat)
    requires i < |script|
    ensures var a := script[i];
      WaitCount(false, script[i..]) == if a.dialOk && a.cancelled then 0 else 1 + WaitCount(Last(a), script[i + 1..])
  {
    assert script[i..][1..] == script[i + 1..];
  }

  /** The backoff with which attempt i begins. */
  function Due(initial: nat, max: nat, script: seq<Attempt>, i: nat): nat
    requires i <= |script|
  {
    if i == 0 then initial else Backoff(initial, max, SleepsSinceReset(script, i - 1) + 1)
  }

  /** A long session resets it; what attempt i waits is the capped power, and so is its double. */
  lemma DueIs(initial: nat, max: nat, script: seq<Attempt>, i: nat)
    requires i < |script|
    ensures var d := if ResetsBackoff(script[i]) then initial else Due(initial, max, script, i);
      && d == Backoff(initial, max, SleepsSinceReset(script, i))
      && Due(initial, max, script, i + 1) == if d * 2 > max then max else d * 2
  {
    assert Backoff(initial, max, 0) == initial * Pow2(0) == initial;
    BackoffDoubles(initial, max, SleepsSinceReset(script, i));
    hide Backoff;
  }

  /** The first waits of a run are the ones specified. */
  ghost predicate WaitsFollow(ws: seq<nat>, initial: nat, max: nat, script: seq<Attempt>) {
    |ws| <= |script| && forall j :: 0 <= j < |ws| ==> ws[j] == Backoff(initial, max, SleepsSinceReset(script, j))
  }

  lemma NoWaitsYet(initial: nat, max: nat, script: seq<Attempt>)
    ensures WaitsFollow([], initial, max, script)
  {
  }

  lemma WaitsNext(ws: seq<nat>, initial: nat, max: nat, script: seq<Attempt>)
    requires WaitsFollow(ws, initial, max, script) && |ws| < |script|
    ensures WaitsFollow(ws + [Backoff(initial, max, SleepsSinceReset(script, |ws|))], initial, max, script)
  {
  }

  lemma AllWaits(ws: seq<nat>, initial: nat, max: nat, cancelled: bool, script: seq<Attempt>)
    requires WaitsFollow(ws, initial, max, script) && |ws| == WaitCount(cancelled, script)
    ensures ws == Waits(initial, max, cancelled, script)
  {
  }

  /** A loop that is over has only its last state to emit, and waits no more. */
  lemma EmittedEnd(cancelled: bool, script: seq<Attempt>)
    requires cancelled || script == []
    ensures Emitted(cancelled, script) == [Stopped] && WaitCount(cancelled, script) == 0
  {
  }

  /** What was emitted so far and what the rest of the script still emits make up the whole trace. */
  ghost predicate TraceSoFar(emitted: seq<State>, cancelled: bool, rest: seq<Attempt>, whole: seq<State>) {
    emitted + Emitted(cancelled, rest) == whole
  }

  lemma TraceTurn(emitted: seq<State>, script: seq<Attempt>, i: nat, whole: seq<State>)
    requires i < |script| && TraceSoFar(emitted, false, script[i..], whole)
    ensures var a := script[i];
      if a.dialOk && a.cancelled then emitted + [Connecting, Running] + [Stopped] == whole
      else TraceSoFar(emitted + TurnTrace(a), Last(a), script[i + 1..], whole)
  {
    hide Emitted, TurnTrace, Last;
    EmittedTurn(script, i);
    Associate(emitted, TurnTrace(script[i]), Emitted(Last(script[i]), script[i + 1..]));
    Associate(emitted, [Connecting, Running], [Stopped]);
    assert [Connecting, Running] + [Stopped] == [Connecting, Running, Stopped];
  }

  lemma TraceEnd(emitted: seq<State>, cancelled: bool, rest: seq<Attempt>, whole: seq<State>)
    requires TraceSoFar(emitted, cancelled, rest, whole) && (cancelled || rest == [])
    ensures emitted + [Stopped] == whole
  {
    EmittedEnd(cancelled, rest);
  }

  lemma TraceStart(cancelled: bool, script: seq<Attempt>)
    ensures TraceSoFar([], cancelled, script[0..], Emitted(cancelled, script))
  {
    hide Emitted;
    assert script[0..] == script;
    assert [] + Emitted(cancelled, script) == Emitted(cancelled, script);
  }

  lemma Associate(a: seq<State>, b: seq<State>, c: seq<State>)
    ensures a + (b + c) == (a + b) + c
  {
  }

  // ---------- the same, attempt by attempt ----------

  /** The waits as they follow from each other: the first is the initial backoff; later ones start over
      after a session of more than a minute, and double up to the cap otherwise. */
  ghost predicate Paced(ws: seq<nat>, initial: nat, max: nat, script: seq<Attempt>) {
    && |ws| <= |script| && (|ws| > 0 ==> ws[0] == initial)
    && forall i :: 1 <= i < |ws| ==>
      ws[i] == if script[i].dialOk && script[i].uptime > 60_000_000_000 then initial
               else if 2 * ws[i - 1] > max then max else 2 * ws[i - 1]
  }

  lemma WaitsArePaced(initial: nat, max: nat, cancelled: bool, script: seq<Attempt>)
    ensures Paced(Waits(initial, max, cancelled, script), initial, max, script)
  {
    hide Backoff;
    var ws := Waits(initial, max, cancelled, script);
    assert Backoff(initial, max, 0) == initial by { FirstBackoff(initial, max); }
    forall i | 1 <= i < |ws|
      ensures ws[i] == if script[i].dialOk && script[i].uptime > 60_000_000_000 then initial
                       else if 2 * ws[i - 1] > max then max else 2 * ws[i - 1]
    {
      BackoffDoubles(initial, max, SleepsSinceReset(script, i - 1));
    }
  }

  lemma FirstBackoff(initial: nat, max: nat)
    ensures Backoff(initial, max, 0) == initial
  {
  }

  /** The loop does not begin attempt i: the context is over at the start, or was over by the end of the
      attempt before. */
  ghost predicate OverAt(cancelled: bool, script: seq<Attempt>, i: nat)
    requires i <= |script|
  {
    if i == 0 then cancelled else script[i - 1].cancelled || script[i - 1].sleep != Completed
  }

  /** Attempt i is the last because its session ends by cancellation. */
  ghost predicate ReturnsAt(script: seq<Attempt>, i: nat) {
    i < |script| && script[i].dialOk && script[i].cancelled
  }

  /** The loop waits after exactly the first n attempts. */
  ghost predicate WaitsAfter(n: nat, cancelled: bool, script: seq<Attempt>) {
    && n <= |script|
    && (forall i :: 0 <= i < n ==> !OverAt(cancelled, script, i) && !ReturnsAt(script, i))
    && (n < |script| ==> OverAt(cancelled, script, n) || ReturnsAt(script, n))
  }

  lemma {:induction false} WaitCountIs(cancelled: bool, script: seq<Attempt>)
    ensures WaitsAfter(WaitCount(cancelled, script), cancelled, script)
    decreases |script|
  {
    if !cancelled && script != [] && !(script[0].dialOk && script[0].cancelled) {
      WaitCountIs(Last(script[0]), script[1..]);
      var n := WaitCount(cancelled, script);
      forall i | 0 <= i < n
        ensures !OverAt(cancelled, script, i) && !ReturnsAt(script, i)
      {
        if i > 0 {
          assert OverAt(cancelled, script, i) <==> OverAt(Last(script[0]), script[1..], i - 1);
          assert ReturnsAt(script, i) <==> ReturnsAt(script[1..], i - 1);
        }
      }
      if n < |script| {
        assert OverAt(cancelled, script, n) <==> OverAt(Last(script[0]), script[1..], n - 1);
        assert ReturnsAt(script, n) <==> ReturnsAt(script[1..], n - 1);
      }
    }
  }

  /** Where in the trace attempt i begins: two states for each attempt before, three for those that
      got through. */
  ghost function BeginsAt(script: seq<Attempt>, i: nat): nat
    requires i <= |script|
  {
    if i == 0 then 0 else BeginsAt(script, i - 1) + if script[i - 1].dialOk then 3 else 2
  }

  /** Attempt i in the trace: connecting, running exactly if the dial got through, reconnecting. */
  ghost predicate Tells(trace: seq<State>, script: seq<Attempt>, i: nat)
    requires i < |script|
  {
    && BeginsAt(script, i) <= BeginsAt(script, i + 1) <= |trace|
    && trace[BeginsAt(script, i)..BeginsAt(script, i + 1)] ==
       if script[i].dialOk then [Connecting, Running, Reconnecting] else [Connecting, Reconnecting]
  }

  /** The trace, attempt by attempt; at the end a session that was cancelled, if that ended the loop, and
      stopped. */
  ghost predicate Told(trace: seq<State>, n: nat, cancelled: bool, script: seq<Attempt>) {
    && n <= |script| && BeginsAt(script, n) <= |trace|
    && (forall i :: 0 <= i < n ==> Tells(trace, script, i))
    && trace[BeginsAt(script, n)..] ==
       if !OverAt(cancelled, script, n) && ReturnsAt(script, n) then [Connecting, Running, Stopped] else [Stopped]
  }

  lemma {:induction false} AttemptBegins(cancelled: bool, script: seq<Attempt>, i: nat)
    requires i <= WaitCount(cancelled, script)
    ensures var t := Emitted(cancelled, script);
      && BeginsAt(script, i) <= |t|
      && t[BeginsAt(script, i)..] == Emitted(OverAt(cancelled, script, i), script[i..])
      && WaitCount(OverAt(cancelled, script, i), script[i..]) == WaitCount(cancelled, script) - i
  {
    hide Emitted;
    if i == 0 {
      assert script[0..] == script;
    } else {
      AttemptBegins(cancelled, script, i - 1);
      assert script[i - 1..][1..] == script[i..];
      EmittedTurn(script, i - 1);
      var rest := Emitted(OverAt(cancelled, script, i), script[i..]);
      assert Emitted(false, script[i - 1..]) == TurnTrace(script[i - 1]) + rest;
      var t := Emitted(cancelled, script);
      assert t[BeginsAt(script, i)..] == t[BeginsAt(script, i - 1)..][|TurnTrace(script[i - 1])|..];
    }
  }

  lemma AttemptTells(cancelled: bool, script: seq<Attempt>, i: nat)
    requires i < WaitCount(cancelled, script)
    ensures Tells(Emitted(cancelled, script), script, i)
  {
    hide Emitted, WaitCount, OverAt;
    WaitCountIs(cancelled, script);
    AttemptBegins(cancelled, script, i);
    AttemptBegins(cancelled, script, i + 1);
    AttemptGoesOn(cancelled, script, i);
    var t := Emitted(cancelled, script);
    var rest, n := t[BeginsAt(script, i)..], |TurnTrace(script[i])|;
    assert t[BeginsAt(script, i)..BeginsAt(script, i) + n] == rest[..n];
  }

  lemma AttemptGoesOn(cancelled: bool, script: seq<Attempt>, i: nat)
    requires i < WaitCount(cancelled, script)
    ensures Emitted(OverAt(cancelled, script, i), script[i..])
         == TurnTrace(script[i]) + Emitted(OverAt(cancelled, script, i + 1), script[i + 1..])
  {
    hide Emitted;
    WaitCountIs(cancelled, script);
    assert !ReturnsAt(script, i);
    EmittedTurn(script, i);
  }

  lemma EmittedIsTold(cancelled: bool, script: seq<Attempt>)
    ensures Told(Emitted(cancelled, script), WaitCount(cancelled, script), cancelled, script)
  {
    hide Emitted, WaitCount, Tells, OverAt;
    var n := WaitCount(cancelled, script);
    WaitCountIs(cancelled, script);
    forall i | 0 <= i < n
      ensures Tells(Emitted(cancelled, script), script, i)
    {
      AttemptTells(cancelled, script, i);
    }
    AttemptBegins(cancelled, script, n);
    LastWords(OverAt(cancelled, script, n), script[n..]);
    assert n < |script| ==> script[n..][0] == script[n];
  }

  lemma LastWords(over: bool, rest: seq<Attempt>)
    requires over || rest == [] || ReturnsAt(rest, 0)
    ensures Emitted(over, rest) == if !over && ReturnsAt(rest, 0) then [Connecting, Running, Stopped] else [Stopped]
  {
  }

  class Session {
    var trace: seq<State>
    var waits: seq<nat>

    constructor ()
      ensures trace == [] && waits == []
    {
      trace, waits := [], [];
    }

    method Emit(s: State)
      modifies this`trace
      ensures trace == old(trace) + [s]
    {
      trace := trace + [s];
    }

    /** Wait one backoff; double it, up to max, unless the wait was interrupted. */
    method SleepBackoff(backoff: nat, max: nat, outcome: Sleep) returns (next: nat)
      modifies this`waits
      ensures waits == old(waits) + [backoff]
      ensures next == if outcome.Interrupted? then backoff else if backoff * 2 > max then max else backoff * 2
    {
      waits := waits + [backoff];
      if outcome.Interrupted? {
        return backoff;
      }
      next := backoff * 2;
      if next > max {
        next := max;
      }
    }

    /** One turn of the loop. */
    method Turn(a: Attempt, backoff: nat, initial: nat, max: nat) returns (next: nat, cancelled: bool, returned: bool)
      modifies this
      ensures returned <==> a.dialOk && a.cancelled
      ensures returned ==> trace == old(trace) + [Connecting, Running] && waits == old(waits)
      ensures !returned ==>
        var d := if ResetsBackoff(a) then initial else backoff;
        && trace == old(trace) + TurnTrace(a)
        && waits == old(waits) + [d] && cancelled == Last(a)
        && (!cancelled ==> next == if d * 2 > max then max else d * 2)
    {
      next, cancelled := backoff, a.cancelled;
      Emit(Connecting);
      if !a.dialOk {
        Emit(Reconnecting);
      } else {
        Emit(Running);
        if a.uptime > STABLE {
          next := initial;
        }
        if a.cancelled {
          return next, true, true;
        }
        Emit(Reconnecting);
      }
      next := SleepBackoff(next, max, a.sleep);
      return next, Last(a), false;
    }

    /** The supervisor's loop: what it emits is Emitted, and its waits are Waits: the i-th is the capped
        power for the number of completed sleeps since the last reset. */
    method Run(initial: nat, max: nat, cancelledAtStart: bool, script: seq<Attempt>)
      requires trace == [] && waits == []
      modifies this
      ensures trace == Emitted(cancelledAtStart, script)
      ensures waits == Waits(initial, max, cancelledAtStart, script)
      ensures WaitsAfter(|waits|, cancelledAtStart, script) && Paced(waits, initial, max, script)
      ensures Told(trace, |waits|, cancelledAtStart, script)
    {
      WaitCountIs(cancelledAtStart, script);
      WaitsArePaced(initial, max, cancelledAtStart, script);
      EmittedIsTold(cancelledAtStart, script);
      hide Told, Paced, WaitsAfter;
      var backoff := initial;
      var cancelled := cancelledAtStart;
      var i := 0;
      assert script[0..] == script;
      TraceStart(cancelled, script);
      hide Backoff, TurnTrace, Last, Emitted, WaitCount, WaitsFollow, Waits, TraceSoFar;
      hide SleepsSinceReset, ResetsBackoff;
      NoWaitsYet(initial, max, script);
      assert Due(initial, max, script, 0) == initial;
      hide Due;
      while !cancelled && i < |script|
        invariant i <= |script| && |waits| == i
        invariant |waits| + WaitCount(cancelled, script[i..]) == WaitCount(cancelledAtStart, script)
        invariant TraceSoFar(trace, cancelled, script[i..], Emitted(cancelledAtStart, script))
        invariant WaitsFollow(waits, initial, max, script)
        invariant !cancelled ==> backoff == Due(initial, max, script, i)
        decreases |script| - i
      {
        ghost var before, waited := trace, waits;
        DueIs(initial, max, script, i);
        var returned;
        backoff, cancelled, returned := Turn(script[i], backoff, initial, max);
        TraceTurn(before, script, i, Emitted(cancelledAtStart, script));
        WaitCountTurn(script, i);
        if returned {
          Emit(Stopped);
          AllWaits(waits, initial, max, cancelledAtStart, script);
          return;
        }
        WaitsNext(waited, initial, max, script);
        i := i + 1;
      }
      EmittedEnd(cancelled, script[i..]);
      TraceEnd(trace, cancelled, script[i..], Emitted(cancelledAtStart, script));
      Emit(Stopped);
      AllWaits(waits, initial, max, cancelledAtStart, script);
    }
  }
}
