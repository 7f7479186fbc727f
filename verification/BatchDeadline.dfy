/** The deadline of a batch latency test. Probes are handed in order, over an unbuffered channel,
    to a pool of workers; the batch context expires after 5 s plus ceil(n / W) probe timeouts. */
module BatchDeadline {
  import opened Finite

  const SECOND := 1_000_000_000
  const STARTUP_ALLOWANCE := 5 * SECOND
  const DEFAULT_BATCH_TEST_CONCURRENCY := 32

  function WorkerCount(n: nat): nat {
    if n < DEFAULT_BATCH_TEST_CONCURRENCY then n else DEFAULT_BATCH_TEST_CONCURRENCY
  }

  function Rounds(n: nat, w: nat): nat
    requires w > 0
  {
    (n + w - 1) / w
  }

  function BatchTimeout(n: nat, timeout: nat): nat
    requires n > 0
  {
    STARTUP_ALLOWANCE + timeout * Rounds(n, WorkerCount(n))
  }

  // ---------- one probe ----------

  /** One race over delay URLs: whether some URL answered, and how long the race took. */
  datatype Race = Race(answered: bool, elapsed: nat)

  /** The budgets handed to the primary and to the fallback race. */
  function PrimaryBudget(urls: nat, timeout: nat): nat {
    if urls == 1 then timeout else timeout / 2
  }

  function FallbackBudget(timeout: nat): nat {
    timeout - timeout / 2
  }

  /** The time one probe takes: the fallback race runs only when the primary failed and the
      context is still live. */
  function ProbeElapsed(urls: nat, primary: Race, fallback: Race, cancelled: bool): nat {
    if urls == 0 then 0
    else if urls == 1 || primary.answered || cancelled then primary.elapsed
    else primary.elapsed + fallback.elapsed
  }

  /** Races that keep their own budgets make a probe that keeps the whole timeout. */
  lemma ProbeWithinTimeout(urls: nat, timeout: nat, primary: Race, fallback: Race, cancelled: bool)
    requires primary.elapsed <= PrimaryBudget(urls, timeout)
    requires fallback.elapsed <= FallbackBudget(timeout)
    ensures ProbeElapsed(urls, primary, fallback, cancelled) <= timeout
    ensures urls >= 2 ==> PrimaryBudget(urls, timeout) + FallbackBudget(timeout) == timeout
  {
  }

  // ---------- the worker pool as a timed system ----------

  datatype Slot = Idle | Busy(job: nat, since: nat)

  /** Time since dispatch, the first job not yet handed out, and what each worker is doing. */
  datatype Pool = Pool(clock: nat, next: nat, slots: seq<Slot>)

  datatype Event = Assign(w: nat) | Complete(w: nat) | Pass(delta: nat)

  function Start(w: nat): Pool {
    Pool(0, 0, seq(w, _ => Idle))
  }

  /** A job waits although a worker is free. */
  predicate Waiting(n: nat, p: Pool) {
    p.next < n && exists w :: 0 <= w < |p.slots| && p.slots[w].Idle?
  }

  /** Time passes only when no free worker could take a waiting job, and never beyond the
      timeout of a running probe. */
  predicate MayPass(n: nat, timeout: nat, p: Pool, delta: nat) {
    && !Waiting(n, p)
    && forall w :: 0 <= w < |p.slots| && p.slots[w].Busy? ==> p.clock + delta <= p.slots[w].since + timeout
  }

  /** Which free worker takes the next job, how long a probe takes up to the timeout, and how
      events interleave are all open; events that are not enabled change nothing. */
  function Step(n: nat, timeout: nat, p: Pool, e: Event): Pool {
    match e
    case Assign(w) =>
      if w < |p.slots| && p.slots[w].Idle? && p.next < n
      then p.(next := p.next + 1, slots := p.slots[w := Busy(p.next, p.clock)]) else p
    case Complete(w) =>
      if w < |p.slots| then p.(slots := p.slots[w := Idle]) else p
    case Pass(delta) =>
      if MayPass(n, timeout, p, delta) then p.(clock := p.clock + delta) else p
  }

  function Run(n: nat, timeout: nat, es: seq<Event>): Pool {
    if es == [] then Start(WorkerCount(n))
    else Step(n, timeout, Run(n, timeout, es[..|es| - 1]), es[|es| - 1])
  }

  predicate Unfinished(n: nat, p: Pool) {
    p.next < n || exists w :: 0 <= w < |p.slots| && p.slots[w].Busy?
  }

  ghost predicate Inv(n: nat, timeout: nat, w: nat, p: Pool)
    requires w > 0
  {
    && |p.slots| == w && p.next <= n
    && (p.next < n ==> p.clock <= p.next / w * timeout)
    && (forall v :: 0 <= v < w && p.slots[v].Busy? ==>
          var s := p.slots[v];
          s.job < p.next && s.since <= s.job / w * timeout && p.clock <= s.since + timeout)
    && (forall u, v :: 0 <= u < v < w && p.slots[u].Busy? && p.slots[v].Busy? ==> p.slots[u].job != p.slots[v].job)
  }

  lemma DivMonotone(i: nat, j: nat, w: nat)
    requires w > 0 && i <= j
    ensures i / w <= j / w
  {
    if i / w > j / w {
      MulMonotone(j / w + 1, i / w, w);
      assert false;
    }
  }

  lemma MulMonotone(a: nat, b: nat, c: nat)
    requires a <= b
    ensures a * c <= b * c
  {
  }

  lemma QuotientAtMost(q: nat, r: nat, w: nat)
    requires q * w < r * w + w
    ensures q <= r
  {
    if q > r {
      MulMonotone(r + 1, q, w);
    }
  }

  lemma DivPlus(x: nat, w: nat)
    requires w > 0
    ensures (x + w) / w == x / w + 1
  {
    var q, r := (x + w) / w, x / w;
    assert (r + 1) * w == r * w + w;
    QuotientAtMost(q, r + 1, w);
    QuotientAtMost(r + 1, q, w);
  }

  lemma RoundMonotone(i: nat, j: nat, w: nat, timeout: nat)
    requires w > 0 && i <= j
    ensures i / w * timeout <= j / w * timeout
  {
    DivMonotone(i, j, w);
    MulMonotone(i / w, j / w, timeout);
  }

  lemma RoundNext(job: nat, w: nat, timeout: nat)
    requires w > 0
    ensures job / w * timeout + timeout == (job + w) / w * timeout
  {
    DivPlus(job, w);
    assert (job / w + 1) * timeout == job / w * timeout + timeout;
  }

  /** When all W workers hold distinct jobs below `next`, one of them is at least W behind. */
  lemma OldestJob(slots: seq<Slot>, next: nat) returns (v: nat)
    requires |slots| > 0
    requires forall u :: 0 <= u < |slots| ==> slots[u].Busy? && slots[u].job < next
    requires forall u, x :: 0 <= u < x < |slots| ==> slots[u].job != slots[x].job
    ensures v < |slots| && slots[v].job + |slots| <= next
  {
    var jobs := seq(|slots|, u requires 0 <= u < |slots| => slots[u].job);
    if forall u :: 0 <= u < |slots| ==> slots[u].job + |slots| > next {
      assert jobs[0] + |slots| > next;
      Pigeonhole(jobs, if next + 1 < |slots| then 0 else next + 1 - |slots|, next);
      assert false;
    }
    v :| v < |slots| && slots[v].job + |slots| <= next;
  }

  lemma StepKeepsInv(n: nat, timeout: nat, w: nat, p: Pool, e: Event)
    requires w > 0 && Inv(n, timeout, w, p)
    ensures Inv(n, timeout, w, Step(n, timeout, p, e))
  {
    match e
    case Assign(v) =>
      RoundMonotone(p.next, p.next + 1, w, timeout);
    case Complete(v) =>
    case Pass(delta) =>
      if MayPass(n, timeout, p, delta) && p.next < n {
        FullPoolBound(n, timeout, w, p, delta);
      }
  }

  /** While a job waits, time can only pass up to the start of the next round. */
  lemma FullPoolBound(n: nat, timeout: nat, w: nat, p: Pool, delta: nat)
    requires w > 0 && Inv(n, timeout, w, p)
    requires MayPass(n, timeout, p, delta) && p.next < n
    ensures p.clock + delta <= p.next / w * timeout
  {
    assert forall v :: 0 <= v < w ==> p.slots[v].Busy?;
    var v := OldestJob(p.slots, p.next);
    var s := p.slots[v];
    calc <= {
      p.clock + delta;
      s.since + timeout;
      s.job / w * timeout + timeout;
      { RoundNext(s.job, w, timeout); }
      (s.job + w) / w * timeout;
      { RoundMonotone(s.job + w, p.next, w, timeout); }
      p.next / w * timeout;
    }
  }

  lemma {:induction false} RunKeepsInv(n: nat, timeout: nat, es: seq<Event>)
    requires n > 0
    ensures Inv(n, timeout, WorkerCount(n), Run(n, timeout, es))
  {
    if es != [] {
      RunKeepsInv(n, timeout, es[..|es| - 1]);
      StepKeepsInv(n, timeout, WorkerCount(n), Run(n, timeout, es[..|es| - 1]), es[|es| - 1]);
    }
  }

  lemma JobRound(job: nat, n: nat, w: nat, timeout: nat)
    requires w > 0 && job < n
    ensures job / w * timeout + timeout <= Rounds(n, w) * timeout
  {
    RoundNext(job, w, timeout);
    RoundMonotone(job + w, n + w - 1, w, timeout);
  }

  /** The scheduling bound: in every schedule, as long as some probe is unfinished, at most
      ceil(n / W) timeouts have passed since dispatch. */
  lemma ScheduleBound(n: nat, timeout: nat, es: seq<Event>)
    requires n > 0
    requires Unfinished(n, Run(n, timeout, es))
    ensures Run(n, timeout, es).clock <= Rounds(n, WorkerCount(n)) * timeout
  {
    var w := WorkerCount(n);
    var p := Run(n, timeout, es);
    RunKeepsInv(n, timeout, es);
    if p.next < n {
      JobRound(p.next, n, w, timeout);
    } else {
      var v :| 0 <= v < |p.slots| && p.slots[v].Busy?;
      JobRound(p.slots[v].job, n, w, timeout);
    }
  }

  // ---------- the bound is attained ----------

  ghost predicate Reachable(n: nat, timeout: nat, p: Pool) {
    exists es :: Run(n, timeout, es) == p
  }

  lemma StepReachable(n: nat, timeout: nat, p: Pool, e: Event)
    requires Reachable(n, timeout, p)
    ensures Reachable(n, timeout, Step(n, timeout, p, e))
  {
    var es :| Run(n, timeout, es) == p;
    assert (es + [e])[..|es|] == es;
    assert Run(n, timeout, es + [e]) == Step(n, timeout, p, e);
  }

  function Holding(w: nat, first: nat, count: nat, since: nat): seq<Slot> {
    seq(w, i => if 0 <= i < count then Busy(first + i, since) else Idle)
  }

  lemma AssignHolds(n: nat, timeout: nat, w: nat, clock: nat, first: nat, count: nat)
    requires count < w && first + count < n
    ensures Step(n, timeout, Pool(clock, first + count, Holding(w, first, count, clock)), Assign(count))
         == Pool(clock, first + count + 1, Holding(w, first, count + 1, clock))
  {
    assert Holding(w, first, count, clock)[count := Busy(first + count, clock)] == Holding(w, first, count + 1, clock);
  }

  /** Hand out `count` jobs to the first `count` workers. */
  lemma {:induction false} FillReachable(n: nat, timeout: nat, w: nat, clock: nat, first: nat, count: nat)
    requires count <= w && first + count <= n
    requires Reachable(n, timeout, Pool(clock, first, Holding(w, first, 0, clock)))
    ensures Reachable(n, timeout, Pool(clock, first + count, Holding(w, first, count, clock)))
  {
    hide Reachable, Holding, Step;
    if count > 0 {
      FillReachable(n, timeout, w, clock, first, count - 1);
      StepReachable(n, timeout, Pool(clock, first + count - 1, Holding(w, first, count - 1, clock)), Assign(count - 1));
      AssignHolds(n, timeout, w, clock, first, count - 1);
    }
  }

  /** All probes of a round end, last worker first. */
  lemma {:induction false} DrainReachable(n: nat, timeout: nat, w: nat, p: Pool, first: nat, count: nat, since: nat)
    requires count <= w && p.slots == Holding(w, first, count, since)
    requires Reachable(n, timeout, p)
    ensures Reachable(n, timeout, p.(slots := Holding(w, p.next, 0, p.clock)))
    decreases count
  {
    if count == 0 {
      assert Holding(w, first, 0, since) == Holding(w, p.next, 0, p.clock);
      assert p.(slots := Holding(w, p.next, 0, p.clock)) == p;
    } else {
      StepReachable(n, timeout, p, Complete(count - 1));
      assert p.slots[count - 1 := Idle] == Holding(w, first, count - 1, since);
      DrainReachable(n, timeout, w, p.(slots := Holding(w, first, count - 1, since)), first, count - 1, since);
    }
  }

  /** A full round of probes that all take the whole timeout. */
  lemma FullRound(n: nat, timeout: nat, w: nat, clock: nat, first: nat, count: nat)
    requires 0 < count <= w && first + count <= n && (count == w || first + count == n)
    requires Reachable(n, timeout, Pool(clock, first, Holding(w, first, 0, clock)))
    ensures Reachable(n, timeout, Pool(clock + timeout, first + count, Holding(w, first, count, clock)))
  {
    FillReachable(n, timeout, w, clock, first, count);
    StepReachable(n, timeout, Pool(clock, first + count, Holding(w, first, count, clock)), Pass(timeout));
  }

  lemma {:induction false} RoundsReachable(n: nat, timeout: nat, q: nat)
    requires n > 0 && q * WorkerCount(n) <= n
    ensures Reachable(n, timeout, Pool(q * timeout, q * WorkerCount(n),
                                       Holding(WorkerCount(n), q * WorkerCount(n), 0, q * timeout)))
  {
    var w := WorkerCount(n);
    if q == 0 {
      assert Run(n, timeout, []) == Start(w);
      assert Start(w).slots == Holding(w, 0, 0, 0);
    } else {
      assert (q - 1) * w + w == q * w;
      assert (q - 1) * timeout + timeout == q * timeout;
      RoundsReachable(n, timeout, q - 1);
      FullRound(n, timeout, w, (q - 1) * timeout, (q - 1) * w, w);
      DrainReachable(n, timeout, w, Pool(q * timeout, q * w, Holding(w, (q - 1) * w, w, (q - 1) * timeout)),
                     (q - 1) * w, w, (q - 1) * timeout);
    }
  }

  /** The last round, full or not, can still be running a whole timeout after it started. */
  lemma LastRound(n: nat, timeout: nat, q: nat)
    requires n > 0 && q == (n - 1) / WorkerCount(n)
    ensures var w := WorkerCount(n);
      && q * w < n <= q * w + w
      && Reachable(n, timeout, Pool(q * timeout + timeout, n, Holding(w, q * w, n - q * w, q * timeout)))
  {
    var w := WorkerCount(n);
    assert q * w <= n - 1 < q * w + w;
    RoundsReachable(n, timeout, q);
    FullRound(n, timeout, w, q * timeout, q * w, n - q * w);
  }

  /** Some schedule keeps a probe running until exactly ceil(n / W) timeouts after dispatch. */
  lemma BoundAttained(n: nat, timeout: nat) returns (es: seq<Event>)
    requires n > 0
    ensures Unfinished(n, Run(n, timeout, es))
    ensures Run(n, timeout, es).clock == Rounds(n, WorkerCount(n)) * timeout
  {
    hide Run, Rounds;
    var w := WorkerCount(n);
    var q := (n - 1) / w;
    LastRound(n, timeout, q);
    assert Rounds(n, w) == q + 1 by { RoundsIs(n, w); }
    var p := Pool(q * timeout + timeout, n, Holding(w, q * w, n - q * w, q * timeout));
    assert p.slots[0].Busy?;
    es :| Run(n, timeout, es) == p;
    assert (q + 1) * timeout == q * timeout + timeout;
  }

  lemma RoundsIs(n: nat, w: nat)
    requires n > 0 && w > 0
    ensures Rounds(n, w) == (n - 1) / w + 1
  {
    DivPlus(n - 1, w);
  }

  // ---------- the batch context ----------

  /** No probe is still running when the batch context expires, whatever the schedule, exactly
      when starting the core took no longer than the 5 s allowance. */
  lemma DeadlineSufficesIff(n: nat, timeout: nat, startup: nat)
    requires n > 0
    ensures (forall es :: Unfinished(n, Run(n, timeout, es)) ==>
             startup + Run(n, timeout, es).clock <= BatchTimeout(n, timeout))
       <==> startup <= STARTUP_ALLOWANCE
  {
    if startup <= STARTUP_ALLOWANCE {
      forall es | Unfinished(n, Run(n, timeout, es))
        ensures startup + Run(n, timeout, es).clock <= BatchTimeout(n, timeout)
      {
        ScheduleBound(n, timeout, es);
      }
    } else {
      var es := BoundAttained(n, timeout);
      assert startup + Run(n, timeout, es).clock > BatchTimeout(n, timeout);
    }
  }
}
