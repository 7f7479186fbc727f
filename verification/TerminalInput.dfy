/** Terminal keystrokes on their way to the remote PTY: a single-flight queue in the browser, one
    batch call at a time, a per-session write lock shared with other callers, and partial writes.
    Keystrokes are delivered in order, none is left waiting, and calls never interleave. */
module TerminalInput {
  import opened ByteChunks
  import opened Wrappers

  // ---------- the browser side ----------

  /** Where the batch of a flush is: waiting for the write lock, being written, answered, or the
      flush has left its loop and only its finally handler is due. */
  datatype Task = Blocked(batch: seq<Bytes>) | Writing(batch: seq<Bytes>, written: nat) | Replied(ok: bool) | Finishing

  /** The closure variables, and the flushes (asynchronous tasks) it has started. */
  datatype Front = Front(queue: seq<Bytes>, flushing: bool, disposed: bool, tasks: map<nat, Task>, next: nat)

  /** The loop head of a flush: take the whole queue as a batch, or leave the loop. */
  function LoopHead(f: Front, id: nat): Front {
    if !f.disposed && f.queue != []
    then f.(queue := [], tasks := f.tasks[id := Blocked(f.queue)])
    else f.(tasks := f.tasks[id := Finishing])
  }

  function Flush(f: Front): Front {
    if f.flushing || f.disposed then f
    else LoopHead(f.(flushing := true, next := f.next + 1), f.next)
  }

  function Enqueue(f: Front, payload: Bytes): Front {
    if payload == [] || f.disposed then f else Flush(f.(queue := f.queue + [payload]))
  }

  /** The awaited call returns: go round the loop again, or drop the queue and leave. */
  function Settle(f: Front, id: nat): Front {
    if id in f.tasks && f.tasks[id].Replied? then
      if f.tasks[id].ok then LoopHead(f, id)
      else f.(queue := [], tasks := f.tasks[id := Finishing])
    else f
  }

  function Finally(f: Front, id: nat): Front {
    if id in f.tasks && f.tasks[id].Finishing? then
      var g := f.(tasks := f.tasks - {id}, flushing := false);
      if !g.disposed && g.queue != [] then Flush(g) else g
    else f
  }

  function Dispose(f: Front): Front {
    f.(disposed := true, queue := [])
  }

  /** The closure of the terminal component, updated in place by its handlers. */
  class InputClosure {
    var inputQueue: seq<Bytes>
    var flushingInput: bool
    var disposed: bool
    var tasks: map<nat, Task>
    var nextTask: nat

    constructor ()
      ensures View() == Front([], false, false, map[], 0)
    {
      inputQueue, flushingInput, disposed, tasks, nextTask := [], false, false, map[], 0;
    }

    ghost function View(): Front
      reads this
    {
      Front(inputQueue, flushingInput, disposed, tasks, nextTask)
    }

    method TakeBatch(id: nat)
      modifies this
      ensures View() == LoopHead(old(View()), id)
    {
      if !disposed && |inputQueue| > 0 {
        var batch := inputQueue;
        inputQueue := [];
        tasks := tasks[id := Blocked(batch)];
      } else {
        tasks := tasks[id := Finishing];
      }
    }

    method FlushInputQueue()
      modifies this
      ensures View() == Flush(old(View()))
    {
      if flushingInput || disposed {
        return;
      }
      flushingInput := true;
      var id := nextTask;
      nextTask := nextTask + 1;
      TakeBatch(id);
    }

    method QueueTerminalInput(payload: Bytes)
      modifies this
      ensures View() == Enqueue(old(View()), payload)
    {
      if payload == [] || disposed {
        return;
      }
      inputQueue := inputQueue + [payload];
      FlushInputQueue();
    }

    method OnReply(id: nat)
      modifies this
      ensures View() == Settle(old(View()), id)
    {
      if id in tasks && tasks[id].Replied? {
        if tasks[id].ok {
          TakeBatch(id);
        } else {
          inputQueue := [];
          tasks := tasks[id := Finishing];
        }
      }
    }

    method OnFinally(id: nat)
      modifies this
      ensures View() == Finally(old(View()), id)
    {
      if id in tasks && tasks[id].Finishing? {
        tasks := tasks - {id};
        flushingInput := false;
        if !disposed && |inputQueue| > 0 {
          FlushInputQueue();
        }
      }
    }

    method OnDispose()
      modifies this
      ensures View() == Dispose(old(View()))
    {
      disposed := true;
      inputQueue := [];
    }
  }

  // ---------- the session side: one call's writes ----------

  /** The PTY accepts some bytes of each write and may fail; the script decides. */
  datatype WriteOutcome = Accepts(n: nat) | Breaks

  datatype WriteError = NoError | WriteFailed | ShortWrite | SessionNotFound | DecodeFailed

  class Pty {
    var received: Bytes
    var script: seq<WriteOutcome>

    constructor (script: seq<WriteOutcome>)
      ensures received == [] && this.script == script
    {
      received, this.script := [], script;
    }

    method Write(data: Bytes) returns (n: nat, failed: bool)
      requires data != []
      modifies this
      ensures n <= |data| && received == old(received) + data[..n]
    {
      if script == [] {
        received := received + data;
        return |data|, false;
      }
      var o := script[0];
      script := script[1..];
      match o
      case Breaks =>
        return 0, true;
      case Accepts(k) =>
        n := if k <= |data| then k else |data|;
        received := received + data[..n];
        return n, false;
    }
  }

  /** Write until everything is accepted; on an error a prefix has been written. */
  method WriteAll(pty: Pty, data: Bytes) returns (err: WriteError, ghost done: nat)
    modifies pty
    ensures done <= |data| && pty.received == old(pty.received) + data[..done]
    ensures err.NoError? ==> done == |data|
    ensures err in {NoError, WriteFailed, ShortWrite}
  {
    var rest := data;
    done := 0;
    while |rest| > 0
      invariant done <= |data| && rest == data[done..]
      invariant pty.received == old(pty.received) + data[..done]
      decreases |rest|
    {
      var n, failed := pty.Write(rest);
      assert data[..done + n] == data[..done] + rest[..n];
      rest, done := rest[n..], done + n;
      if failed {
        return WriteFailed, done;
      }
      if n == 0 {
        return ShortWrite, done;
      }
    }
    return NoError, done;
  }

  /** One locked call writes its chunks in order; on an error a prefix of their concatenation. */
  method WriteChunks(sessions: map<string, Pty>, id: string, chunks: seq<Bytes>)
    returns (err: WriteError, ghost done: nat)
    modifies if id in sessions then {sessions[id]} else {}
    ensures err.SessionNotFound? <==> id !in sessions
    ensures id in sessions ==> done <= |Flatten(chunks)|
    ensures id in sessions ==> sessions[id].received == old(sessions[id].received) + Flatten(chunks)[..done]
    ensures err.NoError? ==> done == |Flatten(chunks)|
  {
    done := 0;
    if id !in sessions {
      return SessionNotFound, 0;
    }
    var pty := sessions[id];
    assert chunks[..0] == [];
    for i := 0 to |chunks|
      invariant pty.received == old(pty.received) + Flatten(chunks[..i])
    {
      assert chunks == chunks[..i] + ([chunks[i]] + chunks[i + 1..]);
      FlattenAppend(chunks[..i], [chunks[i]] + chunks[i + 1..]);
      FlattenAppend([chunks[i]], chunks[i + 1..]);
      FlattenOne(chunks[i]);
      var e, k := WriteAll(pty, chunks[i]);
      if !e.NoError? {
        done := |Flatten(chunks[..i])| + k;
        assert Flatten(chunks)[..done] == Flatten(chunks[..i]) + chunks[i][..k];
        return e, done;
      }
      assert chunks[..i + 1] == chunks[..i] + [chunks[i]];
      FlattenAppend(chunks[..i], [chunks[i]]);
    }
    assert chunks[..|chunks|] == chunks;
    return NoError, |Flatten(chunks)|;
  }

  // ---------- the whole path as a system of interleaved steps ----------

  datatype Lock = Free | HeldByFlush(id: nat) | HeldByOther(data: Bytes, written: nat)

  /** One finished call, in lock order, with the bytes it wrote. */
  datatype Entry = Entry(fromTerminal: bool, bytes: Bytes)

  /** `typed` is everything accepted from the keyboard, `pty` everything the PTY received,
      `others` the calls of other callers waiting for the lock. */
  datatype State = State(typed: Bytes, front: Front, lock: Lock, others: seq<Bytes>, log: seq<Entry>, pty: Bytes,
                         failed: bool)

  datatype Event =
    | Type(payload: Bytes) | Close | OtherCall(data: Bytes)
    | Acquire(id: nat) | Write(n: nat) | Complete | Fail(id: nat) | Answer(id: nat) | Cleanup(id: nat)
    | OtherAcquire(i: nat) | OtherFail

  function Start(): State {
    State([], Front([], false, false, map[], 0), Free, [], [], [], false)
  }

  ghost function TaskBytes(t: Task): Bytes
    requires t.Blocked? || t.Writing?
  {
    Flatten(t.batch)
  }

  ghost function SetTask(s: State, id: nat, t: Task): State {
    s.(front := s.front.(tasks := s.front.tasks[id := t]))
  }

  /** Events that are not enabled change nothing. */
  ghost function Step(s: State, e: Event): State {
    match e
    case Type(p) =>
      if s.front.disposed then s else s.(typed := s.typed + p, front := Enqueue(s.front, p))
    case Close => s.(front := Dispose(s.front))
    case OtherCall(data) => s.(others := s.others + [data])
    case Acquire(id) =>
      if id in s.front.tasks && s.front.tasks[id].Blocked? && s.lock.Free?
      then SetTask(s, id, Writing(s.front.tasks[id].batch, 0)).(lock := HeldByFlush(id)) else s
    case Write(n) => WriteStep(s, n)
    case Complete => CompleteStep(s)
    case Fail(id) =>
      if id in s.front.tasks && s.front.tasks[id].Blocked? then SetTask(s, id, Replied(false)).(failed := true)
      else if s.lock == HeldByFlush(id) && id in s.front.tasks && s.front.tasks[id].Writing? then
        var t := s.front.tasks[id];
        if t.written <= |TaskBytes(t)|
        then SetTask(s, id, Replied(false)).(
               lock := Free, failed := true, log := s.log + [Entry(true, TaskBytes(t)[..t.written])])
        else s
      else s
    case Answer(id) => s.(front := Settle(s.front, id))
    case Cleanup(id) => s.(front := Finally(s.front, id))
    case OtherAcquire(i) =>
      if i < |s.others| && s.lock.Free?
      then s.(lock := HeldByOther(s.others[i], 0), others := s.others[..i] + s.others[i + 1..]) else s
    case OtherFail =>
      if s.lock.HeldByOther? && s.lock.written <= |s.lock.data|
      then s.(lock := Free, log := s.log + [Entry(false, s.lock.data[..s.lock.written])]) else s
  }

  /** The lock holder's PTY accepts n more bytes. */
  ghost function WriteStep(s: State, n: nat): State {
    match s.lock
    case Free => s
    case HeldByOther(data, written) =>
      if 0 < n && written + n <= |data|
      then s.(lock := HeldByOther(data, written + n), pty := s.pty + data[written..written + n]) else s
    case HeldByFlush(id) =>
      if id in s.front.tasks && s.front.tasks[id].Writing? then
        var t := s.front.tasks[id];
        if 0 < n && t.written + n <= |TaskBytes(t)|
        then SetTask(s, id, t.(written := t.written + n)).(pty := s.pty + TaskBytes(t)[t.written..t.written + n]) else s
      else s
  }

  /** The lock holder has written everything and returns. */
  ghost function CompleteStep(s: State): State {
    match s.lock
    case Free => s
    case HeldByOther(data, written) =>
      if written == |data| then s.(lock := Free, log := s.log + [Entry(false, data)]) else s
    case HeldByFlush(id) =>
      if id in s.front.tasks && s.front.tasks[id].Writing?
        && s.front.tasks[id].written == |TaskBytes(s.front.tasks[id])|
      then SetTask(s, id, Replied(true)).(lock := Free, log := s.log + [Entry(true, TaskBytes(s.front.tasks[id]))])
      else s
  }

  ghost function Run(es: seq<Event>): State {
    if es == [] then Start() else Step(Run(es[..|es| - 1]), es[|es| - 1])
  }

  // ---------- what the state means ----------

  ghost function LogBytes(log: seq<Entry>): Bytes {
    if log == [] then [] else LogBytes(log[..|log| - 1]) + log[|log| - 1].bytes
  }

  ghost function TerminalBytes(log: seq<Entry>): Bytes {
    if log == [] then []
    else TerminalBytes(log[..|log| - 1]) + if log[|log| - 1].fromTerminal then log[|log| - 1].bytes else []
  }

  lemma LogPush(log: seq<Entry>, e: Entry)
    ensures LogBytes(log + [e]) == LogBytes(log) + e.bytes
    ensures TerminalBytes(log + [e]) == TerminalBytes(log) + if e.fromTerminal then e.bytes else []
  {
    assert (log + [e])[..|log|] == log;
  }

  /** The flush in progress, if any. */
  ghost function Current(f: Front): Task {
    if f.next > 0 && f.next - 1 in f.tasks then f.tasks[f.next - 1] else Finishing
  }

  ghost function CurrentWritten(f: Front): Bytes {
    var t := Current(f);
    if t.Writing? && t.written <= |TaskBytes(t)| then TaskBytes(t)[..t.written] else []
  }

  ghost function InFlight(f: Front): Bytes {
    var t := Current(f);
    if t.Blocked? then TaskBytes(t)
    else if t.Writing? && t.written <= |TaskBytes(t)| then TaskBytes(t)[t.written..]
    else []
  }

  /** What the PTY has received from this terminal. */
  ghost function Delivered(s: State): Bytes {
    TerminalBytes(s.log) + CurrentWritten(s.front)
  }

  /** Accepted from the keyboard but not yet written. */
  ghost function Backlog(f: Front): Bytes {
    InFlight(f) + Flatten(f.queue)
  }

  ghost function Pipeline(s: State): Bytes {
    Delivered(s) + Backlog(s.front)
  }

  ghost function HeldBytes(s: State): Bytes {
    match s.lock
    case Free => []
    case HeldByOther(data, written) => if written <= |data| then data[..written] else []
    case HeldByFlush(_) => CurrentWritten(s.front)
  }

  /** `a` can be obtained from `b` by leaving elements out. */
  ghost predicate Subsequence(a: Bytes, b: Bytes) {
    a == [] || (b != [] && ((a[0] == b[0] && Subsequence(a[1..], b[1..])) || Subsequence(a, b[1..])))
  }

  ghost predicate FrontInv(f: Front) {
    && (f.flushing ==> f.next > 0 && f.tasks.Keys == {f.next - 1})
    && (!f.flushing ==> f.tasks == map[])
    && (f.queue != [] ==> f.flushing)
    && (f.disposed ==> f.queue == [])
    && (Current(f).Writing? ==> Current(f).written <= |TaskBytes(Current(f))|)
  }

  ghost predicate LockInv(s: State) {
    && (s.lock.HeldByFlush? <==> Current(s.front).Writing?)
    && (s.lock.HeldByFlush? ==> s.lock.id == s.front.next - 1)
    && (s.lock.HeldByOther? ==> s.lock.written <= |s.lock.data|)
  }

  /** Single flight; no wakeup lost; the PTY is the concatenation of the calls in lock order, with
      at most the current holder's prefix at its end; and nothing typed is lost, duplicated or
      reordered while no write failed and the terminal is open. */
  ghost predicate Inv(s: State) {
    && FrontInv(s.front) && LockInv(s)
    && (Current(s.front) == Replied(false) ==> s.failed)
    && s.pty == LogBytes(s.log) + HeldBytes(s)
    && Subsequence(Pipeline(s), s.typed)
    && (!s.failed && !s.front.disposed ==> Pipeline(s) == s.typed)
  }

  // ---------- subsequences ----------

  lemma {:induction false} SubsequenceRefl(a: Bytes)
    ensures Subsequence(a, a)
  {
    if a != [] {
      SubsequenceRefl(a[1..]);
    }
  }

  lemma {:induction false} SubsequenceSkip(a: Bytes, b: Bytes, skipped: Bytes)
    requires Subsequence(a, b)
    ensures Subsequence(a, skipped + b)
  {
    if skipped == [] {
      assert skipped + b == b;
    } else {
      SubsequenceSkip(a, b, skipped[1..]);
      assert (skipped + b)[1..] == skipped[1..] + b;
    }
  }

  lemma {:induction false} SubsequenceAppend(a: Bytes, b: Bytes, c: Bytes)
    requires Subsequence(a, b)
    ensures Subsequence(a + c, b + c)
  {
    if a == [] {
      SubsequenceRefl(c);
      SubsequenceSkip(c, c, b);
      assert a + c == c;
    } else {
      assert (b + c)[1..] == b[1..] + c && (a + c)[1..] == a[1..] + c;
      if a[0] == b[0] && Subsequence(a[1..], b[1..]) {
        SubsequenceAppend(a[1..], b[1..], c);
      } else {
        SubsequenceAppend(a, b[1..], c);
      }
    }
  }

  lemma {:induction false} SubsequencePrepend(a: Bytes, b: Bytes, c: Bytes)
    requires Subsequence(a, b)
    ensures Subsequence(c + a, c + b)
  {
    if c == [] {
      assert c + a == a && c + b == b;
    } else {
      SubsequencePrepend(a, b, c[1..]);
      assert (c + a)[1..] == c[1..] + a && (c + b)[1..] == c[1..] + b;
    }
  }

  lemma {:induction false} SubsequenceTrans(a: Bytes, b: Bytes, c: Bytes)
    requires Subsequence(a, b) && Subsequence(b, c)
    ensures Subsequence(a, c)
    decreases |b| + |c|
  {
    if a != [] {
      if b[0] == c[0] && Subsequence(b[1..], c[1..]) {
        if a[0] == b[0] && Subsequence(a[1..], b[1..]) {
          SubsequenceTrans(a[1..], b[1..], c[1..]);
        } else {
          SubsequenceTrans(a, b[1..], c[1..]);
        }
      } else {
        SubsequenceTrans(a, b, c[1..]);
      }
    }
  }

  /** Discarding part of the backlog keeps the pipeline a subsequence of what was typed. */
  lemma DropFromBacklog(delivered: Bytes, backlog: Bytes, kept: Bytes, typed: Bytes)
    requires Subsequence(delivered + backlog, typed)
    requires kept <= backlog || (|kept| <= |backlog| && kept == backlog[|backlog| - |kept|..])
    ensures Subsequence(delivered + kept, typed)
  {
    SubsequenceRefl(kept);
    if kept <= backlog {
      var dropped := backlog[|kept|..];
      SubsequenceSkip([], [], dropped);
      assert dropped + [] == dropped;
      SubsequencePrepend([], dropped, kept);
      assert kept + [] == kept && kept + dropped == backlog;
    } else {
      SubsequenceSkip(kept, kept, backlog[..|backlog| - |kept|]);
      assert backlog[..|backlog| - |kept|] + kept == backlog;
    }
    SubsequencePrepend(kept, backlog, delivered);
    SubsequenceTrans(delivered + kept, delivered + backlog, typed);
  }

  // ---------- each handler keeps the invariant ----------

  /** What a browser handler may do to the flush in progress: nothing to a write under way. */
  ghost predicate SameWrite(f: Front, g: Front) {
    && CurrentWritten(f) == CurrentWritten(g)
    && (Current(f).Writing? <==> Current(g).Writing?)
    && (Current(f).Writing? ==> f.next == g.next)
  }

  lemma FlushFacts(f: Front)
    requires !f.flushing && f.tasks == map[] && (f.disposed ==> f.queue == [])
    ensures FrontInv(Flush(f)) && SameWrite(f, Flush(f))
    ensures Backlog(Flush(f)) == Backlog(f)
    ensures Current(Flush(f)) != Replied(false)
  {
    assert Current(f) == Finishing;
    if !f.disposed && f.queue != [] {
      assert Flush(f).tasks == map[f.next := Blocked(f.queue)];
      assert Flatten(f.queue) + [] == Flatten(f.queue);
    }
  }

  lemma EnqueueFacts(f: Front, p: Bytes)
    requires FrontInv(f) && !f.disposed
    ensures FrontInv(Enqueue(f, p)) && SameWrite(f, Enqueue(f, p)) && !Enqueue(f, p).disposed
    ensures Backlog(Enqueue(f, p)) == Backlog(f) + p
    ensures Current(Enqueue(f, p)) == Replied(false) ==> Current(f) == Replied(false)
  {
    if p != [] {
      FlattenAppend(f.queue, [p]);
      FlattenOne(p);
      if !f.flushing {
        FlushFacts(f.(queue := f.queue + [p]));
      }
    }
  }

  lemma SettleFacts(f: Front, id: nat)
    requires FrontInv(f)
    ensures var g := Settle(f, id);
      && FrontInv(g) && SameWrite(f, g) && g.disposed == f.disposed
      && (Backlog(g) == Backlog(f) || (Current(f) == Replied(false) && Backlog(g) == []))
      && (Current(g) == Replied(false) ==> Current(f) == Replied(false))
  {
    var g := Settle(f, id);
    if id in f.tasks && f.tasks[id].Replied? {
      assert id == f.next - 1 && g.tasks.Keys == {id};
      if f.tasks[id].ok && f.queue != [] {
        assert Flatten(f.queue) + [] == Flatten(f.queue);
      }
    }
  }

  lemma FinallyFacts(f: Front, id: nat)
    requires FrontInv(f)
    ensures var g := Finally(f, id);
      && FrontInv(g) && SameWrite(f, g) && g.disposed == f.disposed && Backlog(g) == Backlog(f)
      && (Current(g) == Replied(false) ==> Current(f) == Replied(false))
  {
    if id in f.tasks && f.tasks[id].Finishing? {
      var g := f.(tasks := f.tasks - {id}, flushing := false);
      assert g.tasks == map[];
      FlushFacts(g);
    }
  }

  /** A browser handler that leaves the pipeline as it is, or extends it by what was typed. */
  lemma FrontStepKeepsInv(s: State, typed: Bytes, g: Front)
    requires Inv(s) && FrontInv(g) && SameWrite(s.front, g)
    requires Backlog(g) == Backlog(s.front) + typed
    requires Current(g) == Replied(false) ==> Current(s.front) == Replied(false)
    requires g.disposed == s.front.disposed
    ensures Inv(s.(typed := s.typed + typed, front := g))
  {
    hide Subsequence, Flatten, TerminalBytes, LogBytes, InFlight, Current, CurrentWritten, FrontInv;
    SubsequenceAppend(Pipeline(s), s.typed, typed);
    Concat3(Delivered(s), Backlog(s.front), typed);
  }

  lemma DropStepKeepsInv(s: State, g: Front)
    requires Inv(s) && FrontInv(g) && SameWrite(s.front, g)
    requires Backlog(g) <= Backlog(s.front)
    requires Current(g) == Replied(false) ==> Current(s.front) == Replied(false)
    requires s.failed || g.disposed
    ensures Inv(s.(front := g))
  {
    DropFromBacklog(Delivered(s), Backlog(s.front), Backlog(g), s.typed);
  }

  lemma InvFront(s: State)
    requires Inv(s)
    ensures FrontInv(s.front)
    ensures Current(s.front) == Replied(false) ==> s.failed
  {
  }

  lemma DisposeFacts(f: Front)
    requires FrontInv(f)
    ensures var g := Dispose(f); FrontInv(g) && SameWrite(f, g) && g.disposed
    ensures Backlog(Dispose(f)) <= Backlog(f)
    ensures Current(Dispose(f)) == Current(f)
  {
    assert Backlog(Dispose(f)) == InFlight(f);
  }

  lemma FrontEventKeepsInv(s: State, e: Event)
    requires Inv(s) && (e.Type? || e.Close? || e.Answer? || e.Cleanup?)
    ensures Inv(Step(s, e))
  {
    hide Inv, FrontInv, SameWrite, InFlight, Flatten, Settle, Finally, Enqueue;
    InvFront(s);
    assert s.typed + [] == s.typed && Backlog(s.front) + [] == Backlog(s.front);
    match e
    case Type(p) =>
      if !s.front.disposed {
        EnqueueFacts(s.front, p);
        FrontStepKeepsInv(s, p, Enqueue(s.front, p));
      }
    case Close =>
      DisposeFacts(s.front);
      DropStepKeepsInv(s, Dispose(s.front));
    case Answer(id) =>
      SettleFacts(s.front, id);
      if Backlog(Settle(s.front, id)) == Backlog(s.front) {
        FrontStepKeepsInv(s, [], Settle(s.front, id));
      } else {
        DropStepKeepsInv(s, Settle(s.front, id));
      }
    case Cleanup(id) =>
      FinallyFacts(s.front, id);
      FrontStepKeepsInv(s, [], Finally(s.front, id));
  }

  /** Replacing the task of the flush in progress. */
  lemma SetTaskFacts(f: Front, t: Task)
    requires FrontInv(f) && f.flushing
    requires t.Writing? ==> t.written <= |TaskBytes(t)|
    ensures var g := f.(tasks := f.tasks[f.next - 1 := t]); FrontInv(g) && Current(g) == t
  {
    assert f.tasks[f.next - 1 := t].Keys == {f.next - 1};
  }

  lemma SessionEventKeepsInv(s: State, e: Event)
    requires Inv(s) && (e.Acquire? || e.Write? || e.Complete? || e.Fail?)
    ensures Inv(Step(s, e))
  {
    match e
    case Acquire(id) =>
      if id in s.front.tasks && s.front.tasks[id].Blocked? && s.lock.Free? {
        var t := Writing(s.front.tasks[id].batch, 0);
        SetTaskFacts(s.front, t);
        assert Pipeline(Step(s, e)) == Pipeline(s);
      }
    case Write(n) =>
      WriteKeepsInv(s, n);
    case Complete =>
      CompleteKeepsInv(s);
    case Fail(id) =>
      FailKeepsInv(s, id);
  }

  lemma WriteKeepsInv(s: State, n: nat)
    requires Inv(s)
    ensures Inv(WriteStep(s, n))
  {
    match s.lock
    case Free =>
    case HeldByOther(data, written) =>
      if 0 < n && written + n <= |data| {
        OtherWrites(s, n);
      }
    case HeldByFlush(id) =>
      if 0 < n && Current(s.front).written + n <= |TaskBytes(Current(s.front))| {
        FlushWrites(s, n);
      }
  }

  lemma OtherWrites(s: State, n: nat)
    requires Inv(s) && s.lock.HeldByOther? && 0 < n && s.lock.written + n <= |s.lock.data|
    ensures Inv(WriteStep(s, n))
  {
    hide Subsequence, Flatten, TerminalBytes, LogBytes, CurrentWritten, InFlight, Current, FrontInv;
    var data, written := s.lock.data, s.lock.written;
    var u := WriteStep(s, n);
    assert data[..written + n] == data[..written] + data[written..written + n];
    assert Pipeline(u) == Pipeline(s);
    assert u.pty == LogBytes(s.log) + (data[..written] + data[written..written + n]);
  }

  lemma OtherCompletes(s: State)
    requires Inv(s) && s.lock.HeldByOther? && s.lock.written == |s.lock.data|
    ensures Inv(CompleteStep(s))
  {
    hide Subsequence, Flatten, TerminalBytes, LogBytes, CurrentWritten, InFlight, Current, FrontInv;
    LogPush(s.log, Entry(false, s.lock.data));
    assert s.lock.data[..s.lock.written] == s.lock.data;
    assert TerminalBytes(s.log) + [] == TerminalBytes(s.log);
    assert Pipeline(CompleteStep(s)) == Pipeline(s);
  }

  /** The flush that holds the lock, before and after a step of the session manager. */
  lemma HolderFacts(s: State, t: Task, u: State)
    requires Inv(s) && s.lock.HeldByFlush?
    requires t.Writing? ==> t.written <= |TaskBytes(t)|
    requires u.front == s.front.(tasks := s.front.tasks[s.front.next - 1 := t])
    ensures FrontInv(u.front) && Current(u.front) == t
    ensures s.front.next > 0 && s.lock.id == s.front.next - 1 && s.lock.id in s.front.tasks
      && s.front.tasks[s.lock.id] == Current(s.front)
    ensures Current(s.front).Writing? && Current(s.front).written <= |TaskBytes(Current(s.front))|
  {
    SetTaskFacts(s.front, t);
  }

  lemma FlushWrites(s: State, n: nat)
    requires Inv(s) && s.lock.HeldByFlush?
    requires 0 < n && Current(s.front).written + n <= |TaskBytes(Current(s.front))|
    ensures Inv(WriteStep(s, n))
  {
    hide Subsequence, Flatten, TerminalBytes, LogBytes;
    var t := Current(s.front);
    var u := s.(front := s.front.(tasks := s.front.tasks[s.front.next - 1 := t.(written := t.written + n)]),
                pty := s.pty + TaskBytes(t)[t.written..t.written + n]);
    HolderFacts(s, t.(written := t.written + n), u);
    assert WriteStep(s, n) == u;
    WriteShifts(s, u, n);
    hide FrontInv, CurrentWritten, InFlight;
  }

  lemma WriteMoves(f: Front, g: Front, n: nat)
    requires Current(f).Writing? && Current(g) == Current(f).(written := Current(f).written + n)
    requires Current(f).written + n <= |TaskBytes(Current(f))|
    ensures var x := TaskBytes(Current(f))[Current(f).written..Current(f).written + n];
      CurrentWritten(g) == CurrentWritten(f) + x && InFlight(f) == x + InFlight(g)
  {
    hide Flatten, Current;
    SliceJoin(TaskBytes(Current(f)), Current(f).written, n);
  }

  /** Written bytes move from in flight to delivered. */
  lemma WriteShifts(s: State, u: State, n: nat)
    requires Current(s.front).Writing? && Current(u.front) == Current(s.front).(written := Current(s.front).written + n)
    requires Current(s.front).written + n <= |TaskBytes(Current(s.front))|
    requires u.front.queue == s.front.queue && u.log == s.log
    requires u.pty == s.pty + TaskBytes(Current(s.front))[Current(s.front).written..Current(s.front).written + n]
    requires s.pty == LogBytes(s.log) + CurrentWritten(s.front)
    ensures Pipeline(u) == Pipeline(s)
    ensures u.pty == LogBytes(u.log) + CurrentWritten(u.front)
  {
    hide Flatten, TerminalBytes, LogBytes, Current, TaskBytes, CurrentWritten, InFlight;
    var t := Current(s.front);
    var x := TaskBytes(t)[t.written..t.written + n];
    WriteMoves(s.front, u.front, n);
    PipelineShift(TerminalBytes(s.log), CurrentWritten(s.front), x, InFlight(u.front), Flatten(s.front.queue));
    Concat3(LogBytes(s.log), CurrentWritten(s.front), x);
  }

  lemma SliceJoin(data: Bytes, i: nat, n: nat)
    requires i + n <= |data|
    ensures data[..i + n] == data[..i] + data[i..i + n]
    ensures data[i..] == data[i..i + n] + data[i + n..]
  {
  }

  lemma PipelineShift(log: Bytes, written: Bytes, x: Bytes, rest: Bytes, queued: Bytes)
    ensures (log + (written + x)) + (rest + queued) == (log + written) + ((x + rest) + queued)
  {
  }

  lemma CompleteKeepsInv(s: State)
    requires Inv(s)
    ensures Inv(CompleteStep(s))
  {
    match s.lock
    case Free =>
    case HeldByOther(data, written) =>
      if written == |data| {
        OtherCompletes(s);
      }
    case HeldByFlush(id) =>
      if Current(s.front).written == |TaskBytes(Current(s.front))| {
        FlushCompletes(s);
      }
  }

  lemma FlushCompletes(s: State)
    requires Inv(s) && s.lock.HeldByFlush?
    requires Current(s.front).written == |TaskBytes(Current(s.front))|
    ensures Inv(CompleteStep(s))
  {
    hide Subsequence, Flatten, TerminalBytes, LogBytes;
    var t := Current(s.front);
    var u := s.(front := s.front.(tasks := s.front.tasks[s.front.next - 1 := Replied(true)]),
                lock := Free, log := s.log + [Entry(true, TaskBytes(t))]);
    HolderFacts(s, Replied(true), u);
    assert CompleteStep(s) == u;
    CompleteShifts(s, u);
    hide FrontInv, CurrentWritten, InFlight;
  }

  /** The finished call's bytes move from the holder to the log. */
  lemma CompleteShifts(s: State, u: State)
    requires Current(s.front).Writing? && Current(s.front).written == |TaskBytes(Current(s.front))|
    requires Current(u.front) == Replied(true) && u.front.queue == s.front.queue
    requires u.log == s.log + [Entry(true, TaskBytes(Current(s.front)))]
    ensures Pipeline(u) == Pipeline(s)
    ensures LogBytes(u.log) + [] == LogBytes(s.log) + CurrentWritten(s.front)
  {
    hide Flatten, TerminalBytes, LogBytes, Current;
    LogPush(s.log, Entry(true, TaskBytes(Current(s.front))));
    assert CurrentWritten(s.front) == TaskBytes(Current(s.front)) && InFlight(s.front) == [];
    assert CurrentWritten(u.front) == [] && InFlight(u.front) == [];
    assert Delivered(u) == Delivered(s);
  }

  lemma FailKeepsInv(s: State, id: nat)
    requires Inv(s)
    ensures Inv(Step(s, Fail(id)))
  {
    hide Subsequence, Flatten, TerminalBytes, LogBytes;
    var t := Current(s.front);
    if s.lock == HeldByFlush(id) {
      var u := s.(front := s.front.(tasks := s.front.tasks[s.front.next - 1 := Replied(false)]),
                  lock := Free, failed := true,
                  log := s.log + [Entry(true, TaskBytes(t)[..t.written])]);
      HolderFacts(s, Replied(false), u);
      assert Step(s, Fail(id)) == u;
      FailShifts(s, u);
      hide FrontInv, CurrentWritten, InFlight;
    } else if id in s.front.tasks && s.front.tasks[id].Blocked? {
      SetTaskFacts(s.front, Replied(false));
      FailShifts(s, Step(s, Fail(id)));
    }
  }

  /** A failed call logs what it wrote; what was in flight is lost. */
  lemma FailShifts(s: State, u: State)
    requires FrontInv(s.front) && Subsequence(Pipeline(s), s.typed)
    requires Current(u.front) == Replied(false) && u.front.queue == s.front.queue
    requires u.log == (if Current(s.front).Writing? then s.log + [Entry(true, CurrentWritten(s.front))] else s.log)
    ensures Subsequence(Pipeline(u), s.typed)
    ensures LogBytes(u.log) + [] == LogBytes(s.log) + if Current(s.front).Writing? then CurrentWritten(s.front) else []
  {
    hide Subsequence, Flatten, TerminalBytes, LogBytes, Current, FrontInv;
    if Current(s.front).Writing? {
      LogPush(s.log, Entry(true, CurrentWritten(s.front)));
    }
    assert Delivered(u) == Delivered(s);
    assert Backlog(u.front) == Flatten(s.front.queue);
    DropFromBacklog(Delivered(s), Backlog(s.front), Backlog(u.front), s.typed);
  }

  lemma OtherEventKeepsInv(s: State, e: Event)
    requires Inv(s) && (e.OtherCall? || e.OtherAcquire? || e.OtherFail?)
    ensures Inv(Step(s, e))
  {
    hide Subsequence, Flatten, TerminalBytes, LogBytes, CurrentWritten, InFlight, Current, FrontInv;
    if e.OtherFail? && s.lock.HeldByOther? {
      LogPush(s.log, Entry(false, s.lock.data[..s.lock.written]));
      assert TerminalBytes(s.log) + [] == TerminalBytes(s.log);
    }
  }

  lemma StepKeepsInv(s: State, e: Event)
    requires Inv(s)
    ensures Inv(Step(s, e))
  {
    hide Inv, Step;
    if e.Type? || e.Close? || e.Answer? || e.Cleanup? {
      FrontEventKeepsInv(s, e);
    } else if e.OtherCall? || e.OtherAcquire? || e.OtherFail? {
      OtherEventKeepsInv(s, e);
    } else {
      SessionEventKeepsInv(s, e);
    }
  }

  lemma {:induction false} RunKeepsInv(es: seq<Event>)
    ensures Inv(Run(es))
  {
    if es != [] {
      RunKeepsInv(es[..|es| - 1]);
      StepKeepsInv(Run(es[..|es| - 1]), es[|es| - 1]);
    }
  }

  // ---------- the promises, for every interleaving ----------

  /** At most one batch call is in flight, and a non-empty queue always has a flush at work. */
  lemma SingleFlightNoLostWakeup(es: seq<Event>)
    ensures |Run(es).front.tasks| <= 1
    ensures Run(es).front.queue != [] ==> |Run(es).front.tasks| == 1
  {
    RunKeepsInv(es);
    var f := Run(es).front;
    assert |f.tasks| == |f.tasks.Keys|;
  }

  /** First in, first out: delivered, in flight and queued bytes are, in this order, what was
      typed; after a failed write or a close they are still a subsequence of it. */
  lemma FifoDelivery(es: seq<Event>)
    ensures var s := Run(es);
      && Subsequence(Delivered(s) + InFlight(s.front) + Flatten(s.front.queue), s.typed)
      && (!s.failed && !s.front.disposed ==> Delivered(s) + InFlight(s.front) + Flatten(s.front.queue) == s.typed)
  {
    hide Run, Inv;
    RunKeepsInv(es);
    PipelineIsFifo(Run(es));
  }

  lemma PipelineIsFifo(s: State)
    requires Inv(s)
    ensures Subsequence(Delivered(s) + InFlight(s.front) + Flatten(s.front.queue), s.typed)
    ensures !s.failed && !s.front.disposed ==> Delivered(s) + InFlight(s.front) + Flatten(s.front.queue) == s.typed
  {
    assert Delivered(s) + InFlight(s.front) + Flatten(s.front.queue) == Pipeline(s);
  }

  /** Calls do not interleave: the PTY holds whole calls in lock order, then at most the part
      the lock holder has written so far. */
  lemma CallsDoNotInterleave(es: seq<Event>)
    ensures Run(es).pty == LogBytes(Run(es).log) + HeldBytes(Run(es))
    ensures Run(es).lock.Free? ==> HeldBytes(Run(es)) == []
  {
    RunKeepsInv(es);
  }

  /** What the user typed before closing the terminal. */
  ghost function Keystrokes(es: seq<Event>): Bytes {
    if es == [] then []
    else
      var before, e := Keystrokes(es[..|es| - 1]), es[|es| - 1];
      if e.Type? && !Closed(es[..|es| - 1]) then before + e.payload else before
  }

  ghost predicate Closed(es: seq<Event>) {
    exists k :: 0 <= k < |es| && es[k].Close?
  }

  lemma InputStep(s: State, e: Event)
    ensures var u := Step(s, e);
      && u.typed == (if e.Type? && !s.front.disposed then s.typed + e.payload else s.typed)
      && (u.front.disposed <==> s.front.disposed || e.Close?)
      && (u.failed ==> s.failed || e.Fail?)
  {
    hide Flatten, WriteStep, CompleteStep;
    match e
    case Write(n) => WriteIsNoInput(s, n);
    case Complete => CompleteIsNoInput(s);
    case _ =>
  }

  lemma WriteIsNoInput(s: State, n: nat)
    ensures var u := WriteStep(s, n);
      u.typed == s.typed && u.front.disposed == s.front.disposed && u.failed == s.failed
  {
    hide Flatten;
  }

  lemma CompleteIsNoInput(s: State)
    ensures var u := CompleteStep(s);
      u.typed == s.typed && u.front.disposed == s.front.disposed && u.failed == s.failed
  {
    hide Flatten;
  }

  /** Every keystroke before a close is accepted; the terminal is closed only by a close, and only a failing
      call counts as a failure. */
  lemma {:induction false} InputAccepted(es: seq<Event>)
    ensures Run(es).typed == Keystrokes(es)
    ensures Run(es).front.disposed <==> Closed(es)
    ensures Run(es).failed ==> exists k :: 0 <= k < |es| && es[k].Fail?
  {
    hide Step;
    if es != [] {
      InputAccepted(es[..|es| - 1]);
      InputStep(Run(es[..|es| - 1]), es[|es| - 1]);
      ClosedStepwise(es);
    }
  }

  lemma ClosedStepwise(es: seq<Event>)
    requires es != []
    ensures Closed(es) <==> Closed(es[..|es| - 1]) || es[|es| - 1].Close?
  {
    if Closed(es) {
      var k :| 0 <= k < |es| && es[k].Close?;
      assert k < |es| - 1 ==> es[..|es| - 1][k].Close?;
    }
  }

  // ---------- after a failed call ----------

  /** The browser learns that its batch call failed: nothing is queued or in flight any more, and what
      the PTY had received stays what it was. */
  lemma FailureDropsQueue(es: seq<Event>, id: nat)
    requires id in Run(es).front.tasks && Run(es).front.tasks[id] == Replied(false)
    ensures var s, u := Run(es), Run(es + [Answer(id)]);
      && u.front.queue == [] && Backlog(u.front) == []
      && Delivered(u) == Delivered(s) && u.typed == s.typed && u.pty == s.pty
  {
    hide Inv;
    RunKeepsInv(es);
    RunSnoc(es, Answer(id));
    DropFacts(Run(es), id);
  }

  lemma DropFacts(s: State, id: nat)
    requires Inv(s) && id in s.front.tasks && s.front.tasks[id] == Replied(false)
    ensures var g := Step(s, Answer(id)).front;
      g.queue == [] && Backlog(g) == [] && Current(g) == Finishing && CurrentWritten(s.front) == [] == CurrentWritten(g)
  {
    hide Subsequence, LogBytes, TerminalBytes, Pipeline, HeldBytes, TaskBytes;
    assert id == s.front.next - 1;
  }

  /** `v` is `u` with a history of terminal bytes, log entries and PTY bytes before it. */
  ghost predicate Behind(v: State, u: State, typed: Bytes, log: seq<Entry>, pty: Bytes) {
    && v.typed == typed + u.typed && v.log == log + u.log && v.pty == pty + u.pty
    && v.front == u.front && v.lock == u.lock && v.others == u.others
  }

  /** No step looks at what was typed, logged or received before. */
  lemma StepStaysBehind(v: State, u: State, e: Event, typed: Bytes, log: seq<Entry>, pty: Bytes)
    requires Behind(v, u, typed, log, pty)
    ensures Behind(Step(v, e), Step(u, e), typed, log, pty)
  {
    hide Flatten, Settle, Finally, Enqueue, Flush, Dispose, WriteStep, CompleteStep;
    match e
    case Write(n) => WriteStaysBehind(v, u, n, typed, log, pty);
    case Complete => CompleteStaysBehind(v, u, typed, log, pty);
    case _ =>
  }

  lemma WriteStaysBehind(v: State, u: State, n: nat, typed: Bytes, log: seq<Entry>, pty: Bytes)
    requires Behind(v, u, typed, log, pty)
    ensures Behind(WriteStep(v, n), WriteStep(u, n), typed, log, pty)
  {
    hide Flatten;
  }

  lemma CompleteStaysBehind(v: State, u: State, typed: Bytes, log: seq<Entry>, pty: Bytes)
    requires Behind(v, u, typed, log, pty)
    ensures Behind(CompleteStep(v), CompleteStep(u), typed, log, pty)
  {
    hide Flatten;
  }

  lemma {:induction false} HistoryDelivered(log: seq<Entry>, more: seq<Entry>)
    ensures TerminalBytes(log + more) == TerminalBytes(log) + TerminalBytes(more)
  {
    if more == [] {
      assert log + more == log;
    } else {
      var k := |more| - 1;
      assert log + more == (log + more[..k]) + [more[k]];
      LogPush(log + more[..k], more[k]);
      HistoryDelivered(log, more[..k]);
    }
  }

  /** The same system started afresh: only the lock and the browser state are carried over. */
  ghost function Afresh(s: State): State {
    s.(typed := [], log := [], pty := HeldBytes(s), failed := false)
  }

  lemma AfreshInv(s: State)
    requires Inv(s) && Backlog(s.front) == [] && Current(s.front) == Finishing
    ensures Inv(Afresh(s)) && Behind(s, Afresh(s), s.typed, s.log, LogBytes(s.log))
  {
  }

  /** Running on from a state, beside the same events run from a fresh start. */
  lemma {:induction false} RunsBehind(es: seq<Event>, later: seq<Event>) returns (u: State)
    requires Backlog(Run(es).front) == [] && Current(Run(es).front) == Finishing
    ensures Inv(u) && Behind(Run(es + later), u, Run(es).typed, Run(es).log, LogBytes(Run(es).log))
    ensures (forall k :: 0 <= k < |later| ==> !later[k].Fail?) ==> !u.failed
  {
    hide Run, Step, Inv, Behind;
    if later == [] {
      RunKeepsInv(es);
      AfreshInv(Run(es));
      assert es + later == es;
      u := Afresh(Run(es));
    } else {
      var k := |later| - 1;
      var before := RunsBehind(es, later[..k]);
      assert es + later == (es + later[..k]) + [later[k]];
      RunSnoc(es + later[..k], later[k]);
      StepStaysBehind(Run(es + later[..k]), before, later[k], Run(es).typed, Run(es).log, LogBytes(Run(es).log));
      StepKeepsInv(before, later[k]);
      u := Step(before, later[k]);
      if !later[k].Fail? {
        OnlyFailFails(before, later[k]);
      }
    }
  }

  lemma OnlyFailFails(s: State, e: Event)
    requires !e.Fail?
    ensures Step(s, e).failed == s.failed
  {
  }

  /** After the browser has learned of a failure, only what is typed from then on is delivered, in order;
      all of it unless another call fails or the terminal is closed. Nothing queued before comes back. */
  lemma AfterFailureOnlyNewInput(es: seq<Event>, id: nat, later: seq<Event>) returns (delivered: Bytes)
    requires id in Run(es).front.tasks && Run(es).front.tasks[id] == Replied(false)
    ensures var s, v := Run(es), Run(es + [Answer(id)] + later);
      && s.typed <= v.typed && Delivered(v) == Delivered(s) + delivered
      && var since := v.typed[|s.typed|..];
         && Subsequence(delivered + Backlog(v.front), since)
         && ((forall k :: 0 <= k < |later| ==> !later[k].Fail?) && !v.front.disposed ==>
               delivered + Backlog(v.front) == since)
  {
    hide Run, Inv, Step, Subsequence, TerminalBytes, LogBytes, Backlog;
    RunKeepsInv(es);
    RunSnoc(es, Answer(id));
    FailureDropsQueue(es, id);
    DropFacts(Run(es), id);
    var dropped := Run(es + [Answer(id)]);
    var u := RunsBehind(es + [Answer(id)], later);
    var v := Run(es + [Answer(id)] + later);
    HistoryDelivered(dropped.log, u.log);
    delivered := Delivered(u);
    assert Delivered(v) == TerminalBytes(dropped.log) + delivered by {
      Concat3(TerminalBytes(dropped.log), TerminalBytes(u.log), CurrentWritten(u.front));
    }
    assert v.typed[|Run(es).typed|..] == u.typed;
    assert Delivered(dropped) == TerminalBytes(dropped.log) + [];
    InvPipeline(u);
  }

  lemma InvPipeline(s: State)
    requires Inv(s)
    ensures Subsequence(Pipeline(s), s.typed) && (!s.failed && !s.front.disposed ==> Pipeline(s) == s.typed)
  {
  }

  // ---------- after the terminal is closed ----------

  lemma CloseFacts(s: State)
    requires Inv(s)
    ensures var u := Step(s, Close);
      && u.front.disposed && u.front.queue == [] && u.typed == s.typed && u.pty == s.pty
      && Pipeline(u) == Delivered(s) + InFlight(s.front)
  {
    assert Backlog(Dispose(s.front)) == InFlight(s.front);
  }

  lemma OwnPipelineInv(s: State)
    requires Inv(s) && s.front.disposed
    ensures Inv(s.(typed := Pipeline(s)))
  {
    SubsequenceRefl(Pipeline(s));
    assert Pipeline(s.(typed := Pipeline(s))) == Pipeline(s);
  }

  /** A closed terminal stays closed, accepts nothing, and no step looks at what was typed. */
  lemma ClosedStep(v: State, u: State, e: Event)
    requires v == u.(typed := v.typed) && u.front.disposed
    ensures Step(v, e) == Step(u, e).(typed := v.typed)
    ensures Step(u, e).front.disposed && Step(u, e).typed == u.typed
  {
    hide Flatten, WriteStep, CompleteStep;
    match e
    case Write(n) => ClosedWrite(v, u, n);
    case Complete => ClosedComplete(v, u);
    case _ =>
  }

  lemma ClosedWrite(v: State, u: State, n: nat)
    requires v == u.(typed := v.typed) && u.front.disposed
    ensures WriteStep(v, n) == WriteStep(u, n).(typed := v.typed)
    ensures WriteStep(u, n).front.disposed && WriteStep(u, n).typed == u.typed
  {
    hide Flatten;
  }

  lemma ClosedComplete(v: State, u: State)
    requires v == u.(typed := v.typed) && u.front.disposed
    ensures CompleteStep(v) == CompleteStep(u).(typed := v.typed)
    ensures CompleteStep(u).front.disposed && CompleteStep(u).typed == u.typed
  {
    hide Flatten;
  }

  lemma {:induction false} RunsClosed(es: seq<Event>, later: seq<Event>) returns (u: State)
    requires Run(es).front.disposed
    ensures Inv(u) && u.front.disposed && u.typed == Pipeline(Run(es))
    ensures Run(es + later) == u.(typed := Run(es).typed)
  {
    hide Run, Step, Inv, Pipeline;
    if later == [] {
      RunKeepsInv(es);
      OwnPipelineInv(Run(es));
      assert es + later == es;
      u := Run(es).(typed := Pipeline(Run(es)));
    } else {
      var k := |later| - 1;
      var before := RunsClosed(es, later[..k]);
      assert es + later == (es + later[..k]) + [later[k]];
      RunSnoc(es + later[..k], later[k]);
      ClosedStep(Run(es + later[..k]), before, later[k]);
      StepKeepsInv(before, later[k]);
      u := Step(before, later[k]);
    }
  }

  /** Once the terminal is closed nothing is accepted or queued any more, and only what was in flight
      then can still be delivered. */
  lemma ClosedForGood(es: seq<Event>, later: seq<Event>)
    ensures var s, v := Run(es), Run(es + [Close] + later);
      && v.front.disposed && v.front.queue == [] && v.typed == s.typed
      && Subsequence(Delivered(v) + InFlight(v.front), Delivered(s) + InFlight(s.front))
  {
    hide Run, Step, Inv, Subsequence;
    RunKeepsInv(es);
    RunSnoc(es, Close);
    CloseFacts(Run(es));
    var u := RunsClosed(es + [Close], later);
    InvPipeline(u);
    ClosedQueue(u);
    assert Pipeline(u) == Delivered(u) + InFlight(u.front);
  }

  lemma ClosedQueue(s: State)
    requires Inv(s) && s.front.disposed
    ensures s.front.queue == [] && Backlog(s.front) == InFlight(s.front)
  {
  }

  // ---------- the other callers ----------

  /** The other callers' calls, as they were made. */
  ghost function OtherCalls(es: seq<Event>): multiset<Bytes> {
    if es == [] then multiset{}
    else OtherCalls(es[..|es| - 1]) + if es[|es| - 1].OtherCall? then multiset{es[|es| - 1].data} else multiset{}
  }

  ghost function OtherEntries(log: seq<Entry>): multiset<Bytes> {
    if log == [] then multiset{}
    else
      var e := log[|log| - 1];
      OtherEntries(log[..|log| - 1]) + if e.fromTerminal then multiset{} else multiset{e.bytes}
  }

  lemma OtherEntriesPush(log: seq<Entry>, e: Entry)
    ensures OtherEntries(log + [e]) == OtherEntries(log) + if e.fromTerminal then multiset{} else multiset{e.bytes}
  {
    assert (log + [e])[..|log|] == log;
  }

  ghost function OtherHeld(lock: Lock): multiset<Bytes> {
    if lock.HeldByOther? then multiset{lock.data} else multiset{}
  }

  /** What the other callers have to show: calls waiting, the one that holds the lock, calls written. */
  ghost function OthersShare(s: State): multiset<Bytes> {
    multiset(s.others) + OtherHeld(s.lock) + OtherEntries(s.log)
  }

  lemma QuietOthers(s: State, e: Event)
    requires e.Type? || e.Close? || e.Answer? || e.Cleanup? || e.Acquire?
    ensures OthersShare(Step(s, e)) == OthersShare(s)
  {
    hide Flatten, Settle, Finally, Enqueue, OtherEntries;
  }

  lemma WriteOthers(s: State, n: nat)
    ensures OthersShare(WriteStep(s, n)) == OthersShare(s)
  {
    hide Flatten, OtherEntries;
  }

  lemma CompleteOthers(s: State)
    ensures OthersShare(CompleteStep(s)) == OthersShare(s)
  {
    hide Flatten, OtherEntries, TaskBytes;
    match s.lock
    case Free =>
    case HeldByOther(data, _) => OtherEntriesPush(s.log, Entry(false, data));
    case HeldByFlush(id) =>
      if id in s.front.tasks && s.front.tasks[id].Writing? {
        OtherEntriesPush(s.log, Entry(true, TaskBytes(s.front.tasks[id])));
      }
  }

  lemma FailOthers(s: State, id: nat)
    ensures OthersShare(Step(s, Fail(id))) == OthersShare(s)
  {
    hide Flatten, OtherEntries;
    if id in s.front.tasks && s.front.tasks[id].Writing? {
      var t := s.front.tasks[id];
      if t.written <= |TaskBytes(t)| {
        OtherEntriesPush(s.log, Entry(true, TaskBytes(t)[..t.written]));
      }
    }
  }

  lemma AcquireOthers(s: State, i: nat)
    ensures OthersShare(Step(s, OtherAcquire(i))) == OthersShare(s)
  {
    hide OtherEntries;
    if i < |s.others| {
      TakeOut(s.others, i);
    }
  }

  lemma TakeOut(others: seq<Bytes>, i: nat)
    requires i < |others|
    ensures multiset(others) == multiset(others[..i] + others[i + 1..]) + multiset{others[i]}
  {
    assert others == others[..i] + [others[i]] + others[i + 1..];
  }

  lemma OthersStep(s: State, e: Event)
    requires !e.OtherFail?
    ensures OthersShare(Step(s, e)) == OthersShare(s) + if e.OtherCall? then multiset{e.data} else multiset{}
  {
    hide OthersShare, WriteStep, CompleteStep;
    match e
    case OtherCall(data) => CallOthers(s, data);
    case OtherAcquire(i) => AcquireOthers(s, i);
    case Write(n) => WriteOthers(s, n);
    case Complete => CompleteOthers(s);
    case Fail(id) => FailOthers(s, id);
    case _ => QuietOthers(s, e);
  }

  lemma CallOthers(s: State, data: Bytes)
    ensures OthersShare(Step(s, OtherCall(data))) == OthersShare(s) + multiset{data}
  {
    hide OtherEntries;
  }

  /** Until one of their writes fails, the other callers' calls are all waiting, being written or written
      in full, each once. */
  lemma {:induction false} OtherCallsKept(es: seq<Event>)
    requires forall k :: 0 <= k < |es| ==> !es[k].OtherFail?
    ensures multiset(Run(es).others) + OtherHeld(Run(es).lock) + OtherEntries(Run(es).log) == OtherCalls(es)
  {
    hide Step;
    if es != [] {
      OtherCallsKept(es[..|es| - 1]);
      OthersStep(Run(es[..|es| - 1]), es[|es| - 1]);
    }
  }

  // ---------- progress ----------

  /** Steps of the machinery itself, as opposed to new input from the user or other callers. */
  predicate Internal(e: Event) {
    !e.Type? && !e.Close? && !e.OtherCall?
  }

  ghost function OthersWork(others: seq<Bytes>): nat {
    if others == [] then 0 else |others[0]| + 2 + OthersWork(others[1..])
  }

  ghost function TaskWork(t: Task): nat {
    match t
    case Blocked(_) => |TaskBytes(t)| + 5
    case Writing(_, w) => (if w <= |TaskBytes(t)| then |TaskBytes(t)| - w else 0) + 4
    case Replied(_) => 3
    case Finishing => 1
  }

  /** An upper bound on the internal steps still to come. */
  ghost function Work(s: State): nat {
    OthersWork(s.others)
    + (if s.lock.HeldByOther? && s.lock.written <= |s.lock.data| then |s.lock.data| - s.lock.written + 1 else 0)
    + (if s.front.flushing then TaskWork(Current(s.front)) else 0)
    + (if s.front.queue == [] then 0 else |Flatten(s.front.queue)| + 6)
  }

  lemma {:induction false} OthersRemove(others: seq<Bytes>, i: nat)
    requires i < |others|
    ensures OthersWork(others) == OthersWork(others[..i] + others[i + 1..]) + |others[i]| + 2
  {
    if i == 0 {
      assert others[..0] + others[1..] == others[1..];
    } else {
      OthersRemove(others[1..], i - 1);
      assert (others[..i] + others[i + 1..])[1..] == others[1..][..i - 1] + others[1..][i..];
    }
  }

  /** Every internal step that changes anything uses up work, so the machinery always comes to rest. */
  lemma InternalStepsDecrease(s: State, e: Event)
    requires Inv(s) && Internal(e) && Step(s, e) != s
    ensures Work(Step(s, e)) < Work(s)
  {
    hide Inv, Step, Work;
    match e
    case OtherAcquire(_) => OtherDecreases(s, e);
    case OtherFail => OtherDecreases(s, e);
    case Acquire(id) => AcquireDecreases(s, id);
    case Write(n) => WriteDecreases(s, n);
    case Complete => CompleteDecreases(s);
    case Fail(id) => FailDecreases(s, id);
    case Answer(id) => AnswerDecreases(s, id);
    case Cleanup(id) => CleanupDecreases(s, id);
  }

  lemma OtherDecreases(s: State, e: Event)
    requires Inv(s) && (e.OtherAcquire? || e.OtherFail?) && Step(s, e) != s
    ensures Work(Step(s, e)) < Work(s)
  {
    hide Subsequence, Flatten, LogBytes, TerminalBytes, TaskWork, Current, FrontInv;
    if e.OtherAcquire? {
      OthersRemove(s.others, e.i);
    }
  }

  lemma AcquireDecreases(s: State, id: nat)
    requires Inv(s) && Step(s, Acquire(id)) != s
    ensures Work(Step(s, Acquire(id))) < Work(s)
  {
    SetTaskFacts(s.front, Writing(s.front.tasks[id].batch, 0));
  }

  lemma WriteDecreases(s: State, n: nat)
    requires Inv(s) && Step(s, Write(n)) != s
    ensures Work(Step(s, Write(n))) < Work(s)
  {
    if s.lock.HeldByFlush? {
      SetTaskFacts(s.front, Current(s.front).(written := Current(s.front).written + n));
    }
  }

  lemma CompleteDecreases(s: State)
    requires Inv(s) && Step(s, Complete) != s
    ensures Work(Step(s, Complete)) < Work(s)
  {
    if s.lock.HeldByFlush? {
      SetTaskFacts(s.front, Replied(true));
    }
  }

  lemma FailDecreases(s: State, id: nat)
    requires Inv(s) && Step(s, Fail(id)) != s
    ensures Work(Step(s, Fail(id))) < Work(s)
  {
    hide Subsequence, Flatten, LogBytes, TerminalBytes;
    SetTaskFacts(s.front, Replied(false));
  }

  lemma AnswerDecreases(s: State, id: nat)
    requires Inv(s) && Step(s, Answer(id)) != s
    ensures Work(Step(s, Answer(id))) < Work(s)
  {
    hide Subsequence, LogBytes, TerminalBytes, OthersWork;
    SettleFacts(s.front, id);
  }

  lemma CleanupDecreases(s: State, id: nat)
    requires Inv(s) && Step(s, Cleanup(id)) != s
    ensures Work(Step(s, Cleanup(id))) < Work(s)
  {
    FinallyFacts(s.front, id);
    assert s.front.tasks - {id} == map[];
  }

  /** Nothing internal can happen any more, not counting failures. */
  ghost predicate AtRest(s: State) {
    forall e: Event :: Internal(e) && !e.Fail? && !e.OtherFail? ==> Step(s, e) == s
  }

  /** When the machinery has come to rest, no flush is active, nothing is queued or waiting, and -
      unless a write failed or the terminal was closed - everything typed has reached the PTY. */
  lemma RestMeansDelivered(es: seq<Event>)
    requires AtRest(Run(es))
    ensures var s := Run(es);
      && s.front.tasks == map[] && s.front.queue == [] && s.others == [] && s.lock.Free?
      && (!s.failed && !s.front.disposed ==> TerminalBytes(s.log) == s.typed)
  {
    var s := Run(es);
    RunKeepsInv(es);
    if !s.lock.Free? || s.others != [] || s.front.flushing {
      CanMove(s);
    }
    assert Current(s.front) == Finishing;
    assert Pipeline(s) == TerminalBytes(s.log) + [] + ([] + []);
  }

  lemma InternalKeepsPromise(s: State, e: Event)
    requires Internal(e) && !e.Fail? && !e.OtherFail?
    ensures var u := Step(s, e);
      u.typed == s.typed && u.failed == s.failed && u.front.disposed == s.front.disposed
  {
  }

  lemma RunSnoc(es: seq<Event>, e: Event)
    ensures Run(es + [e]) == Step(Run(es), e)
  {
    assert (es + [e])[..|es|] == es;
  }

  /** From every reachable state the machinery comes to rest within Work many internal steps, and then
      everything typed so far has reached the PTY, unless a write failed or the terminal was closed. */
  lemma {:induction false} ComesToRest(es: seq<Event>) returns (later: seq<Event>)
    ensures |later| <= Work(Run(es))
    ensures forall k :: 0 <= k < |later| ==> Internal(later[k]) && !later[k].Fail? && !later[k].OtherFail?
    ensures AtRest(Run(es + later))
    ensures !Run(es).failed && !Run(es).front.disposed ==> TerminalBytes(Run(es + later).log) == Run(es).typed
    ensures var s, u := Run(es), Run(es + later);
      u.typed == s.typed && u.failed == s.failed && u.front.disposed == s.front.disposed
    decreases Work(Run(es))
  {
    hide Run, Step, Work, Inv, TerminalBytes;
    if AtRest(Run(es)) {
      later := [];
      assert es + later == es;
      RestMeansDelivered(es);
    } else {
      var e: Event :| Internal(e) && !e.Fail? && !e.OtherFail? && Step(Run(es), e) != Run(es);
      RunKeepsInv(es);
      InternalStepsDecrease(Run(es), e);
      InternalKeepsPromise(Run(es), e);
      RunSnoc(es, e);
      var rest := ComesToRest(es + [e]);
      later := [e] + rest;
      assert es + later == es + [e] + rest;
    }
  }

  /** As long as the lock is held, a call waits or a flush is active, some step other than a failure
      is enabled. */
  lemma CanMove(s: State)
    requires Inv(s) && (!s.lock.Free? || s.others != [] || s.front.flushing)
    ensures !AtRest(s)
  {
    hide Subsequence, Flatten, TerminalBytes, LogBytes;
    if s.lock.HeldByOther? {
      if s.lock.written == |s.lock.data| {
        assert Step(s, Complete).lock.Free?;
      } else {
        assert Step(s, Write(1)).lock.written == s.lock.written + 1;
      }
    } else if s.lock.HeldByFlush? {
      var t := Current(s.front);
      if t.written == |TaskBytes(t)| {
        assert Step(s, Complete).lock.Free?;
      } else {
        SetTaskFacts(s.front, t.(written := t.written + 1));
        assert Current(Step(s, Write(1)).front) != t;
      }
    } else if s.others != [] {
      assert Step(s, OtherAcquire(0)).lock.HeldByOther?;
    } else {
      FlushCanMove(s);
    }
  }

  lemma FlushCanMove(s: State)
    requires Inv(s) && s.lock.Free? && s.front.flushing
    ensures !AtRest(s)
  {
    hide Subsequence, Flatten, TerminalBytes, LogBytes;
    var id := s.front.next - 1;
    assert id in s.front.tasks;
    match Current(s.front)
    case Blocked(_) => assert Step(s, Acquire(id)).lock.HeldByFlush?;
    case Writing(_, _) =>
    case Replied(_) => assert !Step(s, Answer(id)).front.tasks[id].Replied?;
    case Finishing =>
      var g := s.front.(tasks := s.front.tasks - {id}, flushing := false);
      FlushFacts(g);
      assert Step(s, Cleanup(id)).front != s.front;
  }
}
