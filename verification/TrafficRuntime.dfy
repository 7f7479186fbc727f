/** Live VPN clients and traffic counters. The counters are 64 bits wide and wrap; an unbounded
    ledger run beside them says what they count, and nothing is lost between the process totals
    and the client records. */
module TrafficRuntime {
  import opened Wrappers
  import Decimal
  import StableSort

  const TWO_64: nat := 0x1_0000_0000_0000_0000

  /** `connectedAt` is the clock at registration. */
  datatype Client = Client(id: string, remoteAddr: string, connectedAt: nat, bytesIn: nat, bytesOut: nat)

  datatype State = State(nextClient: nat, totalClients: nat, totalBytesIn: nat, totalBytesOut: nat,
                         clients: map<string, Client>)

  datatype Event =
    | Register(remoteAddr: string, now: nat)
    | Unregister(id: string)
    | Traffic(id: string, bytesIn: nat, bytesOut: nat)

  function ClientId(n: nat): string {
    "client-" + Decimal.Print(n)
  }

  /** Width of the byte counters: 64 bits, or unbounded for the ledger. */
  datatype Width = Word | Unbounded

  function Plus(w: Width, a: nat, b: nat): nat {
    if w.Word? then (a + b) % TWO_64 else a + b
  }

  function Credited(w: Width, c: Client, bytesIn: nat, bytesOut: nat): Client {
    c.(bytesIn := Plus(w, c.bytesIn, bytesIn), bytesOut := Plus(w, c.bytesOut, bytesOut))
  }

  function Step(w: Width, s: State, e: Event): State {
    match e
    case Register(remoteAddr, now) =>
      var next := (s.nextClient + 1) % TWO_64;
      var id := ClientId(next);
      s.(nextClient := next, totalClients := (s.totalClients + 1) % TWO_64,
         clients := s.clients[id := Client(id, remoteAddr, now, 0, 0)])
    case Unregister(id) => s.(clients := s.clients - {id})
    case Traffic(id, bytesIn, bytesOut) =>
      s.(totalBytesIn := Plus(w, s.totalBytesIn, bytesIn), totalBytesOut := Plus(w, s.totalBytesOut, bytesOut),
         clients :=
           if id in s.clients then s.clients[id := Credited(w, s.clients[id], bytesIn, bytesOut)] else s.clients)
  }

  function Initial(): State {
    State(0, 0, 0, 0, map[])
  }

  function Run(w: Width, es: seq<Event>): State {
    if es == [] then Initial() else Step(w, Run(w, es[..|es| - 1]), es[|es| - 1])
  }

  // ---------- the registry object ----------

  datatype Snapshot = Snapshot(activeClients: nat, totalClients: nat, totalBytesIn: nat, totalBytesOut: nat,
                               clients: seq<Client>)

  class Runtime {
    var nextClient: nat
    var totalClients: nat
    var totalBytesIn: nat
    var totalBytesOut: nat
    var clients: map<string, Client>

    constructor ()
      ensures View() == Initial()
    {
      nextClient, totalClients, totalBytesIn, totalBytesOut, clients := 0, 0, 0, 0, map[];
    }

    ghost function View(): State
      reads this
    {
      State(nextClient, totalClients, totalBytesIn, totalBytesOut, clients)
    }

    method RegisterClient(remoteAddr: string, now: nat) returns (id: string)
      modifies this
      ensures View() == Step(Word, old(View()), Register(remoteAddr, now))
      ensures id == ClientId(nextClient) && nextClient == (old(nextClient) + 1) % 0x1_0000_0000_0000_0000
      ensures clients == old(clients)[id := Client(id, remoteAddr, now, 0, 0)]
    {
      nextClient := (nextClient + 1) % TWO_64;
      totalClients := (totalClients + 1) % TWO_64;
      id := ClientId(nextClient);
      clients := clients[id := Client(id, remoteAddr, now, 0, 0)];
    }

    method UnregisterClient(id: string)
      modifies this
      ensures View() == Step(Word, old(View()), Unregister(id))
      ensures clients == old(clients) - {id} && totalClients == old(totalClients)
    {
      clients := clients - {id};
    }

    method AddClientTraffic(id: string, bytesIn: nat, bytesOut: nat)
      modifies this
      ensures View() == Step(Word, old(View()), Traffic(id, bytesIn, bytesOut))
    {
      totalBytesIn := (totalBytesIn + bytesIn) % TWO_64;
      totalBytesOut := (totalBytesOut + bytesOut) % TWO_64;
      if id in clients {
        var c := clients[id];
        c := c.(bytesIn := (c.bytesIn + bytesIn) % TWO_64);
        c := c.(bytesOut := (c.bytesOut + bytesOut) % TWO_64);
        clients := clients[id := c];
      }
    }

    /** Visits the clients in any order, then sorts by connection time: the list holds exactly the
        active records, so its byte sums are those of the active clients. */
    method TakeSnapshot() returns (snapshot: Snapshot)
      ensures snapshot.activeClients == |snapshot.clients| == |clients|
      ensures snapshot.totalClients == totalClients
      ensures snapshot.totalBytesIn == totalBytesIn && snapshot.totalBytesOut == totalBytesOut
      ensures forall i, j :: 0 <= i < j < |snapshot.clients| ==>
        snapshot.clients[i].connectedAt <= snapshot.clients[j].connectedAt
      ensures forall c :: multiset(snapshot.clients)[c] == |Holding(clients, c)|
      ensures ListTotal(snapshot.clients, true) == Total(clients, true)
      ensures ListTotal(snapshot.clients, false) == Total(clients, false)
    {
      hide Holding, Total, ListTotal;
      var list: seq<Client> := [];
      var rest := clients;
      NothingListed(clients);
      while rest != map[]
        invariant Listed(clients, rest, list)
        decreases |rest|
      {
        var id :| id in rest;
        ListOne(clients, rest, list, id);
        list := list + [rest[id]];
        rest := rest - {id};
      }
      AllListed(clients, list);
      var sorted := StableSort.Sort(list, (c: Client) => c.connectedAt);
      SortKeeps(list, sorted);
      return Snapshot(|sorted|, totalClients, totalBytesIn, totalBytesOut, sorted);
    }
  }

  // ---------- sums over the client table ----------

  function Part(c: Client, inbound: bool): nat {
    if inbound then c.bytesIn else c.bytesOut
  }

  ghost function Total(m: map<string, Client>, inbound: bool): nat
    decreases |m|
  {
    if m == map[] then 0
    else
      var id :| id in m;
      Part(m[id], inbound) + Total(m - {id}, inbound)
  }

  lemma {:induction false} TotalRemove(m: map<string, Client>, inbound: bool, id: string)
    requires id in m
    ensures Total(m, inbound) == Part(m[id], inbound) + Total(m - {id}, inbound)
    decreases |m|
  {
    var k :| k in m && Total(m, inbound) == Part(m[k], inbound) + Total(m - {k}, inbound);
    if k != id {
      TotalRemove(m - {k}, inbound, id);
      TotalRemove(m - {id}, inbound, k);
      assert m - {k} - {id} == m - {id} - {k};
    }
  }

  /** What a table holds under one ID. */
  ghost function Share(m: map<string, Client>, inbound: bool, id: string): nat {
    if id in m then Part(m[id], inbound) else 0
  }

  lemma TotalUpdate(m: map<string, Client>, inbound: bool, id: string, c: Client)
    ensures Total(m[id := c], inbound) + Share(m, inbound, id) == Total(m, inbound) + Part(c, inbound)
  {
    TotalRemove(m[id := c], inbound, id);
    assert m[id := c] - {id} == m - {id};
    if id in m {
      TotalRemove(m, inbound, id);
    } else {
      assert m - {id} == m;
    }
  }

  lemma TotalDelete(m: map<string, Client>, inbound: bool, id: string)
    ensures Total(m - {id}, inbound) + Share(m, inbound, id) == Total(m, inbound)
  {
    if id in m {
      TotalRemove(m, inbound, id);
    } else {
      assert m - {id} == m;
    }
  }

  ghost function ListTotal(cs: seq<Client>, inbound: bool): nat {
    if cs == [] then 0 else ListTotal(cs[..|cs| - 1], inbound) + Part(cs[|cs| - 1], inbound)
  }

  lemma DropSame(a: seq<Client>, b: seq<Client>, i: nat)
    requires multiset(a) == multiset(b) && a != [] && i < |b| && b[i] == a[|a| - 1]
    ensures multiset(a[..|a| - 1]) == multiset(b[..i] + b[i + 1..])
  {
    assert a == a[..|a| - 1] + [b[i]];
    assert b == b[..i] + [b[i]] + b[i + 1..];
    assert multiset(a[..|a| - 1]) == multiset(a) - multiset{b[i]};
    assert multiset(b[..i] + b[i + 1..]) == multiset(b) - multiset{b[i]};
  }

  lemma LastOccurs(a: seq<Client>, b: seq<Client>) returns (i: nat)
    requires multiset(a) == multiset(b) && a != []
    ensures i < |b| && b[i] == a[|a| - 1]
  {
    assert a[|a| - 1] in multiset(b);
    i :| i < |b| && b[i] == a[|a| - 1];
  }

  lemma NoneLeft(b: seq<Client>)
    requires multiset(b) == multiset{}
    ensures b == []
  {
    assert |b| == |multiset(b)|;
  }

  lemma {:induction false} ListTotalPermuted(a: seq<Client>, b: seq<Client>, inbound: bool)
    requires multiset(a) == multiset(b)
    ensures ListTotal(a, inbound) == ListTotal(b, inbound)
    decreases |a|
  {
    if a == [] {
      NoneLeft(b);
    } else {
      var i := LastOccurs(a, b);
      DropSame(a, b, i);
      ListTotalPermuted(a[..|a| - 1], b[..i] + b[i + 1..], inbound);
      ListTotalRemove(b, i, inbound);
    }
  }

  lemma {:induction false} ListTotalRemove(b: seq<Client>, i: nat, inbound: bool)
    requires i < |b|
    ensures ListTotal(b, inbound) == ListTotal(b[..i] + b[i + 1..], inbound) + Part(b[i], inbound)
  {
    var k := |b| - 1;
    if i == k {
      assert b[..i] + b[i + 1..] == b[..k];
    } else {
      ListTotalRemove(b[..k], i, inbound);
      assert (b[..i] + b[i + 1..])[..k - 1] == b[..k][..i] + b[..k][i + 1..];
    }
  }

  // ---------- the snapshot loop ----------

  ghost function Holding(m: map<string, Client>, c: Client): set<string> {
    set id | id in m && m[id] == c
  }

  /** `list` holds the records of `all` that are no longer in `rest`. */
  ghost predicate Listed(all: map<string, Client>, rest: map<string, Client>, list: seq<Client>) {
    && |list| + |rest| == |all|
    && (forall c :: multiset(list)[c] + |Holding(rest, c)| == |Holding(all, c)|)
    && (forall inbound: bool :: ListTotal(list, inbound) + Total(rest, inbound) == Total(all, inbound))
  }

  lemma NothingListed(all: map<string, Client>)
    ensures Listed(all, all, [])
  {
  }

  lemma ListOne(all: map<string, Client>, rest: map<string, Client>, list: seq<Client>, id: string)
    requires Listed(all, rest, list) && id in rest
    ensures Listed(all, rest - {id}, list + [rest[id]])
  {
    hide Total, Holding, ListTotal;
    var longer := list + [rest[id]];
    assert longer[..|list|] == list;
    assert |rest - {id}| == |rest| - 1 by {
      assert (rest - {id}).Keys == rest.Keys - {id};
    }
    forall c
      ensures multiset(longer)[c] + |Holding(rest - {id}, c)| == |Holding(all, c)|
    {
      HoldingRemove(rest, id, c);
    }
    forall inbound: bool
      ensures ListTotal(longer, inbound) + Total(rest - {id}, inbound) == Total(all, inbound)
    {
      TotalRemove(rest, inbound, id);
      ListTotalRemove(longer, |list|, inbound);
      assert longer[..|list|] + longer[|list| + 1..] == list;
    }
  }

  lemma HoldingRemove(m: map<string, Client>, id: string, c: Client)
    requires id in m
    ensures |Holding(m - {id}, c)| == |Holding(m, c)| - if m[id] == c then 1 else 0
  {
    if m[id] == c {
      assert Holding(m - {id}, c) == Holding(m, c) - {id};
    } else {
      assert Holding(m - {id}, c) == Holding(m, c);
    }
  }

  lemma AllListed(all: map<string, Client>, list: seq<Client>)
    requires Listed(all, map[], list)
    ensures |list| == |all|
    ensures forall c :: multiset(list)[c] == |Holding(all, c)|
    ensures forall inbound: bool :: ListTotal(list, inbound) == Total(all, inbound)
  {
    forall c { HoldingNone(c); }
  }

  lemma HoldingNone(c: Client)
    ensures Holding(map[], c) == {}
  {
  }

  lemma SortKeeps(list: seq<Client>, sorted: seq<Client>)
    requires sorted == StableSort.Sort(list, (c: Client) => c.connectedAt)
    ensures |sorted| == |list| && multiset(sorted) == multiset(list)
    ensures forall i, j :: 0 <= i < j < |sorted| ==> sorted[i].connectedAt <= sorted[j].connectedAt
    ensures forall inbound: bool :: ListTotal(sorted, inbound) == ListTotal(list, inbound)
  {
    var rank := (c: Client) => c.connectedAt;
    StableSort.SortPermutes(list, rank);
    StableSort.SortIsStable(list, rank);
    assert |sorted| == |multiset(sorted)| == |multiset(list)| == |list|;
    forall inbound: bool
      ensures ListTotal(sorted, inbound) == ListTotal(list, inbound)
    {
      ListTotalPermuted(sorted, list, inbound);
    }
    forall i, j | 0 <= i < j < |sorted|
      ensures sorted[i].connectedAt <= sorted[j].connectedAt
    {
      assert rank(sorted[i]) <= rank(sorted[j]);
    }
  }

  // ---------- the counters count the ledger ----------

  function WrappedClient(c: Client): Client {
    c.(bytesIn := c.bytesIn % TWO_64, bytesOut := c.bytesOut % TWO_64)
  }

  function Wrapped(s: State): State {
    s.(totalBytesIn := s.totalBytesIn % TWO_64, totalBytesOut := s.totalBytesOut % TWO_64,
       clients := map id | id in s.clients :: WrappedClient(s.clients[id]))
  }

  lemma PlusWraps(a: nat, b: nat)
    ensures Plus(Word, a % TWO_64, b) == Plus(Unbounded, a, b) % TWO_64
  {
  }

  lemma StepWraps(s: State, e: Event)
    ensures Step(Word, Wrapped(s), e) == Wrapped(Step(Unbounded, s, e))
  {
    hide Plus;
    match e
    case Register(remoteAddr, now) =>
      assert Step(Word, Wrapped(s), e).clients == Wrapped(Step(Unbounded, s, e)).clients;
    case Unregister(id) =>
      assert Step(Word, Wrapped(s), e).clients == Wrapped(Step(Unbounded, s, e)).clients;
    case Traffic(id, bytesIn, bytesOut) =>
      PlusWraps(s.totalBytesIn, bytesIn);
      PlusWraps(s.totalBytesOut, bytesOut);
      if id in s.clients {
        PlusWraps(s.clients[id].bytesIn, bytesIn);
        PlusWraps(s.clients[id].bytesOut, bytesOut);
      }
      assert Step(Word, Wrapped(s), e).clients == Wrapped(Step(Unbounded, s, e)).clients;
  }

  /** In every run each stored counter is the ledger's, modulo 2^64. */
  lemma {:induction false} CountersWrapTheLedger(es: seq<Event>)
    ensures Run(Word, es) == Wrapped(Run(Unbounded, es))
  {
    if es == [] {
      assert Wrapped(Initial()).clients == map[];
    } else {
      CountersWrapTheLedger(es[..|es| - 1]);
      StepWraps(Run(Unbounded, es[..|es| - 1]), es[|es| - 1]);
    }
  }

  // ---------- conservation ----------

  function TotalPart(s: State, inbound: bool): nat {
    if inbound then s.totalBytesIn else s.totalBytesOut
  }

  ghost function ActivePart(s: State, inbound: bool): nat {
    Total(s.clients, inbound)
  }

  /** Bytes of the record this event removes: a client that leaves, or one whose ID is given out
      again after 2^64 registrations. */
  ghost function Leaving(s: State, e: Event, inbound: bool): nat {
    match e
    case Register(_, _) => Share(s.clients, inbound, ClientId((s.nextClient + 1) % TWO_64))
    case Unregister(id) => Share(s.clients, inbound, id)
    case Traffic(_, _, _) => 0
  }

  ghost function Departed(es: seq<Event>, inbound: bool): nat {
    if es == [] then 0
    else Departed(es[..|es| - 1], inbound) + Leaving(Run(Unbounded, es[..|es| - 1]), es[|es| - 1], inbound)
  }

  function Bytes(e: Event, inbound: bool): nat {
    if !e.Traffic? then 0 else if inbound then e.bytesIn else e.bytesOut
  }

  /** Traffic reported for IDs that were not active. */
  function Unknown(es: seq<Event>, inbound: bool): nat {
    if es == [] then 0
    else
      var s, e := Run(Unbounded, es[..|es| - 1]), es[|es| - 1];
      Unknown(es[..|es| - 1], inbound) + if e.Traffic? && e.id !in s.clients then Bytes(e, inbound) else 0
  }

  function Reported(es: seq<Event>, inbound: bool): nat {
    if es == [] then 0 else Reported(es[..|es| - 1], inbound) + Bytes(es[|es| - 1], inbound)
  }

  lemma StepConserves(s: State, e: Event, inbound: bool)
    ensures ActivePart(Step(Unbounded, s, e), inbound) + Leaving(s, e, inbound) ==
            ActivePart(s, inbound) + if e.Traffic? && e.id in s.clients then Bytes(e, inbound) else 0
  {
    hide Total;
    match e
    case Register(remoteAddr, now) =>
      var id := ClientId((s.nextClient + 1) % TWO_64);
      TotalUpdate(s.clients, inbound, id, Client(id, remoteAddr, now, 0, 0));
    case Unregister(id) =>
      TotalDelete(s.clients, inbound, id);
    case Traffic(id, bytesIn, bytesOut) =>
      if id in s.clients {
        TotalUpdate(s.clients, inbound, id, Credited(Unbounded, s.clients[id], bytesIn, bytesOut));
      }
  }

  /** In every run the ledger's process total is all traffic reported, and it is the sum over the
      active clients, the departed ones and the traffic for unknown IDs. */
  lemma {:induction false} LedgerConserves(es: seq<Event>, inbound: bool)
    ensures TotalPart(Run(Unbounded, es), inbound) == Reported(es, inbound)
    ensures Reported(es, inbound)
      == ActivePart(Run(Unbounded, es), inbound) + Departed(es, inbound) + Unknown(es, inbound)
  {
    hide Total;
    if es == [] {
      EmptyTotal(inbound);
    } else {
      LedgerConserves(es[..|es| - 1], inbound);
      StepConserves(Run(Unbounded, es[..|es| - 1]), es[|es| - 1], inbound);
    }
  }

  lemma EmptyTotal(inbound: bool)
    ensures Total(map[], inbound) == 0
  {
  }

  lemma {:induction false} WrappedTotal(m: map<string, Client>, inbound: bool)
    ensures var w := map id | id in m :: WrappedClient(m[id]);
      Total(w, inbound) % TWO_64 == Total(m, inbound) % TWO_64
    decreases |m|
  {
    hide Total;
    var w := map id | id in m :: WrappedClient(m[id]);
    if m == map[] {
      assert w == m;
    } else {
      var k :| k in m;
      TotalRemove(m, inbound, k);
      TotalRemove(w, inbound, k);
      WrappedTotal(m - {k}, inbound);
      var rest := m - {k};
      assert w - {k} == map id | id in rest :: WrappedClient(rest[id]);
      SumResidue(Part(m[k], inbound), Total(w - {k}, inbound), Total(rest, inbound));
    }
  }

  lemma SumResidue(p: nat, x: nat, y: nat)
    requires x % TWO_64 == y % TWO_64
    ensures (p % TWO_64 + x) % TWO_64 == (p + y) % TWO_64
  {
    ResidueStep(p, x);
    ResidueStep(x, p);
    ResidueStep(y, p);
  }

  lemma ResidueStep(a: nat, b: nat)
    ensures (a % TWO_64 + b) % TWO_64 == (a + b) % TWO_64
  {
  }

  lemma {:induction false} PartInTotal(m: map<string, Client>, inbound: bool, id: string)
    requires id in m
    ensures Part(m[id], inbound) <= Total(m, inbound)
  {
    TotalRemove(m, inbound, id);
  }

  lemma {:induction false} SameParts(m: map<string, Client>, n: map<string, Client>, inbound: bool)
    requires m.Keys == n.Keys && forall id :: id in m ==> Part(m[id], inbound) == Part(n[id], inbound)
    ensures Total(m, inbound) == Total(n, inbound)
    decreases |m|
  {
    hide Total;
    if m == map[] {
      assert n == map[];
    } else {
      var k :| k in m;
      TotalRemove(m, inbound, k);
      TotalRemove(n, inbound, k);
      assert (m - {k}).Keys == m.Keys - {k} == (n - {k}).Keys;
      SameParts(m - {k}, n - {k}, inbound);
    }
  }

  /** Conservation for the stored 64-bit counters, in every run: modulo 2^64. */
  lemma StoredConserves(es: seq<Event>, inbound: bool)
    ensures TotalPart(Run(Word, es), inbound) ==
            (ActivePart(Run(Word, es), inbound) + Departed(es, inbound) + Unknown(es, inbound)) % TWO_64
  {
    hide Run, Departed, Unknown, Reported, Total;
    CountersWrapTheLedger(es);
    LedgerConserves(es, inbound);
    WrappedTotal(Run(Unbounded, es).clients, inbound);
  }

  /** The stored totals and records are exact as long as less than 2^64 bytes were reported. */
  lemma ExactBelowWrap(es: seq<Event>, inbound: bool)
    ensures TotalPart(Run(Word, es), inbound) == Reported(es, inbound) <==> Reported(es, inbound) < TWO_64
    ensures Reported(es, inbound) < TWO_64 ==>
      TotalPart(Run(Word, es), inbound)
        == ActivePart(Run(Word, es), inbound) + Departed(es, inbound) + Unknown(es, inbound)
  {
    hide Run, Departed, Unknown, Reported, Total;
    CountersWrapTheLedger(es);
    LedgerConserves(es, inbound);
    if Reported(es, inbound) < TWO_64 {
      var m, w := Run(Unbounded, es).clients, Run(Word, es).clients;
      forall id | id in m
        ensures Part(w[id], inbound) == Part(m[id], inbound)
      {
        PartInTotal(m, inbound, id);
      }
      SameParts(w, m, inbound);
    }
  }

  // ---------- each client's own account ----------

  function NewId(s: State): string {
    ClientId((s.nextClient + 1) % TWO_64)
  }

  /** Traffic credited to whoever holds this ID, since the ID was last given out. */
  function Account(es: seq<Event>, id: string, inbound: bool): nat {
    if es == [] then 0
    else
      var s, e := Run(Unbounded, es[..|es| - 1]), es[|es| - 1];
      if e.Register? && NewId(s) == id then 0
      else
        var before := Account(es[..|es| - 1], id, inbound);
        if e.Traffic? && e.id == id && id in s.clients then before + Bytes(e, inbound) else before
  }

  lemma {:induction false} RecordIsAccount(es: seq<Event>, id: string, inbound: bool)
    requires id in Run(Word, es).clients
    ensures Run(Word, es).clients[id].id == id
    ensures Part(Run(Word, es).clients[id], inbound) == Account(es, id, inbound) % TWO_64
  {
    CountersWrapTheLedger(es);
    LedgerRecord(es, id, inbound);
  }

  lemma {:induction false} LedgerRecord(es: seq<Event>, id: string, inbound: bool)
    requires id in Run(Unbounded, es).clients
    ensures Run(Unbounded, es).clients[id].id == id
    ensures Part(Run(Unbounded, es).clients[id], inbound) == Account(es, id, inbound)
  {
    hide ClientId;
    var s, e := Run(Unbounded, es[..|es| - 1]), es[|es| - 1];
    if !(e.Register? && NewId(s) == id) {
      LedgerRecord(es[..|es| - 1], id, inbound);
    }
  }

  // ---------- counting clients ----------

  function Registered(es: seq<Event>): nat {
    if es == [] then 0 else Registered(es[..|es| - 1]) + if es[|es| - 1].Register? then 1 else 0
  }

  lemma {:induction false} ClientsCounted(w: Width, es: seq<Event>)
    ensures Run(w, es).totalClients == Run(w, es).nextClient == Registered(es) % TWO_64
  {
    hide ClientId, Plus, Credited;
    if es != [] {
      ClientsCounted(w, es[..|es| - 1]);
      ResidueStep(Registered(es[..|es| - 1]), 1);
    }
  }

  lemma {:induction false} RegisteredConcat(a: seq<Event>, b: seq<Event>)
    ensures Registered(a + b) == Registered(a) + Registered(b)
  {
    if b == [] {
      assert a + b == a;
    } else {
      assert (a + b)[..|a + b| - 1] == a + b[..|b| - 1];
      RegisteredConcat(a, b[..|b| - 1]);
    }
  }

  lemma ClientIdInjective(m: nat, n: nat)
    requires ClientId(m) == ClientId(n)
    ensures m == n
  {
    var prefix := "client-";
    assert ClientId(m)[|prefix|..] == Decimal.Print(m) && ClientId(n)[|prefix|..] == Decimal.Print(n);
    Decimal.PrintInjective(m, n);
  }

  lemma NextId(es: seq<Event>)
    ensures NewId(Run(Word, es)) == ClientId((Registered(es) + 1) % TWO_64)
  {
    hide Run, Registered, ClientId;
    ClientsCounted(Word, es);
    ResidueStep(Registered(es), 1);
  }

  lemma RegisteredAfter(es: seq<Event>, r: Event, later: seq<Event>)
    requires r.Register?
    ensures Registered(es + [r] + later) == Registered(es) + 1 + Registered(later)
  {
    RegisteredConcat(es + [r], later);
    assert (es + [r])[..|es|] == es;
  }

  /** A later registration gets the ID of an earlier one exactly when their distance is a multiple
      of 2^64: no ID is given out twice before that. */
  lemma IdReusedIff(es: seq<Event>, r: Event, later: seq<Event>)
    requires r.Register?
    ensures NewId(Run(Word, es)) == NewId(Run(Word, es + [r] + later)) <==> (Registered(later) + 1) % TWO_64 == 0
  {
    hide Run, Registered, ClientId;
    var a, b := Registered(es), Registered(es + [r] + later);
    NextId(es);
    NextId(es + [r] + later);
    RegisteredAfter(es, r, later);
    if ClientId((a + 1) % TWO_64) == ClientId((b + 1) % TWO_64) {
      ClientIdInjective((a + 1) % TWO_64, (b + 1) % TWO_64);
    }
    SameResidue(a + 1, Registered(later) + 1);
  }

  lemma SameResidue(a: nat, d: nat)
    ensures a % TWO_64 == (a + d) % TWO_64 <==> d % TWO_64 == 0
  {
  }
}
