/** The active node list: what the enabled proxy source contributes, in stable rank order. */
module ActiveNodes {
  import opened Text
  import opened Sources
  import opened NodeStore
  import opened StableSort
  import opened Wrappers
  import opened Finite

  // ---------- the default order ----------

  function ProtocolRank(protocol: string): nat {
    if protocol in {"ss", "trojan", "vless", "vmess"} then 0
    else if protocol in {"hysteria2", "hysteria", "tuic"} then 1
    else if protocol == "anytls" then 2
    else 3
  }

  function VariantRank(n: ProxyNode): (rank: nat)
    ensures rank < 5
  {
    var reality := Trim(n.publicKey) != "";
    var vision := Contains(n.flow, "vision");
    var ws := Lower(Trim(n.transport)) in {"ws", "websocket"};
    if reality && vision && !ws then 0
    else if reality && vision then 1
    else if reality then 2
    else if !ws then 3
    else 4
  }

  /** The comparison handed to the stable sort. */
  predicate Before(a: ProxyNode, b: ProxyNode) {
    var ra, rb := ProtocolRank(a.protocol), ProtocolRank(b.protocol);
    if ra != rb then ra < rb else VariantRank(a) < VariantRank(b)
  }

  function Rank(n: ProxyNode): nat {
    5 * ProtocolRank(n.protocol) + VariantRank(n)
  }

  /** The two-level comparison is the order of one number, hence a strict weak order. */
  lemma BeforeIsRank(a: ProxyNode, b: ProxyNode)
    ensures Before(a, b) <==> Rank(a) < Rank(b)
  {
    hide ProtocolRank, VariantRank;
  }

  /** The order in words: plain TCP protocols, then the QUIC family, then anytls, then the rest; within each
      REALITY with vision outside WebSocket, with vision, without, and then the others, WebSocket last. */
  lemma RankIs(n: ProxyNode)
    ensures var family, variant := Rank(n) / 5, Rank(n) % 5;
      var reality, vision, ws :=
        Trim(n.publicKey) != "", Contains(n.flow, "vision"), Lower(Trim(n.transport)) in {"ws", "websocket"};
      && (family == 0 <==> n.protocol in {"ss", "trojan", "vless", "vmess"})
      && (family == 1 <==> n.protocol in {"hysteria2", "hysteria", "tuic"})
      && (family == 2 <==> n.protocol == "anytls")
      && (variant == 0 <==> reality && vision && !ws) && (variant == 1 <==> reality && vision && ws)
      && (variant == 2 <==> reality && !vision)
      && (variant == 3 <==> !reality && !ws) && (variant == 4 <==> !reality && ws)
  {
    hide Contains, Trim, Lower;
    FamilyIs(n.protocol);
    VariantIs(n);
    hide ProtocolRank, VariantRank;
  }

  lemma FamilyIs(protocol: string)
    ensures ProtocolRank(protocol) <= 3
    ensures ProtocolRank(protocol) == 0 <==> protocol in {"ss", "trojan", "vless", "vmess"}
    ensures ProtocolRank(protocol) == 1 <==> protocol in {"hysteria2", "hysteria", "tuic"}
    ensures ProtocolRank(protocol) == 2 <==> protocol == "anytls"
  {
  }

  lemma VariantIs(n: ProxyNode)
    ensures var variant := VariantRank(n);
      var reality, vision, ws :=
        Trim(n.publicKey) != "", Contains(n.flow, "vision"), Lower(Trim(n.transport)) in {"ws", "websocket"};
      && (variant == 0 <==> reality && vision && !ws) && (variant == 1 <==> reality && vision && ws)
      && (variant == 2 <==> reality && !vision)
      && (variant == 3 <==> !reality && !ws) && (variant == 4 <==> !reality && ws)
  {
    hide Contains, Trim, Lower;
  }

  // ---------- which nodes are listed ----------

  predicate Feeds(s: Source) {
    s.kind == KIND_PROXY && s.enabled
  }

  /** Enabled proxy sources and the name prefix of each; a later source of the same ID wins. */
  function ActivePrefixes(ss: SourceList): (active: map<string, string>)
    ensures forall id :: id in active ==>
      exists i :: 0 <= i < |ss| && Feeds(ss[i]) && ss[i].id == id && active[id] == Prefix(ss[i].name)
    ensures forall i :: 0 <= i < |ss| && Feeds(ss[i]) ==> ss[i].id in active
  {
    if ss == [] then map[]
    else
      var s := ss[|ss| - 1];
      var active := ActivePrefixes(ss[..|ss| - 1]);
      if Feeds(s) then active[s.id := Prefix(s.name)] else active
  }

  predicate IsListed(n: ProxyNode, active: map<string, string>) {
    n.subscriptionId in active && !IsInformationalNodeName(TrimPrefix(n.name, active[n.subscriptionId]))
  }

  function TrimPrefix(s: string, prefix: string): string {
    if prefix <= s then s[|prefix|..] else s
  }

  function Listed(nodes: NodeList, active: map<string, string>): (listed: NodeList)
    ensures forall n :: n in listed <==> n in nodes && IsListed(n, active)
  {
    if nodes == [] then []
    else if IsListed(nodes[|nodes| - 1], active) then Listed(nodes[..|nodes| - 1], active) + [nodes[|nodes| - 1]]
    else Listed(nodes[..|nodes| - 1], active)
  }

  function Active(ss: SourceList, nodes: NodeList): NodeList {
    Sort(Listed(nodes, ActivePrefixes(ss)), Rank)
  }

  /** The nodes of one source that are not informational entries. */
  function OfSource(nodes: NodeList, s: Source): NodeList {
    if nodes == [] then []
    else
      var k := |nodes| - 1;
      OfSource(nodes[..k], s)
      + if nodes[k].subscriptionId == s.id && !IsInformationalNodeName(TrimPrefix(nodes[k].name, Prefix(s.name)))
        then [nodes[k]] else []
  }

  /** Where the nodes of a source are that are no informational entries under its prefix. */
  ghost function OfSourceAt(nodes: NodeList, s: Source): (at: seq<nat>)
    ensures forall k :: 0 <= k < |at| ==> at[k] < |nodes| && ShownBy(nodes[at[k]], s)
    ensures forall j, k :: 0 <= j < k < |at| ==> at[j] < at[k]
    ensures forall i :: 0 <= i < |nodes| && ShownBy(nodes[i], s) ==> i in at
  {
    Positions(ShownMarks(nodes, s))
  }

  ghost function ShownMarks(nodes: NodeList, s: Source): (marks: seq<bool>)
    ensures |marks| == |nodes| && forall i :: 0 <= i < |nodes| ==> marks[i] == ShownBy(nodes[i], s)
  {
    seq(|nodes|, i requires 0 <= i < |nodes| => ShownBy(nodes[i], s))
  }

  predicate ShownBy(n: ProxyNode, s: Source) {
    n.subscriptionId == s.id && !IsInformationalNodeName(TrimPrefix(n.name, Prefix(s.name)))
  }

  lemma OfSourceAtNext(nodes: NodeList, s: Source)
    requires nodes != []
    ensures var k := |nodes| - 1;
      OfSourceAt(nodes, s) == OfSourceAt(nodes[..k], s) + if ShownBy(nodes[k], s) then [k] else []
  {
    hide ShownBy, Positions;
    PositionsNext(ShownMarks(nodes, s));
    ShownMarksNext(nodes, s);
  }

  lemma ShownMarksNext(nodes: NodeList, s: Source)
    requires nodes != []
    ensures ShownMarks(nodes, s)[..|nodes| - 1] == ShownMarks(nodes[..|nodes| - 1], s)
  {
    hide ShownBy;
  }

  lemma NothingOfSource(s: Source)
    ensures OfSourceAt([], s) == []
  {
  }

  /** A source contributes exactly those nodes, in stored order. */
  lemma {:induction false} OfSourceInOrder(nodes: NodeList, s: Source)
    ensures |OfSource(nodes, s)| == |OfSourceAt(nodes, s)|
    ensures forall k :: 0 <= k < |OfSourceAt(nodes, s)| ==> OfSource(nodes, s)[k] == nodes[OfSourceAt(nodes, s)[k]]
  {
    hide IsInformationalNodeName, Prefix, TrimPrefix, OfSourceAt;
    if nodes == [] {
      NothingOfSource(s);
    } else {
      OfSourceInOrder(nodes[..|nodes| - 1], s);
      OfSourceAtNext(nodes, s);
    }
  }

  lemma OnlyFeed(ss: SourceList, i: nat)
    requires SingleEnabled(ss) && i < |ss| && Feeds(ss[i])
    ensures ActivePrefixes(ss) == map[ss[i].id := Prefix(ss[i].name)]
  {
    hide ActivePrefixes, Prefix;
    var active := ActivePrefixes(ss);
    forall id | id in active
      ensures id == ss[i].id && active[id] == Prefix(ss[i].name)
    {
      var j :| 0 <= j < |ss| && Feeds(ss[j]) && ss[j].id == id && active[id] == Prefix(ss[j].name);
      assert SubscriptionKind(ss[i]) == SubscriptionKind(ss[j]);
      assert j == i;
    }
  }

  lemma {:induction false} ListedOfSource(nodes: NodeList, s: Source)
    ensures Listed(nodes, map[s.id := Prefix(s.name)]) == OfSource(nodes, s)
  {
    hide IsInformationalNodeName, Prefix, TrimPrefix;
    if nodes != [] {
      ListedOfSource(nodes[..|nodes| - 1], s);
    }
  }

  /** Under the single-source rule the active list is the one stable rank-order arrangement of the
      enabled source's nodes: a permutation of them, and any stable sort gives the same list. */
  lemma ActiveIsStableSort(ss: SourceList, nodes: NodeList, i: nat, sorted: NodeList)
    requires SingleEnabled(ss) && i < |ss| && Feeds(ss[i])
    ensures IsStableSort(OfSource(nodes, ss[i]), sorted, Rank) <==> sorted == Active(ss, nodes)
    ensures multiset(Active(ss, nodes)) == multiset(OfSource(nodes, ss[i]))
  {
    hide Rank, Prefix, Listed, OfSource;
    OnlyFeed(ss, i);
    ListedOfSource(nodes, ss[i]);
    SortIsStable(OfSource(nodes, ss[i]), Rank);
    SortPermutes(OfSource(nodes, ss[i]), Rank);
    if IsStableSort(OfSource(nodes, ss[i]), sorted, Rank) {
      SameByRankThrough(OfSource(nodes, ss[i]), sorted, Active(ss, nodes), Rank);
      StableSortUnique(sorted, Active(ss, nodes), Rank);
    }
  }

  lemma {:induction false} ListedNone(nodes: NodeList)
    ensures Listed(nodes, map[]) == []
  {
    if nodes != [] {
      ListedNone(nodes[..|nodes| - 1]);
    }
  }

  lemma NoFeedNoNodes(ss: SourceList, nodes: NodeList)
    requires forall i :: 0 <= i < |ss| ==> !Feeds(ss[i])
    ensures Active(ss, nodes) == []
  {
    assert ActivePrefixes(ss) == map[];
    ListedNone(nodes);
  }

  /** All active nodes belong to one subscription. */
  lemma ActiveFromOneSource(ss: SourceList, nodes: NodeList, a: ProxyNode, b: ProxyNode)
    requires SingleEnabled(ss) && a in Active(ss, nodes) && b in Active(ss, nodes)
    ensures a.subscriptionId == b.subscriptionId
  {
    hide Rank, Prefix, IsInformationalNodeName, TrimPrefix;
    var active := ActivePrefixes(ss);
    SortPermutes(Listed(nodes, active), Rank);
    assert a in multiset(Active(ss, nodes)) && b in multiset(Active(ss, nodes));
    assert a in Listed(nodes, active) && b in Listed(nodes, active);
    var i :| 0 <= i < |ss| && Feeds(ss[i]) && ss[i].id == a.subscriptionId
      && active[a.subscriptionId] == Prefix(ss[i].name);
    OnlyFeed(ss, i);
  }

  /** The listing's prefix is the one the refresh put on: right after a refresh every node of the
      enabled source is listed. */
  lemma RefreshedAreListed(ss: SourceList, i: nat, nodes: NodeList, incoming: NodeList, newId: nat -> string,
                           n: ProxyNode)
    requires SingleEnabled(ss) && i < |ss| && Feeds(ss[i])
    requires NoClash(nodes, ss[i], incoming)
    requires n in Refreshed(nodes, ss[i], incoming, newId) && n.subscriptionId == ss[i].id
    ensures n in Active(ss, Refreshed(nodes, ss[i], incoming, newId))
  {
    hide Rank, Prefix, IsInformationalNodeName, NoClash, Refreshed, ActivePrefixes, Listed;
    var after := Refreshed(nodes, ss[i], incoming, newId);
    RefreshNames(nodes, ss[i], incoming, newId, n.name);
    var m :| m in incoming && !IsInformationalNodeName(m.name) && n.name == Prefix(ss[i].name) + m.name;
    assert TrimPrefix(n.name, Prefix(ss[i].name)) == m.name;
    OnlyFeed(ss, i);
    var active := ActivePrefixes(ss);
    assert n in Listed(after, active);
    SortPermutes(Listed(after, active), Rank);
    assert n in multiset(Listed(after, active));
    assert n in multiset(Active(ss, after));
  }
}
