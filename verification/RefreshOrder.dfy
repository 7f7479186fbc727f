/** What a delete and a refresh leave in the node store, by position: who stays, where, and in which
    order the fetched nodes follow. */
module RefreshOrder {
  import opened Finite
  import opened Sources
  import opened NodeStore
  import opened Wrappers

  // ---------- who stays ----------

  /** Where the nodes of other subscriptions are. */
  ghost function OthersAt(nodes: NodeList, id: string): (at: seq<nat>)
    ensures forall k :: 0 <= k < |at| ==> at[k] < |nodes| && nodes[at[k]].subscriptionId != id
    ensures forall j, k :: 0 <= j < k < |at| ==> at[j] < at[k]
    ensures forall i :: 0 <= i < |nodes| && nodes[i].subscriptionId != id ==> i in at
  {
    Positions(seq(|nodes|, i requires 0 <= i < |nodes| => nodes[i].subscriptionId != id))
  }

  lemma OthersAtNext(nodes: NodeList, id: string)
    requires nodes != []
    ensures var k := |nodes| - 1;
      OthersAt(nodes, id) == OthersAt(nodes[..k], id) + if nodes[k].subscriptionId != id then [k] else []
  {
    var k := |nodes| - 1;
    var marks := seq(|nodes|, i requires 0 <= i < |nodes| => nodes[i].subscriptionId != id);
    PositionsNext(marks);
    assert marks[..k] == seq(k, i requires 0 <= i < k => nodes[..k][i].subscriptionId != id);
  }

  /** The nodes of other subscriptions stay, in their order. */
  lemma {:induction false} OthersInOrder(nodes: NodeList, id: string)
    ensures |Others(nodes, id)| == |OthersAt(nodes, id)|
    ensures forall k :: 0 <= k < |OthersAt(nodes, id)| ==> Others(nodes, id)[k] == nodes[OthersAt(nodes, id)[k]]
  {
    hide OthersAt;
    if nodes == [] {
      assert OthersAt(nodes, id) == [] by { NothingAt(id); }
    } else {
      OthersInOrder(nodes[..|nodes| - 1], id);
      OthersAtNext(nodes, id);
    }
  }

  lemma NothingAt(id: string)
    ensures OthersAt([], id) == []
  {
  }

  lemma {:induction false} UpsertKeepsPlace(base: NodeList, ks: NodeList, newId: nat -> string, p: nat)
    requires p < |base|
    ensures var after := UpsertAll(base, ks, newId);
      |base| <= |after| && after[p].name == base[p].name && (!Named(ks, base[p].name) ==> after[p] == base[p])
  {
    hide Named;
    if ks != [] {
      UpsertKeepsPlace(base, ks[..|ks| - 1], newId, p);
      NamedStep(ks, base[p].name);
    }
  }

  /** Some fetched node goes by this stored name. */
  ghost predicate Fetched(incoming: NodeList, src: Source, name: string) {
    exists m :: m in incoming && !IsInformationalNodeName(m.name) && name == Prefix(src.name) + m.name
  }

  /** A refresh leaves the nodes of other subscriptions in front, at their old places among each other;
      each keeps its name, and is the same node unless a fetched node takes that name. */
  lemma RefreshKeepsOthersInFront(nodes: NodeList, src: Source, incoming: NodeList, newId: nat -> string)
    ensures var at, after := OthersAt(nodes, src.id), Refreshed(nodes, src, incoming, newId);
      && |at| <= |after|
      && forall k :: 0 <= k < |at| ==>
        after[k].name == nodes[at[k]].name && (!Fetched(incoming, src, nodes[at[k]].name) ==> after[k] == nodes[at[k]])
  {
    hide OthersAt, UpsertAll, KeptOf, Fetched;
    var at, after := OthersAt(nodes, src.id), Refreshed(nodes, src, incoming, newId);
    OthersInOrder(nodes, src.id);
    forall k | 0 <= k < |at|
      ensures k < |after| && after[k].name == nodes[at[k]].name
      ensures !Fetched(incoming, src, nodes[at[k]].name) ==> after[k] == nodes[at[k]]
    {
      UpsertKeepsPlace(Others(nodes, src.id), KeptOf(nodes, src, incoming), newId, k);
      FetchedIsKept(nodes, src, incoming, nodes[at[k]].name);
    }
    if |at| > 0 {
      UpsertKeepsPlace(Others(nodes, src.id), KeptOf(nodes, src, incoming), newId, 0);
    }
  }

  lemma FetchedIsKept(nodes: NodeList, src: Source, incoming: NodeList, name: string)
    ensures Named(KeptOf(nodes, src, incoming), name) <==> Fetched(incoming, src, name)
  {
    KeptNames(nodes, src, incoming, name);
  }

  // ---------- what follows ----------

  /** Where the nodes that are no informational entries are. */
  ghost function FetchedAt(incoming: NodeList): (at: seq<nat>)
    ensures forall k :: 0 <= k < |at| ==> at[k] < |incoming| && !IsInformationalNodeName(incoming[at[k]].name)
    ensures forall j, k :: 0 <= j < k < |at| ==> at[j] < at[k]
    ensures forall i :: 0 <= i < |incoming| && !IsInformationalNodeName(incoming[i].name) ==> i in at
  {
    hide IsInformationalNodeName;
    Positions(seq(|incoming|, i requires 0 <= i < |incoming| => !IsInformationalNodeName(incoming[i].name)))
  }

  lemma FetchedAtNext(incoming: NodeList)
    requires incoming != []
    ensures var k := |incoming| - 1;
      FetchedAt(incoming) == FetchedAt(incoming[..k]) + if IsInformationalNodeName(incoming[k].name) then [] else [k]
  {
    hide IsInformationalNodeName;
    var k := |incoming| - 1;
    var marks := seq(|incoming|, i requires 0 <= i < |incoming| => !IsInformationalNodeName(incoming[i].name));
    PositionsNext(marks);
    assert marks[..k] == seq(k, i requires 0 <= i < k => !IsInformationalNodeName(incoming[..k][i].name));
  }

  /** What is kept of the fetched nodes: all fields but name, owner and ID as fetched. */
  lemma {:induction false} KeepInOrder(incoming: NodeList, prefix: string, sourceId: string, ids: map<string, string>)
    ensures var kept, at := Keep(incoming, prefix, sourceId, ids), FetchedAt(incoming);
      && |kept| == |at|
      && forall k :: 0 <= k < |at| ==>
        var m := incoming[at[k]];
        kept[k] == ProxyNode(if prefix + m.name in ids then ids[prefix + m.name] else "", sourceId, prefix + m.name,
                             m.protocol, m.publicKey, m.flow, m.transport, m.payload)
  {
    hide FetchedAt, IsInformationalNodeName;
    if incoming == [] {
      assert FetchedAt(incoming) == [] by { NothingFetched(); }
    } else {
      KeepInOrder(incoming[..|incoming| - 1], prefix, sourceId, ids);
      FetchedAtNext(incoming);
    }
  }

  lemma NothingFetched()
    ensures FetchedAt([]) == []
  {
  }

  /** Position l holds the last fetched node of the name at position f. */
  ghost predicate LastOfName(incoming: NodeList, f: nat, l: nat) {
    && f < |incoming| && l < |incoming| && incoming[l].name == incoming[f].name
    && forall i :: l < i < |incoming| ==> incoming[i].name != incoming[l].name
  }

  /** Position i holds the last stored node of this owner and name. */
  ghost predicate LastStored(nodes: NodeList, sourceId: string, name: string, i: nat) {
    && i < |nodes| && nodes[i].subscriptionId == sourceId && nodes[i].name == name
    && forall j :: i < j < |nodes| ==> nodes[j].subscriptionId != sourceId || nodes[j].name != name
  }

  /** The ID a refreshed node has: the stored one of its name, or a fresh one. */
  ghost predicate KeepsOrDrawsId(nodes: NodeList, sourceId: string, n: ProxyNode, newId: nat -> string) {
    || (exists i: nat :: LastStored(nodes, sourceId, n.name, i) && nodes[i].id != "" && n.id == nodes[i].id)
    || ((forall i: nat :: LastStored(nodes, sourceId, n.name, i) ==> nodes[i].id == "")
        && exists q: nat :: n.id == newId(q))
  }

  lemma {:induction false} StoredId(nodes: NodeList, sourceId: string, name: string) returns (i: nat)
    ensures name in ExistingIds(nodes, sourceId) ==>
      LastStored(nodes, sourceId, name, i) && ExistingIds(nodes, sourceId)[name] == nodes[i].id
    ensures name !in ExistingIds(nodes, sourceId) ==> forall j: nat :: !LastStored(nodes, sourceId, name, j)
  {
    i := 0;
    if nodes != [] {
      var k := |nodes| - 1;
      i := StoredId(nodes[..k], sourceId, name);
      if nodes[k].subscriptionId == sourceId && nodes[k].name == name {
        i := k;
      } else {
        assert forall j: nat :: LastStored(nodes, sourceId, name, j) ==> LastStored(nodes[..k], sourceId, name, j);
      }
    }
  }

  /** The stored node for the name first fetched at f: the last fetched node of that name, prefixed and
      owned by the source, every other field as fetched. */
  ghost predicate StoredFor(n: ProxyNode, nodes: NodeList, src: Source, incoming: NodeList, newId: nat -> string,
                            f: nat) {
    && (exists l: nat :: LastOfName(incoming, f, l)
          && n == incoming[l].(id := n.id, subscriptionId := src.id, name := Prefix(src.name) + incoming[l].name))
    && KeepsOrDrawsId(nodes, src.id, n, newId)
  }

  /** Where a name that is no informational entry is fetched for the first time. */
  ghost predicate FirstFetched(incoming: NodeList, f: nat) {
    && f < |incoming| && !IsInformationalNodeName(incoming[f].name)
    && forall i :: 0 <= i < f ==> incoming[i].name != incoming[f].name
  }

  lemma KeptAt(nodes: NodeList, src: Source, incoming: NodeList, k: nat)
    requires k < |FetchedAt(incoming)|
    ensures |KeptOf(nodes, src, incoming)| == |FetchedAt(incoming)|
    ensures var n, m := KeptOf(nodes, src, incoming)[k], incoming[FetchedAt(incoming)[k]];
      && n.name == Prefix(src.name) + m.name
      && n == m.(id := n.id, subscriptionId := src.id, name := Prefix(src.name) + m.name)
      && n.id == if n.name in ExistingIds(nodes, src.id) then ExistingIds(nodes, src.id)[n.name] else ""
  {
    hide FetchedAt, IsInformationalNodeName, Prefix, ExistingIds, Keep;
    KeepInOrder(incoming, Prefix(src.name), src.id, ExistingIds(nodes, src.id));
  }

  lemma SameName(prefix: string, a: string, b: string)
    ensures prefix + a == prefix + b <==> a == b
  {
    assert (prefix + a)[|prefix|..] == a && (prefix + b)[|prefix|..] == b;
  }

  ghost predicate NamedAlike(kept: NodeList, incoming: NodeList, at: seq<nat>, j: nat, k: nat) {
    && j < |kept| && k < |kept| && j < |at| && k < |at| && at[j] < |incoming| && at[k] < |incoming|
    && (kept[j].name == kept[k].name <==> incoming[at[j]].name == incoming[at[k]].name)
  }

  /** Kept nodes have one name exactly if the nodes they come from have. */
  lemma KeptNameIff(nodes: NodeList, src: Source, incoming: NodeList, j: nat, k: nat)
    requires j < |FetchedAt(incoming)| && k < |FetchedAt(incoming)|
    ensures |KeptOf(nodes, src, incoming)| == |FetchedAt(incoming)|
    ensures NamedAlike(KeptOf(nodes, src, incoming), incoming, FetchedAt(incoming), j, k)
  {
    hide FetchedAt, KeptOf, Prefix;
    KeptAt(nodes, src, incoming, j);
    KeptAt(nodes, src, incoming, k);
    SameName(Prefix(src.name), incoming[FetchedAt(incoming)[j]].name, incoming[FetchedAt(incoming)[k]].name);
  }

  lemma KeptFirst(nodes: NodeList, src: Source, incoming: NodeList, k: nat)
    requires k < |FetchedAt(incoming)|
    ensures |KeptOf(nodes, src, incoming)| == |FetchedAt(incoming)|
    ensures FirstAt(KeptOf(nodes, src, incoming), k) <==> FirstFetched(incoming, FetchedAt(incoming)[k])
  {
    hide FetchedAt, KeptOf, IsInformationalNodeName;
    var kept, at := KeptOf(nodes, src, incoming), FetchedAt(incoming);
    KeptAt(nodes, src, incoming, k);
    forall j | 0 <= j < |at|
      ensures kept[j].name == kept[k].name <==> incoming[at[j]].name == incoming[at[k]].name
    {
      KeptNameIff(nodes, src, incoming, j, k);
    }
    if FirstAt(kept, k) {
      forall i | 0 <= i < at[k]
        ensures incoming[i].name != incoming[at[k]].name
      {
        if !IsInformationalNodeName(incoming[i].name) {
          var j :| 0 <= j < |at| && at[j] == i;
          assert j < k ==> incoming[at[j]].name != incoming[at[k]].name;
        }
      }
    }
    if FirstFetched(incoming, at[k]) {
      forall j | 0 <= j < k
        ensures kept[j].name != kept[k].name
      {
        assert at[j] < at[k];
      }
    }
  }

  /** The last kept node of a name comes from the last fetched one. */
  lemma KeptLast(nodes: NodeList, src: Source, incoming: NodeList, f: nat, l: nat)
    requires f < |FetchedAt(incoming)| && l < |FetchedAt(incoming)|
    requires |KeptOf(nodes, src, incoming)| == |FetchedAt(incoming)|
    requires LastNamed(KeptOf(nodes, src, incoming), KeptOf(nodes, src, incoming)[f].name) == Some(l)
    ensures LastOfName(incoming, FetchedAt(incoming)[f], FetchedAt(incoming)[l])
  {
    hide FetchedAt, KeptOf, IsInformationalNodeName;
    var kept, at := KeptOf(nodes, src, incoming), FetchedAt(incoming);
    KeptNameIff(nodes, src, incoming, l, f);
    forall i | at[l] < i < |incoming|
      ensures incoming[i].name != incoming[at[l]].name
    {
      if incoming[i].name == incoming[at[l]].name {
        assert i in at;
        var j :| 0 <= j < |at| && at[j] == i;
        assert l < j;
        KeptNameIff(nodes, src, incoming, j, l);
        hide LastNamed;
      }
    }
  }

  lemma MergedStoredFor(nodes: NodeList, src: Source, incoming: NodeList, newId: nat -> string, f: nat)
    requires f < |KeptOf(nodes, src, incoming)|
    ensures f < |FetchedAt(incoming)|
    ensures StoredFor(Merged(KeptOf(nodes, src, incoming), f, newId), nodes, src, incoming, newId,
                      FetchedAt(incoming)[f])
  {
    hide FetchedAt, KeptOf, IsInformationalNodeName, Prefix, ExistingIds, LastOfName, LastStored;
    var kept, at := KeptOf(nodes, src, incoming), FetchedAt(incoming);
    KeptLength(nodes, src, incoming);
    var l := LastNamed(kept, kept[f].name).value;
    KeptLast(nodes, src, incoming, f, l);
    KeptAt(nodes, src, incoming, l);
    var n := Merged(kept, f, newId);
    var i := StoredId(nodes, src.id, n.name);
    assert n == incoming[at[l]].(id := n.id, subscriptionId := src.id, name := Prefix(src.name) + incoming[at[l]].name);
    DrawsId(nodes, src.id, n, newId, i, kept[l].id, f);
  }

  lemma DrawsId(nodes: NodeList, sourceId: string, n: ProxyNode, newId: nat -> string, i: nat, stored: string, f: nat)
    requires n.name in ExistingIds(nodes, sourceId) ==>
      LastStored(nodes, sourceId, n.name, i) && ExistingIds(nodes, sourceId)[n.name] == nodes[i].id
    requires n.name !in ExistingIds(nodes, sourceId) ==> forall j: nat :: !LastStored(nodes, sourceId, n.name, j)
    requires stored == if n.name in ExistingIds(nodes, sourceId) then ExistingIds(nodes, sourceId)[n.name] else ""
    requires n.id == if stored == "" then newId(f) else stored
    ensures KeepsOrDrawsId(nodes, sourceId, n, newId)
  {
    hide ExistingIds;
  }

  lemma KeptLength(nodes: NodeList, src: Source, incoming: NodeList)
    ensures |KeptOf(nodes, src, incoming)| == |FetchedAt(incoming)|
  {
    hide FetchedAt, IsInformationalNodeName, Prefix, ExistingIds, Keep;
    KeepInOrder(incoming, Prefix(src.name), src.id, ExistingIds(nodes, src.id));
  }

  /** Where the names are fetched first, as the positions of the kept nodes say it. */
  lemma FirstsFetched(nodes: NodeList, src: Source, incoming: NodeList) returns (firsts: seq<nat>)
    ensures var kept, fetched := KeptOf(nodes, src, incoming), FetchedAt(incoming);
      && |kept| == |fetched| && |firsts| == |Firsts(kept)|
      && forall k :: 0 <= k < |firsts| ==> firsts[k] == fetched[Firsts(kept)[k]]
    ensures forall k :: 0 <= k < |firsts| ==> FirstFetched(incoming, firsts[k])
    ensures forall j, k :: 0 <= j < k < |firsts| ==> firsts[j] < firsts[k]
    ensures forall f: nat :: FirstFetched(incoming, f) ==> f in firsts
  {
    hide FetchedAt, KeptOf, FirstFetched, Firsts, FirstAt;
    var kept, fetched := KeptOf(nodes, src, incoming), FetchedAt(incoming);
    var fs := Firsts(kept);
    KeptLength(nodes, src, incoming);
    firsts := seq(|fs|, k requires 0 <= k < |fs| => fetched[fs[k]]);
    forall k | 0 <= k < |fs|
      ensures FirstFetched(incoming, firsts[k])
    {
      KeptFirst(nodes, src, incoming, fs[k]);
    }
    forall f: nat | FirstFetched(incoming, f)
      ensures f in firsts
    {
      FirstIsFetched(incoming, f);
      var x :| 0 <= x < |fetched| && fetched[x] == f;
      KeptFirst(nodes, src, incoming, x);
      var k :| 0 <= k < |fs| && fs[k] == x;
      assert firsts[k] == f;
    }
  }

  /** The store after a refresh whose names clash with nobody's, by position: the nodes of the other
      subscriptions at their old places among each other, and then, for every fetched name in the order
      of its first appearance, one node. */
  lemma RefreshInOrder(nodes: NodeList, src: Source, incoming: NodeList, newId: nat -> string)
    returns (firsts: seq<nat>)
    requires NoClash(nodes, src, incoming)
    ensures forall k :: 0 <= k < |firsts| ==> FirstFetched(incoming, firsts[k])
    ensures forall j, k :: 0 <= j < k < |firsts| ==> firsts[j] < firsts[k]
    ensures forall f: nat :: FirstFetched(incoming, f) ==> f in firsts
    ensures var at, after := OthersAt(nodes, src.id), Refreshed(nodes, src, incoming, newId);
      && |after| == |at| + |firsts|
      && (forall k :: 0 <= k < |at| ==> after[k] == nodes[at[k]])
      && (forall k :: 0 <= k < |firsts| ==> StoredFor(after[|at| + k], nodes, src, incoming, newId, firsts[k]))
  {
    hide OthersAt, FetchedAt, KeptOf, Others, Refreshed, NoClash, StoredFor, FirstFetched, Merged, Firsts, FirstAt;
    var kept := KeptOf(nodes, src, incoming);
    firsts := FirstsFetched(nodes, src, incoming);
    RefreshExact(nodes, src, incoming, newId);
    OthersInOrder(nodes, src.id);
    forall k | 0 <= k < |firsts|
      ensures StoredFor(MergedAll(kept, newId)[k], nodes, src, incoming, newId, firsts[k])
    {
      MergedStoredFor(nodes, src, incoming, newId, Firsts(kept)[k]);
    }
    hide MergedAll;
  }

  lemma FirstIsFetched(incoming: NodeList, f: nat)
    requires FirstFetched(incoming, f)
    ensures f in FetchedAt(incoming)
  {
    hide IsInformationalNodeName;
  }
}
