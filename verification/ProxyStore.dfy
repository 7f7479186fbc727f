/** The store object: sources and proxy nodes together, the operations that change both, and the
    invariant of every reachable state. Each operation is one atomic step. */
module ProxyStore {
  import opened Sources
  import opened NodeStore
  import opened RefreshOrder
  import opened ActiveNodes
  import StableSort
  import opened Wrappers

  lemma KeepSnoc(all: NodeList, i: nat, prefix: string, sourceId: string, ids: map<string, string>)
    requires i < |all|
    ensures Keep(all[..i + 1], prefix, sourceId, ids)
         == Keep(all[..i], prefix, sourceId, ids)
          + if IsInformationalNodeName(all[i].name) then [] else [Imported(all[i], prefix, sourceId, ids)]
  {
    hide IsInformationalNodeName, Imported;
    assert all[..i + 1][..i] == all[..i];
  }

  /** The in-place filter: the kept nodes are written over the front of the slice being read. */
  method FilterInPlace(nodes: array<ProxyNode>, prefix: string, sourceId: string, ids: map<string, string>)
    returns (kept: nat)
    modifies nodes
    ensures kept <= nodes.Length
    ensures nodes[..kept] == Keep(old(nodes[..]), prefix, sourceId, ids)
  {
    hide IsInformationalNodeName, Keep;
    ghost var all := nodes[..];
    kept := 0;
    KeepNothing(prefix, sourceId, ids);
    for i := 0 to nodes.Length
      invariant kept <= i
      invariant nodes[..kept] == Keep(all[..i], prefix, sourceId, ids)
      invariant forall j :: i <= j < nodes.Length ==> nodes[j] == all[j]
    {
      KeepSnoc(all, i, prefix, sourceId, ids);
      var node := nodes[i];
      if !IsInformationalNodeName(node.name) {
        node := node.(name := prefix + node.name);
        node := node.(subscriptionId := sourceId);
        node := node.(id := if node.name in ids then ids[node.name] else "");
        nodes[i] := node;
        nodes[kept] := node;
        kept := kept + 1;
      }
    }
    assert all[..nodes.Length] == all;
  }

  lemma KeepNothing(prefix: string, sourceId: string, ids: map<string, string>)
    ensures Keep([], prefix, sourceId, ids) == []
  {
  }

  lemma OthersOfNone(id: string)
    ensures Others([], id) == []
  {
  }

  lemma OthersNext(nodes: NodeList, id: string, i: nat)
    requires i < |nodes|
    ensures Others(nodes[..i + 1], id)
         == Others(nodes[..i], id) + if nodes[i].subscriptionId == id then [] else [nodes[i]]
  {
    assert nodes[..i + 1][..i] == nodes[..i];
  }

  class Store {
    var sources: SourceList
    var nodes: NodeList

    constructor (sources: SourceList, nodes: NodeList)
      ensures this.sources == sources && this.nodes == nodes
    {
      this.sources, this.nodes := sources, nodes;
    }

    /** The name index over the stored nodes; a later node of the same name wins. */
    method BuildIndex() returns (byName: map<string, nat>)
      ensures IsIndex(byName, nodes)
    {
      hide IsIndex;
      byName := map[];
      EmptyIndex();
      for i := 0 to |nodes|
        invariant IsIndex(byName, nodes[..i])
      {
        IndexAppend(byName, nodes[..i], nodes[i]);
        assert nodes[..i] + [nodes[i]] == nodes[..i + 1];
        byName := byName[nodes[i].name := i];
      }
      assert nodes[..|nodes|] == nodes;
    }

    /** The upsert loop over the name index equals upserting the nodes one by one. */
    method UpsertProxyNodes(incoming: NodeList, newId: nat -> string) returns (imported: nat, skipped: nat)
      modifies this`nodes
      ensures nodes == UpsertAll(old(nodes), incoming, newId)
      ensures imported == CountNamed(incoming) && imported + skipped == |incoming|
    {
      var byName := BuildIndex();
      var list := nodes;
      imported, skipped := 0, 0;
      for i := 0 to |incoming|
        invariant nodes == old(nodes) && IsIndex(byName, list)
        invariant list == UpsertAll(nodes, incoming[..i], newId)
        invariant imported == CountNamed(incoming[..i]) && imported + skipped == i
        invariant imported == 0 ==> list == nodes
      {
        assert incoming[..i + 1][..i] == incoming[..i];
        var node := incoming[i];
        if node.name == "" {
          skipped := skipped + 1;
        } else {
          byName, list := PlaceIndexed(byName, list, node, newId(i));
          imported := imported + 1;
        }
      }
      assert incoming[..|incoming|] == incoming;
      if imported > 0 {
        nodes := list;
      }
    }

    static method PlaceIndexed(byName: map<string, nat>, list: NodeList, incoming: ProxyNode, freshId: string)
      returns (byName': map<string, nat>, list': NodeList)
      requires IsIndex(byName, list) && incoming.name != ""
      ensures IsIndex(byName', list') && list' == UpsertOne(list, incoming, freshId)
    {
      var node := incoming;
      if node.name in byName {
        var idx := byName[node.name];
        assert LastNamed(list, node.name) == Some(idx);
        if node.id == "" {
          node := node.(id := list[idx].id);
        }
        IndexReplace(byName, list, idx, node);
        return byName, list[idx := node];
      }
      if node.id == "" {
        node := node.(id := freshId);
      }
      IndexAppend(byName, list, node);
      return byName[node.name := |list|], list + [node];
    }

    method DeleteProxyNodesBySubscriptionID(id: string)
      modifies this`nodes
      ensures nodes == Others(old(nodes), id)
      ensures var at := OthersAt(old(nodes), id);
        |nodes| == |at| && forall k :: 0 <= k < |at| ==> nodes[k] == old(nodes)[at[k]]
    {
      OthersInOrder(nodes, id);
      OthersOfNone(id);
      hide OthersAt, Others;
      var result: NodeList := [];
      for i := 0 to |nodes|
        invariant nodes == old(nodes) && result == Others(nodes[..i], id)
      {
        OthersNext(nodes, id, i);
        if nodes[i].subscriptionId != id {
          result := result + [nodes[i]];
        }
      }
      assert nodes[..|nodes|] == nodes;
      nodes := result;
    }

    method StoredIds(sourceId: string) returns (ids: map<string, string>)
      ensures ids == ExistingIds(nodes, sourceId)
    {
      ids := map[];
      for i := 0 to |nodes|
        invariant ids == ExistingIds(nodes[..i], sourceId)
      {
        assert nodes[..i + 1][..i] == nodes[..i];
        if nodes[i].subscriptionId == sourceId {
          ids := ids[nodes[i].name := nodes[i].id];
        }
      }
      assert nodes[..|nodes|] == nodes;
    }

    /** Refresh one proxy subscription from freshly fetched nodes, then update its record. */
    method RefreshProxyNodes(src: Source, incoming: array<ProxyNode>, details: string, newId: nat -> string)
      returns (imported: nat, skipped: nat, updated: bool)
      modifies this, incoming
      ensures nodes == Refreshed(old(nodes), src, old(incoming[..]), newId)
      ensures var at := OthersAt(old(nodes), src.id);
        && |at| <= |nodes|
        && forall k :: 0 <= k < |at| ==>
          && nodes[k].name == old(nodes)[at[k]].name
          && (!Fetched(old(incoming[..]), src, nodes[k].name) ==> nodes[k] == old(nodes)[at[k]])
      ensures updated <==> Updated(old(sources), src.(kind := KIND_PROXY, details := details)).Some?
      ensures sources ==
        if updated then Updated(old(sources), src.(kind := KIND_PROXY, details := details)).value
        else old(sources)
    {
      RefreshKeepsOthersInFront(nodes, src, incoming[..], newId);
      hide Updated, Keep, Others, ExistingIds, UpsertAll, Prefix, OthersAt, Fetched;
      var ids := StoredIds(src.id);
      DeleteProxyNodesBySubscriptionID(src.id);
      var kept := FilterInPlace(incoming, Prefix(src.name), src.id, ids);
      imported, skipped := UpsertProxyNodes(incoming[..kept], newId);
      var after := UpdateSubscription(sources, src.(kind := KIND_PROXY, details := details));
      updated := after.Some?;
      if updated {
        sources := after.value;
      }
    }

    /** Delete a source; a proxy source takes its nodes with it. */
    method Delete(id: string) returns (found: bool)
      modifies this
      ensures found <==> FirstWithId(old(sources), id).Some?
      ensures sources == if found then Without(old(sources), id) else old(sources)
      ensures nodes == if LastIsProxy(old(sources), id) then Others(old(nodes), id) else old(nodes)
      ensures var at := OthersAt(old(nodes), id);
        LastIsProxy(old(sources), id) ==> |nodes| == |at| && forall k :: 0 <= k < |at| ==> nodes[k] == old(nodes)[at[k]]
    {
      var after, cascade := DeleteSubscription(sources, id);
      found := after.Some?;
      if found {
        sources := after.value;
      }
      if cascade {
        DeleteProxyNodesBySubscriptionID(id);
      }
    }

    /** The nodes of the enabled proxy sources, without informational entries, in stable rank order. */
    method LoadActiveProxyNodes() returns (active: NodeList)
      ensures active == Active(sources, nodes)
    {
      hide IsInformationalNodeName, Prefix, Rank, TrimPrefix;
      var prefixes: map<string, string> := map[];
      for i := 0 to |sources|
        invariant prefixes == ActivePrefixes(sources[..i])
      {
        assert sources[..i + 1][..i] == sources[..i];
        if sources[i].kind == KIND_PROXY && sources[i].enabled {
          prefixes := prefixes[sources[i].id := Prefix(sources[i].name)];
        }
      }
      assert sources[..|sources|] == sources;
      active := [];
      for i := 0 to |nodes|
        invariant active == Listed(nodes[..i], prefixes)
      {
        assert nodes[..i + 1][..i] == nodes[..i];
        if nodes[i].subscriptionId in prefixes
           && !IsInformationalNodeName(TrimPrefix(nodes[i].name, prefixes[nodes[i].subscriptionId])) {
          active := active + [nodes[i]];
        }
      }
      assert nodes[..|nodes|] == nodes;
      active := StableSort.Sort(active, Rank);
    }
  }

  // ---------- whole runs ----------

  datatype State = State(sources: SourceList, nodes: NodeList)

  /** `Import` brings in a new source with its already prefixed nodes; `Refresh` looks its source up
      by ID and fetches proxy nodes for it. */
  datatype StoreEvent =
    | Manage(e: Event)
    | Import(src: Source, freshId: string, incoming: NodeList, newId: nat -> string)
    | Refresh(id: string, incoming: NodeList, details: string, newId: nat -> string)

  ghost function StoreStep(s: State, e: StoreEvent): State {
    match e
    case Manage(m) =>
      State(Step(s.sources, m), if m.Delete? && LastIsProxy(s.sources, m.id) then Others(s.nodes, m.id) else s.nodes)
    case Import(src, freshId, incoming, newId) =>
      State(Added(s.sources, src, freshId), UpsertAll(s.nodes, incoming, newId))
    case Refresh(id, incoming, details, newId) =>
      match FirstWithId(s.sources, id)
      case None => s
      case Some(i) =>
        var src := s.sources[i];
        State(Step(s.sources, Update(src.(kind := KIND_PROXY, details := details))),
              Refreshed(s.nodes, src, incoming, newId))
  }

  /** Updates keep kind and enabled flag, and a refresh finds proxy nodes only for a proxy source. */
  ghost predicate QuietStep(s: State, e: StoreEvent) {
    match e
    case Manage(m) => Quiet(s.sources, m)
    case Import(_, _, _, _) => true
    case Refresh(id, _, _, _) =>
      FirstWithId(s.sources, id).None? || s.sources[FirstWithId(s.sources, id).value].kind == KIND_PROXY
  }

  ghost function StoreRun(start: State, es: seq<StoreEvent>): State {
    if es == [] then start.(sources := Normalized(start.sources))
    else StoreStep(StoreRun(start, es[..|es| - 1]), es[|es| - 1])
  }

  ghost predicate QuietStoreRun(start: State, es: seq<StoreEvent>) {
    es == [] || (QuietStoreRun(start, es[..|es| - 1]) && QuietStep(StoreRun(start, es[..|es| - 1]), es[|es| - 1]))
  }

  ghost predicate Inv(s: State) {
    SingleEnabled(s.sources) && UniqueNames(s.nodes)
  }

  lemma StoreStepKeeps(s: State, e: StoreEvent)
    requires Inv(s) && QuietStep(s, e)
    ensures Inv(StoreStep(s, e))
  {
    hide SingleEnabled, UniqueNames, Refreshed, Others, Added, UpsertAll, Step, LastIsProxy;
    match e
    case Manage(m) =>
      StepKeeps(s.sources, m);
      if m.Delete? {
        OthersUnique(s.nodes, m.id);
      }
    case Import(src, freshId, incoming, newId) =>
      AddKeeps(s.sources, src, freshId);
      UniqueIsOnce(s.nodes);
      UpsertIsLinear(s.nodes, incoming, newId);
    case Refresh(id, incoming, details, newId) =>
      if FirstWithId(s.sources, id).Some? {
        var src := s.sources[FirstWithId(s.sources, id).value];
        StepKeeps(s.sources, Update(src.(kind := KIND_PROXY, details := details)));
        RefreshUnique(s.nodes, src, incoming, newId);
      }
  }

  /** After start-up with unique node names: in every reachable state at most one source of a kind is
      enabled, names are unique, and all active nodes share one subscription ID. */
  lemma {:induction false} EveryState(start: State, es: seq<StoreEvent>)
    requires UniqueNames(start.nodes) && QuietStoreRun(start, es)
    ensures Inv(StoreRun(start, es))
    ensures var s := StoreRun(start, es);
      forall a, b :: a in Active(s.sources, s.nodes) && b in Active(s.sources, s.nodes) ==>
        a.subscriptionId == b.subscriptionId
  {
    hide SingleEnabled, UniqueNames, Active, StoreStep, QuietStep;
    if es == [] {
      NormalizeEstablishes(start.sources);
    } else {
      EveryState(start, es[..|es| - 1]);
      StoreStepKeeps(StoreRun(start, es[..|es| - 1]), es[|es| - 1]);
    }
    var s := StoreRun(start, es);
    forall a, b | a in Active(s.sources, s.nodes) && b in Active(s.sources, s.nodes)
      ensures a.subscriptionId == b.subscriptionId
    {
      ActiveFromOneSource(s.sources, s.nodes, a, b);
    }
  }
}
