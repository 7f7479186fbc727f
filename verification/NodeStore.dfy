/** Stored proxy nodes: upsert through a name index, and refresh of one subscription (in-place
    filter, delete by source, upsert, IDs carried over). */
module NodeStore {
  import opened Text
  import opened Sources
  import opened Wrappers

  /** `publicKey` is empty when the node has no TLS section; `payload` stands for the fields that
      are only carried along. */
  datatype ProxyNode = ProxyNode(id: string, subscriptionId: string, name: string, protocol: string,
                                 publicKey: string, flow: string, transport: string, payload: string)

  type NodeList = seq<ProxyNode>

  // ---------- names ----------

  function SanitizeChar(c: char): char {
    if 'a' <= c <= 'z' || 'A' <= c <= 'Z' || '0' <= c <= '9' || c == '-' || c == '_' || c == '.' then c else '-'
  }

  function TrimDashes(s: string): string {
    if s != "" && s[0] == '-' then TrimDashes(s[1..])
    else if s != "" && s[|s| - 1] == '-' then TrimDashes(s[..|s| - 1])
    else s
  }

  /** The name prefix of a subscription's nodes. */
  function Prefix(name: string): (p: string)
    ensures p != ""
  {
    var p := TrimDashes(seq(|name|, i requires 0 <= i < |name| => SanitizeChar(name[i])));
    (if p == "" then "subscription" else p) + "-"
  }

  /** Characters a prefix keeps. */
  predicate PlainChar(c: char) {
    'a' <= c <= 'z' || 'A' <= c <= 'Z' || '0' <= c <= '9' || c in {'-', '_', '.'}
  }

  /** How many characters go at either end. */
  ghost predicate Dashed(s: string, left: nat, rest: string, right: nat) {
    && left + |rest| + right == |s| && rest == s[left..left + |rest|]
    && forall i :: 0 <= i < left || |s| - right <= i < |s| ==> s[i] == '-'
  }

  lemma DashedLeft(s: string, left: nat, rest: string, right: nat)
    requires s != "" && s[0] == '-' && Dashed(s[1..], left, rest, right)
    ensures Dashed(s, left + 1, rest, right)
  {
    forall i | 0 <= i < left + 1 || |s| - right <= i < |s|
      ensures s[i] == '-'
    {
      assert i > 0 ==> s[i] == s[1..][i - 1];
    }
    assert rest == s[left + 1..left + 1 + |rest|];
  }

  lemma DashedRight(s: string, left: nat, rest: string, right: nat)
    requires s != "" && s[|s| - 1] == '-' && Dashed(s[..|s| - 1], left, rest, right)
    ensures Dashed(s, left, rest, right + 1)
  {
    forall i | 0 <= i < left || |s| - (right + 1) <= i < |s|
      ensures s[i] == '-'
    {
      assert i < |s| - 1 ==> s[i] == s[..|s| - 1][i];
    }
    assert rest == s[left..left + |rest|];
  }

  lemma {:induction false} TrimDashesIs(s: string) returns (left: nat, right: nat)
    ensures Dashed(s, left, TrimDashes(s), right)
    ensures TrimDashes(s) != "" ==> TrimDashes(s)[0] != '-' && TrimDashes(s)[|TrimDashes(s)| - 1] != '-'
  {
    if s != "" && s[0] == '-' {
      left, right := TrimDashesIs(s[1..]);
      DashedLeft(s, left, TrimDashes(s[1..]), right);
      left := left + 1;
    } else if s != "" && s[|s| - 1] == '-' {
      left, right := TrimDashesIs(s[..|s| - 1]);
      DashedRight(s, left, TrimDashes(s[..|s| - 1]), right);
      right := right + 1;
    } else {
      left, right := 0, 0;
    }
    hide Dashed;
  }

  /** The prefix is the source name with every other character replaced by a dash, without the dashes at
      its ends, and one dash behind; a name of which nothing is left gives "subscription-". */
  lemma PrefixIs(name: string) returns (left: nat, right: nat)
    ensures left + right <= |name|
    ensures forall i :: 0 <= i < left || |name| - right <= i < |name| ==> !PlainChar(name[i]) || name[i] == '-'
    ensures var n := |name| - left - right;
      if n == 0 then Prefix(name) == "subscription-"
      else
        && |Prefix(name)| == n + 1 && Prefix(name)[n] == '-'
        && (PlainChar(name[left]) && name[left] != '-') && (PlainChar(name[left + n - 1]) && name[left + n - 1] != '-')
        && forall i :: 0 <= i < n ==> Prefix(name)[i] == if PlainChar(name[left + i]) then name[left + i] else '-'
  {
    var s := seq(|name|, i requires 0 <= i < |name| => SanitizeChar(name[i]));
    left, right := TrimDashesIs(s);
    hide TrimDashes;
    forall i | 0 <= i < left || |name| - right <= i < |name|
      ensures !PlainChar(name[i]) || name[i] == '-'
    {
      assert s[i] == '-';
    }
  }

  predicate Contains(s: string, sub: string) {
    exists i :: 0 <= i <= |s| && sub <= s[i..]
  }

  const INFORMATIONAL := ["剩余流量", "流量", "套餐到期", "到期", "过期", "官网", "重置", "订阅", "traffic", "remaining",
                          "expire", "expired", "reset", "official", "website", "subscription"]

  predicate IsInformationalNodeName(name: string) {
    var n := Lower(Trim(name));
    n != "" && exists k :: 0 <= k < |INFORMATIONAL| && Contains(n, INFORMATIONAL[k])
  }

  ghost predicate UniqueNames(nodes: NodeList) {
    forall i, j :: 0 <= i < j < |nodes| ==> nodes[i].name != nodes[j].name
  }

  ghost predicate Named(nodes: NodeList, name: string) {
    exists i :: 0 <= i < |nodes| && nodes[i].name == name
  }

  // ---------- upsert ----------

  function LastNamed(nodes: NodeList, name: string): (found: Option<nat>)
    ensures found.Some? ==> found.value < |nodes| && nodes[found.value].name == name
    ensures found.Some? ==> forall j :: found.value < j < |nodes| ==> nodes[j].name != name
    ensures found.None? ==> forall j :: 0 <= j < |nodes| ==> nodes[j].name != name
  {
    if nodes == [] then None
    else if nodes[|nodes| - 1].name == name then Some(|nodes| - 1)
    else LastNamed(nodes[..|nodes| - 1], name)
  }

  function FirstNamed(nodes: NodeList, name: string): (found: Option<nat>)
    ensures found.Some? ==> found.value < |nodes| && nodes[found.value].name == name
    ensures found.Some? ==> forall j :: 0 <= j < found.value ==> nodes[j].name != name
    ensures found.None? ==> forall j :: 0 <= j < |nodes| ==> nodes[j].name != name
  {
    if nodes == [] then None
    else if nodes[0].name == name then Some(0)
    else match FirstNamed(nodes[1..], name)
      case None => None
      case Some(k) => Some(k + 1)
  }

  lemma LastNamedAt(nodes: NodeList, i: nat)
    requires i < |nodes| && forall j :: i < j < |nodes| ==> nodes[j].name != nodes[i].name
    ensures LastNamed(nodes, nodes[i].name) == Some(i)
  {
  }

  /** Replace what `at` points to, or append; an incoming node without an ID keeps the stored one,
      or gets a fresh one. */
  function Place(nodes: NodeList, node: ProxyNode, at: Option<nat>, freshId: string): NodeList
    requires at.Some? ==> at.value < |nodes|
  {
    match at
    case Some(i) => nodes[i := node.(id := if node.id == "" then nodes[i].id else node.id)]
    case None => nodes + [node.(id := if node.id == "" then freshId else node.id)]
  }

  function UpsertOne(nodes: NodeList, node: ProxyNode, freshId: string): NodeList {
    if node.name == "" then nodes else Place(nodes, node, LastNamed(nodes, node.name), freshId)
  }

  /** `newId(k)` is the random ID drawn for the k-th incoming node, if it needs one. */
  function UpsertAll(nodes: NodeList, incoming: NodeList, newId: nat -> string): NodeList {
    if incoming == [] then nodes
    else
      var k := |incoming| - 1;
      UpsertOne(UpsertAll(nodes, incoming[..k], newId), incoming[k], newId(k))
  }

  /** The same with a search from the front instead of the index. */
  function UpsertLinear(nodes: NodeList, incoming: NodeList, newId: nat -> string): NodeList {
    if incoming == [] then nodes
    else
      var k := |incoming| - 1;
      var before := UpsertLinear(nodes, incoming[..k], newId);
      if incoming[k].name == "" then before
      else Place(before, incoming[k], FirstNamed(before, incoming[k].name), newId(k))
  }

  /** No name is stored twice; nodes without a name do not count. */
  ghost predicate NamedOnce(nodes: NodeList) {
    forall i, j :: 0 <= i < j < |nodes| && nodes[i].name != "" ==> nodes[i].name != nodes[j].name
  }

  lemma UpsertOneKeepsUnique(nodes: NodeList, node: ProxyNode, freshId: string)
    ensures NamedOnce(nodes) ==> NamedOnce(UpsertOne(nodes, node, freshId))
    ensures UniqueNames(nodes) ==> UniqueNames(UpsertOne(nodes, node, freshId))
  {
  }

  lemma OneFound(nodes: NodeList, name: string)
    requires NamedOnce(nodes) && name != ""
    ensures LastNamed(nodes, name) == FirstNamed(nodes, name)
  {
  }

  /** When no name is stored twice it stays so, and the index finds exactly what a search from the
      front finds. */
  lemma {:induction false} UpsertIsLinear(nodes: NodeList, incoming: NodeList, newId: nat -> string)
    requires NamedOnce(nodes)
    ensures NamedOnce(UpsertAll(nodes, incoming, newId))
    ensures UniqueNames(nodes) ==> UniqueNames(UpsertAll(nodes, incoming, newId))
    ensures UpsertAll(nodes, incoming, newId) == UpsertLinear(nodes, incoming, newId)
  {
    hide NamedOnce, UniqueNames;
    if incoming != [] {
      var k := |incoming| - 1;
      UpsertIsLinear(nodes, incoming[..k], newId);
      var before := UpsertAll(nodes, incoming[..k], newId);
      UpsertOneKeepsUnique(before, incoming[k], newId(k));
      if incoming[k].name != "" {
        OneFound(before, incoming[k].name);
      }
    }
  }

  /** A name stored twice splits them: the index points at its last position, the search at its first. */
  lemma DuplicateNamesSplitThem(nodes: NodeList, i: nat, j: nat, newId: nat -> string)
    requires i < j < |nodes| && nodes[i].name == nodes[j].name != ""
    ensures exists incoming :: UpsertAll(nodes, incoming, newId) != UpsertLinear(nodes, incoming, newId)
  {
    var name := nodes[i].name;
    var first, last := FirstNamed(nodes, name).value, LastNamed(nodes, name).value;
    assert first <= i < j <= last;
    var node := nodes[first].(payload := nodes[first].payload + "x");
    var incoming := [node];
    assert incoming[..0] == [];
    assert UpsertAll(nodes, incoming, newId) == UpsertOne(nodes, node, newId(0));
    assert UpsertAll(nodes, incoming, newId)[first] == nodes[first];
    assert UpsertLinear(nodes, incoming, newId) == Place(nodes, node, Some(first), newId(0));
    assert |UpsertLinear(nodes, incoming, newId)[first].payload| == |nodes[first].payload| + 1;
  }

  /** The index agrees with a linear search, for whatever comes in, exactly on the stored lists in
      which no name occurs twice. */
  lemma IndexAgreesIff(nodes: NodeList, newId: nat -> string)
    ensures (forall incoming :: UpsertAll(nodes, incoming, newId) == UpsertLinear(nodes, incoming, newId)) <==>
            (forall i, j :: 0 <= i < j < |nodes| && nodes[i].name != "" ==> nodes[i].name != nodes[j].name)
  {
    if NamedOnce(nodes) {
      forall incoming
        ensures UpsertAll(nodes, incoming, newId) == UpsertLinear(nodes, incoming, newId)
      {
        UpsertIsLinear(nodes, incoming, newId);
      }
    } else {
      var i, j :| 0 <= i < j < |nodes| && nodes[i].name != "" && nodes[i].name == nodes[j].name;
      DuplicateNamesSplitThem(nodes, i, j, newId);
    }
  }

  lemma UniqueIsOnce(nodes: NodeList)
    requires UniqueNames(nodes)
    ensures NamedOnce(nodes)
  {
  }

  function CountNamed(nodes: NodeList): nat {
    if nodes == [] then 0
    else CountNamed(nodes[..|nodes| - 1]) + if nodes[|nodes| - 1].name == "" then 0 else 1
  }

  // ---------- the name index ----------

  /** The index maps every stored name to its last position. */
  ghost predicate IsIndex(byName: map<string, nat>, nodes: NodeList) {
    forall name ::
      if name in byName then LastNamed(nodes, name) == Some(byName[name])
      else LastNamed(nodes, name) == None
  }

  lemma IndexReplace(byName: map<string, nat>, nodes: NodeList, i: nat, node: ProxyNode)
    requires IsIndex(byName, nodes) && i < |nodes| && node.name == nodes[i].name
    ensures IsIndex(byName, nodes[i := node])
  {
    var after := nodes[i := node];
    assert forall j :: 0 <= j < |nodes| ==> after[j].name == nodes[j].name;
    forall name
      ensures LastNamed(after, name) == LastNamed(nodes, name)
    {
      if LastNamed(nodes, name).Some? {
        LastNamedAt(after, LastNamed(nodes, name).value);
      }
    }
  }

  lemma IndexAppend(byName: map<string, nat>, nodes: NodeList, node: ProxyNode)
    requires IsIndex(byName, nodes)
    ensures IsIndex(byName[node.name := |nodes|], nodes + [node])
  {
    assert (nodes + [node])[..|nodes|] == nodes;
  }

  lemma EmptyIndex()
    ensures IsIndex(map[], [])
  {
  }

  // ---------- refresh ----------

  /** Remove every node of one subscription. */
  function Others(nodes: NodeList, sourceId: string): (rest: NodeList)
    ensures forall n :: n in rest <==> n in nodes && n.subscriptionId != sourceId
  {
    if nodes == [] then []
    else
      var k := |nodes| - 1;
      Others(nodes[..k], sourceId) + if nodes[k].subscriptionId == sourceId then [] else [nodes[k]]
  }

  lemma {:induction false} OthersUnique(nodes: NodeList, sourceId: string)
    requires UniqueNames(nodes)
    ensures UniqueNames(Others(nodes, sourceId))
  {
    if nodes != [] {
      var k := |nodes| - 1;
      OthersUnique(nodes[..k], sourceId);
      var rest := Others(nodes[..k], sourceId);
      forall i | 0 <= i < |rest|
        ensures rest[i].name != nodes[k].name
      {
        assert rest[i] in nodes[..k];
      }
    }
  }

  /** Name to ID of the nodes one subscription has stored; a later node wins. */
  function ExistingIds(nodes: NodeList, sourceId: string): map<string, string> {
    if nodes == [] then map[]
    else
      var k := |nodes| - 1;
      var ids := ExistingIds(nodes[..k], sourceId);
      if nodes[k].subscriptionId == sourceId then ids[nodes[k].name := nodes[k].id] else ids
  }

  lemma {:induction false} ExistingIdsNames(nodes: NodeList, sourceId: string, name: string)
    ensures name in ExistingIds(nodes, sourceId)
      <==> exists n :: n in nodes && n.subscriptionId == sourceId && n.name == name
  {
    if nodes != [] {
      ExistingIdsNames(nodes[..|nodes| - 1], sourceId, name);
      assert nodes == nodes[..|nodes| - 1] + [nodes[|nodes| - 1]];
    }
  }

  lemma UniquePrefix(nodes: NodeList)
    requires nodes != [] && UniqueNames(nodes)
    ensures UniqueNames(nodes[..|nodes| - 1])
  {
  }

  lemma {:induction false} ExistingIdIs(nodes: NodeList, sourceId: string, i: nat)
    requires UniqueNames(nodes) && i < |nodes| && nodes[i].subscriptionId == sourceId
    ensures nodes[i].name in ExistingIds(nodes, sourceId)
    ensures ExistingIds(nodes, sourceId)[nodes[i].name] == nodes[i].id
  {
    var k := |nodes| - 1;
    if i < k {
      UniquePrefix(nodes);
      ExistingIdIs(nodes[..k], sourceId, i);
      assert nodes[i].name != nodes[k].name;
      hide UniqueNames;
    }
  }

  function Imported(node: ProxyNode, prefix: string, sourceId: string, ids: map<string, string>): ProxyNode {
    var name := prefix + node.name;
    node.(name := name, subscriptionId := sourceId, id := if name in ids then ids[name] else "")
  }

  /** What a refresh keeps of the incoming nodes: the non-informational ones, prefixed, owned by the
      source, with the stored ID of their name. */
  function Keep(incoming: NodeList, prefix: string, sourceId: string, ids: map<string, string>): (kept: NodeList)
    ensures |kept| <= |incoming|
  {
    if incoming == [] then []
    else
      var k := |incoming| - 1;
      var kept := Keep(incoming[..k], prefix, sourceId, ids);
      if IsInformationalNodeName(incoming[k].name) then kept
      else kept + [Imported(incoming[k], prefix, sourceId, ids)]
  }

  lemma {:induction false} KeepMembers(incoming: NodeList, prefix: string, sourceId: string, ids: map<string, string>,
                                       n: ProxyNode)
    ensures n in Keep(incoming, prefix, sourceId, ids)
       <==> exists m :: m in incoming && !IsInformationalNodeName(m.name) && n == Imported(m, prefix, sourceId, ids)
  {
    hide IsInformationalNodeName, Imported;
    if incoming != [] {
      var k := |incoming| - 1;
      KeepMembers(incoming[..k], prefix, sourceId, ids, n);
      assert incoming == incoming[..k] + [incoming[k]];
    }
  }

  lemma KeptMembers(nodes: NodeList, src: Source, incoming: NodeList, n: ProxyNode)
    ensures n in KeptOf(nodes, src, incoming)
       <==> exists m :: m in incoming && !IsInformationalNodeName(m.name)
                        && n == Imported(m, Prefix(src.name), src.id, ExistingIds(nodes, src.id))
  {
    hide IsInformationalNodeName, Imported, Prefix, ExistingIds;
    KeepMembers(incoming, Prefix(src.name), src.id, ExistingIds(nodes, src.id), n);
  }

  function Refreshed(nodes: NodeList, src: Source, incoming: NodeList, newId: nat -> string): NodeList {
    UpsertAll(Others(nodes, src.id), KeptOf(nodes, src, incoming), newId)
  }

  function KeptOf(nodes: NodeList, src: Source, incoming: NodeList): NodeList {
    Keep(incoming, Prefix(src.name), src.id, ExistingIds(nodes, src.id))
  }

  ghost predicate OwnedBy(ks: NodeList, sourceId: string) {
    forall j :: 0 <= j < |ks| ==> ks[j].name != "" && ks[j].subscriptionId == sourceId
  }

  lemma KeptIsOwned(nodes: NodeList, src: Source, incoming: NodeList)
    ensures OwnedBy(KeptOf(nodes, src, incoming), src.id)
  {
    hide IsInformationalNodeName, Prefix, Keep, ExistingIds;
    var kept := KeptOf(nodes, src, incoming);
    forall j | 0 <= j < |kept|
      ensures kept[j].name != "" && kept[j].subscriptionId == src.id
    {
      KeptMembers(nodes, src, incoming, kept[j]);
    }
  }

  // ---------- what an upsert into a list without these names produces ----------

  predicate FirstAt(ks: NodeList, i: nat)
    requires i < |ks|
  {
    forall j :: 0 <= j < i ==> ks[j].name != ks[i].name
  }

  /** The positions at which a name occurs for the first time. */
  function Firsts(ks: NodeList): (fs: seq<nat>)
    ensures forall j :: 0 <= j < |fs| ==> fs[j] < |ks| && FirstAt(ks, fs[j])
    ensures forall i, j :: 0 <= i < j < |fs| ==> fs[i] < fs[j]
    ensures forall i :: 0 <= i < |ks| && FirstAt(ks, i) ==> i in fs
  {
    if ks == [] then []
    else
      var k := |ks| - 1;
      var fs := Firsts(ks[..k]);
      assert forall i :: 0 <= i < k ==> (FirstAt(ks, i) <==> FirstAt(ks[..k], i));
      if FirstAt(ks, k) then fs + [k] else fs
  }

  lemma FirstOf(ks: NodeList, i: nat) returns (f: nat)
    requires i < |ks|
    ensures f <= i && FirstAt(ks, f) && ks[f].name == ks[i].name
  {
    if FirstAt(ks, i) {
      f := i;
    } else {
      var j :| 0 <= j < i && ks[j].name == ks[i].name;
      f := FirstOf(ks, j);
    }
  }

  /** Nodes of one name carry one ID, and every node has a name. */
  ghost predicate Coherent(ks: NodeList) {
    && (forall i :: 0 <= i < |ks| ==> ks[i].name != "")
    && (forall i, j :: 0 <= i < j < |ks| && ks[i].name == ks[j].name ==> ks[i].id == ks[j].id)
  }

  /** The node stored for the name first seen at f: the last payload of that name, with its ID or
      the random ID drawn at its first occurrence. */
  function Merged(ks: NodeList, f: nat, newId: nat -> string): (n: ProxyNode)
    requires f < |ks|
    ensures n.name == ks[f].name
  {
    var last := ks[LastNamed(ks, ks[f].name).value];
    last.(id := if last.id == "" then newId(f) else last.id)
  }

  /** One node per distinct name, in the order of first occurrence. */
  function MergedAll(ks: NodeList, newId: nat -> string): (ns: NodeList)
    ensures |ns| == |Firsts(ks)| && forall j :: 0 <= j < |ns| ==> ns[j] == Merged(ks, Firsts(ks)[j], newId)
  {
    seq(|Firsts(ks)|, j requires 0 <= j < |Firsts(ks)| => Merged(ks, Firsts(ks)[j], newId))
  }

  lemma MergedAllUnique(ks: NodeList, newId: nat -> string)
    ensures UniqueNames(MergedAll(ks, newId))
  {
    var fs := Firsts(ks);
    forall i, j | 0 <= i < j < |fs|
      ensures ks[fs[i]].name != ks[fs[j]].name
    {
      assert FirstAt(ks, fs[j]);
    }
  }

  lemma MergedAllNames(ks: NodeList, newId: nat -> string, name: string)
    ensures Named(MergedAll(ks, newId), name) <==> Named(ks, name)
  {
    var ns, fs := MergedAll(ks, newId), Firsts(ks);
    if Named(ks, name) {
      var i :| 0 <= i < |ks| && ks[i].name == name;
      var f := FirstOf(ks, i);
      assert f in fs;
      var j :| 0 <= j < |fs| && fs[j] == f;
      assert ns[j].name == name;
    }
    if Named(ns, name) {
      var j :| 0 <= j < |ns| && ns[j].name == name;
      assert ks[fs[j]].name == name;
    }
  }

  /** One more node of another name leaves an entry alone. */
  lemma MergedElsewhere(ks: NodeList, f: nat, newId: nat -> string)
    requires ks != [] && f < |ks| - 1 && ks[f].name != ks[|ks| - 1].name
    ensures Merged(ks, f, newId) == Merged(ks[..|ks| - 1], f, newId)
  {
    assert LastNamed(ks, ks[f].name) == LastNamed(ks[..|ks| - 1], ks[f].name);
  }

  /** One more node takes over the entry of its name, with the ID that entry has. */
  lemma MergedHere(ks: NodeList, f: nat, newId: nat -> string)
    requires ks != [] && Coherent(ks) && f < |ks| - 1 && ks[f].name == ks[|ks| - 1].name
    ensures var x := ks[|ks| - 1];
      Merged(ks, f, newId) == x.(id := if x.id == "" then Merged(ks[..|ks| - 1], f, newId).id else x.id)
  {
    LastNamedAt(ks, |ks| - 1);
    var before := LastNamed(ks[..|ks| - 1], ks[f].name).value;
    assert ks[before].id == ks[|ks| - 1].id;
  }

  /** One more node with a name seen before changes exactly the entry of that name. */
  lemma MergedAllReplace(ks: NodeList, newId: nat -> string, at: nat)
    requires ks != [] && Coherent(ks)
    requires var before := MergedAll(ks[..|ks| - 1], newId);
      at < |before| && before[at].name == ks[|ks| - 1].name
    ensures var x, before := ks[|ks| - 1], MergedAll(ks[..|ks| - 1], newId);
      MergedAll(ks, newId) == before[at := x.(id := if x.id == "" then before[at].id else x.id)]
  {
    var init, x := ks[..|ks| - 1], ks[|ks| - 1];
    var fs := Firsts(init);
    var before, after := MergedAll(init, newId), MergedAll(ks, newId);
    assert ks[fs[at]].name == x.name;
    assert Firsts(ks) == fs;
    MergedAllUnique(init, newId);
    hide Merged, LastNamed, Firsts, Coherent, FirstAt;
    forall j | 0 <= j < |fs|
      ensures after[j] == if j == at then x.(id := if x.id == "" then before[at].id else x.id) else before[j]
    {
      if j == at {
        MergedHere(ks, fs[at], newId);
      } else {
        assert before[j].name != before[at].name;
        MergedElsewhere(ks, fs[j], newId);
      }
    }
  }

  /** One more node with a new name is appended. */
  lemma MergedAllAppend(ks: NodeList, newId: nat -> string)
    requires ks != [] && FirstAt(ks, |ks| - 1)
    ensures var x := ks[|ks| - 1];
      MergedAll(ks, newId)
      == MergedAll(ks[..|ks| - 1], newId) + [x.(id := if x.id == "" then newId(|ks| - 1) else x.id)]
  {
    var k := |ks| - 1;
    var fs := Firsts(ks[..k]);
    assert Firsts(ks) == fs + [k];
    LastNamedAt(ks, k);
    forall j | 0 <= j < |fs|
      ensures MergedAll(ks, newId)[j] == MergedAll(ks[..k], newId)[j]
    {
      MergedElsewhere(ks, fs[j], newId);
    }
  }

  lemma LastNamedAppend(base: NodeList, more: NodeList, name: string)
    requires !Named(base, name)
    ensures LastNamed(base + more, name)
      == match LastNamed(more, name) { case Some(i) => Some(|base| + i) case None => None }
  {
    var all := base + more;
    assert forall j :: 0 <= j < |base| ==> all[j].name != name;
    match LastNamed(more, name)
    case Some(i) =>
      assert forall j :: |base| <= j < |all| ==> all[j] == more[j - |base|];
      LastNamedAt(all, |base| + i);
    case None =>
  }

  lemma ConcatUpdate<T>(a: seq<T>, b: seq<T>, i: nat, y: T)
    requires i < |b|
    ensures (a + b)[|a| + i := y] == a + b[i := y]
  {
  }

  lemma UpsertOneBehind(base: NodeList, more: NodeList, x: ProxyNode, freshId: string)
    requires x.name != "" && !Named(base, x.name)
    ensures UpsertOne(base + more, x, freshId) == base + UpsertOne(more, x, freshId)
  {
    LastNamedAppend(base, more, x.name);
    match LastNamed(more, x.name)
    case Some(i) =>
      ConcatUpdate(base, more, i, x.(id := if x.id == "" then more[i].id else x.id));
    case None =>
      var y := x.(id := if x.id == "" then freshId else x.id);
      assert (base + more) + [y] == base + (more + [y]);
  }

  /** Upserting one more node is merging one more node. */
  lemma MergedAllStep(ks: NodeList, newId: nat -> string)
    requires ks != [] && Coherent(ks)
    ensures MergedAll(ks, newId) == UpsertOne(MergedAll(ks[..|ks| - 1], newId), ks[|ks| - 1], newId(|ks| - 1))
  {
    hide MergedAll, Coherent;
    var k := |ks| - 1;
    var merged := MergedAll(ks[..k], newId);
    NamedIn(ks, k);
    MergedAllNames(ks[..k], newId, ks[k].name);
    match LastNamed(merged, ks[k].name)
    case Some(at) => MergedAllReplace(ks, newId, at);
    case None => MergedAllAppend(ks, newId);
  }

  lemma NamedIn(ks: NodeList, k: nat)
    requires k < |ks| && Coherent(ks)
    ensures ks[k].name != ""
    ensures FirstAt(ks, k) <==> !Named(ks[..k], ks[k].name)
  {
  }

  /** Upserting nodes whose names do not occur in the list leaves the list alone and appends one
      merged node per name. */
  lemma {:induction false} UpsertAppendsMerged(base: NodeList, ks: NodeList, newId: nat -> string)
    requires Coherent(ks)
    requires forall i :: 0 <= i < |ks| ==> !Named(base, ks[i].name)
    ensures UpsertAll(base, ks, newId) == base + MergedAll(ks, newId)
  {
    hide UpsertOne, Named;
    if ks == [] {
      assert base + MergedAll(ks, newId) == base;
    } else {
      var k := |ks| - 1;
      UpsertAppendsMerged(base, ks[..k], newId);
      UpsertOneBehind(base, MergedAll(ks[..k], newId), ks[k], newId(k));
      MergedAllStep(ks, newId);
    }
  }

  // ---------- the refresh theorems ----------

  /** No node kept by the refresh has the name of another source's node. */
  ghost predicate NoClash(nodes: NodeList, src: Source, incoming: NodeList) {
    var kept := KeptOf(nodes, src, incoming);
    forall j :: 0 <= j < |kept| ==> !Named(Others(nodes, src.id), kept[j].name)
  }

  lemma KeptCoherent(nodes: NodeList, src: Source, incoming: NodeList)
    ensures Coherent(KeptOf(nodes, src, incoming))
  {
    hide IsInformationalNodeName, Prefix, Keep, ExistingIds;
    var ids := ExistingIds(nodes, src.id);
    var kept := KeptOf(nodes, src, incoming);
    KeptIsOwned(nodes, src, incoming);
    forall j | 0 <= j < |kept|
      ensures kept[j].id == if kept[j].name in ids then ids[kept[j].name] else ""
    {
      KeptMembers(nodes, src, incoming, kept[j]);
    }
  }

  /** Without a clash a refresh leaves the other sources' nodes as they were and appends, for every
      distinct kept name in order of first appearance, the last payload of that name. */
  lemma RefreshExact(nodes: NodeList, src: Source, incoming: NodeList, newId: nat -> string)
    requires NoClash(nodes, src, incoming)
    ensures Refreshed(nodes, src, incoming, newId)
      == Others(nodes, src.id) + MergedAll(KeptOf(nodes, src, incoming), newId)
  {
    hide KeptOf, UpsertAll, MergedAll;
    KeptCoherent(nodes, src, incoming);
    UpsertAppendsMerged(Others(nodes, src.id), KeptOf(nodes, src, incoming), newId);
  }

  lemma MergedOwned(ks: NodeList, newId: nat -> string, sourceId: string)
    requires OwnedBy(ks, sourceId)
    ensures OwnedBy(MergedAll(ks, newId), sourceId)
  {
  }

  /** Which nodes of the refreshed list belong to the source: the merged ones. */
  lemma OwnedAfter(nodes: NodeList, src: Source, incoming: NodeList, newId: nat -> string, n: ProxyNode)
    requires NoClash(nodes, src, incoming)
    ensures n in Refreshed(nodes, src, incoming, newId) && n.subscriptionId == src.id
      <==> n in MergedAll(KeptOf(nodes, src, incoming), newId)
  {
    hide KeptOf, MergedAll, Refreshed, NoClash;
    var merged := MergedAll(KeptOf(nodes, src, incoming), newId);
    RefreshExact(nodes, src, incoming, newId);
    KeptIsOwned(nodes, src, incoming);
    MergedOwned(KeptOf(nodes, src, incoming), newId, src.id);
    assert n in Refreshed(nodes, src, incoming, newId) <==> n in Others(nodes, src.id) || n in merged;
  }

  lemma KeptNames(nodes: NodeList, src: Source, incoming: NodeList, name: string)
    ensures Named(KeptOf(nodes, src, incoming), name)
       <==> (exists m :: m in incoming && !IsInformationalNodeName(m.name) && name == Prefix(src.name) + m.name)
  {
    hide IsInformationalNodeName, Prefix, Keep, ExistingIds;
    var ids := ExistingIds(nodes, src.id);
    var kept := KeptOf(nodes, src, incoming);
    if Named(kept, name) {
      var i :| 0 <= i < |kept| && kept[i].name == name;
      KeptMembers(nodes, src, incoming, kept[i]);
    }
    if m: ProxyNode :| m in incoming && !IsInformationalNodeName(m.name) && name == Prefix(src.name) + m.name {
      KeptMembers(nodes, src, incoming, Imported(m, Prefix(src.name), src.id, ids));
    }
  }

  /** The names the source has after such a refresh: exactly the prefixed names of the incoming
      non-informational nodes. */
  lemma RefreshNames(nodes: NodeList, src: Source, incoming: NodeList, newId: nat -> string, name: string)
    requires NoClash(nodes, src, incoming)
    ensures (exists n :: n in Refreshed(nodes, src, incoming, newId) && n.subscriptionId == src.id && n.name == name)
       <==> (exists m :: m in incoming && !IsInformationalNodeName(m.name) && name == Prefix(src.name) + m.name)
  {
    hide KeptOf, MergedAll, Refreshed, NoClash, IsInformationalNodeName, Prefix;
    var merged := MergedAll(KeptOf(nodes, src, incoming), newId);
    MergedAllNames(KeptOf(nodes, src, incoming), newId, name);
    KeptNames(nodes, src, incoming, name);
    if n: ProxyNode :| n in Refreshed(nodes, src, incoming, newId) && n.subscriptionId == src.id && n.name == name {
      OwnedAfter(nodes, src, incoming, newId, n);
      assert Named(merged, name);
    }
    if Named(merged, name) {
      var j :| 0 <= j < |merged| && merged[j].name == name;
      OwnedAfter(nodes, src, incoming, newId, merged[j]);
    }
  }

  lemma MergedId(ks: NodeList, newId: nat -> string, n: ProxyNode)
    requires n in MergedAll(ks, newId)
    ensures exists i :: 0 <= i < |ks| && ks[i].name == n.name && (ks[i].id != "" ==> n.id == ks[i].id)
  {
    var j :| 0 <= j < |Firsts(ks)| && MergedAll(ks, newId)[j] == n;
    var i := LastNamed(ks, ks[Firsts(ks)[j]].name).value;
    assert ks[i].name == n.name;
  }

  /** A name that survives the refresh keeps its ID, provided it had one. */
  lemma RefreshKeepsIds(nodes: NodeList, src: Source, incoming: NodeList, newId: nat -> string, i: nat, n: ProxyNode)
    requires UniqueNames(nodes) && NoClash(nodes, src, incoming)
    requires i < |nodes| && nodes[i].subscriptionId == src.id && nodes[i].id != ""
    requires n in Refreshed(nodes, src, incoming, newId) && n.subscriptionId == src.id && n.name == nodes[i].name
    ensures n.id == nodes[i].id
  {
    hide MergedAll, Refreshed, NoClash, IsInformationalNodeName, Prefix, Keep, ExistingIds;
    var kept := KeptOf(nodes, src, incoming);
    OwnedAfter(nodes, src, incoming, newId, n);
    MergedId(kept, newId, n);
    var k :| 0 <= k < |kept| && kept[k].name == n.name && (kept[k].id != "" ==> n.id == kept[k].id);
    KeptMembers(nodes, src, incoming, kept[k]);
    ExistingIdIs(nodes, src.id, i);
  }

  /** Names are unique after any refresh of a list with unique names, clash or not, and the upsert
      in it is the one a linear search would do. */
  lemma RefreshUnique(nodes: NodeList, src: Source, incoming: NodeList, newId: nat -> string)
    requires UniqueNames(nodes)
    ensures UniqueNames(Refreshed(nodes, src, incoming, newId))
    ensures Refreshed(nodes, src, incoming, newId)
      == UpsertLinear(Others(nodes, src.id), KeptOf(nodes, src, incoming), newId)
  {
    hide KeptOf, UniqueNames;
    OthersUnique(nodes, src.id);
    UniqueIsOnce(Others(nodes, src.id));
    UpsertIsLinear(Others(nodes, src.id), KeptOf(nodes, src, incoming), newId);
  }

  /** An upsert keeps every position's name; a position changes owner once its name comes in. */
  ghost predicate PlacedAt(base: NodeList, after: NodeList, ks: NodeList, sourceId: string, p: nat)
    requires p < |base|
  {
    && p < |after| && after[p].name == base[p].name
    && if Named(ks, base[p].name) then after[p].subscriptionId == sourceId else after[p] == base[p]
  }

  lemma NamedStep(ks: NodeList, name: string)
    requires ks != []
    ensures Named(ks, name) <==> Named(ks[..|ks| - 1], name) || ks[|ks| - 1].name == name
  {
  }

  lemma LastNamedUnique(nodes: NodeList, p: nat)
    requires UniqueNames(nodes) && p < |nodes|
    ensures LastNamed(nodes, nodes[p].name) == Some(p)
  {
    LastNamedAt(nodes, p);
  }

  lemma {:induction false} UpsertInPlace(base: NodeList, ks: NodeList, newId: nat -> string, sourceId: string, p: nat)
    requires UniqueNames(base) && p < |base| && OwnedBy(ks, sourceId)
    ensures PlacedAt(base, UpsertAll(base, ks, newId), ks, sourceId, p)
  {
    hide Named, UniqueNames;
    if ks == [] {
      NotNamed(base[p].name);
    } else {
      var k := |ks| - 1;
      var before := UpsertAll(base, ks[..k], newId);
      UpsertInPlace(base, ks[..k], newId, sourceId, p);
      UniqueIsOnce(base);
      UpsertIsLinear(base, ks[..k], newId);
      NamedStep(ks, base[p].name);
      LastNamedUnique(before, p);
    }
  }

  lemma NotNamed(name: string)
    ensures !Named([], name)
  {
  }

  /** The other sources' nodes survive a refresh unchanged exactly when no name clashes. */
  lemma OthersUntouchedIff(nodes: NodeList, src: Source, incoming: NodeList, newId: nat -> string)
    requires UniqueNames(nodes)
    ensures Others(nodes, src.id) <= Refreshed(nodes, src, incoming, newId) <==> NoClash(nodes, src, incoming)
  {
    hide KeptOf, MergedAll, UpsertAll, UniqueNames;
    var kept, others := KeptOf(nodes, src, incoming), Others(nodes, src.id);
    if NoClash(nodes, src, incoming) {
      RefreshExact(nodes, src, incoming, newId);
    } else {
      var j :| 0 <= j < |kept| && Named(others, kept[j].name);
      var p :| 0 <= p < |others| && others[p].name == kept[j].name;
      OthersUnique(nodes, src.id);
      KeptIsOwned(nodes, src, incoming);
      UpsertInPlace(others, kept, newId, src.id, p);
      assert others[p] in others;
    }
  }

  /** A clash, in terms of what is stored and fetched: a node of another source bears the prefixed
      name of an incoming node. */
  lemma NoClashIff(nodes: NodeList, src: Source, incoming: NodeList)
    ensures NoClash(nodes, src, incoming) <==>
            forall n, m :: n in nodes && n.subscriptionId != src.id && m in incoming && !IsInformationalNodeName(m.name)
                           ==> n.name != Prefix(src.name) + m.name
  {
    hide IsInformationalNodeName, Prefix, KeptOf;
    var kept, others := KeptOf(nodes, src, incoming), Others(nodes, src.id);
    if !NoClash(nodes, src, incoming) {
      var j :| 0 <= j < |kept| && Named(others, kept[j].name);
      var p :| 0 <= p < |others| && others[p].name == kept[j].name;
      assert Named(kept, kept[j].name);
      KeptNames(nodes, src, incoming, kept[j].name);
      assert others[p] in others;
    }
    forall n, m | n in nodes && n.subscriptionId != src.id && m in incoming && !IsInformationalNodeName(m.name)
                  && n.name == Prefix(src.name) + m.name
      ensures !NoClash(nodes, src, incoming)
    {
      KeptNames(nodes, src, incoming, n.name);
      assert n in others;
      var j :| 0 <= j < |kept| && kept[j].name == n.name;
      var p :| 0 <= p < |others| && others[p] == n;
      assert Named(others, kept[j].name);
    }
  }

  lemma ContainedStart(n: string, keyword: string)
    requires keyword != "" && Contains(n, keyword)
    ensures keyword[0] in n
  {
    var i :| 0 <= i <= |n| && keyword <= n[i..];
    assert keyword[0] == n[i..][0] == n[i];
  }

  lemma KeywordStarts(k: nat)
    requires k < |INFORMATIONAL|
    ensures INFORMATIONAL[k] != "" && INFORMATIONAL[k][0] !in ['a', 'b', 'x', '-']
  {
  }

  /** Names of these characters contain no informational keyword. */
  lemma PlainName(name: string)
    requires forall i :: 0 <= i < |name| ==> name[i] in ['a', 'b', 'x', '-']
    ensures !IsInformationalNodeName(name)
  {
    hide Contains, Trim;
    TrimKeepsTrimmed(name);
    assert Lower(Trim(name)) == name;
    forall k | 0 <= k < |INFORMATIONAL|
      ensures !Contains(name, INFORMATIONAL[k])
    {
      KeywordStarts(k);
      if Contains(name, INFORMATIONAL[k]) {
        ContainedStart(name, INFORMATIONAL[k]);
      }
    }
  }

  /** Clashes can be received: a source named "a" fetches "b-x" while a source named "a-b" holds "x". */
  lemma ClashHappens(src: Source, incoming: ProxyNode, stored: ProxyNode)
    requires src.name == "a" && incoming.name == "b-x"
    requires stored.subscriptionId != src.id && stored.name == Prefix("a-b") + "x"
    ensures !NoClash([stored], src, [incoming])
  {
    hide IsInformationalNodeName, Prefix, NoClash;
    PrefixOfPlain("a");
    PrefixOfPlain("a-b");
    PlainName("b-x");
    NoClashIff([stored], src, [incoming]);
    assert stored in [stored] && incoming in [incoming];
    assert "a-b-" + "x" == "a-" + "b-x";
  }

  lemma PrefixOfPlain(name: string)
    requires name in {"a", "a-b"}
    ensures Prefix(name) == name + "-"
  {
    assert seq(|name|, i requires 0 <= i < |name| => SanitizeChar(name[i])) == name;
  }
}
