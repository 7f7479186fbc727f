/** The list of subscription sources. At most one source of each kind may be enabled, so that the
    node list is always fed by a single subscription. */
module Sources {
  import opened Wrappers
  import opened Finite

  const KIND_VPN := "vpn"
  const KIND_PROXY := "proxy"

  /** `details` stands for the fields the operations only carry along. */
  datatype Source = Source(id: string, name: string, kind: string, enabled: bool, details: string)

  type SourceList = seq<Source>

  function SubscriptionKind(s: Source): string {
    if s.kind == "" then KIND_VPN else s.kind
  }

  ghost predicate SingleEnabled(ss: SourceList) {
    forall i, j :: 0 <= i < j < |ss| && ss[i].enabled && ss[j].enabled ==>
      SubscriptionKind(ss[i]) != SubscriptionKind(ss[j])
  }

  /** Some enabled source other than position `except` has this kind. */
  predicate EnabledElsewhere(ss: SourceList, except: nat, kind: string) {
    exists j :: 0 <= j < |ss| && j != except && ss[j].enabled && SubscriptionKind(ss[j]) == kind
  }

  // ---------- normalising stored data ----------

  /** Position i is enabled and no earlier enabled source has its kind. */
  predicate KeptEnabled(ss: SourceList, i: nat)
    requires i < |ss|
  {
    ss[i].enabled && forall j :: 0 <= j < i && ss[j].enabled ==> SubscriptionKind(ss[j]) != SubscriptionKind(ss[i])
  }

  function Normalized(ss: SourceList): (ns: SourceList)
    ensures |ns| == |ss| && forall i :: 0 <= i < |ss| ==> ns[i] == ss[i].(enabled := KeptEnabled(ss, i))
  {
    seq(|ss|, i requires 0 <= i < |ss| => ss[i].(enabled := KeptEnabled(ss, i)))
  }

  /** `kept` holds the kinds of the enabled sources before position i. */
  ghost predicate KindsBefore(ss: SourceList, i: nat, kept: set<string>)
    requires i <= |ss|
  {
    forall kind :: kind in kept <==> exists j :: 0 <= j < i && ss[j].enabled && SubscriptionKind(ss[j]) == kind
  }

  lemma KindsNext(ss: SourceList, i: nat, kept: set<string>)
    requires i < |ss| && KindsBefore(ss, i, kept)
    ensures KeptEnabled(ss, i) <==> ss[i].enabled && SubscriptionKind(ss[i]) !in kept
    ensures KindsBefore(ss, i + 1, if ss[i].enabled then kept + {SubscriptionKind(ss[i])} else kept)
  {
  }

  /** The normalising loop with its set of kinds already kept; without a change nothing is saved. */
  method NormalizeEnabledSubscriptions(ss: SourceList) returns (ns: SourceList, changed: bool)
    ensures ns == Normalized(ss)
    ensures changed <==> ns != ss
  {
    ns, changed := ss, false;
    var kept: set<string> := {};
    assert KindsBefore(ss, 0, kept);
    hide KindsBefore, KeptEnabled, SubscriptionKind;
    for i := 0 to |ss|
      invariant |ns| == |ss|
      invariant forall j :: 0 <= j < i ==> ns[j] == ss[j].(enabled := KeptEnabled(ss, j))
      invariant forall j :: i <= j < |ss| ==> ns[j] == ss[j]
      invariant KindsBefore(ss, i, kept)
      invariant changed <==> ns != ss
    {
      KindsNext(ss, i, kept);
      if ns[i].enabled {
        var kind := SubscriptionKind(ns[i]);
        if kind in kept {
          ns, changed := ns[i := ns[i].(enabled := false)], true;
          assert ns[i] != ss[i];
          assert kept + {kind} == kept;
        } else {
          kept := kept + {kind};
        }
      }
    }
  }

  lemma FirstEnabledIsKept(ss: SourceList, i: nat) returns (k: nat)
    requires i < |ss| && ss[i].enabled
    ensures k <= i && KeptEnabled(ss, k) && SubscriptionKind(ss[k]) == SubscriptionKind(ss[i])
  {
    if KeptEnabled(ss, i) {
      k := i;
    } else {
      var j :| 0 <= j < i && ss[j].enabled && SubscriptionKind(ss[j]) == SubscriptionKind(ss[i]);
      k := FirstEnabledIsKept(ss, j);
    }
  }

  lemma NormalizedSingle(ss: SourceList)
    ensures SingleEnabled(Normalized(ss))
    ensures Normalized(ss) == ss <==> SingleEnabled(ss)
  {
    if SingleEnabled(ss) {
      assert forall i :: 0 <= i < |ss| ==> Normalized(ss)[i] == ss[i];
    }
  }

  /** From any stored list: at most one enabled source per kind, every kind that had one keeps its
      first, and the operation changes exactly the lists that need it. */
  lemma NormalizeEstablishes(ss: SourceList)
    ensures SingleEnabled(Normalized(ss))
    ensures Normalized(ss) == ss <==> SingleEnabled(ss)
    ensures forall i :: 0 <= i < |ss| && ss[i].enabled ==>
      exists k :: 0 <= k <= i && Normalized(ss)[k].enabled && SubscriptionKind(ss[k]) == SubscriptionKind(ss[i])
  {
    hide SingleEnabled;
    NormalizedSingle(ss);
    forall i | 0 <= i < |ss| && ss[i].enabled
      ensures exists k :: 0 <= k <= i && Normalized(ss)[k].enabled && SubscriptionKind(ss[k]) == SubscriptionKind(ss[i])
    {
      var k := FirstEnabledIsKept(ss, i);
      assert Normalized(ss)[k].enabled;
    }
  }

  // ---------- add, update, toggle, delete ----------

  /** A new source comes in disabled when another one of its kind is already enabled. */
  function Added(ss: SourceList, src: Source, freshId: string): SourceList {
    var s := src.(id := if src.id == "" then freshId else src.id, kind := SubscriptionKind(src));
    ss + [s.(enabled := s.enabled && !EnabledElsewhere(ss, |ss|, s.kind))]
  }

  method AddSubscription(ss: SourceList, src: Source, freshId: string) returns (after: SourceList)
    ensures after == Added(ss, src, freshId)
    ensures |after| == |ss| + 1 && forall i :: 0 <= i < |ss| ==> after[i] == ss[i]
    ensures var s := after[|ss|];
      && s == src.(id := s.id, kind := s.kind, enabled := s.enabled)
      && (if src.id == "" then s.id == freshId else s.id == src.id)
      && (if src.kind == "" then s.kind == "vpn" else s.kind == src.kind)
      && (s.enabled <==>
            src.enabled && forall j :: 0 <= j < |ss| && ss[j].enabled ==> SubscriptionKind(ss[j]) != s.kind)
  {
    var s := src;
    if s.id == "" {
      s := s.(id := freshId);
    }
    if s.kind == "" {
      s := s.(kind := KIND_VPN);
    }
    if s.enabled {
      for i := 0 to |ss|
        invariant s.enabled
        invariant forall j :: 0 <= j < i ==> !(ss[j].enabled && SubscriptionKind(ss[j]) == s.kind)
      {
        if ss[i].enabled && SubscriptionKind(ss[i]) == s.kind {
          s := s.(enabled := false);
          break;
        }
      }
    }
    after := ss + [s];
  }

  function FirstWithId(ss: SourceList, id: string): (found: Option<nat>)
    ensures found.Some? ==> found.value < |ss| && ss[found.value].id == id
    ensures found.Some? ==> forall j :: 0 <= j < found.value ==> ss[j].id != id
    ensures found.None? ==> forall j :: 0 <= j < |ss| ==> ss[j].id != id
  {
    if ss == [] then None
    else if ss[0].id == id then Some(0)
    else match FirstWithId(ss[1..], id)
      case None => None
      case Some(k) => Some(k + 1)
  }

  /** Replace the first source with this ID; an update without a kind keeps the stored one. */
  function Updated(ss: SourceList, src: Source): Option<SourceList> {
    if src.id == "" then None
    else match FirstWithId(ss, src.id)
      case None => None
      case Some(i) => Some(ss[i := src.(kind := if src.kind == "" then ss[i].kind else src.kind)])
  }

  method UpdateSubscription(ss: SourceList, src: Source) returns (after: Option<SourceList>)
    ensures after == Updated(ss, src)
  {
    if src.id == "" {
      return None;
    }
    for i := 0 to |ss|
      invariant forall j :: 0 <= j < i ==> ss[j].id != src.id
    {
      if ss[i].id == src.id {
        var s := src;
        if s.kind == "" {
          s := s.(kind := ss[i].kind);
        }
        return Some(ss[i := s]);
      }
    }
    return None;
  }

  function Toggled(ss: SourceList, id: string, enabled: bool): (after: Option<SourceList>)
    ensures after.Some? <==> FirstWithId(ss, id).Some?
    ensures after.Some? ==> |after.value| == |ss|
  {
    match FirstWithId(ss, id)
    case None => None
    case Some(t) =>
      Some(seq(|ss|, i requires 0 <= i < |ss| =>
        if i == t then ss[i].(enabled := enabled)
        else if enabled && SubscriptionKind(ss[i]) == SubscriptionKind(ss[t]) then ss[i].(enabled := false)
        else ss[i]))
  }

  method SetSubscriptionEnabled(ss: SourceList, id: string, enabled: bool) returns (after: Option<SourceList>)
    ensures after == Toggled(ss, id, enabled)
  {
    var target := -1;
    for i := 0 to |ss|
      invariant target == -1
      invariant forall j :: 0 <= j < i ==> ss[j].id != id
    {
      if ss[i].id == id {
        target := i;
        break;
      }
    }
    if target < 0 {
      return None;
    }
    var rs := ss[target := ss[target].(enabled := enabled)];
    if enabled {
      var kind := SubscriptionKind(rs[target]);
      for i := 0 to |rs|
        invariant |rs| == |ss| && rs[target] == ss[target].(enabled := enabled)
        invariant forall j :: 0 <= j < i && j != target ==>
          rs[j] == if SubscriptionKind(ss[j]) == kind then ss[j].(enabled := false) else ss[j]
        invariant forall j :: i <= j < |ss| && j != target ==> rs[j] == ss[j]
      {
        if i != target && SubscriptionKind(rs[i]) == kind {
          rs := rs[i := rs[i].(enabled := false)];
        }
      }
    }
    assert rs == Toggled(ss, id, enabled).value;
    return Some(rs);
  }

  function Without(ss: SourceList, id: string): (rest: SourceList)
    ensures forall s :: s in rest <==> s in ss && s.id != id
  {
    if ss == [] then []
    else if ss[|ss| - 1].id == id then Without(ss[..|ss| - 1], id)
    else Without(ss[..|ss| - 1], id) + [ss[|ss| - 1]]
  }

  /** Where the sources with another ID are. */
  ghost function OtherIdsAt(ss: SourceList, id: string): (at: seq<nat>)
    ensures forall k :: 0 <= k < |at| ==> at[k] < |ss| && ss[at[k]].id != id
    ensures forall j, k :: 0 <= j < k < |at| ==> at[j] < at[k]
    ensures forall i :: 0 <= i < |ss| && ss[i].id != id ==> i in at
  {
    Positions(seq(|ss|, i requires 0 <= i < |ss| => ss[i].id != id))
  }

  lemma OtherIdsAtNext(ss: SourceList, id: string)
    requires ss != []
    ensures var k := |ss| - 1; OtherIdsAt(ss, id) == OtherIdsAt(ss[..k], id) + if ss[k].id != id then [k] else []
  {
    var k := |ss| - 1;
    var marks := seq(|ss|, i requires 0 <= i < |ss| => ss[i].id != id);
    PositionsNext(marks);
    assert marks[..k] == seq(k, i requires 0 <= i < k => ss[..k][i].id != id);
  }

  lemma NoSourcesAt(id: string)
    ensures OtherIdsAt([], id) == []
  {
  }

  /** The sources with another ID stay, in their order. */
  lemma {:induction false} WithoutInOrder(ss: SourceList, id: string)
    ensures |Without(ss, id)| == |OtherIdsAt(ss, id)|
    ensures forall k :: 0 <= k < |OtherIdsAt(ss, id)| ==> Without(ss, id)[k] == ss[OtherIdsAt(ss, id)[k]]
  {
    hide OtherIdsAt, Without;
    if ss == [] {
      NoSourcesAt(id);
      NothingWithId(id);
    } else {
      var k := |ss| - 1;
      WithoutInOrder(ss[..k], id);
      OtherIdsAtNext(ss, id);
      WithoutSnoc(ss, id, k);
      assert ss[..k + 1] == ss;
    }
  }

  /** The last source with this ID is a proxy subscription. */
  ghost predicate LastIsProxy(ss: SourceList, id: string) {
    exists i :: 0 <= i < |ss| && ss[i].id == id && ss[i].kind == KIND_PROXY
      && forall j :: i < j < |ss| ==> ss[j].id != id
  }

  /** `cascade`: the nodes of the removed source go too. */
  method DeleteSubscription(ss: SourceList, id: string) returns (after: Option<SourceList>, cascade: bool)
    ensures after == if FirstWithId(ss, id).Some? then Some(Without(ss, id)) else None
    ensures cascade <==> LastIsProxy(ss, id)
    ensures after.None? <==> forall i :: 0 <= i < |ss| ==> ss[i].id != id
    ensures after.Some? ==>
      var at := OtherIdsAt(ss, id);
      |after.value| == |at| && forall k :: 0 <= k < |at| ==> after.value[k] == ss[at[k]]
  {
    WithoutInOrder(ss, id);
    hide LastIsProxy, Without, FirstWithId, OtherIdsAt;
    NothingWithId(id);
    var found := false;
    var result: SourceList := [];
    cascade := false;
    for i := 0 to |ss|
      invariant result == Without(ss[..i], id)
      invariant found <==> FirstWithId(ss, id).Some? && FirstWithId(ss, id).value < i
      invariant cascade <==> LastIsProxy(ss[..i], id)
      invariant cascade ==> found
    {
      WithoutSnoc(ss, id, i);
      LastIsProxySnoc(ss, id, i);
      if ss[i].id == id {
        found, cascade := true, ss[i].kind == KIND_PROXY;
      } else {
        result := result + [ss[i]];
      }
    }
    assert ss[..|ss|] == ss;
    if !found {
      return None, false;
    }
    return Some(result), cascade;
  }

  lemma NothingWithId(id: string)
    ensures !LastIsProxy([], id) && Without([], id) == []
  {
  }

  lemma WithoutSnoc(ss: SourceList, id: string, i: nat)
    requires i < |ss|
    ensures Without(ss[..i + 1], id) == Without(ss[..i], id) + if ss[i].id == id then [] else [ss[i]]
  {
    assert ss[..i + 1][..i] == ss[..i];
  }

  lemma LastIsProxySnoc(ss: SourceList, id: string, i: nat)
    requires i < |ss|
    ensures LastIsProxy(ss[..i + 1], id)
      <==> if ss[i].id == id then ss[i].kind == KIND_PROXY else LastIsProxy(ss[..i], id)
  {
    var long, short := ss[..i + 1], ss[..i];
    assert forall j :: 0 <= j < i ==> long[j] == short[j];
    if ss[i].id == id {
      assert long[i].id == id;
      if LastIsProxy(long, id) {
        var k :| 0 <= k < |long| && long[k].id == id && long[k].kind == KIND_PROXY
          && forall j :: k < j < |long| ==> long[j].id != id;
        assert k == i;
      }
    } else {
      if LastIsProxy(short, id) {
        var k :| 0 <= k < |short| && short[k].id == id && short[k].kind == KIND_PROXY
          && forall j :: k < j < |short| ==> short[j].id != id;
        assert long[k].id == id;
      }
      if LastIsProxy(long, id) {
        var k :| 0 <= k < |long| && long[k].id == id && long[k].kind == KIND_PROXY
          && forall j :: k < j < |long| ==> long[j].id != id;
        assert short[k].id == id;
      }
    }
  }

  // ---------- what each operation does to the rule ----------

  lemma AddKeeps(ss: SourceList, src: Source, freshId: string)
    requires SingleEnabled(ss)
    ensures SingleEnabled(Added(ss, src, freshId))
  {
  }

  lemma ToggleKeeps(ss: SourceList, id: string, enabled: bool)
    requires SingleEnabled(ss) && Toggled(ss, id, enabled).Some?
    ensures SingleEnabled(Toggled(ss, id, enabled).value)
  {
  }

  /** Enabling a source leaves it as the only enabled one of its kind, whatever was stored before. */
  lemma EnableIsExclusive(ss: SourceList, id: string, i: nat)
    requires FirstWithId(ss, id) == Some(i)
    ensures var after := Toggled(ss, id, true).value;
      && after[i].enabled && !EnabledElsewhere(after, i, SubscriptionKind(ss[i]))
      && forall j :: 0 <= j < |ss| && SubscriptionKind(ss[j]) != SubscriptionKind(ss[i]) ==> after[j] == ss[j]
  {
  }

  lemma {:induction false} DeleteKeeps(ss: SourceList, id: string)
    requires SingleEnabled(ss)
    ensures SingleEnabled(Without(ss, id))
  {
    if ss != [] {
      var rest := ss[..|ss| - 1];
      DeleteKeeps(rest, id);
      forall i | 0 <= i < |Without(rest, id)|
        ensures Without(rest, id)[i] in rest
      {
        assert Without(rest, id)[i] in Without(rest, id);
      }
    }
  }

  /** An update keeps the rule exactly when it does not enable a second source of its kind. */
  lemma UpdateKeepsIff(ss: SourceList, src: Source, i: nat)
    requires SingleEnabled(ss) && src.id != "" && FirstWithId(ss, src.id) == Some(i)
    ensures var after := Updated(ss, src).value;
      SingleEnabled(after) <==> !(src.enabled && EnabledElsewhere(ss, i, SubscriptionKind(after[i])))
  {
    var after := Updated(ss, src).value;
    if src.enabled && EnabledElsewhere(ss, i, SubscriptionKind(after[i])) {
      var j :| 0 <= j < |ss| && j != i && ss[j].enabled && SubscriptionKind(ss[j]) == SubscriptionKind(after[i]);
      assert after[j] == ss[j];
    }
  }

  /** So an update that keeps the kind and the enabled flag keeps the rule. */
  lemma QuietUpdateKeeps(ss: SourceList, src: Source, i: nat)
    requires SingleEnabled(ss) && src.id != "" && FirstWithId(ss, src.id) == Some(i)
    requires src.enabled == ss[i].enabled && (src.kind == "" || src.kind == SubscriptionKind(ss[i]))
    ensures SingleEnabled(Updated(ss, src).value)
  {
    UpdateKeepsIff(ss, src, i);
  }

  /** A refresh that finds its source to be of the other kind breaks the rule: the source stays
      enabled beside the enabled source of its new kind. */
  lemma KindChangeBreaksRule(vpn: Source, proxy: Source)
    requires vpn.id != "" && vpn.id != proxy.id && vpn.enabled && proxy.enabled
    requires vpn.kind == KIND_VPN && proxy.kind == KIND_PROXY
    ensures SingleEnabled([vpn, proxy])
    ensures Updated([vpn, proxy], vpn.(kind := KIND_PROXY)) == Some([vpn.(kind := KIND_PROXY), proxy])
    ensures !SingleEnabled([vpn.(kind := KIND_PROXY), proxy])
  {
    var after := [vpn.(kind := KIND_PROXY), proxy];
    assert [vpn, proxy][0 := vpn.(kind := KIND_PROXY)] == after;
    assert after[0].enabled && after[1].enabled && SubscriptionKind(after[0]) == SubscriptionKind(after[1]);
  }

  // ---------- whole runs ----------

  datatype Event =
    | Add(src: Source, freshId: string)
    | Update(src: Source)
    | Toggle(id: string, enabled: bool)
    | Delete(id: string)

  /** Failed operations change nothing. */
  function Step(ss: SourceList, e: Event): SourceList {
    match e
    case Add(src, freshId) => Added(ss, src, freshId)
    case Update(src) => if Updated(ss, src).Some? then Updated(ss, src).value else ss
    case Toggle(id, enabled) => if Toggled(ss, id, enabled).Some? then Toggled(ss, id, enabled).value else ss
    case Delete(id) => if FirstWithId(ss, id).Some? then Without(ss, id) else ss
  }

  /** Updates that keep the kind and the enabled flag of the source they replace. */
  predicate Quiet(ss: SourceList, e: Event) {
    e.Update? ==>
      match FirstWithId(ss, e.src.id)
      case None => true
      case Some(i) => e.src.enabled == ss[i].enabled && (e.src.kind == "" || e.src.kind == SubscriptionKind(ss[i]))
  }

  function Run(stored: SourceList, es: seq<Event>): SourceList {
    if es == [] then Normalized(stored) else Step(Run(stored, es[..|es| - 1]), es[|es| - 1])
  }

  ghost predicate QuietRun(stored: SourceList, es: seq<Event>) {
    es == [] || (QuietRun(stored, es[..|es| - 1]) && Quiet(Run(stored, es[..|es| - 1]), es[|es| - 1]))
  }

  lemma StepKeeps(ss: SourceList, e: Event)
    requires SingleEnabled(ss) && Quiet(ss, e)
    ensures SingleEnabled(Step(ss, e))
  {
    match e
    case Add(src, freshId) => AddKeeps(ss, src, freshId);
    case Update(src) =>
      if Updated(ss, src).Some? {
        QuietUpdateKeeps(ss, src, FirstWithId(ss, src.id).value);
      }
    case Toggle(id, enabled) =>
      if Toggled(ss, id, enabled).Some? {
        ToggleKeeps(ss, id, enabled);
      }
    case Delete(id) => DeleteKeeps(ss, id);
  }

  /** After the start-up normalisation of any stored list, the rule holds in every reachable state. */
  lemma {:induction false} RuleInEveryState(stored: SourceList, es: seq<Event>)
    requires QuietRun(stored, es)
    ensures SingleEnabled(Run(stored, es))
  {
    if es == [] {
      NormalizeEstablishes(stored);
    } else {
      RuleInEveryState(stored, es[..|es| - 1]);
      StepKeeps(Run(stored, es[..|es| - 1]), es[|es| - 1]);
    }
  }

  /** An update that enables a second source of its kind. */
  predicate EnablesSecond(ss: SourceList, e: Event) {
    e.Update? && e.src.id != "" && e.src.enabled &&
    match FirstWithId(ss, e.src.id)
    case None => false
    case Some(i) => EnabledElsewhere(ss, i, SubscriptionKind(Updated(ss, e.src).value[i]))
  }

  lemma StepKeepsIff(ss: SourceList, e: Event)
    requires SingleEnabled(ss)
    ensures SingleEnabled(Step(ss, e)) <==> !EnablesSecond(ss, e)
  {
    hide SingleEnabled, Normalized, Added, Toggled, Without, FirstWithId, EnabledElsewhere;
    if !e.Update? {
      StepKeeps(ss, e);
    } else if e.src.id != "" && FirstWithId(ss, e.src.id).Some? {
      UpdateKeepsIff(ss, e.src, FirstWithId(ss, e.src.id).value);
    }
  }

  lemma {:induction false} RuleAtTheEnd(stored: SourceList, es: seq<Event>)
    requires forall k :: 0 <= k < |es| ==> !EnablesSecond(Run(stored, es[..k]), es[k])
    ensures SingleEnabled(Run(stored, es))
  {
    hide SingleEnabled, Step, EnablesSecond;
    if es == [] {
      NormalizeEstablishes(stored);
    } else {
      var n := |es| - 1;
      forall k | 0 <= k < n
        ensures !EnablesSecond(Run(stored, es[..n][..k]), es[..n][k])
      {
        assert es[..n][..k] == es[..k];
      }
      RuleAtTheEnd(stored, es[..n]);
      StepKeepsIff(Run(stored, es[..n]), es[n]);
    }
  }

  /** The rule holds at every moment of a run exactly when no update in it enables a second source of
      its kind. */
  lemma RuleInEveryStateIff(stored: SourceList, es: seq<Event>)
    ensures (forall k :: 0 <= k <= |es| ==> SingleEnabled(Run(stored, es[..k]))) <==>
            (forall k :: 0 <= k < |es| ==> !EnablesSecond(Run(stored, es[..k]), es[k]))
  {
    hide SingleEnabled, Step, EnablesSecond;
    if k :| 0 <= k < |es| && EnablesSecond(Run(stored, es[..k]), es[k]) {
      assert es[..k + 1][..k] == es[..k];
      if SingleEnabled(Run(stored, es[..k])) {
        StepKeepsIff(Run(stored, es[..k]), es[k]);
      }
    } else {
      forall k | 0 <= k <= |es|
        ensures SingleEnabled(Run(stored, es[..k]))
      {
        forall m | 0 <= m < k
          ensures !EnablesSecond(Run(stored, es[..k][..m]), es[..k][m])
        {
          assert es[..k][..m] == es[..m];
        }
        RuleAtTheEnd(stored, es[..k]);
      }
    }
  }

  /** A delete leaves no source with its ID, and the others in their order. */
  lemma DeleteLeaves(ss: SourceList, id: string)
    ensures var after, at := Step(ss, Delete(id)), OtherIdsAt(ss, id);
      |after| == |at| && forall k :: 0 <= k < |at| ==> after[k] == ss[at[k]]
  {
    hide OtherIdsAt, Without;
    WithoutInOrder(ss, id);
    if FirstWithId(ss, id).None? {
      NobodyLeaves(ss, id);
    }
  }

  lemma {:induction false} NobodyLeaves(ss: SourceList, id: string)
    requires forall i :: 0 <= i < |ss| ==> ss[i].id != id
    ensures Without(ss, id) == ss
  {
    if ss != [] {
      NobodyLeaves(ss[..|ss| - 1], id);
      assert ss == ss[..|ss| - 1] + [ss[|ss| - 1]];
    }
  }
}
