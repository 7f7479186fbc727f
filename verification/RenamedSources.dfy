/** Stored nodes carry the name prefix of the last refresh, the listing strips the prefix of the
    source's current name. The two differ after a rename whose fetch failed. */
module RenamedSources {
  import opened Text
  import opened Sources
  import opened NodeStore
  import opened ActiveNodes
  import opened ProxyStore
  import StableSort
  import opened Wrappers

  // ---------- informational names ----------

  /** Some keyword occurs in the name. Trimming plays no part: no keyword has a space. */
  predicate HasKeyword(s: string) {
    exists k :: 0 <= k < |INFORMATIONAL| && Contains(Lower(s), INFORMATIONAL[k])
  }

  predicate IsWord(w: string) {
    w != "" && forall i :: 0 <= i < |w| ==> !IsGap(w[i])
  }

  /** A small Latin letter or an ideograph. */
  predicate IsLetter(c: char) {
    'a' <= c <= 'z' || c >= '一'
  }

  lemma KeywordsHaveLetters(k: nat)
    requires k < |INFORMATIONAL|
    ensures INFORMATIONAL[k] != "" && forall i :: 0 <= i < |INFORMATIONAL[k]| ==> IsLetter(INFORMATIONAL[k][i])
  {
  }

  lemma KeywordsAreWords(k: nat)
    requires k < |INFORMATIONAL|
    ensures IsWord(INFORMATIONAL[k])
  {
    KeywordsHaveLetters(k);
    var w := INFORMATIONAL[k];
    assert forall i :: 0 <= i < |w| && IsLetter(w[i]) ==> !IsGap(w[i]);
  }

  lemma ContainsEither(a: string, b: string, w: string)
    ensures Contains(a, w) || Contains(b, w) ==> Contains(a + b, w)
  {
    if i :| 0 <= i <= |a| && w <= a[i..] {
      assert (a + b)[i..] == a[i..] + b;
    }
    if i :| 0 <= i <= |b| && w <= b[i..] {
      assert (a + b)[|a| + i..] == b[i..];
    }
  }

  predicate IsGap(c: char) {
    c == '-' || IsSpace(c)
  }

  /** Beside a dash or a space, a word in a concatenation lies within one of the parts. */
  lemma WordInPart(a: string, b: string, w: string, i: nat)
    requires IsWord(w) && (a == "" || IsGap(a[|a| - 1]) || b == "" || IsGap(b[0]))
    requires i <= |a + b| && w <= (a + b)[i..]
    ensures if i >= |a| then w <= b[i - |a|..] else w <= a[i..]
  {
    hide IsSpace;
    assert a != "" ==> (a + b)[|a| - 1] == a[|a| - 1];
    assert b != "" ==> (a + b)[|a|] == b[0];
    assert forall j :: 0 <= j < |w| ==> (a + b)[i + j] == w[j];
    if i >= |a| {
      assert (a + b)[i..] == b[i - |a|..];
    } else {
      assert (a + b)[i..] == a[i..] + b;
    }
  }

  lemma ContainsParts(a: string, b: string, w: string)
    requires IsWord(w) && (a == "" || IsGap(a[|a| - 1]) || b == "" || IsGap(b[0]))
    ensures Contains(a + b, w) <==> Contains(a, w) || Contains(b, w)
  {
    hide IsWord, IsGap;
    ContainsEither(a, b, w);
    if i :| 0 <= i <= |a + b| && w <= (a + b)[i..] {
      WordInPart(a, b, w, i);
    }
  }

  lemma SpaceHasNoWord(c: char, w: string)
    requires IsWord(w) && IsGap(c)
    ensures !Contains([c], w)
  {
    assert w[0] != c;
    forall i | 0 <= i <= 1
      ensures !(w <= [c][i..])
    {
    }
  }

  lemma {:induction false} TrimLeftKeepsWords(s: string, w: string)
    requires IsWord(w)
    ensures Contains(Lower(TrimLeft(s)), w) <==> Contains(Lower(s), w)
  {
    hide Contains;
    if s != [] && IsSpace(s[0]) {
      TrimLeftKeepsWords(s[1..], w);
      assert Lower(s) == [s[0]] + Lower(s[1..]);
      SpaceHasNoWord(s[0], w);
      ContainsParts([s[0]], Lower(s[1..]), w);
    }
  }

  lemma {:induction false} TrimRightKeepsWords(s: string, w: string)
    requires IsWord(w)
    ensures Contains(Lower(TrimRight(s)), w) <==> Contains(Lower(s), w)
  {
    hide Contains;
    var k := |s| - 1;
    if s != [] && IsSpace(s[k]) {
      TrimRightKeepsWords(s[..k], w);
      assert Lower(s) == Lower(s[..k]) + [s[k]];
      SpaceHasNoWord(s[k], w);
      ContainsParts(Lower(s[..k]), [s[k]], w);
    }
  }

  lemma InformationalHasKeyword(name: string)
    ensures IsInformationalNodeName(name) <==> HasKeyword(name)
  {
    hide Contains, IsWord;
    forall k | 0 <= k < |INFORMATIONAL|
      ensures Contains(Lower(Trim(name)), INFORMATIONAL[k]) <==> Contains(Lower(name), INFORMATIONAL[k])
      ensures !Contains("", INFORMATIONAL[k])
    {
      KeywordsAreWords(k);
      TrimLeftKeepsWords(name, INFORMATIONAL[k]);
      TrimRightKeepsWords(TrimLeft(name), INFORMATIONAL[k]);
      NothingHasNoWord(INFORMATIONAL[k]);
    }
  }

  lemma NothingHasNoWord(w: string)
    requires IsWord(w)
    ensures !Contains("", w)
  {
  }

  /** A dash separates: no keyword reaches across it. */
  lemma DashSeparates(a: string, b: string)
    requires a == "" || a[|a| - 1] == '-'
    ensures HasKeyword(a + b) <==> HasKeyword(a) || HasKeyword(b)
  {
    hide Contains, IsWord;
    assert Lower(a + b) == Lower(a) + Lower(b);
    forall k | 0 <= k < |INFORMATIONAL|
      ensures Contains(Lower(a + b), INFORMATIONAL[k])
         <==> Contains(Lower(a), INFORMATIONAL[k]) || Contains(Lower(b), INFORMATIONAL[k])
    {
      KeywordsAreWords(k);
      ContainsParts(Lower(a), Lower(b), INFORMATIONAL[k]);
    }
  }

  lemma SuffixHasNoMore(a: string, b: string)
    ensures HasKeyword(b) ==> HasKeyword(a + b)
  {
    assert Lower(a + b) == Lower(a) + Lower(b);
    if k, i :| 0 <= k < |INFORMATIONAL| && 0 <= i <= |b| && INFORMATIONAL[k] <= Lower(b)[i..] {
      assert (Lower(a) + Lower(b))[|a| + i..] == Lower(b)[i..];
      assert Contains(Lower(a + b), INFORMATIONAL[k]);
    }
  }

  // ---------- one name under two prefixes ----------

  lemma PrefixEndsInDash(name: string)
    ensures Prefix(name)[|Prefix(name)| - 1] == '-'
  {
  }

  /** A fetched name `m`, stored under one source name and listed under another: it drops out exactly
      when what the new prefix leaves of the old one has a keyword, unless the new prefix is longer and
      reaches into `m`. */
  lemma HiddenIff(before: string, now: string, m: string)
    requires !IsInformationalNodeName(m)
    ensures IsInformationalNodeName(TrimPrefix(Prefix(before) + m, Prefix(now)))
       <==> IsInformationalNodeName(TrimPrefix(Prefix(before), Prefix(now)))
            && !(Prefix(before) < Prefix(now) <= Prefix(before) + m)
  {
    hide IsInformationalNodeName, HasKeyword, Prefix;
    var p, q := Prefix(before), Prefix(now);
    PrefixEndsInDash(before);
    var stripped, rest := TrimPrefix(p + m, q), TrimPrefix(p, q);
    InformationalHasKeyword(m);
    InformationalHasKeyword(stripped);
    InformationalHasKeyword(rest);
    if q <= p {
      assert stripped == rest + m;
      DashSeparates(rest, m);
    } else if q <= p + m {
      assert p < q;
      assert m == q[|p|..] + stripped;
      SuffixHasNoMore(q[|p|..], stripped);
    } else {
      DashSeparates(p, m);
    }
  }

  /** So a rename hides no stored node, whatever was fetched, exactly when what the new prefix leaves
      of the old one has no keyword; otherwise it hides the node of the empty fetched name, for one. */
  lemma RenameHidesNothingIff(before: string, now: string)
    ensures (forall m: string :: !IsInformationalNodeName(m) ==>
             !IsInformationalNodeName(TrimPrefix(Prefix(before) + m, Prefix(now))))
       <==> !IsInformationalNodeName(TrimPrefix(Prefix(before), Prefix(now)))
  {
    hide IsInformationalNodeName, Prefix;
    if IsInformationalNodeName(TrimPrefix(Prefix(before), Prefix(now))) {
      NoNameIsListed();
      assert Prefix(before) + "" == Prefix(before);
    } else {
      forall m: string | !IsInformationalNodeName(m)
        ensures !IsInformationalNodeName(TrimPrefix(Prefix(before) + m, Prefix(now)))
      {
        HiddenIff(before, now, m);
      }
    }
  }

  lemma NoNameIsListed()
    ensures !IsInformationalNodeName("")
  {
  }

  // ---------- over whole runs ----------

  /** The source name under which the nodes of each ID were stored last. */
  ghost function StoredUnder(start: State, was: map<string, string>, es: seq<StoreEvent>): map<string, string> {
    if es == [] then was
    else
      var k := |es| - 1;
      NextStored(StoreRun(start, es[..k]), StoredUnder(start, was, es[..k]), es[k])
  }

  ghost function NextStored(s: State, was: map<string, string>, e: StoreEvent): map<string, string> {
    match e
    case Manage(_) => was
    case Import(src, _, _, _) => was[src.id := src.name]
    case Refresh(id, _, _, _) =>
      match FirstWithId(s.sources, id)
      case None => was
      case Some(i) => was[id := s.sources[i].name]
  }

  /** The node belongs to a source of this name: a fetched, non-informational name behind its prefix. */
  ghost predicate NamedBy(n: ProxyNode, id: string, sourceName: string) {
    n.subscriptionId == id && exists m: string :: !IsInformationalNodeName(m) && n.name == Prefix(sourceName) + m
  }

  ghost predicate AllNamedBy(nodes: NodeList, stored: map<string, string>) {
    forall n :: n in nodes ==> n.subscriptionId in stored && NamedBy(n, n.subscriptionId, stored[n.subscriptionId])
  }

  /** An import draws an ID no stored node has and brings the nodes it fetched under it. */
  ghost predicate Genuine(s: State, e: StoreEvent) {
    e.Import? ==>
      && (forall n :: n in s.nodes ==> n.subscriptionId != e.src.id)
      && (forall n :: n in e.incoming ==> NamedBy(n, e.src.id, e.src.name))
  }

  ghost predicate GenuineRun(start: State, es: seq<StoreEvent>) {
    es == [] || (GenuineRun(start, es[..|es| - 1]) && Genuine(StoreRun(start, es[..|es| - 1]), es[|es| - 1]))
  }

  /** Every stored node has name and owner from the list before or from what came in. */
  lemma {:induction false} UpsertOrigin(nodes: NodeList, incoming: NodeList, newId: nat -> string, n: ProxyNode)
    requires n in UpsertAll(nodes, incoming, newId)
    ensures exists o :: (o in nodes || o in incoming) && o.name == n.name && o.subscriptionId == n.subscriptionId
  {
    if incoming == [] {
      assert n in nodes;
    } else {
      var k := |incoming| - 1;
      assert incoming[k] in incoming;
      if n in UpsertAll(nodes, incoming[..k], newId) {
        UpsertOrigin(nodes, incoming[..k], newId, n);
      }
    }
  }

  lemma UpsertNamed(nodes: NodeList, incoming: NodeList, newId: nat -> string, stored: map<string, string>)
    requires AllNamedBy(nodes, stored) && AllNamedBy(incoming, stored)
    ensures AllNamedBy(UpsertAll(nodes, incoming, newId), stored)
  {
    hide UpsertAll, Prefix, IsInformationalNodeName;
    forall n | n in UpsertAll(nodes, incoming, newId)
      ensures n.subscriptionId in stored && NamedBy(n, n.subscriptionId, stored[n.subscriptionId])
    {
      UpsertOrigin(nodes, incoming, newId, n);
      var o :| (o in nodes || o in incoming) && o.name == n.name && o.subscriptionId == n.subscriptionId;
      assert NamedBy(o, o.subscriptionId, stored[o.subscriptionId]);
    }
  }

  lemma KeptNamed(nodes: NodeList, src: Source, incoming: NodeList, stored: map<string, string>)
    requires src.id in stored && stored[src.id] == src.name
    ensures AllNamedBy(KeptOf(nodes, src, incoming), stored)
  {
    hide KeptOf, Prefix, IsInformationalNodeName, ExistingIds;
    forall n | n in KeptOf(nodes, src, incoming)
      ensures n.subscriptionId in stored && NamedBy(n, n.subscriptionId, stored[n.subscriptionId])
    {
      KeptMembers(nodes, src, incoming, n);
    }
  }

  /** Nodes of other sources keep what they were stored under. */
  lemma RestNamed(nodes: NodeList, rest: NodeList, was: map<string, string>, id: string, name: string)
    requires AllNamedBy(nodes, was) && forall n :: n in rest ==> n in nodes && n.subscriptionId != id
    ensures AllNamedBy(rest, was[id := name])
  {
    hide NamedBy;
  }

  lemma StepNamed(s: State, was: map<string, string>, e: StoreEvent)
    requires AllNamedBy(s.nodes, was) && Genuine(s, e)
    ensures AllNamedBy(StoreStep(s, e).nodes, NextStored(s, was, e))
  {
    hide Step, UpsertAll, KeptOf, LastIsProxy, Added, NamedBy, Updated;
    match e
    case Manage(_) =>
    case Import(src, _, incoming, newId) =>
      RestNamed(s.nodes, s.nodes, was, src.id, src.name);
      IncomingNamed(incoming, src, was[src.id := src.name]);
      UpsertNamed(s.nodes, incoming, newId, was[src.id := src.name]);
    case Refresh(id, incoming, _, newId) =>
      if FirstWithId(s.sources, id).Some? {
        var src := s.sources[FirstWithId(s.sources, id).value];
        var stored := was[id := src.name];
        RestNamed(s.nodes, Others(s.nodes, id), was, id, src.name);
        KeptNamed(s.nodes, src, incoming, stored);
        UpsertNamed(Others(s.nodes, id), KeptOf(s.nodes, src, incoming), newId, stored);
      }
  }

  lemma IncomingNamed(incoming: NodeList, src: Source, stored: map<string, string>)
    requires src.id in stored && stored[src.id] == src.name
    requires forall n :: n in incoming ==> NamedBy(n, src.id, src.name)
    ensures AllNamedBy(incoming, stored)
  {
    hide Prefix, IsInformationalNodeName;
  }

  lemma {:induction false} RunNamed(start: State, was: map<string, string>, es: seq<StoreEvent>)
    requires AllNamedBy(start.nodes, was) && GenuineRun(start, es)
    ensures AllNamedBy(StoreRun(start, es).nodes, StoredUnder(start, was, es))
  {
    hide AllNamedBy, Genuine, StoreStep, NextStored;
    if es != [] {
      RunNamed(start, was, es[..|es| - 1]);
      StepNamed(StoreRun(start, es[..|es| - 1]), StoredUnder(start, was, es[..|es| - 1]), es[|es| - 1]);
    }
  }

  lemma ListedIff(ss: SourceList, nodes: NodeList, i: nat, n: ProxyNode)
    requires SingleEnabled(ss) && i < |ss| && Feeds(ss[i]) && n in nodes && n.subscriptionId == ss[i].id
    ensures n in Active(ss, nodes) <==> !IsInformationalNodeName(TrimPrefix(n.name, Prefix(ss[i].name)))
  {
    hide Prefix, IsInformationalNodeName, ActivePrefixes, Listed, TrimPrefix, Rank;
    OnlyFeed(ss, i);
    var listed := Listed(nodes, ActivePrefixes(ss));
    StableSort.SortPermutes(listed, Rank);
    assert n in Active(ss, nodes) <==> n in multiset(Active(ss, nodes));
    assert n in listed <==> n in multiset(listed);
  }

  /** In every reachable state, a stored node of the enabled proxy source is listed exactly when what
      the current prefix leaves of the prefix it was stored under has no keyword, or the current prefix
      is the longer one and still begins the node's name. */
  lemma StaysListedIff(start: State, was: map<string, string>, es: seq<StoreEvent>, i: nat, n: ProxyNode)
    requires UniqueNames(start.nodes) && QuietStoreRun(start, es)
    requires AllNamedBy(start.nodes, was) && GenuineRun(start, es)
    requires var s := StoreRun(start, es);
      i < |s.sources| && Feeds(s.sources[i]) && n in s.nodes && n.subscriptionId == s.sources[i].id
    ensures var s := StoreRun(start, es);
      && n.subscriptionId in StoredUnder(start, was, es)
      && var before, now := Prefix(StoredUnder(start, was, es)[n.subscriptionId]), Prefix(s.sources[i].name);
         n in Active(s.sources, s.nodes) <==>
         !IsInformationalNodeName(TrimPrefix(before, now)) || before < now <= n.name
  {
    hide StoreRun, StoredUnder, UniqueNames, QuietStoreRun, GenuineRun, SingleEnabled, Active, Prefix,
         IsInformationalNodeName, TrimPrefix;
    var s, stored := StoreRun(start, es), StoredUnder(start, was, es);
    EveryState(start, es);
    RunNamed(start, was, es);
    var m: string :| !IsInformationalNodeName(m) && n.name == Prefix(stored[n.subscriptionId]) + m;
    ListedIff(s.sources, s.nodes, i, n);
    HiddenIff(stored[n.subscriptionId], s.sources[i].name, m);
  }

  // ---------- a rename that hides every node ----------

  /** A name without a single plain character gives the default prefix, itself a keyword. */
  lemma PlainlessPrefix()
    ensures Prefix("机场") == "subscription-" && Prefix("my") == "my-"
  {
    var s := seq(2, i requires 0 <= i < 2 => SanitizeChar("机场"[i]));
    assert s == "--";
    assert TrimDashes("--") == TrimDashes("-") == "";
    assert seq(2, i requires 0 <= i < 2 => SanitizeChar("my"[i])) == "my";
    assert TrimDashes("my") == "my";
  }

  lemma DefaultPrefixIsInformational()
    ensures IsInformationalNodeName("subscription-")
  {
    assert Lower("subscription") == "subscription";
    assert INFORMATIONAL[15] == "subscription";
    assert Lower("subscription-") == Lower("subscription") + Lower("-");
    assert "subscription" <= Lower("subscription-")[0..];
    assert Contains(Lower("subscription-"), INFORMATIONAL[15]);
    InformationalHasKeyword("subscription-");
  }

  /** One enabled proxy source, renamed while its fetch fails: every node is listed before, none after,
      though all of them are still stored. */
  lemma RenameHidesAll(id: string, details: string, nodes: NodeList, n: ProxyNode)
    requires id != "" && n in nodes && NamedBy(n, id, "机场")
    ensures var src := Source(id, "机场", KIND_PROXY, true, details);
      var after := StoreStep(State([src], nodes), Manage(Update(src.(name := "my"))));
      after.nodes == nodes && n in Active([src], nodes) && n !in Active(after.sources, after.nodes)
  {
    hide Prefix, IsInformationalNodeName, TrimPrefix, Active, NamedBy;
    var src := Source(id, "机场", KIND_PROXY, true, details);
    var renamed := src.(name := "my");
    assert [src][0].id == id && KIND_PROXY != "";
    assert FirstWithId([src], id) == Some(0);
    assert renamed.kind == KIND_PROXY && renamed.(kind := KIND_PROXY) == renamed;
    assert [src][0 := renamed] == [renamed];
    assert Updated([src], renamed) == Some([renamed]);
    NamesListed(src, "机场", nodes, n);
    NamesListed(renamed, "机场", nodes, n);
    ResidueOfRename();
  }

  lemma NamesListed(src: Source, stored: string, nodes: NodeList, n: ProxyNode)
    requires Feeds(src) && n in nodes && NamedBy(n, src.id, stored)
    ensures n in Active([src], nodes) <==>
            !IsInformationalNodeName(TrimPrefix(Prefix(stored), Prefix(src.name)))
              || Prefix(stored) < Prefix(src.name) <= n.name
  {
    hide Prefix, IsInformationalNodeName, TrimPrefix, Active;
    var m: string :| !IsInformationalNodeName(m) && n.name == Prefix(stored) + m;
    assert Feeds([src][0]);
    ListedIff([src], nodes, 0, n);
    HiddenIff(stored, src.name, m);
  }

  lemma ResidueOfRename()
    ensures !IsInformationalNodeName(TrimPrefix(Prefix("机场"), Prefix("机场")))
    ensures IsInformationalNodeName(TrimPrefix(Prefix("机场"), Prefix("my"))) && !(Prefix("机场") < Prefix("my"))
  {
    hide Prefix, IsInformationalNodeName;
    PlainlessPrefix();
    DefaultPrefixIsInformational();
    NoNameIsListed();
    assert TrimPrefix(Prefix("机场"), Prefix("机场")) == "";
    assert "subscription-"[0] != "my-"[0];
  }
}
