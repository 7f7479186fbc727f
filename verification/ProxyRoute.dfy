/** The rule-to-route compiler: every route built from a valid rule list decides each connection
    as the list does, also in the degraded form without rule sets, and is closed under rule-set
    references. */
module ProxyRoute {
  import opened Finite
  import opened Text
  import opened ProxyRules
  import opened Wrappers

  /** One entry of the engine's rule list: a criterion key, its value, and where matches go. */
  datatype RouteRule = RouteRule(key: string, value: string, outbound: string)

  datatype Definition = Definition(tag: string, dir: string, file: string)

  /** `final` takes what no rule matches; without rule sets the `rule_set` section is absent. */
  datatype Route = Route(rules: seq<RouteRule>, final: string, ruleSets: seq<Definition>)

  datatype BuildError = Invalid(index: nat, fault: Fault) | RuleSetFile(tag: string)

  // ---------- modes and keys ----------

  const MODE_RULE := "rule"
  const MODE_GLOBAL := "global"
  const MODE_DIRECT := "direct"

  function NormalizeMode(mode: string): (m: string)
    ensures m in {MODE_RULE, MODE_GLOBAL, MODE_DIRECT}
  {
    var m := Fold(mode);
    if m == MODE_GLOBAL then MODE_GLOBAL else if m == MODE_DIRECT then MODE_DIRECT else MODE_RULE
  }

  function ProxyRuleRouteKey(ruleType: string): string {
    var t := NormalizeProxyRuleType(ruleType);
    if t == DOMAIN then "domain"
    else if t == DOMAIN_KEYWORD then "domain_keyword"
    else if t == IP_CIDR then "ip_cidr"
    else if t == RULE_SET then "rule_set"
    else "domain_suffix"
  }

  // ---------- the compiler as functions ----------

  /** A rule is compiled unless it is disabled, blank, or a rule set in the degraded form. */
  predicate IsCompiled(r: Rule, useRuleSets: bool) {
    r.enabled && Trim(r.value) != "" && (useRuleSets || NormalizeProxyRuleType(r.ruleType) != RULE_SET)
  }

  function Compile(rs: seq<Rule>, useRuleSets: bool): seq<RouteRule> {
    if rs == [] then []
    else
      var r, before := rs[|rs| - 1], Compile(rs[..|rs| - 1], useRuleSets);
      if IsCompiled(r, useRuleSets) then before + [RouteRule(ProxyRuleRouteKey(r.ruleType), r.value, r.outbound)]
      else before
  }

  /** Values of the compiled rule-set rules, in order. */
  function References(rs: seq<Rule>, useRuleSets: bool): seq<string> {
    if rs == [] then []
    else
      var r, before := rs[|rs| - 1], References(rs[..|rs| - 1], useRuleSets);
      if IsCompiled(r, useRuleSets) && NormalizeProxyRuleType(r.ruleType) == RULE_SET
      then before + [r.value] else before
  }

  /** Where the compiled rule-set rules are. */
  ghost function ReferencesAt(rs: seq<Rule>, useRuleSets: bool): (at: seq<nat>)
    ensures forall k :: 0 <= k < |at| ==> at[k] < |rs| && Refers(rs[at[k]], useRuleSets)
    ensures forall j, k :: 0 <= j < k < |at| ==> at[j] < at[k]
    ensures forall i :: 0 <= i < |rs| && Refers(rs[i], useRuleSets) ==> i in at
  {
    Positions(seq(|rs|, i requires 0 <= i < |rs| => Refers(rs[i], useRuleSets)))
  }

  /** An enabled rule-set rule with a value, in a route that has rule sets. */
  predicate Refers(r: Rule, useRuleSets: bool) {
    useRuleSets && r.enabled && Trim(r.value) != "" && NormalizeProxyRuleType(r.ruleType) == "rule_set"
  }

  lemma ReferencesAtNext(rs: seq<Rule>, useRuleSets: bool)
    requires rs != []
    ensures var k := |rs| - 1;
      ReferencesAt(rs, useRuleSets)
      == ReferencesAt(rs[..k], useRuleSets) + if Refers(rs[k], useRuleSets) then [k] else []
  {
    hide Refers;
    var k := |rs| - 1;
    var marks := seq(|rs|, i requires 0 <= i < |rs| => Refers(rs[i], useRuleSets));
    PositionsNext(marks);
    assert marks[..k] == seq(k, i requires 0 <= i < k => Refers(rs[..k][i], useRuleSets));
  }

  lemma NoReferencesAt(useRuleSets: bool)
    ensures ReferencesAt([], useRuleSets) == []
  {
  }

  /** Exactly the compiled rule-set rules are referred to, in order. */
  lemma {:induction false} ReferencesInOrder(rs: seq<Rule>, useRuleSets: bool)
    ensures var refs, at := References(rs, useRuleSets), ReferencesAt(rs, useRuleSets);
      |refs| == |at| && forall k :: 0 <= k < |at| ==> refs[k] == rs[at[k]].value
  {
    hide ReferencesAt, NormalizeProxyRuleType, Trim;
    if rs == [] {
      NoReferencesAt(useRuleSets);
    } else {
      ReferencesInOrder(rs[..|rs| - 1], useRuleSets);
      ReferencesAtNext(rs, useRuleSets);
    }
  }

  predicate BundledTag(tag: string) {
    tag in {"geoip-cn", "geosite-geolocation-cn", "geosite-geolocation-!cn"}
  }

  lemma BundledIsEmbedded(tag: string)
    ensures BundledTag(tag) <==> EmbeddedRuleSetFile(tag) != ""
  {
  }

  /** Where a known rule set is mentioned for the first time, whatever its case. */
  predicate FirstMention(refs: seq<string>, i: nat)
    requires i < |refs|
  {
    BundledTag(Fold(refs[i])) && !Mentioned(refs[..i], Fold(refs[i]))
  }

  predicate Mentioned(refs: seq<string>, tag: string) {
    exists j :: 0 <= j < |refs| && Fold(refs[j]) == tag
  }

  ghost function MentionMarks(refs: seq<string>): (marks: seq<bool>)
    ensures |marks| == |refs| && forall i :: 0 <= i < |refs| ==> marks[i] == FirstMention(refs, i)
  {
    seq(|refs|, i requires 0 <= i < |refs| => FirstMention(refs, i))
  }

  ghost function MentionsAt(refs: seq<string>): (at: seq<nat>)
    ensures forall k :: 0 <= k < |at| ==> at[k] < |refs| && FirstMention(refs, at[k])
    ensures forall j, k :: 0 <= j < k < |at| ==> at[j] < at[k]
    ensures forall i :: 0 <= i < |refs| && FirstMention(refs, i) ==> i in at
  {
    Positions(MentionMarks(refs))
  }

  lemma MentionsAtNext(refs: seq<string>)
    requires refs != []
    ensures var k := |refs| - 1; MentionsAt(refs) == MentionsAt(refs[..k]) + if FirstMention(refs, k) then [k] else []
  {
    hide FirstMention, Positions;
    PositionsNext(MentionMarks(refs));
    MentionMarksNext(refs);
  }

  lemma MentionMarksNext(refs: seq<string>)
    requires refs != []
    ensures MentionMarks(refs)[..|refs| - 1] == MentionMarks(refs[..|refs| - 1])
  {
    hide Fold, BundledTag, Mentioned;
    var k := |refs| - 1;
    forall i | 0 <= i < k
      ensures FirstMention(refs, i) == FirstMention(refs[..k], i)
    {
      assert refs[..k][..i] == refs[..i];
    }
    hide FirstMention;
  }

  lemma NoMentionsAt()
    ensures MentionsAt([]) == []
  {
  }

  /** One tag for each first mention, in order. */
  lemma {:induction false} TagsInOrder(refs: seq<string>)
    ensures var tags, at := Tags(refs), MentionsAt(refs);
      |tags| == |at| && forall k :: 0 <= k < |at| ==> tags[k] == Fold(refs[at[k]])
  {
    hide MentionsAt, Fold, Tags, FirstMention;
    if refs == [] {
      NoMentionsAt();
      NoTagsYet();
    } else {
      TagsInOrder(refs[..|refs| - 1]);
      MentionsAtNext(refs);
      TagsNext(refs);
    }
  }

  lemma NoTagsYet()
    ensures Tags([]) == []
  {
  }

  lemma TagsNext(refs: seq<string>)
    requires refs != []
    ensures var k := |refs| - 1; Tags(refs) == Tags(refs[..k]) + if FirstMention(refs, k) then [Fold(refs[k])] else []
  {
    hide Fold, EmbeddedRuleSetFile, BundledTag, Mentioned;
    var k := |refs| - 1;
    BundledIsEmbedded(Fold(refs[k]));
    if BundledTag(Fold(refs[k])) {
      TagSeen(refs[..k], Fold(refs[k]));
    }
  }

  /** A known tag is listed exactly if it was mentioned. */
  lemma {:induction false} TagSeen(refs: seq<string>, tag: string)
    requires BundledTag(tag)
    ensures tag in Tags(refs) <==> Mentioned(refs, tag)
  {
    hide Fold, EmbeddedRuleSetFile, BundledTag;
    if refs != [] {
      TagSeen(refs[..|refs| - 1], tag);
      BundledIsEmbedded(tag);
    }
  }

  /** Folded tags of the known rule sets, each once, in order of first mention. */
  function Tags(refs: seq<string>): seq<string> {
    if refs == [] then []
    else
      var tags, tag := Tags(refs[..|refs| - 1]), Fold(refs[|refs| - 1]);
      if tag in tags || EmbeddedRuleSetFile(tag) == "" then tags else tags + [tag]
  }

  function Definitions(tags: seq<string>, dir: string): (ds: seq<Definition>)
    ensures |ds| == |tags| && forall i :: 0 <= i < |tags| ==>
      ds[i] == Definition(tags[i], dir, EmbeddedRuleSetFile(tags[i]))
  {
    seq(|tags|, i requires 0 <= i < |tags| => Definition(tags[i], dir, EmbeddedRuleSetFile(tags[i])))
  }

  function Built(mode: string, rules: Option<seq<Rule>>, dir: string, useRuleSets: bool): Route {
    if NormalizeMode(mode) == MODE_DIRECT then Route([], DIRECT, [])
    else if NormalizeMode(mode) == MODE_GLOBAL then Route([], SELECTED, [])
    else
      var rs := Effective(rules);
      Route(Compile(rs, useRuleSets), SELECTED, Definitions(Tags(References(rs, useRuleSets)), dir))
  }

  // ---------- the compiler as loops ----------

  /** `writes` tells for each bundled file whether it can be put in place. */
  method EnsureLocalRuleSetFiles(dir: string, tags: seq<string>, writes: string -> bool)
    returns (paths: map<string, Definition>, failed: Option<string>)
    ensures failed.Some? ==> failed.value in tags && !writes(EmbeddedRuleSetFile(failed.value))
    ensures failed.None? ==> forall t :: t in paths <==> t in tags && EmbeddedRuleSetFile(t) != ""
    ensures failed.None? ==> forall t :: t in paths ==> paths[t] == Definition(t, dir, EmbeddedRuleSetFile(t))
  {
    hide EmbeddedRuleSetFile;
    paths := map[];
    for i := 0 to |tags|
      invariant forall t :: t in paths <==> t in tags[..i] && EmbeddedRuleSetFile(t) != ""
      invariant forall t :: t in paths ==> paths[t] == Definition(t, dir, EmbeddedRuleSetFile(t))
    {
      var file := EmbeddedRuleSetFile(tags[i]);
      if file != "" {
        if !writes(file) {
          return paths, Some(tags[i]);
        }
        paths := paths[tags[i] := Definition(tags[i], dir, file)];
      }
    }
    failed := None;
  }

  method BuildTags(ruleSets: seq<string>) returns (tags: seq<string>)
    ensures tags == Tags(ruleSets)
  {
    hide EmbeddedRuleSetFile;
    var seen: set<string> := {};
    tags := [];
    for i := 0 to |ruleSets|
      invariant tags == Tags(ruleSets[..i])
      invariant forall t :: t in seen <==> t in tags
    {
      assert ruleSets[..i + 1][..i] == ruleSets[..i];
      var tag := Lower(Trim(ruleSets[i]));
      if tag !in seen && EmbeddedRuleSetFile(tag) != "" {
        seen := seen + {tag};
        tags := tags + [tag];
      }
    }
    assert ruleSets[..|ruleSets|] == ruleSets;
  }

  method BuildLocalRuleSetDefinitions(ruleSets: seq<string>, dir: string, writes: string -> bool)
    returns (definitions: seq<Definition>, failed: Option<string>)
    ensures failed.Some? ==> failed.value in Tags(ruleSets) && !writes(EmbeddedRuleSetFile(failed.value))
    ensures failed.None? ==> definitions == Definitions(Tags(ruleSets), dir)
  {
    hide EmbeddedRuleSetFile, Tags;
    var tags := BuildTags(ruleSets);
    var paths;
    paths, failed := EnsureLocalRuleSetFiles(dir, tags, writes);
    definitions := [];
    if failed.Some? {
      return;
    }
    for i := 0 to |tags|
      invariant definitions == Definitions(tags[..i], dir)
    {
      TagIsEmbedded(ruleSets, i);
      if tags[i] in paths {
        definitions := definitions + [paths[tags[i]]];
      }
    }
    assert tags[..|tags|] == tags;
  }

  lemma {:induction false} TagIsEmbedded(refs: seq<string>, i: nat)
    requires i < |Tags(refs)|
    ensures EmbeddedRuleSetFile(Tags(refs)[i]) != ""
  {
    hide EmbeddedRuleSetFile;
    if i < |Tags(refs[..|refs| - 1])| {
      TagIsEmbedded(refs[..|refs| - 1], i);
    }
  }

  method NormalizeRuleModeRules(rules: Option<seq<Rule>>) returns (ns: seq<Rule>)
    ensures ns == Effective(rules)
  {
    hide NormalizedAll, DefaultProxyRules;
    ns := NormalizeProxyRules(if rules.None? then DefaultProxyRules() else rules.value);
  }

  method CompileRules(rs: seq<Rule>, useRuleSets: bool) returns (routeRules: seq<RouteRule>, ruleSets: seq<string>)
    ensures routeRules == Compile(rs, useRuleSets) && ruleSets == References(rs, useRuleSets)
  {
    hide NormalizeProxyRuleType, ProxyRuleRouteKey;
    routeRules, ruleSets := [], [];
    for i := 0 to |rs|
      invariant routeRules == Compile(rs[..i], useRuleSets)
      invariant ruleSets == References(rs[..i], useRuleSets)
    {
      assert rs[..i + 1][..i] == rs[..i];
      var r := rs[i];
      if r.enabled && Trim(r.value) != "" {
        var isRuleSet := NormalizeProxyRuleType(r.ruleType) == RULE_SET;
        if !(isRuleSet && !useRuleSets) {
          var routeRule := RouteRule(ProxyRuleRouteKey(r.ruleType), r.value, r.outbound);
          if isRuleSet {
            ruleSets := ruleSets + [r.value];
          }
          routeRules := routeRules + [routeRule];
        }
      }
    }
    assert rs[..|rs|] == rs;
  }

  method BuildRoute(mode: string, rules: Option<seq<Rule>>, dir: string, useRuleSets: bool, cidr: string -> bool,
                    writes: string -> bool)
    returns (route: Route, error: Option<BuildError>)
    ensures error.None? ==> route == Built(mode, rules, dir, useRuleSets)
    ensures NormalizeMode(mode) in {MODE_DIRECT, MODE_GLOBAL} ==> error.None?
    ensures NormalizeMode(mode) == MODE_RULE ==>
      ((error.Some? && error.value.Invalid?) <==> !Valid(Effective(rules), cidr))
    ensures error.Some? && error.value.Invalid? ==>
      FirstFault(Effective(rules), cidr, error.value.index, error.value.fault)
    ensures error.Some? && error.value.RuleSetFile? ==>
      error.value.tag in Tags(References(Effective(rules), useRuleSets))
        && !writes(EmbeddedRuleSetFile(error.value.tag))
  {
    hide Effective, Tags, References, Compile, Valid, FirstFault, EmbeddedRuleSetFile, Definitions;
    route := Route([], SELECTED, []);
    if NormalizeMode(mode) == MODE_DIRECT {
      return Route([], DIRECT, []), None;
    }
    if NormalizeMode(mode) == MODE_GLOBAL {
      return Route([], SELECTED, []), None;
    }
    var rs := NormalizeRuleModeRules(rules);
    var invalid := ValidateProxyRules(rs, cidr);
    if invalid.Some? {
      return route, Some(Invalid(invalid.value.0, invalid.value.1));
    }
    var routeRules, ruleSets := CompileRules(rs, useRuleSets);
    var definitions, failed := BuildLocalRuleSetDefinitions(ruleSets, dir, writes);
    if failed.Some? {
      return route, Some(RuleSetFile(failed.value));
    }
    return Route(routeRules, SELECTED, definitions), None;
  }

  // ---------- what a route means ----------

  /** The file behind a rule-set tag in this route. */
  function FileOf(ds: seq<Definition>, tag: string): Option<string> {
    if ds == [] then None
    else if ds[0].tag == tag then Some(ds[0].file)
    else FileOf(ds[1..], tag)
  }

  predicate EntryMatches<C>(x: RouteRule, ds: seq<Definition>, e: Engine<C>, c: C) {
    if x.key == "domain" then e.domain(x.value, c)
    else if x.key == "domain_suffix" then e.suffix(x.value, c)
    else if x.key == "domain_keyword" then e.keyword(x.value, c)
    else if x.key == "ip_cidr" then e.cidr(x.value, c)
    else if x.key == "rule_set" then FileOf(ds, x.value).Some? && e.file(FileOf(ds, x.value).value, c)
    else false
  }

  function FirstEntry<C>(xs: seq<RouteRule>, ds: seq<Definition>, e: Engine<C>, c: C): (m: Option<nat>)
    ensures m.Some? ==> m.value < |xs| && EntryMatches(xs[m.value], ds, e, c)
    ensures m.Some? ==> forall j :: 0 <= j < m.value ==> !EntryMatches(xs[j], ds, e, c)
    ensures m.None? ==> forall j :: 0 <= j < |xs| ==> !EntryMatches(xs[j], ds, e, c)
  {
    if xs == [] then None
    else
      var k := |xs| - 1;
      match FirstEntry(xs[..k], ds, e, c)
      case Some(i) => Some(i)
      case None => if EntryMatches(xs[k], ds, e, c) then Some(k) else None
  }

  /** First match wins; the engine refuses to start on a reference to an undefined rule set. */
  function Outbound<C>(route: Route, e: Engine<C>, c: C): string {
    match FirstEntry(route.rules, route.ruleSets, e, c)
    case Some(i) => route.rules[i].outbound
    case None => route.final
  }

  // ---------- rule-set closure ----------

  lemma {:induction false} TagsDistinct(refs: seq<string>)
    ensures Distinct(Tags(refs))
  {
    hide EmbeddedRuleSetFile, Fold;
    if refs != [] {
      TagsDistinct(refs[..|refs| - 1]);
    }
  }

  ghost predicate KnownRefs(refs: seq<string>) {
    forall i :: 0 <= i < |refs| ==> Fold(refs[i]) == refs[i] && EmbeddedRuleSetFile(refs[i]) != ""
  }

  /** With folded, known references every one gets a definition, and nothing else does. */
  lemma {:induction false} TagsAreRefs(refs: seq<string>, tag: string)
    requires KnownRefs(refs)
    ensures tag in Tags(refs) <==> tag in refs
  {
    hide EmbeddedRuleSetFile, Fold;
    if refs != [] {
      var k := |refs| - 1;
      TagsAreRefs(refs[..k], tag);
      assert refs == refs[..k] + [refs[k]];
    }
  }

  /** Rules that normalisation has passed and validation accepts. */
  ghost predicate Accepted(rs: seq<Rule>, cidr: string -> bool) {
    forall i :: 0 <= i < |rs| ==> Normalized(rs[i]) == rs[i] && FaultOf(rs[i], cidr).None?
  }

  lemma EffectiveAccepted(rules: Option<seq<Rule>>, cidr: string -> bool)
    requires Valid(Effective(rules), cidr)
    ensures Accepted(Effective(rules), cidr)
  {
    hide Normalized, FaultOf, DefaultProxyRules;
    var rs := if rules.None? then DefaultProxyRules() else rules.value;
    forall i | 0 <= i < |rs|
      ensures Normalized(NormalizedAll(rs)[i]) == NormalizedAll(rs)[i]
    {
      NormalizedIdempotent(rs[i]);
    }
  }

  /** What normalisation and validation give for one enabled rule. */
  lemma AcceptedRule(r: Rule, cidr: string -> bool)
    requires Normalized(r) == r && FaultOf(r, cidr).None?
    ensures NormalizeProxyRuleType(r.ruleType) == r.ruleType
    ensures r.ruleType in {DOMAIN, DOMAIN_SUFFIX, DOMAIN_KEYWORD, IP_CIDR, RULE_SET}
    ensures r.outbound in {SELECTED, DIRECT, BLOCK}
    ensures Trim(r.value) == "" ==> !r.enabled
    ensures r.enabled && r.ruleType == RULE_SET ==> Fold(r.value) == r.value && EmbeddedRuleSetFile(r.value) != ""
  {
    hide NormalizeProxyRuleType, NormalizeProxyRuleOutbound, Trim, EmbeddedRuleSetFile, IsKnownProxyRuleSet;
    TypeOfNormalized(r);
    ValueOfNormalized(r);
    KnownIffEmbedded(r.value);
  }

  lemma AcceptedIsCompiled(r: Rule, useRuleSets: bool, cidr: string -> bool)
    requires Normalized(r) == r && FaultOf(r, cidr).None?
    ensures IsCompiled(r, useRuleSets) <==> r.enabled && (useRuleSets || r.ruleType != RULE_SET)
    ensures NormalizeProxyRuleType(r.ruleType) == r.ruleType
  {
    hide Normalized, FaultOf, NormalizeProxyRuleType, Trim, Fold, EmbeddedRuleSetFile;
    AcceptedRule(r, cidr);
  }

  lemma TypeOfNormalized(r: Rule)
    requires Normalized(r) == r
    ensures NormalizeProxyRuleType(r.ruleType) == r.ruleType && NormalizeProxyRuleOutbound(r.outbound) == r.outbound
  {
    hide NormalizeProxyRuleType, NormalizeProxyRuleOutbound, Trim;
  }

  lemma ValueOfNormalized(r: Rule)
    requires Normalized(r) == r
    ensures Trim(r.value) == r.value
    ensures r.ruleType == RULE_SET ==> Fold(r.value) == r.value
  {
    hide NormalizeProxyRuleType, NormalizeProxyRuleOutbound, Trim;
    if r.ruleType == RULE_SET {
      TypeOfNormalized(r);
      var v := Trim(r.value);
      assert r.value == Lower(v);
      FoldIsFixed(r.value);
      TrimIsTrimmed(r.value);
      LowerKeepsTrimmed(v);
      TrimKeepsTrimmed(r.value);
    } else {
      TypeOfNormalized(r);
    }
  }

  lemma {:induction false} ReferencesKnown(rs: seq<Rule>, useRuleSets: bool, cidr: string -> bool)
    requires Accepted(rs, cidr)
    ensures KnownRefs(References(rs, useRuleSets))
  {
    hide Normalized, FaultOf, NormalizeProxyRuleType, Fold, EmbeddedRuleSetFile;
    if rs != [] {
      var k := |rs| - 1;
      ReferencesKnown(rs[..k], useRuleSets, cidr);
      AcceptedRule(rs[k], cidr);
    }
  }

  lemma KeyIsRuleSet(ruleType: string)
    ensures ProxyRuleRouteKey(ruleType) == "rule_set" <==> NormalizeProxyRuleType(ruleType) == RULE_SET
  {
    hide NormalizeProxyRuleType;
  }

  ghost predicate Mentions(xs: seq<RouteRule>, tag: string) {
    exists i :: 0 <= i < |xs| && xs[i].key == "rule_set" && xs[i].value == tag
  }

  lemma MentionsSnoc(xs: seq<RouteRule>, x: RouteRule, tag: string)
    ensures Mentions(xs + [x], tag) <==> Mentions(xs, tag) || (x.key == "rule_set" && x.value == tag)
  {
    var ys := xs + [x];
    if Mentions(xs, tag) {
      var i :| 0 <= i < |xs| && xs[i].key == "rule_set" && xs[i].value == tag;
      assert ys[i] == xs[i];
    }
    assert ys[|xs|] == x;
  }

  lemma {:induction false} CompileMentions(rs: seq<Rule>, useRuleSets: bool, tag: string)
    ensures Mentions(Compile(rs, useRuleSets), tag) <==> tag in References(rs, useRuleSets)
  {
    hide Mentions, ProxyRuleRouteKey, NormalizeProxyRuleType, IsCompiled;
    if rs == [] {
      NoMentions(tag);
    } else {
      var r, before := rs[|rs| - 1], Compile(rs[..|rs| - 1], useRuleSets);
      CompileMentions(rs[..|rs| - 1], useRuleSets, tag);
      if IsCompiled(r, useRuleSets) {
        KeyIsRuleSet(r.ruleType);
        MentionsSnoc(before, RouteRule(ProxyRuleRouteKey(r.ruleType), r.value, r.outbound), tag);
      }
    }
  }

  lemma NoMentions(tag: string)
    ensures !Mentions([], tag)
  {
  }

  lemma {:induction false} DegradedReferences(rs: seq<Rule>)
    ensures References(rs, false) == []
  {
    hide NormalizeProxyRuleType, Trim;
    if rs != [] {
      DegradedReferences(rs[..|rs| - 1]);
    }
  }

  /** The engine can start: every rule-set reference is defined, and no tag is defined twice. */
  ghost predicate Closed(route: Route) {
    && (forall tag :: Mentions(route.rules, tag) <==> Defines(route.ruleSets, tag))
    && (forall i, j :: 0 <= i < j < |route.ruleSets| ==> route.ruleSets[i].tag != route.ruleSets[j].tag)
    && (forall i :: 0 <= i < |route.ruleSets| ==>
          route.ruleSets[i].file == EmbeddedRuleSetFile(route.ruleSets[i].tag) && route.ruleSets[i].file != "")
  }

  ghost predicate Defines(ds: seq<Definition>, tag: string) {
    exists i :: 0 <= i < |ds| && ds[i].tag == tag
  }

  /** In every route built, each rule set referenced is defined exactly once, with a bundled file, and
      none is defined without a reference; the degraded form has neither. */
  lemma RuleSetClosure(mode: string, rules: Option<seq<Rule>>, dir: string, useRuleSets: bool, cidr: string -> bool)
    requires NormalizeMode(mode) == MODE_RULE ==> Valid(Effective(rules), cidr)
    ensures var route := Built(mode, rules, dir, useRuleSets);
      Closed(route) && (!useRuleSets ==> route.ruleSets == [] && forall tag :: !Mentions(route.rules, tag))
  {
    hide Effective, Valid, Mentions, Compile, References, Tags, NormalizeMode;
    forall tag { NoMentions(tag); }
    if NormalizeMode(mode) == MODE_RULE {
      RulesClosed(Effective(rules), rules, dir, useRuleSets, cidr);
    }
  }

  lemma DefinedIsTag(tags: seq<string>, dir: string, tag: string)
    ensures Defines(Definitions(tags, dir), tag) <==> tag in tags
  {
    hide EmbeddedRuleSetFile;
    var ds := Definitions(tags, dir);
    if tag in tags {
      var i :| 0 <= i < |tags| && tags[i] == tag;
      assert ds[i].tag == tag;
    }
  }

  lemma DefinitionsEmbedded(refs: seq<string>, dir: string)
    ensures var ds := Definitions(Tags(refs), dir);
      forall i :: 0 <= i < |ds| ==> ds[i].file == EmbeddedRuleSetFile(ds[i].tag) && ds[i].file != ""
  {
    hide EmbeddedRuleSetFile, Tags;
    forall i | 0 <= i < |Tags(refs)|
      ensures EmbeddedRuleSetFile(Tags(refs)[i]) != ""
    {
      TagIsEmbedded(refs, i);
    }
  }

  lemma RulesClosed(rs: seq<Rule>, rules: Option<seq<Rule>>, dir: string, useRuleSets: bool, cidr: string -> bool)
    requires rs == Effective(rules) && Valid(rs, cidr)
    ensures var refs := References(rs, useRuleSets);
      && Closed(Route(Compile(rs, useRuleSets), SELECTED, Definitions(Tags(refs), dir)))
      && (!useRuleSets ==> Tags(refs) == [] && forall tag :: !Mentions(Compile(rs, useRuleSets), tag))
  {
    hide Effective, Valid, Mentions, Defines, Compile, References, Tags, KnownRefs, Accepted, EmbeddedRuleSetFile;
    var refs := References(rs, useRuleSets);
    EffectiveAccepted(rules, cidr);
    ReferencesKnown(rs, useRuleSets, cidr);
    TagsDistinct(refs);
    DefinitionsEmbedded(refs, dir);
    forall tag
      ensures Mentions(Compile(rs, useRuleSets), tag) <==> tag in refs
      ensures tag in refs <==> Defines(Definitions(Tags(refs), dir), tag)
    {
      CompileMentions(rs, useRuleSets, tag);
      TagsAreRefs(refs, tag);
      DefinedIsTag(Tags(refs), dir, tag);
    }
    if !useRuleSets {
      DegradedReferences(rs);
      NoTags();
    }
  }

  lemma NoTags()
    ensures Tags([]) == []
  {
  }

  // ---------- meaning ----------

  /** The rules the compiler looks at: all of them, or those that are not rule sets. */
  function Considered(rs: seq<Rule>, useRuleSets: bool): seq<Rule> {
    if rs == [] then []
    else
      var r, before := rs[|rs| - 1], Considered(rs[..|rs| - 1], useRuleSets);
      if useRuleSets || r.ruleType != RULE_SET then before + [r] else before
  }

  lemma {:induction false} AllConsidered(rs: seq<Rule>)
    ensures Considered(rs, true) == rs
  {
    if rs != [] {
      AllConsidered(rs[..|rs| - 1]);
    }
  }

  lemma {:induction false} FileOfDefined(ds: seq<Definition>, tag: string)
    requires Defines(ds, tag) && forall i :: 0 <= i < |ds| ==> ds[i].file == EmbeddedRuleSetFile(ds[i].tag)
    ensures FileOf(ds, tag) == Some(EmbeddedRuleSetFile(tag))
  {
    hide EmbeddedRuleSetFile;
    if ds[0].tag != tag {
      var i :| 0 <= i < |ds| && ds[i].tag == tag;
      assert ds[1..][i - 1].tag == tag;
      FileOfDefined(ds[1..], tag);
    }
  }

  /** A compiled rule matches what the rule matches. */
  lemma EntryMeaning<C>(r: Rule, ds: seq<Definition>, e: Engine<C>, c: C)
    requires NormalizeProxyRuleType(r.ruleType) == r.ruleType
    requires r.ruleType == RULE_SET ==> FileOf(ds, r.value) == Some(EmbeddedRuleSetFile(r.value))
    ensures r.enabled ==>
      (EntryMatches(RouteRule(ProxyRuleRouteKey(r.ruleType), r.value, r.outbound), ds, e, c) <==> RuleMatches(r, e, c))
  {
    hide NormalizeProxyRuleType, EmbeddedRuleSetFile, FileOf;
  }

  lemma FirstEntrySnoc<C>(xs: seq<RouteRule>, x: RouteRule, ds: seq<Definition>, e: Engine<C>, c: C)
    ensures FirstEntry(xs + [x], ds, e, c) ==
            if FirstEntry(xs, ds, e, c).None? && EntryMatches(x, ds, e, c) then Some(|xs|) else FirstEntry(xs, ds, e, c)
  {
    hide EntryMatches;
    assert (xs + [x])[..|xs|] == xs;
  }

  lemma FirstMatchSnoc<C>(rs: seq<Rule>, r: Rule, e: Engine<C>, c: C)
    ensures FirstMatch(rs + [r], e, c) ==
            if FirstMatch(rs, e, c).None? && RuleMatches(r, e, c) then Some(|rs|) else FirstMatch(rs, e, c)
  {
    hide RuleMatches;
    assert (rs + [r])[..|rs|] == rs;
  }

  /** The outcome of a first-match search, with the rule's own position forgotten. */
  function Entered<C>(xs: seq<RouteRule>, ds: seq<Definition>, e: Engine<C>, c: C): Option<string> {
    match FirstEntry(xs, ds, e, c) case Some(i) => Some(xs[i].outbound) case None => None
  }

  function Matched<C>(rs: seq<Rule>, e: Engine<C>, c: C): Option<string> {
    match FirstMatch(rs, e, c) case Some(i) => Some(rs[i].outbound) case None => None
  }

  lemma EnteredSnoc<C>(xs: seq<RouteRule>, x: RouteRule, ds: seq<Definition>, e: Engine<C>, c: C)
    ensures Entered(xs + [x], ds, e, c) ==
            if Entered(xs, ds, e, c).None? && EntryMatches(x, ds, e, c) then Some(x.outbound) else Entered(xs, ds, e, c)
  {
    hide FirstEntry, EntryMatches;
    FirstEntrySnoc(xs, x, ds, e, c);
  }

  lemma MatchedSnoc<C>(rs: seq<Rule>, r: Rule, e: Engine<C>, c: C)
    ensures Matched(rs + [r], e, c) ==
            if Matched(rs, e, c).None? && RuleMatches(r, e, c) then Some(r.outbound) else Matched(rs, e, c)
  {
    hide FirstMatch, RuleMatches;
    FirstMatchSnoc(rs, r, e, c);
  }

  /** Every rule-set rule that is compiled has its file among the definitions. */
  ghost predicate FilesDefined(rs: seq<Rule>, ds: seq<Definition>) {
    forall i :: 0 <= i < |rs| && rs[i].enabled && rs[i].ruleType == RULE_SET ==>
      FileOf(ds, rs[i].value) == Some(EmbeddedRuleSetFile(rs[i].value))
  }

  lemma {:induction false} CompileDecides<C>(rs: seq<Rule>, useRuleSets: bool, ds: seq<Definition>, e: Engine<C>, c: C,
                                             cidr: string -> bool)
    requires Accepted(rs, cidr) && (useRuleSets ==> FilesDefined(rs, ds))
    ensures Entered(Compile(rs, useRuleSets), ds, e, c) == Matched(Considered(rs, useRuleSets), e, c)
  {
    hide Normalized, FaultOf, Entered, Matched, NormalizeProxyRuleType, ProxyRuleRouteKey, EntryMatches, RuleMatches,
      FileOf, EmbeddedRuleSetFile, IsCompiled;
    if rs == [] {
      NothingDecides(ds, e, c);
    } else {
      var k := |rs| - 1;
      var r := rs[k];
      CompileDecides(rs[..k], useRuleSets, ds, e, c, cidr);
      AcceptedIsCompiled(r, useRuleSets, cidr);
      if useRuleSets || r.ruleType != RULE_SET {
        MatchedSnoc(Considered(rs[..k], useRuleSets), r, e, c);
        DisabledMatchesNothing(r, e, c);
        if r.enabled {
          EntryMeaning(r, ds, e, c);
          EnteredSnoc(Compile(rs[..k], useRuleSets), RouteRule(ProxyRuleRouteKey(r.ruleType), r.value, r.outbound),
                      ds, e, c);
        }
      }
    }
  }

  lemma DisabledMatchesNothing<C>(r: Rule, e: Engine<C>, c: C)
    ensures RuleMatches(r, e, c) ==> r.enabled
  {
  }

  lemma NothingDecides<C>(ds: seq<Definition>, e: Engine<C>, c: C)
    ensures Entered([], ds, e, c) == None && Matched([], e, c) == None
  {
  }

  lemma {:induction false} ReferenceOf(rs: seq<Rule>, i: nat, cidr: string -> bool)
    requires Accepted(rs, cidr) && i < |rs| && rs[i].enabled && rs[i].ruleType == RULE_SET
    ensures rs[i].value in References(rs, true)
  {
    hide Normalized, FaultOf, NormalizeProxyRuleType, IsCompiled;
    var k := |rs| - 1;
    AcceptedIsCompiled(rs[i], true, cidr);
    if i < k {
      ReferenceOf(rs[..k], i, cidr);
    }
  }

  lemma BuiltFilesDefined(rs: seq<Rule>, dir: string, cidr: string -> bool)
    requires Accepted(rs, cidr)
    ensures FilesDefined(rs, Definitions(Tags(References(rs, true)), dir))
  {
    hide Accepted, References, EmbeddedRuleSetFile, FileOf, KnownRefs, Tags;
    var refs := References(rs, true);
    var ds := Definitions(Tags(refs), dir);
    ReferencesKnown(rs, true, cidr);
    forall i | 0 <= i < |rs| && rs[i].enabled && rs[i].ruleType == RULE_SET
      ensures FileOf(ds, rs[i].value) == Some(EmbeddedRuleSetFile(rs[i].value))
    {
      ReferenceOf(rs, i, cidr);
      TagsAreRefs(refs, rs[i].value);
      var j :| 0 <= j < |Tags(refs)| && Tags(refs)[j] == rs[i].value;
      assert ds[j].tag == rs[i].value;
      FileOfDefined(ds, rs[i].value);
    }
  }

  /** First-match evaluation of the built route is first-match evaluation of the enabled normalised
      rules with default `selected`; without rule sets, of the list with its rule-set rules removed. */
  lemma RoutePreservesMeaning<C>(mode: string, rules: Option<seq<Rule>>, dir: string, useRuleSets: bool,
                                 cidr: string -> bool, e: Engine<C>, c: C)
    requires NormalizeMode(mode) == MODE_RULE ==> Valid(Effective(rules), cidr)
    ensures Outbound(Built(mode, rules, dir, useRuleSets), e, c) ==
            if NormalizeMode(mode) == MODE_DIRECT then DIRECT
            else if NormalizeMode(mode) == MODE_GLOBAL then SELECTED
            else Decision(Considered(Effective(rules), useRuleSets), e, c)
  {
    hide Effective, Valid, NormalizeMode, Compile, References, Tags, Considered, FirstEntry, FirstMatch;
    var route := Built(mode, rules, dir, useRuleSets);
    OutboundIs(route, e, c);
    if NormalizeMode(mode) == MODE_RULE {
      var rs := Effective(rules);
      EffectiveAccepted(rules, cidr);
      if useRuleSets {
        BuiltFilesDefined(rs, dir, cidr);
      }
      CompileDecides(rs, useRuleSets, route.ruleSets, e, c, cidr);
      DecisionIs(Considered(rs, useRuleSets), e, c);
    } else {
      NothingDecides(route.ruleSets, e, c);
    }
  }

  lemma OutboundIs<C>(route: Route, e: Engine<C>, c: C)
    ensures Outbound(route, e, c)
      == match Entered(route.rules, route.ruleSets, e, c) { case Some(o) => o case None => route.final }
  {
    hide FirstEntry;
  }

  lemma DecisionIs<C>(rs: seq<Rule>, e: Engine<C>, c: C)
    ensures Decision(rs, e, c) == match Matched(rs, e, c) { case Some(o) => o case None => SELECTED }
  {
    hide FirstMatch;
  }

  // ---------- the degraded route ----------

  lemma {:induction false} ConsideredSplit(rs: seq<Rule>, i: nat)
    requires i <= |rs|
    ensures Considered(rs, false) == Considered(rs[..i], false) + Considered(rs[i..], false)
  {
    if i < |rs| {
      var k := |rs| - 1;
      ConsideredSplit(rs[..k], i);
      assert rs[..k][..i] == rs[..i] && rs[i..][..k - i] == rs[..k][i..];
    } else {
      assert rs[..i] == rs && rs[i..] == [];
    }
  }

  lemma {:induction false} MatchedSkips<C>(xs: seq<Rule>, ys: seq<Rule>, e: Engine<C>, c: C)
    requires Matched(xs, e, c).None?
    ensures Matched(xs + ys, e, c) == Matched(ys, e, c)
  {
    hide Matched, RuleMatches;
    if ys == [] {
      assert xs + ys == xs;
      assert Matched(ys, e, c) == None by { NothingDecides([], e, c); }
    } else {
      var k := |ys| - 1;
      MatchedSkips(xs, ys[..k], e, c);
      assert xs + ys == (xs + ys[..k]) + [ys[k]] && ys == ys[..k] + [ys[k]];
      MatchedSnoc(xs + ys[..k], ys[k], e, c);
      MatchedSnoc(ys[..k], ys[k], e, c);
    }
  }

  lemma {:induction false} UnmatchedStays<C>(rs: seq<Rule>, e: Engine<C>, c: C)
    requires Matched(rs, e, c).None?
    ensures Matched(Considered(rs, false), e, c).None?
  {
    hide Matched, RuleMatches;
    if rs == [] {
      NothingDecides([], e, c);
    } else {
      var k := |rs| - 1;
      assert rs == rs[..k] + [rs[k]];
      MatchedSnoc(rs[..k], rs[k], e, c);
      UnmatchedStays(rs[..k], e, c);
      MatchedSnoc(Considered(rs[..k], false), rs[k], e, c);
    }
  }

  /** Without rule sets the first matching rule still decides if it is not a rule set, and otherwise
      the first match among the rules after it does. */
  lemma DegradedDecision<C>(rs: seq<Rule>, e: Engine<C>, c: C)
    ensures Decision(Considered(rs, false), e, c) ==
            match FirstMatch(rs, e, c)
            case None => SELECTED
            case Some(i) =>
              if rs[i].ruleType != RULE_SET then rs[i].outbound
              else Decision(Considered(rs[i + 1..], false), e, c)
  {
    hide RuleMatches, Considered;
    DecisionIs(Considered(rs, false), e, c);
    match FirstMatch(rs, e, c)
    case None => UnmatchedStays(rs, e, c);
    case Some(i) =>
      ConsideredSplit(rs, i);
      UnmatchedStays(rs[..i], e, c);
      MatchedSkips(Considered(rs[..i], false), Considered(rs[i..], false), e, c);
      ConsideredSplit(rs[i..], 1);
      assert rs[i..][..1] == [rs[i]] && rs[i..][1..] == rs[i + 1..];
      ConsideredOne(rs[i]);
      DecisionIs(Considered(rs[i + 1..], false), e, c);
      if rs[i].ruleType != RULE_SET {
        HeadMatches(rs[i], Considered(rs[i + 1..], false), e, c);
      } else {
        assert [] + Considered(rs[i + 1..], false) == Considered(rs[i + 1..], false);
      }
  }

  lemma ConsideredOne(r: Rule)
    ensures Considered([r], false) == if r.ruleType != RULE_SET then [r] else []
  {
    assert [r][..0] == [];
  }

  lemma {:induction false} HeadMatches<C>(r: Rule, rest: seq<Rule>, e: Engine<C>, c: C)
    requires RuleMatches(r, e, c)
    ensures Matched([r] + rest, e, c) == Some(r.outbound)
  {
    hide RuleMatches;
    assert ([r] + rest)[0] == r;
    assert FirstMatch([r] + rest, e, c).Some?;
  }

  /** No rule set decides, or the rules after the deciding rule set come to the same outbound. */
  predicate DecidedWithoutRuleSets<C>(rs: seq<Rule>, e: Engine<C>, c: C) {
    match FirstMatch(rs, e, c)
    case None => true
    case Some(i) => rs[i].ruleType != RULE_SET || Decision(Considered(rs[i + 1..], false), e, c) == rs[i].outbound
  }

  lemma SameDecisionIff<C>(rs: seq<Rule>, e: Engine<C>, c: C)
    ensures Decision(Considered(rs, false), e, c) == Decision(rs, e, c) <==> DecidedWithoutRuleSets(rs, e, c)
  {
    hide RuleMatches, Considered, FirstMatch, Decision, DecidedWithoutRuleSets;
    DegradedDecision(rs, e, c);
    DecisionOf(rs, e, c);
    DecidedIs(rs, e, c);
  }

  lemma DecidedIs<C>(rs: seq<Rule>, e: Engine<C>, c: C)
    ensures FirstMatch(rs, e, c).None? ==> DecidedWithoutRuleSets(rs, e, c)
    ensures FirstMatch(rs, e, c).Some? ==>
      var i := FirstMatch(rs, e, c).value;
      && (rs[i].ruleType != RULE_SET ==> DecidedWithoutRuleSets(rs, e, c))
      && (rs[i].ruleType == RULE_SET ==>
            (DecidedWithoutRuleSets(rs, e, c) <==> Decision(Considered(rs[i + 1..], false), e, c) == rs[i].outbound))
  {
    hide RuleMatches, Considered, FirstMatch, Decision;
  }

  lemma DecisionOf<C>(rs: seq<Rule>, e: Engine<C>, c: C)
    ensures Decision(rs, e, c) == match FirstMatch(rs, e, c) { case Some(i) => rs[i].outbound case None => SELECTED }
  {
    hide FirstMatch;
  }

  /** So the degraded route agrees with the full one exactly on the connections that are decided
      without rule sets; on every connection whose first match is not a rule set in particular. */
  lemma DegradedAgrees<C>(rules: Option<seq<Rule>>, dir: string, cidr: string -> bool, e: Engine<C>, c: C)
    requires Valid(Effective(rules), cidr)
    ensures Outbound(Built(MODE_RULE, rules, dir, false), e, c) == Outbound(Built(MODE_RULE, rules, dir, true), e, c)
       <==> DecidedWithoutRuleSets(Effective(rules), e, c)
  {
    hide Effective, Valid, Built, Outbound, FirstMatch, Decision, Considered, DecidedWithoutRuleSets;
    var rs := Effective(rules);
    RuleModeIsRule();
    RoutePreservesMeaning(MODE_RULE, rules, dir, false, cidr, e, c);
    RoutePreservesMeaning(MODE_RULE, rules, dir, true, cidr, e, c);
    AllConsidered(rs);
    SameDecisionIff(rs, e, c);
  }

  lemma RuleModeIsRule()
    ensures NormalizeMode(MODE_RULE) == MODE_RULE
  {
    FoldFixed(MODE_RULE);
  }

  /** Where a rule set decides they may differ: with these rules a connection known only to the
      domestic domain list goes direct, and through the proxy in the degraded form. */
  lemma DegradedDiffers(e: Engine<int>, c: int)
    requires e.file("geosite-geolocation-cn.srs", c)
    ensures var rs := [DefaultRuleSetRule("cn-geosite", "国内域名", GEOSITE_CN, DIRECT)];
      Decision(rs, e, c) == DIRECT && Decision(Considered(rs, false), e, c) == SELECTED
  {
    var r := DefaultRuleSetRule("cn-geosite", "国内域名", GEOSITE_CN, DIRECT);
    ConsideredOne(r);
    assert RuleMatches([r][0], e, c);
    assert FirstMatch([r], e, c) == Some(0);
  }

  // ---------- further facts about every route ----------

  /** The configuration defines the outbounds selected, direct and block; a route names no other. */
  lemma {:induction false} OutboundsExist(rs: seq<Rule>, useRuleSets: bool, cidr: string -> bool, i: nat)
    requires Accepted(rs, cidr) && i < |Compile(rs, useRuleSets)|
    ensures Compile(rs, useRuleSets)[i].outbound in {SELECTED, DIRECT, BLOCK}
  {
    hide Normalized, FaultOf, NormalizeProxyRuleType, ProxyRuleRouteKey, IsCompiled;
    var k := |rs| - 1;
    if i < |Compile(rs[..k], useRuleSets)| {
      OutboundsExist(rs[..k], useRuleSets, cidr, i);
    } else {
      AcceptedRule(rs[k], cidr);
    }
  }

  /** The callers normalise the list before the compiler does: that changes no route. */
  lemma BuiltAfterNormalizing(mode: string, rules: Option<seq<Rule>>, dir: string, useRuleSets: bool)
    ensures Built(mode, Some(Effective(rules)), dir, useRuleSets) == Built(mode, rules, dir, useRuleSets)
  {
    hide Compile, References, Tags, NormalizedAll, DefaultProxyRules, NormalizeMode;
    NormalizeIdempotent(if rules.None? then DefaultProxyRules() else rules.value);
  }
}
