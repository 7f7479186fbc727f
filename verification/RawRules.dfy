/** What a rule list means as the user wrote it, before any normalisation: which connections a rule
    matches, where it sends them, what makes it invalid - and that the built route decides just so. */
module RawRules {
  import opened Text
  import opened ProxyRules
  import opened ProxyRoute
  import opened DegradedRoute
  import opened Wrappers

  // ---------- one rule ----------

  /** The file of a bundled rule set, by the value as written. */
  ghost predicate NamesFile(value: string, file: string) {
    || (Fold(value) == "geoip-cn" && file == "geoip-cn.srs")
    || (Fold(value) == "geosite-geolocation-cn" && file == "geosite-geolocation-cn.srs")
    || (Fold(value) == "geosite-geolocation-!cn" && file == "geosite-geolocation-not-cn.srs")
  }

  /** An enabled rule matches by the criterion its folded type names, on its trimmed value; an unknown
      type is a domain suffix. */
  ghost predicate Meets<C>(r: Rule, e: Engine<C>, c: C) {
    && r.enabled
    && (Fold(r.ruleType) == "domain" ==> e.domain(Trim(r.value), c))
    && (Fold(r.ruleType) == "domain_keyword" ==> e.keyword(Trim(r.value), c))
    && (Fold(r.ruleType) in {"ip_cidr", "cidr"} ==> e.cidr(Trim(r.value), c))
    && (WrittenRuleSet(r) ==> exists file :: NamesFile(r.value, file) && e.file(file, c))
    && (Fold(r.ruleType) !in {"domain", "domain_keyword", "ip_cidr", "cidr"} && !WrittenRuleSet(r) ==>
          e.suffix(Trim(r.value), c))
  }

  // ---------- normalisation keeps the meaning ----------

  lemma FileIs(value: string)
    ensures forall file :: NamesFile(value, file) <==> file != "" && EmbeddedRuleSetFile(Fold(value)) == file
  {
    hide Fold;
  }

  /** Normalising keeps which connections a rule matches and where it sends them; a rule set must name
      a bundled file. */
  lemma NormalizedMeans<C>(r: Rule, e: Engine<C>, c: C)
    requires r.enabled && WrittenRuleSet(r) ==> EmbeddedRuleSetFile(Fold(r.value)) != ""
    ensures RuleMatches(Normalized(r), e, c) <==> Meets(r, e, c)
    ensures Chosen(r.outbound, Normalized(r).outbound) && Normalized(r).enabled == r.enabled
  {
    hide Fold, Trim, EmbeddedRuleSetFile, NormalizeProxyRuleType, NormalizeProxyRuleOutbound, Chosen;
    OutboundIsChosen(r.outbound);
    TypeIs(r.ruleType);
    FileIs(r.value);
    FoldIs(r.value);
  }

  // ---------- the list ----------

  ghost predicate Counts<C>(r: Rule, useRuleSets: bool, e: Engine<C>, c: C) {
    Meets(r, e, c) && (useRuleSets || !WrittenRuleSet(r))
  }

  /** Rule i is the first that matches; without rule sets, the first that is none. */
  ghost predicate FirstMeeting<C>(rs: seq<Rule>, i: nat, useRuleSets: bool, e: Engine<C>, c: C) {
    i < |rs| && Counts(rs[i], useRuleSets, e, c) && forall j :: 0 <= j < i ==> !Counts(rs[j], useRuleSets, e, c)
  }

  ghost predicate Acceptable(rs: seq<Rule>, cidr: string -> bool) {
    forall i, fault :: 0 <= i < |rs| ==> !Refused(rs[i], cidr, fault)
  }

  function Written(rules: Option<seq<Rule>>): seq<Rule> {
    if rules.None? then DefaultProxyRules() else rules.value
  }

  lemma AcceptableIsValid(rs: seq<Rule>, cidr: string -> bool)
    ensures Acceptable(rs, cidr) <==> Valid(rs, cidr)
  {
    hide Refused, FaultOf, Normalized;
    AllFaultsAsWritten(rs, cidr);
    if !Valid(rs, cidr) {
      var i :| 0 <= i < |rs| && FaultOf(Normalized(rs[i]), cidr).Some?;
      assert Refused(rs[i], cidr, FaultOf(Normalized(rs[i]), cidr).value);
    }
  }

  lemma AcceptableFile(r: Rule, cidr: string -> bool)
    requires forall fault :: !Refused(r, cidr, fault)
    requires r.enabled && WrittenRuleSet(r)
    ensures EmbeddedRuleSetFile(Fold(r.value)) != ""
  {
    hide Fold, Trim;
    assert !Refused(r, cidr, EmptyValue) && !Refused(r, cidr, Whitespace) && !Refused(r, cidr, UnsupportedRuleSet);
  }

  /** Rule by rule, the normalised list counts the connections the written list does. */
  lemma NormalizedCounts<C>(rs: seq<Rule>, k: nat, useRuleSets: bool, cidr: string -> bool, e: Engine<C>, c: C)
    requires Acceptable(rs, cidr) && k < |rs|
    ensures var n := NormalizedAll(rs)[k];
      && (RuleMatches(n, e, c) && (useRuleSets || n.ruleType != RULE_SET) <==> Counts(rs[k], useRuleSets, e, c))
      && Chosen(rs[k].outbound, n.outbound)
  {
    hide Refused, Meets, RuleMatches, Chosen, Fold, EmbeddedRuleSetFile, NormalizeProxyRuleType;
    if rs[k].enabled && WrittenRuleSet(rs[k]) {
      AcceptableFile(rs[k], cidr);
    }
    NormalizedMeans(rs[k], e, c);
    TypeIs(rs[k].ruleType);
  }

  /** First match over the considered rules is first match over the written list. */
  lemma DecidesAsWritten<C>(rs: seq<Rule>, useRuleSets: bool, cidr: string -> bool, e: Engine<C>, c: C)
    requires Acceptable(rs, cidr)
    ensures var o := Decision(Considered(NormalizedAll(rs), useRuleSets), e, c);
      && (forall i: nat :: FirstMeeting(rs, i, useRuleSets, e, c) ==> Chosen(rs[i].outbound, o))
      && ((forall i: nat :: !FirstMeeting(rs, i, useRuleSets, e, c)) ==> o == "selected")
  {
    hide Counts, RuleMatches, Chosen, FirstMatch, Considered, Decision, Normalized, Acceptable;
    var ns := NormalizedAll(rs);
    var o := Decision(Considered(ns, useRuleSets), e, c);
    forall k | 0 <= k < |rs|
      ensures RuleMatches(ns[k], e, c) && (useRuleSets || ns[k].ruleType != RULE_SET) <==>
              Counts(rs[k], useRuleSets, e, c)
      ensures Chosen(rs[k].outbound, ns[k].outbound)
    {
      NormalizedCounts(rs, k, useRuleSets, cidr, e, c);
    }
    if i: nat :| FirstMeeting(rs, i, useRuleSets, e, c) {
      FirstDecides(ns, i, useRuleSets, e, c);
      assert forall j: nat :: FirstMeeting(rs, j, useRuleSets, e, c) ==> j == i;
    } else {
      NobodyMeets(rs, useRuleSets, e, c);
      NobodyDecides(ns, useRuleSets, e, c);
    }
  }

  lemma FirstDecides<C>(ns: seq<Rule>, i: nat, useRuleSets: bool, e: Engine<C>, c: C)
    requires i < |ns| && RuleMatches(ns[i], e, c) && (useRuleSets || ns[i].ruleType != RULE_SET)
    requires forall j :: 0 <= j < i ==> !(RuleMatches(ns[j], e, c) && (useRuleSets || ns[j].ruleType != RULE_SET))
    ensures Decision(Considered(ns, useRuleSets), e, c) == ns[i].outbound
  {
    hide RuleMatches, Considered, Decision, FirstMatch;
    if useRuleSets {
      AllConsidered(ns);
      DecisionOf(ns, e, c);
    } else {
      OtherMatchIs(ns, i, e, c);
    }
  }

  lemma NobodyDecides<C>(ns: seq<Rule>, useRuleSets: bool, e: Engine<C>, c: C)
    requires forall j :: 0 <= j < |ns| ==> !(RuleMatches(ns[j], e, c) && (useRuleSets || ns[j].ruleType != RULE_SET))
    ensures Decision(Considered(ns, useRuleSets), e, c) == "selected"
  {
    hide RuleMatches, Considered, Decision, FirstMatch;
    if useRuleSets {
      AllConsidered(ns);
      DecisionOf(ns, e, c);
    } else {
      NoOtherMatch(ns, e, c);
    }
  }

  lemma NobodyMeets<C>(rs: seq<Rule>, useRuleSets: bool, e: Engine<C>, c: C)
    requires forall i: nat :: !FirstMeeting(rs, i, useRuleSets, e, c)
    ensures forall k :: 0 <= k < |rs| ==> !Counts(rs[k], useRuleSets, e, c)
  {
    hide Counts;
    var n := 0;
    while n < |rs|
      invariant n <= |rs| && forall k :: 0 <= k < n ==> !Counts(rs[k], useRuleSets, e, c)
    {
      assert !FirstMeeting(rs, n, useRuleSets, e, c);
      n := n + 1;
    }
  }

  /** Every built route decides each connection as the list was written: in direct and global mode
      without looking at it, otherwise by the first rule that matches - without rule sets, the first
      that is none - and to the proxy if there is none. */
  lemma RouteDecidesAsWritten<C>(mode: string, rules: Option<seq<Rule>>, dir: string, useRuleSets: bool,
                                 cidr: string -> bool, e: Engine<C>, c: C)
    requires Fold(mode) !in {"direct", "global"} ==> Acceptable(Written(rules), cidr)
    ensures var o, rs := Outbound(Built(mode, rules, dir, useRuleSets), e, c), Written(rules);
      && (Fold(mode) == "direct" ==> o == "direct")
      && (Fold(mode) == "global" ==> o == "selected")
      && (Fold(mode) !in {"direct", "global"} ==>
            && (forall i: nat :: FirstMeeting(rs, i, useRuleSets, e, c) ==> Chosen(rs[i].outbound, o))
            && ((forall i: nat :: !FirstMeeting(rs, i, useRuleSets, e, c)) ==> o == "selected"))
  {
    hide FirstMeeting, Chosen, Acceptable, Considered, Decision, DefaultProxyRules, Built, Outbound, Fold;
    ModeIs(mode);
    if Fold(mode) !in {"direct", "global"} {
      AcceptableIsValid(Written(rules), cidr);
      ValidAfterNormalizing(Written(rules), cidr);
      DecidesAsWritten(Written(rules), useRuleSets, cidr, e, c);
    }
    hide Effective;
    RoutePreservesMeaning(mode, rules, dir, useRuleSets, cidr, e, c);
  }

  lemma ModeIs(mode: string)
    ensures (NormalizeMode(mode) == MODE_DIRECT <==> Fold(mode) == "direct")
         && (NormalizeMode(mode) == MODE_GLOBAL <==> Fold(mode) == "global")
  {
    hide Fold;
  }

  // ---------- without rules of one's own ----------

  const LOCAL_NETWORKS := ["0.0.0.0/8", "10.0.0.0/8", "100.64.0.0/10", "127.0.0.0/8", "169.254.0.0/16", "172.16.0.0/12",
                           "192.168.0.0/16", "224.0.0.0/4", "::1/128", "fc00::/7", "fe80::/10"]

  lemma DefaultRulesAre(i: nat)
    requires i < 14
    ensures |DefaultProxyRules()| == 14
    ensures var r := DefaultProxyRules()[i];
      && r.enabled
      && (i < 11 ==> r.ruleType == "ip_cidr" && r.value == LOCAL_NETWORKS[i] && r.outbound == "direct")
      && (i == 11 ==> r.ruleType == "rule_set" && r.value == "geosite-geolocation-!cn" && r.outbound == "selected")
      && (i == 12 ==> r.ruleType == "rule_set" && r.value == "geosite-geolocation-cn" && r.outbound == "direct")
      && (i == 13 ==> r.ruleType == "rule_set" && r.value == "geoip-cn" && r.outbound == "direct")
  {
  }

  lemma NetworkIsVisible(i: nat)
    requires i < 11
    ensures LOCAL_NETWORKS[i] != "" && forall k :: 0 <= k < |LOCAL_NETWORKS[i]| ==> '!' <= LOCAL_NETWORKS[i][k] <= '~'
  {
  }

  lemma VisibleIsPlain(v: string)
    requires v != "" && forall k :: 0 <= k < |v| ==> '!' <= v[k] <= '~'
    ensures Trim(v) == v && '\r' !in v && '\n' !in v && '\t' !in v && ' ' !in v
  {
    TrimKeepsTrimmed(v);
  }

  /** A default network rule: no fault if the address library takes its prefix, and matched by that prefix. */
  lemma NetworkRule<C>(i: nat, cidr: string -> bool, e: Engine<C>, c: C)
    requires i < 11 && cidr(LOCAL_NETWORKS[i])
    ensures |DefaultProxyRules()| == 14
    ensures var r := DefaultProxyRules()[i];
      && (forall fault :: !Refused(r, cidr, fault)) && !WrittenRuleSet(r)
      && (Meets(r, e, c) <==> e.cidr(LOCAL_NETWORKS[i], c)) && Chosen(r.outbound, "direct")
      && forall o :: Chosen(r.outbound, o) ==> o == "direct"
  {
    hide Trim, Fold, DefaultProxyRules;
    DefaultRulesAre(i);
    NetworkIsVisible(i);
    VisibleIsPlain(LOCAL_NETWORKS[i]);
    FoldsAre();
    hide LOCAL_NETWORKS;
  }

  lemma FoldsAre()
    ensures Fold("ip_cidr") == "ip_cidr" && Fold("rule_set") == "rule_set"
    ensures Fold("direct") == "direct" && Fold("selected") == "selected"
    ensures Fold("geosite-geolocation-!cn") == "geosite-geolocation-!cn"
    ensures Fold("geosite-geolocation-cn") == "geosite-geolocation-cn" && Fold("geoip-cn") == "geoip-cn"
  {
    hide Fold;
    FoldFixed("ip_cidr");
    FoldFixed("rule_set");
    FoldFixed("direct");
    FoldFixed("selected");
    FoldFixed("geosite-geolocation-!cn");
    FoldFixed("geosite-geolocation-cn");
    FoldFixed("geoip-cn");
  }

  /** The bundled rule sets of the default list, their files, and where they send a connection. */
  const BUNDLED := [("geosite-geolocation-!cn", "geosite-geolocation-not-cn.srs", "selected"),
                    ("geosite-geolocation-cn", "geosite-geolocation-cn.srs", "direct"),
                    ("geoip-cn", "geoip-cn.srs", "direct")]

  lemma BundledIsVisible(k: nat)
    requires k < 3
    ensures var v := BUNDLED[k].0; v != "" && forall i :: 0 <= i < |v| ==> '!' <= v[i] <= '~'
  {
  }

  lemma BundledRule<C>(k: nat, cidr: string -> bool, e: Engine<C>, c: C)
    requires k < 3
    ensures |DefaultProxyRules()| == 14
    ensures var r := DefaultProxyRules()[11 + k];
      && (forall fault :: !Refused(r, cidr, fault)) && WrittenRuleSet(r)
      && (Meets(r, e, c) <==> e.file(BUNDLED[k].1, c)) && forall o :: Chosen(r.outbound, o) ==> o == BUNDLED[k].2
  {
    hide Trim, Fold, DefaultProxyRules;
    DefaultRulesAre(11 + k);
    BundledIsVisible(k);
    VisibleIsPlain(BUNDLED[k].0);
    FoldsAre();
    BundledFile(k);
  }

  lemma BundledFile(k: nat)
    requires k < 3
    ensures forall file :: NamesFile(BUNDLED[k].0, file) <==> file == BUNDLED[k].1
  {
    hide Fold;
    FoldsAre();
  }

  /** Rule i of the default list matches the connection. */
  ghost predicate DefaultHit<C>(i: nat, e: Engine<C>, c: C)
    requires i < 14
  {
    if i < 11 then e.cidr(LOCAL_NETWORKS[i], c) else e.file(BUNDLED[i - 11].1, c)
  }

  lemma DefaultRule<C>(i: nat, cidr: string -> bool, e: Engine<C>, c: C)
    requires i < 14 && (i < 11 ==> cidr(LOCAL_NETWORKS[i]))
    ensures |DefaultProxyRules()| == 14
    ensures var r := DefaultProxyRules()[i];
      && (forall fault :: !Refused(r, cidr, fault)) && (Meets(r, e, c) <==> DefaultHit(i, e, c))
      && forall o :: Chosen(r.outbound, o) ==> o == if i < 11 then "direct" else BUNDLED[i - 11].2
  {
    hide Refused, Meets, Chosen, DefaultProxyRules, WrittenRuleSet;
    if i < 11 {
      NetworkRule(i, cidr, e, c);
    } else {
      BundledRule(i - 11, cidr, e, c);
    }
    hide LOCAL_NETWORKS, BUNDLED;
  }

  /** Local networks go direct, then foreign sites through the proxy, domestic sites and addresses direct,
      and whatever is left through the proxy. */
  ghost function DefaultOutbound<C>(e: Engine<C>, c: C): string {
    if exists i :: 0 <= i < 11 && e.cidr(LOCAL_NETWORKS[i], c) then "direct"
    else if e.file("geosite-geolocation-not-cn.srs", c) then "selected"
    else if e.file("geosite-geolocation-cn.srs", c) || e.file("geoip-cn.srs", c) then "direct"
    else "selected"
  }

  lemma HitsAre<C>(e: Engine<C>, c: C)
    ensures forall i :: 0 <= i < 11 ==> (DefaultHit(i, e, c) <==> e.cidr(LOCAL_NETWORKS[i], c))
    ensures DefaultHit(11, e, c) <==> e.file("geosite-geolocation-not-cn.srs", c)
    ensures DefaultHit(12, e, c) <==> e.file("geosite-geolocation-cn.srs", c)
    ensures DefaultHit(13, e, c) <==> e.file("geoip-cn.srs", c)
  {
  }

  ghost function DefaultTarget(i: nat): string
    requires i < 14
  {
    if i < 11 then "direct" else BUNDLED[i - 11].2
  }

  lemma TargetsAre()
    ensures DefaultTarget(11) == "selected" && DefaultTarget(12) == "direct" && DefaultTarget(13) == "direct"
    ensures forall i :: 0 <= i < 11 ==> DefaultTarget(i) == "direct"
  {
  }

  lemma FirstHitDecides<C>(i: nat, e: Engine<C>, c: C)
    requires i < 14 && DefaultHit(i, e, c) && forall j :: 0 <= j < i ==> !DefaultHit(j, e, c)
    ensures DefaultOutbound(e, c) == DefaultTarget(i)
  {
    HitsAre(e, c);
    TargetsAre();
    hide DefaultHit, DefaultTarget, BUNDLED;
    assert i < 11 || i == 11 || i == 12 || i == 13;
    if i >= 11 {
      forall j | 0 <= j < 11
        ensures !e.cidr(LOCAL_NETWORKS[j], c)
      {
        assert !DefaultHit(j, e, c);
      }
    }
  }

  lemma NoHitDecides<C>(e: Engine<C>, c: C)
    requires forall j :: 0 <= j < 14 ==> !DefaultHit(j, e, c)
    ensures DefaultOutbound(e, c) == "selected"
  {
    HitsAre(e, c);
    hide DefaultHit, BUNDLED;
    forall j | 0 <= j < 11
      ensures !e.cidr(LOCAL_NETWORKS[j], c)
    {
      assert !DefaultHit(j, e, c);
    }
  }

  lemma DefaultsAccepted<C>(cidr: string -> bool, e: Engine<C>, c: C)
    requires forall i :: 0 <= i < 11 ==> cidr(LOCAL_NETWORKS[i])
    ensures var rs := DefaultProxyRules();
      && |rs| == 14 && Acceptable(rs, cidr)
      && forall i :: 0 <= i < 14 ==>
        && (Counts(rs[i], true, e, c) <==> DefaultHit(i, e, c))
        && forall o :: Chosen(rs[i].outbound, o) ==> o == DefaultTarget(i)
  {
    hide Refused, Meets, Chosen, DefaultProxyRules, WrittenRuleSet, DefaultHit, LOCAL_NETWORKS, BUNDLED;
    DefaultRulesAre(0);
    var rs := DefaultProxyRules();
    forall i: nat | i < 14
      ensures (forall fault :: !Refused(rs[i], cidr, fault)) && (Meets(rs[i], e, c) <==> DefaultHit(i, e, c))
      ensures forall o :: Chosen(rs[i].outbound, o) ==> o == DefaultTarget(i)
    {
      DefaultRule(i, cidr, e, c);
    }
  }

  /** What happens without rules of one's own, if the address library takes the local networks. */
  lemma DefaultsDecide<C>(dir: string, cidr: string -> bool, e: Engine<C>, c: C)
    requires forall i :: 0 <= i < 11 ==> cidr(LOCAL_NETWORKS[i])
    ensures Outbound(Built(MODE_RULE, None, dir, true), e, c) == DefaultOutbound(e, c)
  {
    hide Counts, Chosen, DefaultProxyRules, Outbound, Built, DefaultHit, DefaultTarget, DefaultOutbound, LOCAL_NETWORKS,
         BUNDLED, Acceptable;
    var rs := DefaultProxyRules();
    DefaultsAccepted(cidr, e, c);
    ModeFolds();
    RouteDecidesAsWritten(MODE_RULE, None, dir, true, cidr, e, c);
    if i: nat :| FirstMeeting(rs, i, true, e, c) {
      FirstHitDecides(i, e, c);
    } else {
      NobodyMeets(rs, true, e, c);
      NoHitDecides(e, c);
    }
  }

  lemma ModeFolds()
    ensures Fold(MODE_RULE) !in {"direct", "global"}
  {
    FoldFixed(MODE_RULE);
  }
}
