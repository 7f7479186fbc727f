/** Editable rule-mode entries: normalisation, validation and what a rule list means. */
module ProxyRules {
  import opened Text
  import opened Wrappers

  datatype Rule = Rule(id: string, name: string, ruleType: string, value: string, outbound: string, enabled: bool)

  const DOMAIN := "domain"
  const DOMAIN_SUFFIX := "domain_suffix"
  const DOMAIN_KEYWORD := "domain_keyword"
  const IP_CIDR := "ip_cidr"
  const RULE_SET := "rule_set"

  const SELECTED := "selected"
  const DIRECT := "direct"
  const BLOCK := "block"

  const GEOIP_CN := "geoip-cn"
  const GEOSITE_CN := "geosite-geolocation-cn"
  const GEOSITE_NOT_CN := "geosite-geolocation-!cn"

  // ---------- normalisation ----------

  function Fold(s: string): string {
    Lower(Trim(s))
  }

  function NormalizeProxyRuleType(ruleType: string): (t: string)
    ensures t in {DOMAIN, DOMAIN_SUFFIX, DOMAIN_KEYWORD, IP_CIDR, RULE_SET}
  {
    var t := Fold(ruleType);
    if t == DOMAIN then DOMAIN
    else if t == DOMAIN_KEYWORD then DOMAIN_KEYWORD
    else if t == IP_CIDR || t == "cidr" then IP_CIDR
    else if t == RULE_SET || t == "rule-set" || t == "ruleset" then RULE_SET
    else DOMAIN_SUFFIX
  }

  function NormalizeProxyRuleOutbound(outbound: string): (o: string)
    ensures o in {SELECTED, DIRECT, BLOCK}
  {
    var o := Fold(outbound);
    if o == DIRECT then DIRECT
    else if o == BLOCK then BLOCK
    else if o == "proxy" || o == SELECTED then SELECTED
    else DIRECT
  }

  predicate IsKnownProxyRuleSet(ruleSet: string) {
    Fold(ruleSet) in {GEOIP_CN, GEOSITE_CN, GEOSITE_NOT_CN}
  }

  function Normalized(r: Rule): Rule {
    var t := NormalizeProxyRuleType(r.ruleType);
    var v := Trim(r.value);
    Rule(Trim(r.id), Trim(r.name), t, if t == RULE_SET then Lower(v) else v,
         NormalizeProxyRuleOutbound(r.outbound), r.enabled)
  }

  function NormalizedAll(rs: seq<Rule>): (ns: seq<Rule>)
    ensures |ns| == |rs| && forall i :: 0 <= i < |rs| ==> ns[i] == Normalized(rs[i])
  {
    seq(|rs|, i requires 0 <= i < |rs| => Normalized(rs[i]))
  }

  // ---------- a rule as written ----------

  /** Where a written outbound sends a connection; anything unknown goes direct. */
  ghost predicate Chosen(written: string, outbound: string) {
    && (Fold(written) == "block" ==> outbound == "block")
    && (Fold(written) in {"selected", "proxy"} ==> outbound == "selected")
    && (Fold(written) !in {"block", "selected", "proxy"} ==> outbound == "direct")
  }

  ghost predicate WrittenRuleSet(r: Rule) {
    Fold(r.ruleType) in {"rule_set", "rule-set", "ruleset"}
  }

  /** What a written type is understood as; anything unknown is a domain suffix. */
  ghost predicate Understood(written: string, ruleType: string) {
    var t := Fold(written);
    && ruleType in {"domain", "domain_suffix", "domain_keyword", "ip_cidr", "rule_set"}
    && (ruleType == "domain" <==> t == "domain") && (ruleType == "domain_keyword" <==> t == "domain_keyword")
    && (ruleType == "ip_cidr" <==> t in {"ip_cidr", "cidr"})
    && (ruleType == "rule_set" <==> t in {"rule_set", "rule-set", "ruleset"})
  }

  /** A normalised rule says what was written: trimmed, with its type and outbound as understood. */
  ghost predicate SaysTheSame(written: Rule, r: Rule) {
    && r.enabled == written.enabled && r.id == Trim(written.id) && r.name == Trim(written.name)
    && Understood(written.ruleType, r.ruleType) && Chosen(written.outbound, r.outbound)
    && r.value == if WrittenRuleSet(written) then Fold(written.value) else Trim(written.value)
  }

  lemma OutboundIsChosen(written: string)
    ensures Chosen(written, NormalizeProxyRuleOutbound(written))
  {
    hide Fold;
  }

  lemma TypeIs(written: string)
    ensures Understood(written, NormalizeProxyRuleType(written))
  {
    hide Fold;
  }

  lemma NormalizedSaysTheSame(r: Rule)
    ensures SaysTheSame(r, Normalized(r))
  {
    hide Trim, NormalizeProxyRuleType, NormalizeProxyRuleOutbound, Chosen;
    OutboundIsChosen(r.outbound);
    TypeIs(r.ruleType);
  }

  // ---------- normalisation as a loop ----------

  method NormalizeRule(rule: Rule) returns (r: Rule)
    ensures r == Normalized(rule)
  {
    hide NormalizeProxyRuleType, NormalizeProxyRuleOutbound, Trim, Lower;
    r := rule.(id := Trim(rule.id), name := Trim(rule.name), ruleType := NormalizeProxyRuleType(rule.ruleType),
               value := Trim(rule.value));
    if r.ruleType == RULE_SET {
      r := r.(value := Lower(r.value));
    }
    r := r.(outbound := NormalizeProxyRuleOutbound(r.outbound));
  }

  method NormalizeProxyRules(rs: seq<Rule>) returns (ns: seq<Rule>)
    ensures ns == NormalizedAll(rs)
    ensures forall i :: 0 <= i < |rs| ==> SaysTheSame(rs[i], ns[i])
  {
    hide Normalized, SaysTheSame;
    ns := [];
    for i := 0 to |rs|
      invariant |ns| == i && forall j :: 0 <= j < i ==> ns[j] == Normalized(rs[j]) && SaysTheSame(rs[j], ns[j])
    {
      NormalizedSaysTheSame(rs[i]);
      var r := NormalizeRule(rs[i]);
      ns := ns + [r];
    }
  }

  predicate Lowered(s: string) {
    forall i :: 0 <= i < |s| ==> !('A' <= s[i] <= 'Z')
  }

  lemma FoldFixed(s: string)
    requires Lowered(s) && Trimmed(s)
    ensures Fold(s) == s
  {
    TrimKeepsTrimmed(s);
  }

  lemma LowerIsLowered(s: string)
    ensures Lowered(Lower(s))
  {
  }

  lemma FoldIsFixed(s: string)
    ensures Lowered(Fold(s)) && Trimmed(Fold(s)) && Fold(Fold(s)) == Fold(s)
  {
    hide Trim, Trimmed, Lowered;
    LowerIsLowered(Trim(s));
    TrimIsTrimmed(s);
    LowerKeepsTrimmed(Trim(s));
    FoldFixed(Fold(s));
  }

  lemma TypeIdempotent(t: string)
    ensures NormalizeProxyRuleType(NormalizeProxyRuleType(t)) == NormalizeProxyRuleType(t)
  {
    hide Fold;
    NormalTypeFixed(DOMAIN);
    NormalTypeFixed(DOMAIN_SUFFIX);
    NormalTypeFixed(DOMAIN_KEYWORD);
    NormalTypeFixed(IP_CIDR);
    NormalTypeFixed(RULE_SET);
    hide NormalizeProxyRuleType;
  }

  lemma NormalTypeFixed(t: string)
    requires t in {DOMAIN, DOMAIN_SUFFIX, DOMAIN_KEYWORD, IP_CIDR, RULE_SET}
    ensures NormalizeProxyRuleType(t) == t
  {
    hide Fold;
    FoldFixed(t);
  }

  lemma OutboundIdempotent(o: string)
    ensures NormalizeProxyRuleOutbound(NormalizeProxyRuleOutbound(o)) == NormalizeProxyRuleOutbound(o)
  {
    hide Fold;
    FoldFixed(SELECTED);
    FoldFixed(DIRECT);
    FoldFixed(BLOCK);
  }

  lemma TrimIdempotent(s: string)
    ensures Trim(Trim(s)) == Trim(s)
  {
    TrimIsTrimmed(s);
    TrimKeepsTrimmed(Trim(s));
  }

  lemma NormalizedIdempotent(r: Rule)
    ensures Normalized(Normalized(r)) == Normalized(r)
  {
    hide NormalizeProxyRuleType, NormalizeProxyRuleOutbound, Trim;
    TypeIdempotent(r.ruleType);
    OutboundIdempotent(r.outbound);
    TrimIdempotent(r.id);
    TrimIdempotent(r.name);
    TrimIdempotent(r.value);
    FoldIsFixed(r.value);
    LowerIdempotent(Trim(r.value));
    TrimKeepsTrimmed(Fold(r.value));
  }

  /** The route builder normalises what its callers already normalised: the second pass does nothing. */
  lemma NormalizeIdempotent(rs: seq<Rule>)
    ensures NormalizedAll(NormalizedAll(rs)) == NormalizedAll(rs)
  {
    forall i | 0 <= i < |rs|
      ensures Normalized(Normalized(rs[i])) == Normalized(rs[i])
    {
      NormalizedIdempotent(rs[i]);
    }
  }

  // ---------- validation ----------

  datatype Fault = EmptyValue | Whitespace | InvalidCidr | UnsupportedRuleSet

  predicate HasBlank(s: string) {
    exists i :: 0 <= i < |s| && s[i] in {'\r', '\n', '\t', ' '}
  }

  /** What is wrong with a normalised rule; `cidr` is the address library's prefix parser. */
  function FaultOf(r: Rule, cidr: string -> bool): Option<Fault> {
    if !r.enabled then None
    else if r.value == "" then Some(EmptyValue)
    else if HasBlank(r.value) then Some(Whitespace)
    else if r.ruleType == IP_CIDR && !cidr(r.value) then Some(InvalidCidr)
    else if r.ruleType == RULE_SET && !IsKnownProxyRuleSet(r.value) then Some(UnsupportedRuleSet)
    else None
  }

  ghost predicate Valid(rs: seq<Rule>, cidr: string -> bool) {
    forall i :: 0 <= i < |rs| ==> FaultOf(Normalized(rs[i]), cidr).None?
  }

  /** Rule number n is the first faulty one. */
  ghost predicate FirstFault(rs: seq<Rule>, cidr: string -> bool, n: nat, fault: Fault) {
    && 1 <= n <= |rs| && FaultOf(Normalized(rs[n - 1]), cidr) == Some(fault)
    && forall j :: 0 <= j < n - 1 ==> FaultOf(Normalized(rs[j]), cidr).None?
  }

  /** Why an enabled rule is refused: the first of these that holds. */
  ghost predicate Refused(r: Rule, cidr: string -> bool, fault: Fault) {
    var v := Trim(r.value);
    && r.enabled
    && if v == "" then fault == EmptyValue
       else if '\r' in v || '\n' in v || '\t' in v || ' ' in v then fault == Whitespace
       else if Fold(r.ruleType) in {"ip_cidr", "cidr"} then !cidr(v) && fault == InvalidCidr
       else WrittenRuleSet(r) && Fold(r.value) !in {"geoip-cn", "geosite-geolocation-cn", "geosite-geolocation-!cn"}
            && fault == UnsupportedRuleSet
  }

  lemma BlankIs(s: string)
    ensures HasBlank(s) <==> '\r' in s || '\n' in s || '\t' in s || ' ' in s
  {
  }

  lemma LowerKeepsBlank(s: string)
    ensures HasBlank(Lower(s)) <==> HasBlank(s)
  {
    forall i | 0 <= i < |s|
      ensures Lower(s)[i] in {'\r', '\n', '\t', ' '} <==> s[i] in {'\r', '\n', '\t', ' '}
    {
    }
  }

  /** The fault found in the normalised rule is the one the rule has as written. */
  lemma FaultAsWritten(r: Rule, cidr: string -> bool)
    ensures forall fault :: FaultOf(Normalized(r), cidr) == Some(fault) <==> Refused(r, cidr, fault)
  {
    hide Trim, Fold, Lower, HasBlank, NormalizeProxyRuleType, NormalizeProxyRuleOutbound;
    TypeIs(r.ruleType);
    FoldIs(r.value);
    FoldIsFixed(r.value);
    BlankIs(Trim(r.value));
    LowerKeepsBlank(Trim(r.value));
  }

  lemma AllFaultsAsWritten(rs: seq<Rule>, cidr: string -> bool)
    ensures forall i, fault {:trigger Refused(rs[i], cidr, fault)} :: 0 <= i < |rs| ==>
      (FaultOf(Normalized(rs[i]), cidr) == Some(fault) <==> Refused(rs[i], cidr, fault))
  {
    hide FaultOf, Normalized, Refused;
    forall i | 0 <= i < |rs| {
      FaultAsWritten(rs[i], cidr);
    }
  }

  lemma FoldIs(s: string)
    ensures Fold(s) == Lower(Trim(s))
  {
  }

  /** Reports the first faulty rule, counted from one; no error means every rule is in order. */
  method ValidateProxyRules(rs: seq<Rule>, cidr: string -> bool) returns (error: Option<(nat, Fault)>)
    ensures error.None? <==> Valid(rs, cidr)
    ensures error.Some? ==> FirstFault(rs, cidr, error.value.0, error.value.1)
    ensures error.None? ==> forall i, fault :: 0 <= i < |rs| ==> !Refused(rs[i], cidr, fault)
    ensures error.Some? ==>
      var (n, fault) := error.value;
      Refused(rs[n - 1], cidr, fault) && forall j, f :: 0 <= j < n - 1 ==> !Refused(rs[j], cidr, f)
  {
    AllFaultsAsWritten(rs, cidr);
    hide Normalized, IsKnownProxyRuleSet, Refused, SaysTheSame;
    var ns := NormalizeProxyRules(rs);
    for i := 0 to |ns|
      invariant forall j :: 0 <= j < i ==> FaultOf(Normalized(rs[j]), cidr).None?
    {
      var r := ns[i];
      if r.enabled {
        if r.value == "" {
          return Some((i + 1, EmptyValue));
        }
        if HasBlank(r.value) {
          return Some((i + 1, Whitespace));
        }
        if r.ruleType == IP_CIDR {
          if !cidr(r.value) {
            return Some((i + 1, InvalidCidr));
          }
        }
        if r.ruleType == RULE_SET && !IsKnownProxyRuleSet(r.value) {
          return Some((i + 1, UnsupportedRuleSet));
        }
      }
    }
    return None;
  }

  lemma ValidAfterNormalizing(rs: seq<Rule>, cidr: string -> bool)
    ensures Valid(NormalizedAll(rs), cidr) <==> Valid(rs, cidr)
  {
    hide FaultOf, Normalized;
    var ns := NormalizedAll(rs);
    forall i | 0 <= i < |rs|
      ensures Normalized(ns[i]) == Normalized(rs[i])
    {
      NormalizedIdempotent(rs[i]);
    }
  }

  // ---------- defaults ----------

  function DefaultIPRule(id: string, name: string, value: string): Rule {
    Rule(id, name, IP_CIDR, value, DIRECT, true)
  }

  function DefaultRuleSetRule(id: string, name: string, value: string, outbound: string): Rule {
    Rule(id, name, RULE_SET, value, outbound, true)
  }

  function DefaultProxyRules(): seq<Rule> {
    [
      DefaultIPRule("lan-ipv4-this-network", "IPv4 保留地址", "0.0.0.0/8"),
      DefaultIPRule("lan-ipv4-private-10", "IPv4 私有地址", "10.0.0.0/8"),
      DefaultIPRule("lan-ipv4-carrier", "运营商内网", "100.64.0.0/10"),
      DefaultIPRule("lan-ipv4-loopback", "本机地址", "127.0.0.0/8"),
      DefaultIPRule("lan-ipv4-link-local", "链路本地", "169.254.0.0/16"),
      DefaultIPRule("lan-ipv4-private-172", "IPv4 私有地址", "172.16.0.0/12"),
      DefaultIPRule("lan-ipv4-private-192", "IPv4 私有地址", "192.168.0.0/16"),
      DefaultIPRule("lan-ipv4-multicast", "组播地址", "224.0.0.0/4"),
      DefaultIPRule("lan-ipv6-loopback", "IPv6 本机地址", "::1/128"),
      DefaultIPRule("lan-ipv6-unique-local", "IPv6 私有地址", "fc00::/7"),
      DefaultIPRule("lan-ipv6-link-local", "IPv6 链路本地", "fe80::/10"),
      DefaultRuleSetRule("foreign-geosite", "国外域名", GEOSITE_NOT_CN, SELECTED),
      DefaultRuleSetRule("cn-geosite", "国内域名", GEOSITE_CN, DIRECT),
      DefaultRuleSetRule("cn-geoip", "国内 IP", GEOIP_CN, DIRECT)
    ]
  }

  /** A missing list means the defaults; an empty list stays empty. */
  function Effective(rules: Option<seq<Rule>>): seq<Rule> {
    NormalizedAll(if rules.None? then DefaultProxyRules() else rules.value)
  }

  // ---------- the bundled rule sets ----------

  /** File name of a bundled rule set; empty for an unknown tag. */
  function EmbeddedRuleSetFile(tag: string): string {
    if tag == GEOIP_CN then "geoip-cn.srs"
    else if tag == GEOSITE_CN then "geosite-geolocation-cn.srs"
    else if tag == GEOSITE_NOT_CN then "geosite-geolocation-not-cn.srs"
    else ""
  }

  /** Validation and the table of bundled files know the same tags. */
  lemma KnownIffEmbedded(ruleSet: string)
    ensures IsKnownProxyRuleSet(ruleSet) <==> EmbeddedRuleSetFile(Fold(ruleSet)) != ""
  {
  }

  // ---------- what a rule list means ----------

  /** How the engine matches a connection, left abstract: one predicate per kind of criterion, and
      one for the contents of a rule-set file. */
  datatype Engine<!C> = Engine(domain: (string, C) -> bool, suffix: (string, C) -> bool, keyword: (string, C) -> bool,
                               cidr: (string, C) -> bool, file: (string, C) -> bool)

  predicate RuleMatches<C>(r: Rule, e: Engine<C>, c: C) {
    r.enabled
    && if r.ruleType == DOMAIN then e.domain(r.value, c)
       else if r.ruleType == DOMAIN_KEYWORD then e.keyword(r.value, c)
       else if r.ruleType == IP_CIDR then e.cidr(r.value, c)
       else if r.ruleType == RULE_SET then e.file(EmbeddedRuleSetFile(r.value), c)
       else e.suffix(r.value, c)
  }

  function FirstMatch<C>(rs: seq<Rule>, e: Engine<C>, c: C): (m: Option<nat>)
    ensures m.Some? ==> m.value < |rs| && RuleMatches(rs[m.value], e, c)
    ensures m.Some? ==> forall j :: 0 <= j < m.value ==> !RuleMatches(rs[j], e, c)
    ensures m.None? ==> forall j :: 0 <= j < |rs| ==> !RuleMatches(rs[j], e, c)
  {
    if rs == [] then None
    else
      var k := |rs| - 1;
      match FirstMatch(rs[..k], e, c)
      case Some(i) => Some(i)
      case None => if RuleMatches(rs[k], e, c) then Some(k) else None
  }

  /** The first enabled rule that matches decides; unmatched traffic goes to the proxy. */
  function Decision<C>(rs: seq<Rule>, e: Engine<C>, c: C): string {
    match FirstMatch(rs, e, c)
    case Some(i) => rs[i].outbound
    case None => SELECTED
  }
}
