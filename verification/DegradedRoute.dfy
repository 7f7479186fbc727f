/** Which rule lists the degraded route, built without rule sets, never decides differently. */
module DegradedRoute {
  import opened ProxyRules
  import opened ProxyRoute
  import opened Wrappers

  // ---------- criteria ----------

  predicate SameCriterion(a: Rule, b: Rule) {
    a.ruleType == b.ruleType && a.value == b.value
  }

  /** An enabled rule with no enabled rule of the same criterion before it. */
  predicate Reachable(rs: seq<Rule>, j: nat)
    requires j < |rs|
  {
    rs[j].enabled && forall k :: 0 <= k < j && rs[k].enabled ==> !SameCriterion(rs[k], rs[j])
  }

  /** Every rule with the same criterion matches the same connections. */
  lemma SameMatches<C>(a: Rule, b: Rule, e: Engine<C>, c: C)
    requires SameCriterion(a, b) && a.enabled && RuleMatches(b, e, c)
    ensures RuleMatches(a, e, c)
  {
    hide EmbeddedRuleSetFile;
  }

  lemma FirstOfCriterion(rs: seq<Rule>, i: nat) returns (f: nat)
    requires i < |rs| && rs[i].enabled
    ensures f <= i && Reachable(rs, f) && SameCriterion(rs[f], rs[i])
  {
    if Reachable(rs, i) {
      f := i;
    } else {
      var k :| 0 <= k < i && rs[k].enabled && SameCriterion(rs[k], rs[i]);
      f := FirstOfCriterion(rs, k);
    }
  }

  lemma ReachableDecides<C>(rs: seq<Rule>, i: nat, e: Engine<C>, c: C)
    requires FirstMatch(rs, e, c) == Some(i)
    ensures Reachable(rs, i)
  {
    hide RuleMatches, FirstMatch;
    assert RuleMatches(rs[i], e, c) ==> rs[i].enabled by { DisabledMatchesNothing(rs[i], e, c); }
    forall k | 0 <= k < i && rs[k].enabled
      ensures !SameCriterion(rs[k], rs[i])
    {
      if SameCriterion(rs[k], rs[i]) {
        SameMatches(rs[k], rs[i], e, c);
      }
    }
  }

  /** Position j holds the first matching rule that is not a rule set. */
  ghost predicate FirstOtherMatch<C>(rs: seq<Rule>, j: nat, e: Engine<C>, c: C) {
    && j < |rs| && RuleMatches(rs[j], e, c) && rs[j].ruleType != RULE_SET
    && forall k :: 0 <= k < j && RuleMatches(rs[k], e, c) ==> rs[k].ruleType == RULE_SET
  }

  lemma {:induction false} ConsideredMatch<C>(rs: seq<Rule>, e: Engine<C>, c: C)
    ensures match Matched(Considered(rs, false), e, c)
            case None => forall k :: 0 <= k < |rs| && RuleMatches(rs[k], e, c) ==> rs[k].ruleType == RULE_SET
            case Some(o) => exists j: nat :: FirstOtherMatch(rs, j, e, c) && rs[j].outbound == o
  {
    hide RuleMatches, Matched;
    if rs == [] {
      NothingDecides([], e, c);
    } else {
      var k := |rs| - 1;
      ConsideredMatch(rs[..k], e, c);
      MatchedSnoc(Considered(rs[..k], false), rs[k], e, c);
      if Matched(Considered(rs[..k], false), e, c).Some? {
        var j: nat :| FirstOtherMatch(rs[..k], j, e, c)
          && Some(rs[j].outbound) == Matched(Considered(rs[..k], false), e, c);
        assert FirstOtherMatch(rs, j, e, c);
      } else if rs[k].ruleType != RULE_SET && RuleMatches(rs[k], e, c) {
        assert FirstOtherMatch(rs, k, e, c);
      }
    }
  }

  lemma OtherMatchIs<C>(rs: seq<Rule>, j: nat, e: Engine<C>, c: C)
    requires FirstOtherMatch(rs, j, e, c)
    ensures Decision(Considered(rs, false), e, c) == rs[j].outbound
  {
    hide RuleMatches, Matched, Considered, Decision;
    ConsideredMatch(rs, e, c);
    DecisionIs(Considered(rs, false), e, c);
  }

  lemma NoOtherMatch<C>(rs: seq<Rule>, e: Engine<C>, c: C)
    requires forall k :: 0 <= k < |rs| && RuleMatches(rs[k], e, c) ==> rs[k].ruleType == RULE_SET
    ensures Decision(Considered(rs, false), e, c) == SELECTED
  {
    hide RuleMatches, Matched, Considered, Decision;
    ConsideredMatch(rs, e, c);
    DecisionIs(Considered(rs, false), e, c);
  }

  // ---------- the condition ----------

  /** From the first enabled rule set on, every reachable rule goes to the proxy. */
  predicate ProxyFromRuleSetsOn(rs: seq<Rule>) {
    forall i, j :: 0 <= i <= j < |rs| && rs[i].enabled && rs[i].ruleType == RULE_SET && Reachable(rs, j) ==>
      rs[j].outbound == SELECTED
  }

  lemma ReachableOther<C>(rs: seq<Rule>, j: nat, i: nat, e: Engine<C>, c: C)
    requires FirstMatch(rs, e, c) == Some(i) && rs[i].ruleType == RULE_SET && FirstOtherMatch(rs, j, e, c)
    ensures i < j && Reachable(rs, j)
  {
    hide RuleMatches, FirstMatch;
    DisabledMatchesNothing(rs[j], e, c);
    forall k | 0 <= k < j && rs[k].enabled
      ensures !SameCriterion(rs[k], rs[j])
    {
      if SameCriterion(rs[k], rs[j]) {
        SameMatches(rs[k], rs[j], e, c);
      }
    }
  }

  lemma ConditionSuffices<C>(rs: seq<Rule>, e: Engine<C>, c: C)
    requires ProxyFromRuleSetsOn(rs)
    ensures Decision(Considered(rs, false), e, c) == Decision(rs, e, c)
  {
    hide RuleMatches, FirstMatch, Considered, Decision, Reachable;
    DecisionOf(rs, e, c);
    match FirstMatch(rs, e, c)
    case None => NoOtherMatch(rs, e, c);
    case Some(i) =>
      if rs[i].ruleType != RULE_SET {
        OtherMatchIs(rs, i, e, c);
      } else {
        ReachableDecides(rs, i, e, c);
        DisabledMatchesNothing(rs[i], e, c);
        if j: nat :| FirstOtherMatch(rs, j, e, c) {
          ReachableOther(rs, j, i, e, c);
          OtherMatchIs(rs, j, e, c);
        } else {
          EitherOther(rs, e, c);
          NoOtherMatch(rs, e, c);
        }
      }
  }

  lemma EitherOther<C>(rs: seq<Rule>, e: Engine<C>, c: C)
    requires forall j: nat :: !FirstOtherMatch(rs, j, e, c)
    ensures forall k :: 0 <= k < |rs| && RuleMatches(rs[k], e, c) ==> rs[k].ruleType == RULE_SET
  {
    hide RuleMatches, Matched, Considered;
    ConsideredMatch(rs, e, c);
  }

  // ---------- engines that tell criteria apart ----------

  predicate Is(r: Rule, ruleType: string, value: string) {
    r.ruleType == ruleType && r.value == value
  }

  /** An engine in which every connection meets the criteria of two rules and no others. */
  function Only<C>(a: Rule, b: Rule): Engine<C> {
    Engine((v, _) => Is(a, DOMAIN, v) || Is(b, DOMAIN, v),
           (v, _) => Is(a, DOMAIN_SUFFIX, v) || Is(b, DOMAIN_SUFFIX, v),
           (v, _) => Is(a, DOMAIN_KEYWORD, v) || Is(b, DOMAIN_KEYWORD, v),
           (v, _) => Is(a, IP_CIDR, v) || Is(b, IP_CIDR, v),
           (f, _) => (a.ruleType == RULE_SET && EmbeddedRuleSetFile(a.value) == f)
                     || (b.ruleType == RULE_SET && EmbeddedRuleSetFile(b.value) == f))
  }

  /** A rule of one of the five types; a rule set names a bundled file. */
  predicate Plain(r: Rule) {
    && r.ruleType in {DOMAIN, DOMAIN_SUFFIX, DOMAIN_KEYWORD, IP_CIDR, RULE_SET}
    && (r.ruleType == RULE_SET ==> EmbeddedRuleSetFile(r.value) != "")
  }

  lemma FileNamesTag(v: string, w: string)
    requires EmbeddedRuleSetFile(v) == EmbeddedRuleSetFile(w) != ""
    ensures v == w
  {
  }

  lemma OnlyMatches<C>(a: Rule, b: Rule, r: Rule, c: C)
    requires r.enabled && Plain(r) && Plain(a) && Plain(b)
    ensures RuleMatches(r, Only(a, b), c) <==> SameCriterion(r, a) || SameCriterion(r, b)
  {
    hide EmbeddedRuleSetFile;
    if r.ruleType == RULE_SET {
      if a.ruleType == RULE_SET && EmbeddedRuleSetFile(a.value) == EmbeddedRuleSetFile(r.value) {
        FileNamesTag(a.value, r.value);
      }
      if b.ruleType == RULE_SET && EmbeddedRuleSetFile(b.value) == EmbeddedRuleSetFile(r.value) {
        FileNamesTag(b.value, r.value);
      }
    }
  }

  ghost predicate AllPlain(rs: seq<Rule>) {
    forall k :: 0 <= k < |rs| && rs[k].enabled ==> Plain(rs[k])
  }

  lemma AcceptedPlain(rs: seq<Rule>, cidr: string -> bool)
    requires Accepted(rs, cidr)
    ensures AllPlain(rs)
  {
    hide Normalized, FaultOf, EmbeddedRuleSetFile;
    forall k | 0 <= k < |rs| && rs[k].enabled
      ensures Plain(rs[k])
    {
      AcceptedRule(rs[k], cidr);
    }
  }

  /** With the criteria of two rules met, of which one is met at i and neither before, i decides. */
  lemma FirstOfTwo<C>(rs: seq<Rule>, a: Rule, b: Rule, i: nat, c: C)
    requires AllPlain(rs) && Plain(a) && Plain(b) && i < |rs| && rs[i].enabled
    requires SameCriterion(rs[i], a)
    requires forall k :: 0 <= k < i && rs[k].enabled ==> !SameCriterion(rs[k], a) && !SameCriterion(rs[k], b)
    ensures Decision(rs, Only(a, b), c) == rs[i].outbound
  {
    hide RuleMatches, FirstMatch, Only, Plain, SameCriterion, Decision;
    var e: Engine<C> := Only(a, b);
    forall k | 0 <= k < |rs|
      ensures RuleMatches(rs[k], e, c) <==> rs[k].enabled && (SameCriterion(rs[k], a) || SameCriterion(rs[k], b))
    {
      DisabledMatchesNothing(rs[k], e, c);
      if rs[k].enabled {
        OnlyMatches(a, b, rs[k], c);
      }
    }
    DecisionOf(rs, e, c);
  }

  /** A reachable rule set that does not go to the proxy: the connection only it matches differs. */
  lemma RuleSetAlone<C>(rs: seq<Rule>, j: nat, c: C)
    requires AllPlain(rs) && j < |rs| && Reachable(rs, j) && rs[j].ruleType == RULE_SET
    ensures var e: Engine<C> := Only(rs[j], rs[j]);
      Decision(rs, e, c) == rs[j].outbound && Decision(Considered(rs, false), e, c) == SELECTED
  {
    hide RuleMatches, FirstMatch, Only, Plain, Decision, Considered;
    var r := rs[j];
    var e: Engine<C> := Only(r, r);
    FirstOfTwo(rs, r, r, j, c);
    forall k | 0 <= k < |rs| && RuleMatches(rs[k], e, c)
      ensures rs[k].ruleType == RULE_SET
    {
      DisabledMatchesNothing(rs[k], e, c);
      OnlyMatches(r, r, rs[k], c);
    }
    NoOtherMatch(rs, e, c);
  }

  /** A reachable rule set and a reachable other rule behind it: on a connection that meets both the
      full route takes the one, the degraded route the other. */
  lemma RuleSetThenOther<C>(rs: seq<Rule>, i: nat, j: nat, c: C)
    requires AllPlain(rs) && i < j < |rs| && Reachable(rs, i) && Reachable(rs, j)
    requires rs[i].ruleType == RULE_SET && rs[j].ruleType != RULE_SET
    ensures var e: Engine<C> := Only(rs[i], rs[j]);
      Decision(rs, e, c) == rs[i].outbound && Decision(Considered(rs, false), e, c) == rs[j].outbound
  {
    hide RuleMatches, FirstMatch, Only, Plain, Decision, Considered;
    var e: Engine<C> := Only(rs[i], rs[j]);
    FirstOfTwo(rs, rs[i], rs[j], i, c);
    OnlyMatches(rs[i], rs[j], rs[j], c);
    forall k | 0 <= k < j && RuleMatches(rs[k], e, c)
      ensures rs[k].ruleType == RULE_SET
    {
      DisabledMatchesNothing(rs[k], e, c);
      OnlyMatches(rs[i], rs[j], rs[k], c);
    }
    OtherMatchIs(rs, j, e, c);
  }

  lemma ConditionNecessary<C>(rs: seq<Rule>, c: C) returns (e: Engine<C>)
    requires AllPlain(rs) && !ProxyFromRuleSetsOn(rs)
    ensures Decision(Considered(rs, false), e, c) != Decision(rs, e, c)
  {
    hide Only, Plain, Decision, Considered, Reachable, AllPlain;
    var i, j :| 0 <= i <= j < |rs| && rs[i].enabled && rs[i].ruleType == RULE_SET && Reachable(rs, j)
      && rs[j].outbound != SELECTED;
    var f := FirstOfCriterion(rs, i);
    if rs[j].ruleType == RULE_SET {
      e := Only(rs[j], rs[j]);
      RuleSetAlone(rs, j, c);
    } else if rs[f].outbound != SELECTED {
      e := Only(rs[f], rs[f]);
      RuleSetAlone(rs, f, c);
    } else {
      e := Only(rs[f], rs[j]);
      RuleSetThenOther(rs, f, j, c);
    }
  }

  /** The degraded route decides as the full one in every engine, whatever the connection, if and only
      if from the first enabled rule set on every reachable rule goes to the proxy. */
  lemma DegradedAlwaysAgreesIff<C>(rules: Option<seq<Rule>>, dir: string, cidr: string -> bool, c: C)
    requires Valid(Effective(rules), cidr)
    ensures (forall e: Engine<C> ::
               Outbound(Built(MODE_RULE, rules, dir, false), e, c)
                 == Outbound(Built(MODE_RULE, rules, dir, true), e, c))
       <==> ProxyFromRuleSetsOn(Effective(rules))
  {
    hide Effective, Valid, Built, Outbound, Decision, Considered, ProxyFromRuleSetsOn;
    var rs := Effective(rules);
    EffectiveAccepted(rules, cidr);
    AcceptedPlain(rs, cidr);
    forall e: Engine<C>
      ensures Outbound(Built(MODE_RULE, rules, dir, false), e, c) == Decision(Considered(rs, false), e, c)
      ensures Outbound(Built(MODE_RULE, rules, dir, true), e, c) == Decision(rs, e, c)
    {
      RuleModeIsRule();
      RoutePreservesMeaning(MODE_RULE, rules, dir, false, cidr, e, c);
      RoutePreservesMeaning(MODE_RULE, rules, dir, true, cidr, e, c);
      AllConsidered(rs);
    }
    if ProxyFromRuleSetsOn(rs) {
      forall e: Engine<C>
        ensures Decision(Considered(rs, false), e, c) == Decision(rs, e, c)
      {
        ConditionSuffices(rs, e, c);
      }
    } else {
      var e := ConditionNecessary(rs, c);
      assert Outbound(Built(MODE_RULE, rules, dir, false), e, c) != Outbound(Built(MODE_RULE, rules, dir, true), e, c);
    }
  }
}
