/** Opening the instances' security groups for one load balancer, and closing them (ccm_cloud.go, utils.go). */
module NodeGroups {
  import opened Wrappers
  import opened Collections
  import opened IpRules
  import opened CloudApi
  import opened Config
  import opened Ingress

  // ---------- Does a rule exist ----------

  predicate IsEqualSecurityGroupMember(l: Member, r: Member, compareAccounts: bool) {
    l.groupId == r.groupId && (compareAccounts ==> l.accountId.GetOr("") == r.accountId.GetOr(""))
  }

  /** Members are equal when their groups are; compared accounts must agree too, where an absent one reads as empty. */
  lemma MembersAreEqualIff(g: string, h: string, account: string, other: string)
    ensures IsEqualSecurityGroupMember(Member(g, Some(account)), Member(h, Some(other)), true) <==> g == h && account == other
    ensures IsEqualSecurityGroupMember(Member(g, None), Member(h, Some(other)), true) <==> g == h && other == ""
    ensures IsEqualSecurityGroupMember(Member(g, Some(account)), Member(h, Some(other)), false) <==> g == h
    ensures IsEqualSecurityGroupMember(Member(g, None), Member(h, Some(other)), false) <==> g == h
  {
  }

  ghost predicate SameScope(a: Rule, b: Rule) {
    && a.fromPort.GetOr(0) == b.fromPort.GetOr(0) && a.toPort.GetOr(0) == b.toPort.GetOr(0)
    && a.protocol.GetOr("") == b.protocol.GetOr("")
  }

  ghost predicate RuleCovers(wanted: Rule, existing: Rule, compareAccounts: bool) {
    && SameScope(wanted, existing)
    && |wanted.Ranges()| <= |existing.Ranges()|
    && (forall x :: x in wanted.Ranges() ==> x in existing.Ranges())
    && (forall m :: m in wanted.Members() ==>
          exists n :: n in existing.Members() && IsEqualSecurityGroupMember(m, n, compareAccounts))
  }

  method RuleExists(wanted: Rule, existing: Rule, compareAccounts: bool) returns (r: bool)
    ensures r <==> RuleCovers(wanted, existing, compareAccounts)
  {
    if wanted.fromPort.GetOr(0) != existing.fromPort.GetOr(0) { return false; }
    if wanted.toPort.GetOr(0) != existing.toPort.GetOr(0) { return false; }
    if wanted.protocol.GetOr("") != existing.protocol.GetOr("") { return false; }
    if |wanted.Ranges()| > |existing.Ranges()| { return false; }
    for j := 0 to |wanted.Ranges()|
      invariant forall x :: x in wanted.Ranges()[..j] ==> x in existing.Ranges()
    {
      var found := false;
      for k := 0 to |existing.Ranges()|
        invariant !found && wanted.Ranges()[j] !in existing.Ranges()[..k]
      {
        if wanted.Ranges()[j] == existing.Ranges()[k] {
          assert existing.Ranges()[k] in existing.Ranges();
          found := true;
          break;
        }
      }
      if !found {
        assert existing.Ranges()[..|existing.Ranges()|] == existing.Ranges();
        assert wanted.Ranges()[j] in wanted.Ranges();
        return false;
      }
      assert wanted.Ranges()[..j + 1] == wanted.Ranges()[..j] + [wanted.Ranges()[j]];
    }
    for j := 0 to |wanted.Members()|
      invariant forall m :: m in wanted.Members()[..j] ==>
        exists n :: n in existing.Members() && IsEqualSecurityGroupMember(m, n, compareAccounts)
    {
      var left := wanted.Members()[j];
      var found := false;
      for k := 0 to |existing.Members()|
        invariant !found && forall n :: n in existing.Members()[..k] ==> !IsEqualSecurityGroupMember(left, n, compareAccounts)
      {
        if IsEqualSecurityGroupMember(left, existing.Members()[k], compareAccounts) {
          assert existing.Members()[k] in existing.Members();
          found := true;
          break;
        }
      }
      if !found {
        assert existing.Members()[..|existing.Members()|] == existing.Members();
        assert left in wanted.Members();
        return false;
      }
      assert wanted.Members()[..j + 1] == wanted.Members()[..j] + [left];
    }
    assert wanted.Ranges()[..|wanted.Ranges()|] == wanted.Ranges();
    assert wanted.Members()[..|wanted.Members()|] == wanted.Members();
    return true;
  }

  /** The permission a wanted one-source rule is looked for as: equal ports read with their defaults, and the same source. */
  ghost predicate SameAs(wanted: Rule, s: Source, a: Atom, compareAccounts: bool) {
    && a.fromPort.GetOr(0) == wanted.fromPort.GetOr(0) && a.toPort.GetOr(0) == wanted.toPort.GetOr(0)
    && a.protocol.GetOr("") == wanted.protocol.GetOr("")
    && match s
       case Range(x) => a.source == Range(x)
       case Group(m) => a.source.Group? && IsEqualSecurityGroupMember(m, a.source.member, compareAccounts)
       case Service(_) => false
  }

  ghost predicate RuleIn(wanted: Rule, inbound: seq<Rule>, compareAccounts: bool) {
    exists r :: r in inbound && RuleCovers(wanted, r, compareAccounts)
  }

  // ---------- For which rules the search is right ----------

  ghost predicate SourcesPermitted(wanted: Rule, atoms: set<Atom>, compareAccounts: bool) {
    forall s :: s in Sources(wanted) ==> exists a :: a in atoms && SameAs(wanted, s, a, compareAccounts)
  }

  /** However the cloud groups the rules, the search finds the wanted one exactly when all its sources are permitted. */
  ghost predicate SearchIsRight(wanted: Rule, compareAccounts: bool) {
    forall inbound, atoms :: Regrouping(inbound, atoms) ==>
      (RuleIn(wanted, inbound, compareAccounts) <==> SourcesPermitted(wanted, atoms, compareAccounts))
  }

  /** One range and no member, or no range and members that all count as the same. */
  ghost predicate OneSourceOnly(wanted: Rule, compareAccounts: bool) {
    || (|wanted.Ranges()| == 1 && wanted.Members() == [])
    || (wanted.Ranges() == [] && wanted.Members() != []
        && forall m, n :: m in wanted.Members() && n in wanted.Members() ==> IsEqualSecurityGroupMember(m, n, compareAccounts))
  }

  /** For a rule without services the search is right exactly when the rule has one source only. */
  lemma SearchIsRightIff(wanted: Rule, compareAccounts: bool)
    requires wanted.Services() == []
    ensures SearchIsRight(wanted, compareAccounts) <==> OneSourceOnly(wanted, compareAccounts)
  {
    if OneSourceOnly(wanted, compareAccounts) {
      forall inbound, atoms | Regrouping(inbound, atoms)
        ensures RuleIn(wanted, inbound, compareAccounts) <==> SourcesPermitted(wanted, atoms, compareAccounts)
      {
        OneSourceIsFoundIff(wanted, inbound, atoms, compareAccounts);
      }
    } else {
      var inbound := SplitApart(wanted, compareAccounts);
    }
  }

  lemma OneSourceIsFoundIff(wanted: Rule, inbound: seq<Rule>, atoms: set<Atom>, compareAccounts: bool)
    requires wanted.Services() == [] && OneSourceOnly(wanted, compareAccounts) && Regrouping(inbound, atoms)
    ensures RuleIn(wanted, inbound, compareAccounts) <==> SourcesPermitted(wanted, atoms, compareAccounts)
  {
    if RuleIn(wanted, inbound, compareAccounts) {
      var r :| r in inbound && RuleCovers(wanted, r, compareAccounts);
      assert r in Elems(inbound);
      forall s | s in Sources(wanted) ensures exists a :: a in atoms && SameAs(wanted, s, a, compareAccounts) {
        var a := CoveringRulePermitsSource(wanted, s, r, compareAccounts);
        assert a in atoms;
      }
    }
    if SourcesPermitted(wanted, atoms, compareAccounts) {
      var s := FirstSource(wanted);
      var a :| a in atoms && SameAs(wanted, s, a, compareAccounts);
      var r :| r in Elems(inbound) && a in Atoms(r);
      PermittingRuleCoversAll(wanted, s, r, a, compareAccounts);
    }
  }

  lemma FirstSource(wanted: Rule) returns (s: Source)
    requires wanted.Ranges() != [] || wanted.Members() != []
    ensures s in Sources(wanted) && !s.Service?
  {
    if wanted.Ranges() != [] {
      assert wanted.Ranges()[0] in wanted.Ranges();
      s := Range(wanted.Ranges()[0]);
    } else {
      assert wanted.Members()[0] in wanted.Members();
      s := Group(wanted.Members()[0]);
    }
  }

  lemma CoveringRulePermitsSource(wanted: Rule, s: Source, r: Rule, compareAccounts: bool) returns (a: Atom)
    requires RuleCovers(wanted, r, compareAccounts) && s in Sources(wanted) && !s.Service?
    ensures a in Atoms(r) && SameAs(wanted, s, a, compareAccounts)
  {
    var t := s;
    if s.Group? {
      var n :| n in r.Members() && IsEqualSecurityGroupMember(s.member, n, compareAccounts);
      t := Group(n);
    }
    assert t in Sources(r);
    a := Allows(r, t);
  }

  /** A rule that permits one source of a rule with one source only covers it. */
  lemma PermittingRuleCoversAll(wanted: Rule, s: Source, r: Rule, a: Atom, compareAccounts: bool)
    requires OneSourceOnly(wanted, compareAccounts) && s in Sources(wanted)
    requires a in Atoms(r) && SameAs(wanted, s, a, compareAccounts)
    ensures RuleCovers(wanted, r, compareAccounts)
  {
    if s.Range? {
      assert wanted.Ranges() == [s.cidr] && s.cidr in r.Ranges();
    } else {
      assert a.source.member in r.Members();
    }
  }

  /** A rule with more sources is missed when the cloud reports each of them in a rule of its own; one with none is missed among no rules. */
  lemma SplitApart(wanted: Rule, compareAccounts: bool) returns (inbound: seq<Rule>)
    requires wanted.Services() == [] && !OneSourceOnly(wanted, compareAccounts)
    ensures Regrouping(inbound, Atoms(wanted)) && SourcesPermitted(wanted, Atoms(wanted), compareAccounts)
    ensures !RuleIn(wanted, inbound, compareAccounts)
  {
    inbound := SetHasListing(Pieces(Atoms(wanted)));
    PiecesMeanTheirAtoms(Atoms(wanted));
    OwnSourcesPermitted(wanted, compareAccounts);
    forall r | r in inbound ensures !RuleCovers(wanted, r, compareAccounts) {
      assert r in Elems(inbound);
      PiecesCoverNoMore(wanted, r, compareAccounts);
    }
  }

  lemma OwnSourcesPermitted(wanted: Rule, compareAccounts: bool)
    requires wanted.Services() == []
    ensures SourcesPermitted(wanted, Atoms(wanted), compareAccounts)
  {
    forall s | s in Sources(wanted) ensures exists a :: a in Atoms(wanted) && SameAs(wanted, s, a, compareAccounts) {
      assert SameAs(wanted, s, Allows(wanted, s), compareAccounts);
    }
  }

  lemma PiecesCoverNoMore(wanted: Rule, r: Rule, compareAccounts: bool)
    requires wanted.Services() == [] && !OneSourceOnly(wanted, compareAccounts) && r in Pieces(Atoms(wanted))
    ensures !RuleCovers(wanted, r, compareAccounts)
  {
    var a :| a in Atoms(wanted) && r == Piece(a);
    PieceCoversNoMore(wanted, a, compareAccounts);
  }

  lemma PieceCoversNoMore(wanted: Rule, a: Atom, compareAccounts: bool)
    requires wanted.Services() == [] && !OneSourceOnly(wanted, compareAccounts) && a in Atoms(wanted)
    ensures !RuleCovers(wanted, Piece(a), compareAccounts)
  {
    var r := Piece(a);
    if a.source.Group? {
      assert r.Ranges() == [] && r.Members() == [a.source.member];
    } else {
      assert r.Members() == [] && r.Ranges() == [a.source.cidr];
    }
    FirstMembers(wanted);
  }

  lemma FirstMembers(wanted: Rule)
    ensures wanted.Members() != [] ==> wanted.Members()[0] in wanted.Members()
  {
  }

  /** For a rule with one range or one member, the search gives the same answer however the cloud groups the rules. */
  lemma OneSourceFoundUnderAnyRegrouping(wanted: Rule, s: Source, inbound: seq<Rule>, atoms: set<Atom>, compareAccounts: bool)
    requires Regrouping(inbound, atoms)
    requires !s.Service? && wanted == Piece(Atom(wanted.protocol, wanted.fromPort, wanted.toPort, s))
    ensures RuleIn(wanted, inbound, compareAccounts) <==> exists a :: a in atoms && SameAs(wanted, s, a, compareAccounts)
  {
    OneSource(wanted, s);
    assert Sources(wanted) == {s};
    OneSourceIsFoundIff(wanted, inbound, atoms, compareAccounts);
  }

  lemma OneSource(wanted: Rule, s: Source)
    requires !s.Service? && wanted == Piece(Atom(wanted.protocol, wanted.fromPort, wanted.toPort, s))
    ensures s.Range? ==> wanted.Ranges() == [s.cidr] && wanted.Members() == []
    ensures s.Group? ==> wanted.Members() == [s.member] && wanted.Ranges() == []
    ensures s.Range? ==> s.cidr in wanted.Ranges()
    ensures s.Group? ==> s.member in wanted.Members()
  {
    if s.Range? { assert wanted.Ranges()[0] == s.cidr; } else { assert wanted.Members()[0] == s.member; }
  }

  /** A rule with two ranges is missed when the cloud reports them in two rules, although both are permitted. */
  lemma TwoRangesMissedWhenSplit(x: string, y: string)
    requires x != y
    ensures var wanted := Rule(Some("tcp"), Some(80), Some(80), Some([x, y]), None, None);
            var p, q := wanted.(ranges := Some([x])), wanted.(ranges := Some([y]));
            Regrouping([p, q], Atoms(wanted)) && !RuleIn(wanted, [p, q], false)
  {
    var wanted := Rule(Some("tcp"), Some(80), Some(80), Some([x, y]), None, None);
    var p, q := wanted.(ranges := Some([x])), wanted.(ranges := Some([y]));
    assert wanted.Ranges()[0] == x && wanted.Ranges()[1] == y;
    assert p.Ranges()[0] == x && q.Ranges()[0] == y;
    assert Elems([p, q]) == {p, q};
    assert Sources(wanted) == {Range(x), Range(y)} && Sources(p) == {Range(x)} && Sources(q) == {Range(y)};
    assert Meaning({p, q}) == Atoms(p) + Atoms(q);
    assert Atoms(wanted) == Atoms(p) + Atoms(q);
  }

  // ---------- The rule that lets the load balancer in ----------

  /** All protocols and ports, from the load balancer's group. */
  function LbRule(lbGroup: string): Rule {
    Rule(Some("-1"), Some(-1), Some(-1), None, Some([Member(lbGroup, None)]), None)
  }

  /** How the cloud stores that rule. */
  function LbAtom(account: string, lbGroup: string): Atom {
    Atom(Some("-1"), Some(-1), Some(-1), Group(Member(lbGroup, Some(account))))
  }

  ghost predicate LetsIn(rules: set<Atom>, lbGroup: string) {
    exists a :: a in rules && SameAs(LbRule(lbGroup), Group(Member(lbGroup, None)), a, false)
  }

  /** A group lets the load balancer in when some permission of all protocols and ports names the group, in any account. */
  lemma LetsInIff(rules: set<Atom>, lbGroup: string)
    ensures LetsIn(rules, lbGroup) <==>
            exists a :: a in rules && a.protocol == Some("-1") && a.fromPort == Some(-1) && a.toPort == Some(-1)
                        && a.source.Group? && a.source.member.groupId == lbGroup
  {
    if a :| a in rules && SameAs(LbRule(lbGroup), Group(Member(lbGroup, None)), a, false) {
      assert a.protocol == Some("-1") && a.fromPort == Some(-1) && a.toPort == Some(-1);
    }
    if a :| a in rules && a.protocol == Some("-1") && a.fromPort == Some(-1) && a.toPort == Some(-1)
            && a.source.Group? && a.source.member.groupId == lbGroup
    {
      assert SameAs(LbRule(lbGroup), Group(Member(lbGroup, None)), a, false);
    }
  }

  lemma LbRuleIsRequestedAsLbAtom(account: string, lbGroup: string)
    ensures Requested(account, [LbRule(lbGroup)]) == {LbAtom(account, lbGroup)}
    ensures forall rules: set<Atom> :: LbAtom(account, lbGroup) in rules ==> LetsIn(rules, lbGroup)
  {
    var a := Atom(Some("-1"), Some(-1), Some(-1), Group(Member(lbGroup, None)));
    assert LbRule(lbGroup) == Piece(a);
    PieceMeansItsAtom(a);
    assert Elems([LbRule(lbGroup)]) == {LbRule(lbGroup)};
    assert Meaning({LbRule(lbGroup)}) == {a};
    assert SameAs(LbRule(lbGroup), Group(Member(lbGroup, None)), LbAtom(account, lbGroup), false);
  }

  lemma LbRuleFound(lbGroup: string, inbound: seq<Rule>, rules: set<Atom>)
    requires Regrouping(inbound, rules)
    ensures RuleIn(LbRule(lbGroup), inbound, false) <==> LetsIn(rules, lbGroup)
  {
    var wanted := LbRule(lbGroup);
    assert wanted == Piece(Atom(wanted.protocol, wanted.fromPort, wanted.toPort, Group(Member(lbGroup, None))));
    OneSourceFoundUnderAnyRegrouping(wanted, Group(Member(lbGroup, None)), inbound, rules, false);
  }

  ghost function Granted(account: string, lbGroup: string, rules: set<Atom>): set<Atom> {
    if LetsIn(rules, lbGroup) then rules else rules + {LbAtom(account, lbGroup)}
  }

  ghost function Revoked(account: string, lbGroup: string, rules: set<Atom>): set<Atom> {
    rules - {LbAtom(account, lbGroup)}
  }

  /** A removal's answer, whether a like rule was found, matches the change exactly when a like rule never comes without the very rule. */
  lemma RemovalAnswerMatchesIff(account: string, lbGroup: string, rules: set<Atom>)
    ensures (LetsIn(rules, lbGroup) <==> Revoked(account, lbGroup, rules) != rules)
            <==> (LetsIn(rules, lbGroup) ==> LbAtom(account, lbGroup) in rules)
  {
    LbRuleIsRequestedAsLbAtom(account, lbGroup);
    assert LbAtom(account, lbGroup) !in Revoked(account, lbGroup, rules);
  }

  /** That is so wherever the group is named with the account it belongs to. */
  lemma RemovalAnswerMatchesInOneAccount(account: string, lbGroup: string, rules: set<Atom>)
    requires forall a :: a in rules && Names(a, lbGroup) ==> a.source.member.accountId == Some(account)
    ensures LetsIn(rules, lbGroup) <==> Revoked(account, lbGroup, rules) != rules
  {
    RemovalAnswerMatchesIff(account, lbGroup, rules);
    if a :| a in rules && SameAs(LbRule(lbGroup), Group(Member(lbGroup, None)), a, false) {
      assert Names(a, lbGroup) && a == LbAtom(account, lbGroup);
    }
  }

  // ---------- Adding and removing rules ----------

  ghost predicate CompareAccounts(rule: Rule) {
    exists m :: m in rule.Members() && m.accountId.Some?
  }

  /** The rules that are found among the inbound ones, or those that are not. */
  ghost function Searched(rules: seq<Rule>, inbound: seq<Rule>, found: bool): seq<Rule> {
    if rules == [] then []
    else
      var last := rules[|rules| - 1];
      Searched(rules[..|rules| - 1], inbound, found)
      + if RuleIn(last, inbound, CompareAccounts(last)) == found then [last] else []
  }

  method SearchRules(rules: seq<Rule>, inbound: seq<Rule>, found: bool) returns (changes: seq<Rule>)
    ensures changes == Searched(rules, inbound, found)
  {
    changes := [];
    for i := 0 to |rules|
      invariant changes == Searched(rules[..i], inbound, found)
    {
      var rule := rules[i];
      var hasUserId := HasAccount(rule);
      var hit := false;
      for j := 0 to |inbound|
        invariant !hit && forall r :: r in inbound[..j] ==> !RuleCovers(rule, r, hasUserId)
      {
        hit := RuleExists(rule, inbound[j], hasUserId);
        if hit {
          assert inbound[j] in inbound;
          break;
        }
        assert inbound[..j + 1] == inbound[..j] + [inbound[j]];
      }
      assert inbound[..|inbound|] == inbound;
      assert hit == RuleIn(rule, inbound, hasUserId);
      if hit == found {
        changes := changes + [rule];
      }
      assert rules[..i + 1][..i] == rules[..i];
    }
    assert rules[..|rules|] == rules;
  }

  method HasAccount(rule: Rule) returns (r: bool)
    ensures r == CompareAccounts(rule)
  {
    r := false;
    for i := 0 to |rule.Members()|
      invariant r <==> exists m :: m in rule.Members()[..i] && m.accountId.Some?
    {
      if rule.Members()[i].accountId.Some? {
        r := true;
      }
      assert rule.Members()[..i + 1] == rule.Members()[..i] + [rule.Members()[i]];
    }
    assert rule.Members()[..|rule.Members()|] == rule.Members();
  }

  lemma SearchedLbRule(account: string, lbGroup: string, inbound: seq<Rule>, rules: set<Atom>, found: bool)
    requires Regrouping(inbound, rules)
    ensures Searched([LbRule(lbGroup)], inbound, found) == if LetsIn(rules, lbGroup) == found then [LbRule(lbGroup)] else []
  {
    LbRuleFound(lbGroup, inbound, rules);
    var r := LbRule(lbGroup);
    assert r.Members() == [Member(lbGroup, None)];
    assert !CompareAccounts(r);
    assert [r][..0] == [];
    assert Searched([], inbound, found) == [];
  }

  /** Adds the load balancer's rule to one group unless a rule like it is there. */
  method AddSecurityGroupRules(api: Api, cfg: Config, id: string, lbGroup: string) returns (r: Result<bool>)
    requires api.Valid()
    modifies api`groups, api`log
    ensures api.Valid() && old(api.log) <= api.log
    ensures OnlyRulesOf(id, old(api.groups), api.groups)
    ensures id == cfg.elbSecurityGroup ==> r == Ok(false) && api.groups == old(api.groups) && api.log == old(api.log)
    ensures id != cfg.elbSecurityGroup && r.Ok? ==> id in api.groups
    ensures id != cfg.elbSecurityGroup && r.Ok? ==>
              api.groups[id].rules == Granted(api.account, lbGroup, old(api.groups)[id].rules)
    ensures id != cfg.elbSecurityGroup && r.Ok? ==> (r.value <==> api.groups[id].rules != old(api.groups)[id].rules)
    ensures id != cfg.elbSecurityGroup && r.Ok? ==>
              exists a :: a in api.groups[id].rules && a.protocol == Some("-1") && a.fromPort == Some(-1) && a.toPort == Some(-1)
                          && a.source.Group? && a.source.member.groupId == lbGroup
    ensures id in api.groups ==> old(api.groups)[id].rules <= api.groups[id].rules
    ensures id in api.groups ==>
              api.groups[id].rules <= old(api.groups)[id].rules
                                      + {Atom(Some("-1"), Some(-1), Some(-1), Group(Member(lbGroup, Some(api.account))))}
    ensures forall i :: |old(api.log)| <= i < |api.log| ==>
              api.log[i].call == CreateRules(id, {LbAtom(api.account, lbGroup)}) && id in old(api.groups)
              && !LetsIn(old(api.groups)[id].rules, lbGroup)
    ensures api.reliable && id in old(api.groups) ==> r.Ok?
  {
    if id == cfg.elbSecurityGroup {
      return Ok(false);
    }
    var group := FindSecurityGroup(api, id);
    if group.Err? {
      return Err(group.error);
    }
    if group.value.None? {
      return Err(Invalid("security group not found"));
    }
    LbRuleIsRequestedAsLbAtom(api.account, lbGroup);
    SearchedLbRule(api.account, lbGroup, group.value.value.inbound, api.groups[id].rules, false);
    var changes := SearchRules([LbRule(lbGroup)], group.value.value.inbound, false);
    if |changes| == 0 {
      LetsInIff(api.groups[id].rules, lbGroup);
      return Ok(false);
    }
    var done := api.CreateSecurityGroupRule(id, changes);
    if done.Failure? {
      return Err(done.error);
    }
    assert LbAtom(api.account, lbGroup) in api.groups[id].rules;
    return Ok(true);
  }

  /** Removes the load balancer's rule from one group; a group that is gone needs nothing. */
  method RemoveSecurityGroupRules(api: Api, cfg: Config, id: string, lbGroup: string) returns (r: Result<bool>)
    requires api.Valid()
    modifies api`groups, api`log
    ensures api.Valid() && old(api.log) <= api.log
    ensures OnlyRulesOf(id, old(api.groups), api.groups)
    ensures id == cfg.elbSecurityGroup ==> r == Ok(false) && api.groups == old(api.groups) && api.log == old(api.log)
    ensures id != cfg.elbSecurityGroup && r.Ok? && id in api.groups ==>
              api.groups[id].rules == Revoked(api.account, lbGroup, old(api.groups)[id].rules)
    ensures id != cfg.elbSecurityGroup && r.Ok? && id in api.groups ==>
              Atom(Some("-1"), Some(-1), Some(-1), Group(Member(lbGroup, Some(api.account)))) !in api.groups[id].rules
    ensures id in api.groups ==>
              old(api.groups)[id].rules - {Atom(Some("-1"), Some(-1), Some(-1), Group(Member(lbGroup, Some(api.account))))}
              <= api.groups[id].rules
    ensures id in api.groups ==> api.groups[id].rules <= old(api.groups)[id].rules
    ensures forall i :: |old(api.log)| <= i < |api.log| ==>
              api.log[i].call == DeleteRules(id, {LbAtom(api.account, lbGroup)}) && id in old(api.groups)
              && LetsIn(old(api.groups)[id].rules, lbGroup)
    ensures r.Ok? ==>
              (r.value <==> id != cfg.elbSecurityGroup && id in old(api.groups) && LetsIn(old(api.groups)[id].rules, lbGroup))
    ensures api.reliable ==> r.Ok?
  {
    if id == cfg.elbSecurityGroup {
      return Ok(false);
    }
    var group := FindSecurityGroup(api, id);
    if group.Err? {
      return Err(group.error);
    }
    if group.value.None? {
      return Ok(false);
    }
    LbRuleIsRequestedAsLbAtom(api.account, lbGroup);
    SearchedLbRule(api.account, lbGroup, group.value.value.inbound, api.groups[id].rules, true);
    var changes := SearchRules([LbRule(lbGroup)], group.value.value.inbound, true);
    if |changes| == 0 {
      return Ok(false);
    }
    var done := api.DeleteSecurityGroupRule(id, changes);
    if done.Failure? {
      return Err(done.error);
    }
    return Ok(true);
  }
}
