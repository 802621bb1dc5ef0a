/**
 The cloud behind the controller: security groups, load balancers, and the calls of oapi_itf.go.
 Any call may fail at any time. A failed change of a group's rules, a failed creation or deletion of listeners, and a failed
 registration or deregistration may have been applied in part; every other call that fails changes nothing.
 */
module CloudApi {
  import opened Wrappers
  import opened Collections
  import opened IpRules
  import opened Listeners

  datatype Tag = Tag(key: string, value: string)

  datatype GroupState = GroupState(name: string, net: string, tags: map<string, string>, rules: set<Atom>)

  datatype LbState = LbState(
    securityGroups: seq<string>, listeners: PortMap,
    definedPolicies: set<string>, policies: map<int, set<string>>, instances: set<string>)

  /** A security group as a read reports it. */
  datatype GroupView = GroupView(id: string, name: string, tags: seq<Tag>, inbound: seq<Rule>)

  datatype Backend = Backend(instancePort: int, policyNames: seq<string>)

  /** A load balancer as a description reports it. */
  datatype LbView = LbView(
    name: string, securityGroups: seq<string>, listeners: seq<Option<Listener>>,
    backends: seq<Backend>, instances: seq<string>)

  /** The filters the controller reads security groups with. */
  datatype Filter =
    | ById(ids: seq<string>)
    | ByName(name: string, net: Option<string>)
    | ByInboundGroup(source: string)
    | ByTag(key: string, otherKey: string, otherValue: string)

  datatype Call =
    | CreateGroup(name: string)
    | DeleteGroup(id: string)
    | CreateRules(id: string, atoms: set<Atom>)
    | DeleteRules(id: string, atoms: set<Atom>)
    | CreateTags(id: string, tags: map<string, string>)
    | CreateLb(lb: string)
    | DeleteLb(lb: string)
    | CreateListeners(lb: string, listeners: seq<Listener>)
    | DeleteListeners(lb: string, ports: set<int>)
    | CreatePolicy(lb: string, policy: string)
    | SetPolicies(lb: string, port: int, policies: set<string>)
    | Register(lb: string, instances: set<string>)
    | Deregister(lb: string, instances: set<string>)

  type Groups = map<string, GroupState>

  /** One mutating call, whether it succeeded, and the security groups right after it. */
  datatype Event = Event(call: Call, ok: bool, after: Groups)

  /** Every event from position from on is allowed. */
  ghost predicate OnlyCalls(log: seq<Event>, from: nat, allowed: Event -> bool) {
    forall i :: from <= i < |log| ==> allowed(log[i])
  }

  // ---------- What a read may report ----------

  predicate Selects(f: Filter, id: string, g: GroupState) {
    match f
    case ById(ids) => id in ids
    case ByName(name, net) => g.name == name && (net.Some? ==> g.net == net.value)
    case ByInboundGroup(source) => exists a :: a in g.rules && Names(a, source)
    case ByTag(key, otherKey, otherValue) => key in g.tags && otherKey in g.tags && g.tags[otherKey] == otherValue
  }

  function Selected(f: Filter, groups: Groups): set<string> {
    set id | id in groups && Selects(f, id, groups[id])
  }

  /** The permission names the security group as its source. */
  predicate Names(a: Atom, groupId: string) {
    a.source.Group? && a.source.member.groupId == groupId
  }

  /** The cloud may combine rules at will, also with several kinds of source in one, as long as they permit the same. */
  predicate Regrouping(rules: seq<Rule>, atoms: set<Atom>) {
    Meaning(Elems(rules)) == atoms
  }

  predicate TagList(tags: seq<Tag>, m: map<string, string>) {
    && (forall t :: t in tags ==> t.key in m && m[t.key] == t.value)
    && (forall k :: k in m ==> Tag(k, m[k]) in tags)
  }

  predicate ShowsGroup(v: GroupView, g: GroupState) {
    v.name == g.name && TagList(v.tags, g.tags) && Regrouping(v.inbound, g.rules)
  }

  function Ids(views: seq<GroupView>): seq<string> {
    seq(|views|, i requires 0 <= i < |views| => views[i].id)
  }

  /** The views report exactly the groups of the given ids, each once, in any order. */
  predicate ViewsOf(views: seq<GroupView>, ids: set<string>, groups: Groups) {
    && Lists(Ids(views), ids)
    && forall v :: v in views ==> v.id in groups && ShowsGroup(v, groups[v.id])
  }

  function PolicyNames(b: Backend): set<string> {
    set p | p in b.policyNames
  }

  /** The described backends have distinct ports and show each port's policies; a port without policies may be left out. */
  predicate BackendList(backends: seq<Backend>, policies: map<int, set<string>>) {
    && (forall i, j :: 0 <= i < j < |backends| ==> backends[i].instancePort != backends[j].instancePort)
    && (forall b :: b in backends ==> PolicyNames(b) == PoliciesOf(policies, b.instancePort))
    && (forall p :: p in policies && policies[p] != {} ==> exists b :: b in backends && b.instancePort == p)
  }

  function PoliciesOf(policies: map<int, set<string>>, port: int): set<string> {
    if port in policies then policies[port] else {}
  }

  predicate ShowsLb(v: LbView, name: string, lb: LbState) {
    && v.name == name && v.securityGroups == lb.securityGroups
    && Describes(v.listeners, lb.listeners)
    && BackendList(v.backends, lb.policies)
    && Elems(v.instances) == lb.instances
  }

  // ---------- What the cloud stores ----------

  /** The cloud fills in the caller's account when a request names a group without one. */
  function Resolve(account: string, a: Atom): Atom {
    if a.source.Group? && a.source.member.accountId.None?
    then a.(source := Group(Member(a.source.member.groupId, Some(account)))) else a
  }

  predicate Resolved(a: Atom) {
    a.source.Group? ==> a.source.member.accountId.Some?
  }

  function Requested(account: string, rules: seq<Rule>): set<Atom> {
    set a | a in Meaning(Elems(rules)) :: Resolve(account, a)
  }

  predicate ResolvedRules(groups: Groups) {
    forall id, a :: id in groups && a in groups[id].rules ==> Resolved(a)
  }

  /** A report may put several kinds of source into one rule. */
  lemma MixedReportIsPossible(cidr: string, m: Member)
    ensures Regrouping([MixedRule(cidr, m)], {RangeAtom(cidr), Atom(Some("tcp"), Some(80), Some(80), Group(m))})
  {
    var mixed := MixedRule(cidr, m);
    assert Elems([mixed]) == {mixed};
    assert mixed.Ranges()[0] == cidr && mixed.Members()[0] == m;
    assert Sources(mixed) == {Range(cidr), Group(m)};
    assert Atoms(mixed) == {Allows(mixed, Range(cidr)), Allows(mixed, Group(m))};
    assert Meaning({mixed}) == Atoms(mixed);
  }

  lemma RegroupingExists(atoms: set<Atom>)
    ensures exists rules :: Regrouping(rules, atoms)
  {
    var rules := SetHasListing(Pieces(atoms));
    PiecesMeanTheirAtoms(atoms);
    assert Regrouping(rules, atoms);
  }

  lemma TagListExists(m: map<string, string>)
    ensures exists tags :: TagList(tags, m)
  {
    var tags := SetHasListing(set k | k in m :: Tag(k, m[k]));
    assert forall t :: t in tags <==> t in Elems(tags);
    assert TagList(tags, m);
  }

  lemma GroupViewExists(id: string, g: GroupState)
    ensures exists v: GroupView :: v.id == id && ShowsGroup(v, g)
  {
    RegroupingExists(g.rules);
    TagListExists(g.tags);
    var rules :| Regrouping(rules, g.rules);
    var tags :| TagList(tags, g.tags);
    var v := GroupView(id, g.name, tags, rules);
    assert v.id == id && ShowsGroup(v, g);
  }

  lemma BackendListExists(policies: map<int, set<string>>, ports: set<int>) returns (backends: seq<Backend>)
    requires ports <= policies.Keys
    ensures BackendList(backends, map p | p in ports :: policies[p])
    ensures forall b :: b in backends ==> b.instancePort in ports
    decreases ports
  {
    if p :| p in ports {
      var rest := BackendListExists(policies, ports - {p});
      var names := SetHasListing(policies[p]);
      var b := Backend(p, names);
      assert PolicyNames(b) == Elems(names);
      backends := rest + [b];
      assert b in backends;
      assert forall c :: c in rest ==> c in backends;
    } else {
      backends := [];
    }
  }

  lemma LbViewExists(name: string, lb: LbState)
    requires Keyed(lb.listeners)
    ensures exists v :: ShowsLb(v, name, lb)
  {
    var ls := SetHasListing(set p | p in lb.listeners :: Some(lb.listeners[p]));
    assert forall d :: d in ls <==> d in Elems(ls);
    var backends := BackendListExists(lb.policies, lb.policies.Keys);
    assert lb.policies == map p | p in lb.policies.Keys :: lb.policies[p];
    var instances := SetHasListing(lb.instances);
    assert ShowsLb(LbView(name, lb.securityGroups, ls, backends, instances), name, lb);
  }

  class Api {
    const account: string
    /** In a reliable cloud no call fails without a reason; otherwise any call may. */
    const reliable: bool
    var groups: Groups
    /** Every id the cloud ever gave to a group; ids are never given twice. */
    var issued: set<string>
    var lbs: map<string, LbState>
    /** The mutating calls made through this object, oldest first. */
    var log: seq<Event>

    ghost predicate Valid()
      reads this
    {
      && groups.Keys <= issued && "" !in issued
      && ResolvedRules(groups)
      && forall n :: n in lbs ==> Keyed(lbs[n].listeners)
    }

    // ---------- Security groups ----------

    method ReadSecurityGroups(f: Filter) returns (r: Result<seq<GroupView>>)
      requires Valid()
      ensures r.Ok? ==> ViewsOf(r.value, Selected(f, groups), groups)
      ensures reliable ==> r.Ok?
    {
      var ok: bool := *;
      if !ok && !reliable {
        return Err(Failed);
      }
      var views := ViewsFor(Selected(f, groups));
      return Ok(views);
    }

    method ViewsFor(ids: set<string>) returns (views: seq<GroupView>)
      requires ids <= groups.Keys
      ensures ViewsOf(views, ids, groups)
    {
      views := [];
      var todo := ids;
      while todo != {}
        invariant todo <= ids && ViewsOf(views, ids - todo, groups)
        decreases |todo|
      {
        var id :| id in todo;
        var v := ViewOf(id, groups[id]);
        ViewsGrow(views, ids - todo, v);
        views := views + [v];
        assert ids - (todo - {id}) == (ids - todo) + {id};
        todo := todo - {id};
      }
      assert ids - todo == ids;
    }

    method ViewOf(id: string, g: GroupState) returns (v: GroupView)
      ensures v.id == id && ShowsGroup(v, g)
    {
      GroupViewExists(id, g);
      v :| v.id == id && ShowsGroup(v, g);
    }

    lemma ViewsGrow(views: seq<GroupView>, ids: set<string>, v: GroupView)
      requires ViewsOf(views, ids, groups)
      requires v.id !in ids && v.id in groups && ShowsGroup(v, groups[v.id])
      ensures ViewsOf(views + [v], ids + {v.id}, groups)
    {
      assert Ids(views + [v]) == Ids(views) + [v.id];
      assert forall i :: 0 <= i < |Ids(views)| ==> Ids(views)[i] in Elems(Ids(views));
      ElemsOfConcat(Ids(views), [v.id]);
      assert Elems([v.id]) == {v.id};
    }

    /** The response may come without the id of the group it created. */
    method CreateSecurityGroup(name: string, net: string) returns (r: Result<string>)
      requires Valid()
      modifies this`groups, this`issued, this`log
      ensures Valid()
      ensures r.Ok? ==> exists id :: Created(old(groups), old(issued), groups, issued, id, name, net)
                                     && (r.value == id || r.value == "")
      ensures r.Err? ==> groups == old(groups) && issued == old(issued)
      ensures reliable ==> r.Ok? && r.value != ""
      ensures log == old(log) + [Event(CreateGroup(name), r.Ok?, groups)]
    {
      var ok: bool, conflict: bool, shown: bool := *, *, *;
      if ok || reliable {
        var id: string := FreshId();
        issued := issued + {id};
        groups := groups[id := GroupState(name, net, map[], {})];
        assert Created(old(groups), old(issued), groups, issued, id, name, net);
        r := Ok(if shown || reliable then id else "");
      } else {
        r := Err(if conflict then Conflict else Failed);
      }
      log := log + [Event(CreateGroup(name), r.Ok?, groups)];
    }

    method FreshId() returns (id: string)
      ensures id !in issued && id != ""
    {
      var used := issued;
      id := "s";
      ghost var seen := {};
      while id in issued
        invariant |id| >= 1
        invariant seen <= issued && forall s :: s in seen ==> |s| < |id|
        decreases |issued - seen|
      {
        assert id in issued - seen;
        seen := seen + {id};
        assert issued - seen < issued - (seen - {id});
        id := id + "s";
      }
    }

    method DeleteSecurityGroup(id: string) returns (r: Outcome)
      requires Valid()
      modifies this`groups, this`log
      ensures Valid()
      ensures r.Done? ==> id in old(groups) && groups == old(groups) - {id}
      ensures r.Failure? ==> groups == old(groups) && (r.error == Conflict || r.error == Failed)
      ensures log == old(log) + [Event(DeleteGroup(id), r.Done?, groups)]
    {
      var ok: bool, conflict: bool := *, *;
      if ok && id in groups {
        groups := groups - {id};
        r := Done;
      } else {
        r := Failure(if conflict then Conflict else Failed);
      }
      log := log + [Event(DeleteGroup(id), r.Done?, groups)];
    }

    /** A permission that is already there makes the whole request fail; other failures may leave a part applied. */
    method CreateSecurityGroupRule(id: string, rules: seq<Rule>) returns (r: Outcome)
      requires Valid()
      modifies this`groups, this`log
      ensures Valid()
      ensures OnlyRulesOf(id, old(groups), groups)
      ensures r.Done? ==> id in groups && old(groups)[id].rules !! Requested(account, rules)
      ensures r.Done? ==> groups[id].rules == old(groups)[id].rules + Requested(account, rules)
      ensures id in groups ==> old(groups)[id].rules <= groups[id].rules
      ensures id in groups ==> groups[id].rules <= old(groups)[id].rules + Requested(account, rules)
      ensures reliable && id in groups && old(groups)[id].rules !! Requested(account, rules) ==> r.Done?
      ensures log == old(log) + [Event(CreateRules(id, Requested(account, rules)), r.Done?, groups)]
    {
      var luck: bool := *;
      var ok := luck || reliable;
      var atoms := Requested(account, rules);
      if id !in groups {
        r := Failure(Failed);
      } else {
        var was := groups[id].rules;
        var now: set<Atom> :| was <= now <= was + atoms && (ok && was !! atoms ==> now == was + atoms);
        groups := groups[id := groups[id].(rules := now)];
        r := if ok && was !! atoms then Done else Failure(Conflict);
      }
      log := log + [Event(CreateRules(id, atoms), r.Done?, groups)];
    }

    method DeleteSecurityGroupRule(id: string, rules: seq<Rule>) returns (r: Outcome)
      requires Valid()
      modifies this`groups, this`log
      ensures Valid()
      ensures OnlyRulesOf(id, old(groups), groups)
      ensures r.Done? ==> id in groups
      ensures r.Done? ==> groups[id].rules == old(groups)[id].rules - Requested(account, rules)
      ensures id in groups ==> old(groups)[id].rules - Requested(account, rules) <= groups[id].rules
      ensures id in groups ==> groups[id].rules <= old(groups)[id].rules
      ensures reliable && id in groups ==> r.Done?
      ensures log == old(log) + [Event(DeleteRules(id, Requested(account, rules)), r.Done?, groups)]
    {
      var luck: bool := *;
      var ok := luck || reliable;
      var atoms := Requested(account, rules);
      if id !in groups {
        r := Failure(Failed);
      } else {
        var was := groups[id].rules;
        var now: set<Atom> :| was - atoms <= now <= was && (ok ==> now == was - atoms);
        groups := groups[id := groups[id].(rules := now)];
        r := if ok then Done else Failure(Failed);
      }
      log := log + [Event(DeleteRules(id, atoms), r.Done?, groups)];
    }

    method CreateTagsOn(id: string, tags: map<string, string>) returns (r: Outcome)
      requires Valid()
      modifies this`groups, this`log
      ensures Valid()
      ensures r.Done? ==> id in old(groups)
      ensures r.Done? ==> groups == old(groups)[id := old(groups)[id].(tags := old(groups)[id].tags + tags)]
      ensures r.Failure? ==> groups == old(groups)
      ensures reliable && id in groups ==> r.Done?
      ensures log == old(log) + [Event(CreateTags(id, tags), r.Done?, groups)]
    {
      var ok: bool := *;
      if (ok || reliable) && id in groups {
        groups := groups[id := groups[id].(tags := groups[id].tags + tags)];
        r := Done;
      } else {
        r := Failure(Failed);
      }
      log := log + [Event(CreateTags(id, tags), r.Done?, groups)];
    }

    /** Others create groups under fresh ids and delete groups, any number of them. */
    method OthersAct()
      requires Valid()
      modifies this`groups, this`issued
      ensures Valid()
      ensures OnlyOthersActed(old(groups), old(issued), groups, issued)
    {
      var gone: set<string> := *;
      assert OthersCreate(map[], {}, issued);
      var others: Groups, more: set<string> :| OthersCreate(others, more, issued);
      var left := groups - gone;
      OthersKeepOrder(groups, gone, others, more, issued);
      groups, issued := left + others, issued + more;
    }

    // ---------- Load balancers ----------

    /** The load balancer of that name, or nothing when the cloud does not know it. */
    method DescribeLoadBalancer(name: string) returns (r: Result<Option<LbView>>)
      requires Valid()
      ensures r.Ok? ==> (r.value.Some? <==> name in lbs)
      ensures r.Ok? && r.value.Some? ==> ShowsLb(r.value.value, name, lbs[name])
      ensures reliable ==> r.Ok?
    {
      var ok: bool := *;
      if !ok && !reliable {
        r := Err(Failed);
      } else if name !in lbs {
        r := Ok(None);
      } else {
        LbViewExists(name, lbs[name]);
        var v :| ShowsLb(v, name, lbs[name]);
        r := Ok(Some(v));
      }
    }

    method CreateLoadBalancer(name: string, listeners: seq<Listener>, securityGroups: seq<string>) returns (r: Outcome)
      requires Valid()
      modifies this`lbs, this`log
      ensures Valid()
      ensures r.Done? ==> name !in old(lbs) && DistinctPorts(listeners)
      ensures r.Done? ==> lbs == old(lbs)[name := LbState(securityGroups, ByPort(listeners), {}, map[], {})]
      ensures r.Failure? ==> lbs == old(lbs)
      ensures reliable && name !in old(lbs) && DistinctPorts(listeners) ==> r.Done?
      ensures log == old(log) + [Event(CreateLb(name), r.Done?, groups)]
    {
      var luck: bool := *;
      var ok := luck || reliable;
      r := Failure(Failed);
      if ok && name !in lbs {
        if DistinctPorts(listeners) {
          lbs := lbs[name := LbState(securityGroups, ByPort(listeners), {}, map[], {})];
          r := Done;
        }
      }
      log := log + [Event(CreateLb(name), r.Done?, groups)];
    }

    method DeleteLoadBalancer(name: string) returns (r: Outcome)
      requires Valid()
      modifies this`lbs, this`log
      ensures Valid()
      ensures r.Done? ==> lbs == old(lbs) - {name}
      ensures r.Failure? ==> lbs == old(lbs)
      ensures reliable ==> r.Done?
      ensures log == old(log) + [Event(DeleteLb(name), r.Done?, groups)]
    {
      var luck: bool := *;
      var ok := luck || reliable;
      if ok {
        lbs := lbs - {name};
        r := Done;
      } else {
        r := Failure(Failed);
      }
      log := log + [Event(DeleteLb(name), r.Done?, groups)];
    }

    /** Deletes by port; a failure may leave any of the ports deleted. */
    method DeleteLoadBalancerListeners(name: string, ports: seq<Option<int>>) returns (r: Outcome)
      requires Valid()
      modifies this`lbs, this`log
      ensures Valid() && OnlyLb(name, old(lbs), lbs)
      ensures name in lbs ==> lbs[name] == old(lbs)[name].(listeners := lbs[name].listeners)
      ensures r.Done? ==> name in lbs && lbs[name].listeners == old(lbs)[name].listeners - PortSet(ports)
      ensures reliable && name in lbs ==> r.Done?
      ensures log == old(log) + [Event(DeleteListeners(name, PortSet(ports)), r.Done?, groups)]
    {
      var luck: bool, part: set<int> := *, *;
      var ok := luck || reliable;
      r := if ok && name in lbs then Done else Failure(Failed);
      if name in lbs {
        var gone := if ok then PortSet(ports) else PortSet(ports) * part;
        lbs := lbs[name := lbs[name].(listeners := lbs[name].listeners - gone)];
      }
      log := log + [Event(DeleteListeners(name, PortSet(ports)), r.Done?, groups)];
    }

    /** Refused as a whole when one of the ports is occupied. */
    method CreateLoadBalancerListeners(name: string, ls: seq<Listener>) returns (r: Outcome)
      requires Valid()
      modifies this`lbs, this`log
      ensures Valid() && OnlyLb(name, old(lbs), lbs)
      ensures name in lbs ==> lbs[name] == old(lbs)[name].(listeners := lbs[name].listeners)
      ensures r.Done? ==> name in lbs && !Collides(old(lbs)[name].listeners, ls)
      ensures r.Done? ==> lbs[name].listeners == old(lbs)[name].listeners + ByPort(ls)
      ensures r == Failure(Conflict) ==> name in lbs && Collides(old(lbs)[name].listeners, ls)
      ensures reliable && name in lbs && !Collides(old(lbs)[name].listeners, ls) ==> r.Done?
      ensures log == old(log) + [Event(CreateListeners(name, ls), r.Done?, groups)]
    {
      var luck: bool := *;
      var ok := luck || reliable;
      r := Failure(Failed);
      if name in lbs {
        if Collides(lbs[name].listeners, ls) {
          r := Failure(Conflict);
        } else if ok {
          lbs := lbs[name := lbs[name].(listeners := lbs[name].listeners + ByPort(ls))];
          r := Done;
        }
      }
      log := log + [Event(CreateListeners(name, ls), r.Done?, groups)];
    }

    method CreateLoadBalancerPolicy(name: string, policy: string) returns (r: Outcome)
      requires Valid()
      modifies this`lbs, this`log
      ensures Valid() && OnlyLb(name, old(lbs), lbs)
      ensures name in lbs ==> lbs[name] == old(lbs)[name].(definedPolicies := lbs[name].definedPolicies)
      ensures r.Done? ==> name in lbs && lbs[name].definedPolicies == old(lbs)[name].definedPolicies + {policy}
      ensures r == Failure(DuplicatePolicy) ==> name in lbs && policy in old(lbs)[name].definedPolicies
      ensures r.Failure? ==> lbs == old(lbs)
      ensures reliable && name in lbs ==> r.Done? || r == Failure(DuplicatePolicy)
      ensures log == old(log) + [Event(CreatePolicy(name, policy), r.Done?, groups)]
    {
      var luck: bool := *;
      var ok := luck || reliable;
      r := Failure(Failed);
      if name in lbs && policy in lbs[name].definedPolicies {
        r := Failure(DuplicatePolicy);
      } else if name in lbs && ok {
        lbs := lbs[name := lbs[name].(definedPolicies := lbs[name].definedPolicies + {policy})];
        r := Done;
      }
      log := log + [Event(CreatePolicy(name, policy), r.Done?, groups)];
    }

    /** Replaces all policies of one instance port. */
    method SetLoadBalancerPoliciesForBackendServer(name: string, port: int, policies: set<string>) returns (r: Outcome)
      requires Valid()
      modifies this`lbs, this`log
      ensures Valid() && OnlyLb(name, old(lbs), lbs)
      ensures r.Done? ==> name in lbs && lbs[name] == old(lbs)[name].(policies := old(lbs)[name].policies[port := policies])
      ensures r.Failure? ==> lbs == old(lbs)
      ensures reliable && name in lbs && policies <= old(lbs)[name].definedPolicies ==> r.Done?
      ensures log == old(log) + [Event(SetPolicies(name, port, policies), r.Done?, groups)]
    {
      var luck: bool := *;
      var ok := luck || reliable;
      r := Failure(Failed);
      if ok && name in lbs && policies <= lbs[name].definedPolicies {
        lbs := lbs[name := lbs[name].(policies := lbs[name].policies[port := policies])];
        r := Done;
      }
      log := log + [Event(SetPolicies(name, port, policies), r.Done?, groups)];
    }

    method RegisterInstancesWithLoadBalancer(name: string, ids: seq<string>) returns (r: Outcome)
      requires Valid()
      modifies this`lbs, this`log
      ensures Valid() && OnlyLb(name, old(lbs), lbs)
      ensures name in lbs ==> lbs[name] == old(lbs)[name].(instances := lbs[name].instances)
      ensures name in lbs ==> old(lbs)[name].instances <= lbs[name].instances
      ensures name in lbs ==> lbs[name].instances <= old(lbs)[name].instances + Elems(ids)
      ensures r.Done? ==> name in lbs && lbs[name].instances == old(lbs)[name].instances + Elems(ids)
      ensures reliable && name in lbs ==> r.Done?
      ensures log == old(log) + [Event(Register(name, Elems(ids)), r.Done?, groups)]
    {
      var luck: bool, part: set<string> := *, *;
      var ok := luck || reliable;
      r := if ok && name in lbs then Done else Failure(Failed);
      if name in lbs {
        var came := if ok then Elems(ids) else Elems(ids) * part;
        lbs := lbs[name := lbs[name].(instances := lbs[name].instances + came)];
      }
      log := log + [Event(Register(name, Elems(ids)), r.Done?, groups)];
    }

    method DeregisterInstancesFromLoadBalancer(name: string, ids: seq<string>) returns (r: Outcome)
      requires Valid()
      modifies this`lbs, this`log
      ensures Valid() && OnlyLb(name, old(lbs), lbs)
      ensures name in lbs ==> lbs[name] == old(lbs)[name].(instances := lbs[name].instances)
      ensures name in lbs ==> old(lbs)[name].instances - Elems(ids) <= lbs[name].instances
      ensures name in lbs ==> lbs[name].instances <= old(lbs)[name].instances
      ensures r.Done? ==> name in lbs && lbs[name].instances == old(lbs)[name].instances - Elems(ids)
      ensures reliable && name in lbs ==> r.Done?
      ensures log == old(log) + [Event(Deregister(name, Elems(ids)), r.Done?, groups)]
    {
      var luck: bool, part: set<string> := *, *;
      var ok := luck || reliable;
      r := if ok && name in lbs then Done else Failure(Failed);
      if name in lbs {
        var left := if ok then Elems(ids) else Elems(ids) * part;
        lbs := lbs[name := lbs[name].(instances := lbs[name].instances - left)];
      }
      log := log + [Event(Deregister(name, Elems(ids)), r.Done?, groups)];
    }
  }

  /** Some listener of the request wants a port that is taken, or two want the same one. */
  predicate Collides(m: PortMap, ls: seq<Listener>) {
    !DistinctPorts(ls) || exists l :: l in ls && LbPort(l) in m
  }

  /** Only one load balancer may differ. */
  predicate OnlyLb(name: string, before: map<string, LbState>, after: map<string, LbState>) {
    before.Keys == after.Keys && forall n :: n in before && n != name ==> after[n] == before[n]
  }

  /** Only the rules of one group may differ. */
  predicate OnlyRulesOf(id: string, before: Groups, after: Groups) {
    && before.Keys == after.Keys
    && (forall g :: g in before && g != id ==> after[g] == before[g])
    && (id in before ==> after[id] == before[id].(rules := after[id].rules))
  }

  /** One new, untagged and empty group under a fresh id. */
  predicate Created(before: Groups, issuedBefore: set<string>, after: Groups, issued: set<string>,
                    id: string, name: string, net: string)
  {
    && id !in issuedBefore && id != ""
    && issued == issuedBefore + {id}
    && after == before[id := GroupState(name, net, map[], {})]
  }

  predicate OthersCreate(others: Groups, more: set<string>, issued: set<string>) {
    others.Keys <= more && more !! issued && "" !in more && ResolvedRules(others)
  }

  lemma OthersKeepOrder(groups: Groups, gone: set<string>, others: Groups, more: set<string>, issued: set<string>)
    requires OthersCreate(others, more, issued) && groups.Keys <= issued && "" !in issued && ResolvedRules(groups)
    ensures ((groups - gone) + others).Keys <= issued + more && "" !in issued + more
    ensures ResolvedRules((groups - gone) + others)
    ensures OnlyOthersActed(groups, issued, (groups - gone) + others, issued + more)
  {
    assert forall id :: id in others ==> id !in issued;
  }

  /** What others did: groups that were there are unchanged or gone, new ones have fresh ids. */
  predicate OnlyOthersActed(before: Groups, issuedBefore: set<string>, after: Groups, issued: set<string>) {
    && issuedBefore <= issued
    && forall id :: id in after ==> (if id in issuedBefore then id in before && after[id] == before[id] else id in issued)
  }
}
