/** The whole reconcile sequence of one service, in a private net (ccm_cloud.go). */
module Reconcile {
  import opened Wrappers
  import opened Collections
  import opened IpRules
  import L = Listeners
  import opened CloudApi
  import opened Config
  import opened Tagging
  import opened Ingress
  import opened LoadBalancers
  import opened NodeGroups
  import U = NodeGroupUpdate
  import opened Services

  /**
   A service with its load balancer's name, subnets and security groups already chosen. The first security group is the
   load balancer's own one, whose ingress rules the controller manages.
   */
  datatype Service = Service(
    name: string, ports: seq<ServicePort>, tls: TlsSettings, ranges: seq<string>, proxyProtocol: bool,
    subnets: seq<string>, securityGroups: seq<string>)
  {
    ghost function Desired(): set<Atom> {
      DesiredAtoms(ports, ranges)
    }
  }

  /** The group the instances must let in: one the load balancer has, or will be created with. */
  ghost function SourceGroup(lbs: map<string, LbState>, s: Service): string {
    U.LbGroup(if s.name in lbs then lbs[s.name].securityGroups else s.securityGroups, s.securityGroups)
  }

  /** The last non-empty group the load balancer has, or of those it is to be created with when it has none. */
  lemma SourceGroupIs(lbs: map<string, LbState>, s: Service)
    ensures var groups := if s.name in lbs && lbs[s.name].securityGroups != [] then lbs[s.name].securityGroups else s.securityGroups;
            if forall k :: 0 <= k < |groups| ==> groups[k] == "" then SourceGroup(lbs, s) == ""
            else exists i :: 0 <= i < |groups| && SourceGroup(lbs, s) == groups[i] != ""
                             && forall k :: i < k < |groups| ==> groups[k] == ""
  {
    var groups := if s.name in lbs && lbs[s.name].securityGroups != [] then lbs[s.name].securityGroups else s.securityGroups;
    U.LastNonEmptyPicks(groups);
    assert SourceGroup(lbs, s) == U.LastNonEmpty(groups);
  }

  // ---------- The load balancer's own group ----------

  /** The groups once the load balancer's own group permits exactly what is desired. */
  ghost function Opened(cfg: Config, groups: Groups, own: string, desired: set<Atom>): Groups {
    if own == cfg.elbSecurityGroup || own !in groups then groups else groups[own := groups[own].(rules := desired)]
  }

  /** What the cloud reported of the own group, and what the group permits once the first step succeeded. */
  datatype OwnReport = OwnReport(reported: set<Rule>, permitted: set<Atom>)

  /** The report means what the group had; nothing is read of the configured group. */
  ghost predicate ReportsOwn(cfg: Config, groups: Groups, s: Service, w: OwnReport)
    requires s.securityGroups != []
  {
    if s.securityGroups[0] == cfg.elbSecurityGroup then w.reported == {}
    else s.securityGroups[0] in groups ==> Meaning(w.reported) == groups[s.securityGroups[0]].rules
  }

  /** The first step succeeds; the group then permits exactly what is desired if and only if the report fits. */
  method OpenOwnGroup(api: Api, cfg: Config, s: Service) returns (r: Outcome, ghost w: OwnReport)
    requires api.Valid() && s.ranges != [] && s.securityGroups != []
    modifies api`groups, api`log
    ensures api.Valid() && old(api.log) <= api.log
    ensures ReportsOwn(cfg, old(api.groups), s, w)
    ensures OnlyRulesOf(s.securityGroups[0], old(api.groups), api.groups)
    ensures forall g :: g in old(api.groups) && g != s.securityGroups[0] ==> g in api.groups && api.groups[g] == old(api.groups)[g]
    ensures r.Done? && Fits(w.reported, s.Desired()) && s.securityGroups[0] != cfg.elbSecurityGroup ==>
              s.securityGroups[0] in api.groups && api.groups[s.securityGroups[0]].rules == DesiredAtoms(s.ports, s.ranges)
    ensures s.securityGroups[0] == cfg.elbSecurityGroup ==> r.Done? && api.groups == old(api.groups) && api.log == old(api.log)
    ensures r.Done? ==> s.securityGroups[0] in old(api.groups) || s.securityGroups[0] == cfg.elbSecurityGroup
    ensures r.Done? ==> api.groups == Opened(cfg, old(api.groups), s.securityGroups[0], w.permitted)
    ensures r.Done? ==> (w.permitted == s.Desired() <==> Fits(w.reported, s.Desired()))
    ensures s.securityGroups[0] in old(api.groups) && old(api.groups)[s.securityGroups[0]].rules == s.Desired()
            && Fits(w.reported, s.Desired()) && Sourced(w.reported) ==>
              api.log == old(api.log) && api.groups == old(api.groups)
    ensures api.reliable && s.securityGroups[0] in old(api.groups) && Fits(w.reported, s.Desired()) ==> r.Done?
  {
    var permissions := BuildPermissions(s.ports, s.ranges);
    PermissionsMeanDesired(s.ports, s.ranges);
    ghost var log, before := api.log, api.groups;
    var done, reported := SetSecurityGroupIngress(api, cfg, s.securityGroups[0], permissions);
    r := if done.Ok? then Done else Failure(done.error);
    if s.securityGroups[0] == cfg.elbSecurityGroup {
      w := OwnReport({}, s.Desired());
      return;
    }
    assert api.log == log + api.log[|log|..];
    w := OwnReport(Elems(reported), if s.securityGroups[0] in api.groups then api.groups[s.securityGroups[0]].rules else {});
    if s.securityGroups[0] in before {
      OpenedToItsRules(cfg, before, api.groups, s.securityGroups[0]);
    }
    if s.securityGroups[0] in before && before[s.securityGroups[0]].rules == s.Desired() && Fits(w.reported, s.Desired()) {
      SameWhenDesired(s.securityGroups[0], before, api.groups, s.Desired());
    }
  }

  lemma OpenedToItsRules(cfg: Config, before: Groups, after: Groups, own: string)
    requires own in before && own != cfg.elbSecurityGroup && OnlyRulesOf(own, before, after)
    ensures after == Opened(cfg, before, own, after[own].rules)
  {
  }

  /** A run between equal rules changes nothing. */
  lemma SameWhenDesired(own: string, before: Groups, after: Groups, desired: set<Atom>)
    requires own in before && before[own].rules == desired && OnTheWay(own, before, after, desired)
    ensures after == before
  {
    assert desired * desired == desired && desired + desired == desired;
    assert after[own].rules == desired;
  }

  // ---------- Instances ----------

  ghost predicate LinkCall(e: Event, cfg: Config, t: Identity, account: string, lbGroup: string, groups: Groups, name: string,
                           instances: map<string, U.Vm>, registered: set<string>)
  {
    || U.NeededCall(e.call, cfg, account, lbGroup, groups, U.PassChanges(t, lbGroup, groups, instances))
    || (e.call == Register(name, instances.Keys - registered) && instances.Keys - registered != {})
    || (e.call == Deregister(name, registered - instances.Keys) && registered - instances.Keys != {})
  }

  ghost predicate LinkCalls(log: seq<Event>, from: nat, cfg: Config, t: Identity, account: string, lbGroup: string, groups: Groups,
                            name: string, instances: map<string, U.Vm>, registered: set<string>)
  {
    OnlyCalls(log, from, (e: Event) => LinkCall(e, cfg, t, account, lbGroup, groups, name, instances, registered))
  }

  lemma CallsAreLinkCalls(log: seq<Event>, from: nat, longer: seq<Event>, cfg: Config, t: Identity, account: string, lbGroup: string,
                          groups: Groups, name: string, instances: map<string, U.Vm>, registered: set<string>, now: Groups)
    requires from <= |log| && log <= longer
    requires U.NeededCalls(log, from, cfg, account, lbGroup, groups, U.PassChanges(t, lbGroup, groups, instances))
    requires InstanceCalls(longer, |log|, name, instances.Keys, registered, now)
    ensures LinkCalls(longer, from, cfg, t, account, lbGroup, groups, name, instances, registered)
  {
    forall i | from <= i < |longer| ensures LinkCall(longer[i], cfg, t, account, lbGroup, groups, name, instances, registered) {
      if i < |log| {
        assert longer[i] == log[i];
      } else {
        assert InstanceCall(longer[i], name, instances.Keys, registered, now);
      }
    }
  }

  /** The groups once the instances' groups are as chosen, unless the controller is told to leave them. */
  ghost function Linked(cfg: Config, t: Identity, account: string, lbGroup: string, groups: Groups, instances: map<string, U.Vm>): Groups {
    if cfg.disableSecurityGroupIngress then groups
    else U.Applied(cfg, account, lbGroup, groups, U.PassChanges(t, lbGroup, groups, instances))
  }

  /** Lets the load balancer in at the instances' groups, then registers the instances. */
  method LinkInstances(api: Api, cfg: Config, t: Identity, lb: LbView, s: Service, instances: map<string, U.Vm>) returns (r: Outcome)
    requires api.Valid() && s.name in api.lbs && ShowsLb(lb, s.name, api.lbs[s.name])
    requires SourceGroup(api.lbs, s) != DEFAULT_SRC_SG_NAME
    modifies api`groups, api`lbs, api`log
    ensures api.Valid() && old(api.log) <= api.log && OnlyLb(s.name, old(api.lbs), api.lbs)
    ensures api.lbs[s.name] == old(api.lbs)[s.name].(instances := api.lbs[s.name].instances)
    ensures U.OnlyLbRuleOf(cfg, api.account, SourceGroup(old(api.lbs), s), old(api.groups), api.groups,
                           U.PassChanges(t, SourceGroup(old(api.lbs), s), old(api.groups), instances).Keys)
    ensures LinkCalls(api.log, |old(api.log)|, cfg, t, api.account, SourceGroup(old(api.lbs), s), old(api.groups), s.name, instances,
                      old(api.lbs)[s.name].instances)
    ensures r.Done? ==> cfg.disableSecurityGroupIngress || U.Feasible(cfg, t, old(api.groups), instances)
    ensures r.Done? ==> api.groups == Linked(cfg, t, api.account, SourceGroup(old(api.lbs), s), old(api.groups), instances)
    ensures api.reliable && SourceGroup(old(api.lbs), s) != "" && U.Feasible(cfg, t, old(api.groups), instances) ==> r.Done?
    ensures r.Done? ==> api.lbs[s.name].instances == instances.Keys
  {
    ghost var lbGroup, groups := SourceGroup(api.lbs, s), api.groups;
    ghost var had := api.lbs[s.name].instances;
    r := U.UpdateInstanceSecurityGroupsForLoadBalancer(api, cfg, t, lb.securityGroups, instances, s.securityGroups);
    ghost var log := api.log;
    CallsAreLinkCalls(log, |old(api.log)|, log, cfg, t, api.account, lbGroup, groups, s.name, instances, had, groups);
    if r.Failure? {
      return;
    }
    r := EnsureLoadBalancerInstances(api, lb.name, lb.instances, instances.Keys);
    CallsAreLinkCalls(log, |old(api.log)|, api.log, cfg, t, api.account, lbGroup, groups, s.name, instances, had, api.groups);
  }

  // ---------- The sequence ----------

  /** What the reconcile sequence is after: own group, listeners, registered instances, and instances' groups as desired. */
  ghost predicate Settled(cfg: Config, t: Identity, account: string, groups: Groups, lbs: map<string, LbState>, s: Service,
                          ls: seq<L.Listener>, instances: map<string, U.Vm>)
    requires s.securityGroups != []
  {
    && (s.securityGroups[0] != cfg.elbSecurityGroup ==> s.securityGroups[0] in groups && groups[s.securityGroups[0]].rules == s.Desired())
    && s.name in lbs && L.Converged(lbs[s.name].listeners, ls) && lbs[s.name].instances == instances.Keys
    && U.ExactlyOpen(cfg, t, account, SourceGroup(lbs, s), groups, instances)
    && U.AllProtocolShape(account, SourceGroup(lbs, s), groups)
  }

  /** Apart from the own group, no group gained or lost more than the rule that lets this load balancer in. */
  ghost predicate Isolated(account: string, lbGroup: string, own: set<string>, before: Groups, after: Groups) {
    forall g :: g in before && g in after && g !in own ==>
      before[g].rules - {LbAtom(account, lbGroup)} <= after[g].rules <= before[g].rules + {LbAtom(account, lbGroup)}
  }

  /** Only policy calls: the definition if proxy protocol is requested, and writes if some policy is not right yet. */
  ghost predicate PolicyCallsOnly(log: seq<Event>, from: nat, proxyProtocol: bool, right: bool) {
    OnlyCalls(log, from, (e: Event) => PolicyCall(e, proxyProtocol, right))
  }

  lemma PolicyCallsMean(log: seq<Event>, from: nat, proxyProtocol: bool, right: bool)
    requires PolicyCallsOnly(log, from, proxyProtocol, right)
    ensures forall i :: from <= i < |log| ==>
              || (log[i].call.CreatePolicy? && proxyProtocol)
              || (log[i].call.SetPolicies? && !right)
    ensures !proxyProtocol && right ==> |log| <= from
  {
    forall i | from <= i < |log| ensures PolicyCall(log[i], proxyProtocol, right) {
    }
    assert |log| > from ==> PolicyCall(log[from], proxyProtocol, right);
  }

  /** The sequence's last two steps call nothing on what is settled. */
  lemma SettledNeedsNoLink(log: seq<Event>, from: nat, cfg: Config, t: Identity, account: string, groups: Groups,
                           lbs: map<string, LbState>, s: Service, ls: seq<L.Listener>, instances: map<string, U.Vm>)
    requires s.securityGroups != [] && Settled(cfg, t, account, groups, lbs, s, ls, instances)
    requires LinkCalls(log, from, cfg, t, account, SourceGroup(lbs, s), groups, s.name, instances, lbs[s.name].instances)
    ensures |log| <= from
  {
    if |log| > from {
      assert LinkCall(log[from], cfg, t, account, SourceGroup(lbs, s), groups, s.name, instances, instances.Keys);
      var prefix := log[..from + 1];
      assert U.NeededCalls(prefix, from, cfg, account, SourceGroup(lbs, s), groups,
                           U.PassChanges(t, SourceGroup(lbs, s), groups, instances));
      U.NothingToCall(cfg, t, account, SourceGroup(lbs, s), groups, instances, prefix, from);
    }
  }

  /** Opening the own group and then the instances' groups settles the groups. */
  lemma GroupsSettle(cfg: Config, t: Identity, account: string, lbGroup: string, before: Groups, after: Groups, s: Service,
                     instances: map<string, U.Vm>)
    requires s.securityGroups != [] && U.AllProtocolShape(account, lbGroup, before)
    requires s.securityGroups[0] !in U.Needed(instances, U.TaggedGroups(t, before))
    requires s.securityGroups[0] in before || s.securityGroups[0] == cfg.elbSecurityGroup
    requires var mid := Opened(cfg, before, s.securityGroups[0], s.Desired());
             after == U.Applied(cfg, account, lbGroup, mid, U.PassChanges(t, lbGroup, mid, instances))
    ensures U.ExactlyOpen(cfg, t, account, lbGroup, after, instances) && U.AllProtocolShape(account, lbGroup, after)
    ensures s.securityGroups[0] != cfg.elbSecurityGroup ==> s.securityGroups[0] in after && after[s.securityGroups[0]].rules == s.Desired()
  {
    var own := s.securityGroups[0];
    var mid := Opened(cfg, before, own, s.Desired());
    assert forall a :: a in s.Desired() ==> !Names(a, lbGroup);
    assert U.AllProtocolShape(account, lbGroup, mid);
    assert U.TaggedGroups(t, mid) == U.TaggedGroups(t, before);
    U.PassIsExact(cfg, t, account, lbGroup, mid, after, instances);
    if own != cfg.elbSecurityGroup {
      U.ActualIffNames(t, mid, lbGroup, own);
      assert own !in U.PassChanges(t, lbGroup, mid, instances);
    }
  }

  /** The private cloud's mode, with a subnet, a source range and a security group at hand. */
  ghost predicate InPrivateNet(cfg: Config, lbs: map<string, LbState>, s: Service) {
    && cfg.vpcId != "" && s.subnets != [] && s.securityGroups != [] && s.ranges != []
    && SourceGroup(lbs, s) != DEFAULT_SRC_SG_NAME
  }

  /** Nothing about the service or the groups stands in the way of success. */
  ghost predicate CanSettle(cfg: Config, t: Identity, groups: Groups, lbs: map<string, LbState>, s: Service, instances: map<string, U.Vm>)
    requires s.securityGroups != []
  {
    && Acceptable(s.ports, s.tls) && DistinctServicePorts(s.ports)
    && (s.securityGroups[0] in groups || s.securityGroups[0] == cfg.elbSecurityGroup)
    && SourceGroup(lbs, s) != "" && U.Feasible(cfg, t, groups, instances)
  }

  /** The groups when the whole sequence succeeded and the own group permits the given permissions. */
  ghost function Reconciled(cfg: Config, t: Identity, account: string, lbGroup: string, groups: Groups, s: Service, permitted: set<Atom>,
                            instances: map<string, U.Vm>): Groups
    requires s.securityGroups != []
  {
    Linked(cfg, t, account, lbGroup, Opened(cfg, groups, s.securityGroups[0], permitted), instances)
  }

  /** The backend policies are as requested, exactly when no port of a load balancer that was there clashes. */
  ghost predicate PoliciesRight(lbsBefore: map<string, LbState>, lbs: map<string, LbState>, s: Service, ls: seq<L.Listener>)
    requires s.name in lbs
  {
    PoliciesAsRequested(lbs[s.name].policies, ls, s.proxyProtocol)
    <==> (s.name in lbsBefore ==> !PolicyClash(lbsBefore[s.name], ls, s.proxyProtocol))
  }

  /** Opens the own group and brings the load balancer to the desired listeners and policies. */
  method PrepareLoadBalancer(api: Api, cfg: Config, s: Service, ls: seq<L.Listener>)
    returns (r: Result<LbView>, ghost w: OwnReport)
    requires api.Valid() && InPrivateNet(cfg, api.lbs, s)
    requires forall l :: l in ls ==> l.instancePort.Some?
    modifies api`groups, api`lbs, api`log
    ensures api.Valid() && old(api.log) <= api.log
    ensures ReportsOwn(cfg, old(api.groups), s, w)
    ensures OnlyRulesOf(s.securityGroups[0], old(api.groups), api.groups)
    ensures api.lbs - {s.name} == old(api.lbs) - {s.name}
    ensures r.Ok? ==> s.securityGroups[0] in old(api.groups) || s.securityGroups[0] == cfg.elbSecurityGroup
    ensures r.Ok? ==> api.groups == Opened(cfg, old(api.groups), s.securityGroups[0], w.permitted)
    ensures r.Ok? ==> (w.permitted == s.Desired() <==> Fits(w.reported, s.Desired()))
    ensures r.Ok? ==> s.name in api.lbs && ShowsLb(r.value, s.name, api.lbs[s.name])
    ensures r.Ok? && L.DistinctPorts(ls) ==> L.Converged(api.lbs[s.name].listeners, ls)
    ensures r.Ok? ==> PoliciesRight(old(api.lbs), api.lbs, s, ls)
    ensures r.Ok? ==> SourceGroup(api.lbs, s) == SourceGroup(old(api.lbs), s)
    ensures r.Ok? && s.name in old(api.lbs) ==> SameRest(old(api.lbs)[s.name], api.lbs[s.name])
    ensures Fits(w.reported, s.Desired()) && Sourced(w.reported)
            && s.name in old(api.lbs) && L.DistinctPorts(ls) && L.Converged(old(api.lbs)[s.name].listeners, ls)
            && (s.securityGroups[0] != cfg.elbSecurityGroup ==>
                  s.securityGroups[0] in old(api.groups) && old(api.groups)[s.securityGroups[0]].rules == s.Desired()) ==>
              PolicyCallsOnly(api.log, |old(api.log)|, s.proxyProtocol,
                              PoliciesAsRequested(old(api.lbs)[s.name].policies, ls, s.proxyProtocol))
    ensures api.reliable && L.DistinctPorts(ls) && Fits(w.reported, s.Desired())
            && (s.securityGroups[0] in old(api.groups) || s.securityGroups[0] == cfg.elbSecurityGroup) ==>
              r.Ok?
  {
    var done;
    done, w := OpenOwnGroup(api, cfg, s);
    if done.Failure? {
      return Err(done.error), w;
    }
    ghost var log := api.log;
    var ensured := EnsureLoadBalancer(api, s.name, ls, Some(s.subnets), s.securityGroups, s.proxyProtocol);
    if s.name in old(api.lbs) && L.DistinctPorts(ls) && L.Converged(old(api.lbs)[s.name].listeners, ls) {
      ConvergedMakesNoListenerCall(api.log, |log|, s.name, old(api.lbs)[s.name], ls, s.proxyProtocol, api.groups);
    }
    if ensured.Err? {
      return Err(ensured.error), w;
    }
    return Ok(ensured.value.value), w;
  }

  lemma SameFeasible(cfg: Config, t: Identity, groups: Groups, own: string, desired: set<Atom>, instances: map<string, U.Vm>)
    ensures U.TaggedGroups(t, Opened(cfg, groups, own, desired)) == U.TaggedGroups(t, groups)
    ensures U.Feasible(cfg, t, Opened(cfg, groups, own, desired), instances) <==> U.Feasible(cfg, t, groups, instances)
  {
    assert Opened(cfg, groups, own, desired).Keys == groups.Keys;
  }

  /** What success leaves, the own group permitting the given permissions. */
  ghost predicate Succeeded(cfg: Config, t: Identity, account: string, before: Groups, lbsBefore: map<string, LbState>,
                            after: Groups, lbs: map<string, LbState>, s: Service, permitted: set<Atom>, instances: map<string, U.Vm>)
    requires s.securityGroups != []
  {
    && Acceptable(s.ports, s.tls)
    && (s.securityGroups[0] in before || s.securityGroups[0] == cfg.elbSecurityGroup)
    && after == Reconciled(cfg, t, account, SourceGroup(lbsBefore, s), before, s, permitted, instances)
    && s.name in lbs && lbs[s.name].instances == instances.Keys
    && SourceGroup(lbs, s) == SourceGroup(lbsBefore, s)
    && (DistinctServicePorts(s.ports) ==> L.Converged(lbs[s.name].listeners, ListenersOf(s.ports, s.tls)))
    && PoliciesRight(lbsBefore, lbs, s, ListenersOf(s.ports, s.tls))
  }

  /** What the first two steps leave when they succeed. */
  ghost predicate Started(cfg: Config, before: Groups, lbsBefore: map<string, LbState>, mid: Groups, lbsMid: map<string, LbState>,
                          s: Service, permitted: set<Atom>)
    requires s.securityGroups != []
  {
    && Acceptable(s.ports, s.tls)
    && (s.securityGroups[0] in before || s.securityGroups[0] == cfg.elbSecurityGroup)
    && mid == Opened(cfg, before, s.securityGroups[0], permitted)
    && s.name in lbsMid && SourceGroup(lbsMid, s) == SourceGroup(lbsBefore, s)
    && (DistinctServicePorts(s.ports) ==> L.Converged(lbsMid[s.name].listeners, ListenersOf(s.ports, s.tls)))
    && PoliciesRight(lbsBefore, lbsMid, s, ListenersOf(s.ports, s.tls))
    && (s.name in lbsBefore ==> SameRest(lbsBefore[s.name], lbsMid[s.name]))
  }

  lemma LinkedMeansSucceeded(cfg: Config, t: Identity, account: string, before: Groups, lbsBefore: map<string, LbState>,
                             mid: Groups, lbsMid: map<string, LbState>, after: Groups, lbs: map<string, LbState>, s: Service,
                             permitted: set<Atom>, instances: map<string, U.Vm>)
    requires s.securityGroups != [] && Started(cfg, before, lbsBefore, mid, lbsMid, s, permitted)
    requires OnlyLb(s.name, lbsMid, lbs) && lbs[s.name] == lbsMid[s.name].(instances := instances.Keys)
    requires after == Linked(cfg, t, account, SourceGroup(lbsMid, s), mid, instances)
    ensures Succeeded(cfg, t, account, before, lbsBefore, after, lbs, s, permitted, instances)
    ensures s.securityGroups[0] != cfg.elbSecurityGroup && permitted == s.Desired() ==>
              && s.securityGroups[0] in before
              && s.Desired() <= after[s.securityGroups[0]].rules <= s.Desired() + {LbAtom(account, SourceGroup(lbsBefore, s))}
  {
    if s.securityGroups[0] != cfg.elbSecurityGroup && permitted == s.Desired() {
      OwnGroupEnds(cfg, t, account, SourceGroup(lbsBefore, s), before, after, s, permitted, instances);
    }
  }

  /** The own group ends with what it was opened to, give or take the rule that lets the load balancer in. */
  lemma OwnGroupEnds(cfg: Config, t: Identity, account: string, lbGroup: string, before: Groups, after: Groups, s: Service,
                     permitted: set<Atom>, instances: map<string, U.Vm>)
    requires s.securityGroups != [] && s.securityGroups[0] in before && s.securityGroups[0] != cfg.elbSecurityGroup
    requires after == Reconciled(cfg, t, account, lbGroup, before, s, permitted, instances)
    requires forall a :: a in permitted ==> a.source.Range?
    ensures s.securityGroups[0] in after
    ensures permitted <= after[s.securityGroups[0]].rules <= permitted + {LbAtom(account, lbGroup)}
  {
  }

  /** Some report of the own group, where none was read. */
  lemma SomeReport(cfg: Config, groups: Groups, s: Service) returns (w: OwnReport)
    requires s.securityGroups != []
    ensures ReportsOwn(cfg, groups, s, w)
  {
    var rules := if s.securityGroups[0] in groups && s.securityGroups[0] != cfg.elbSecurityGroup then groups[s.securityGroups[0]].rules else {};
    PiecesMeanTheirAtoms(rules);
    w := OwnReport(Pieces(rules), rules);
  }

  /** What is settled before the first two steps is settled after them. */
  lemma StillSettled(cfg: Config, t: Identity, account: string, before: Groups, lbsBefore: map<string, LbState>, mid: Groups,
                     lbsMid: map<string, LbState>, s: Service, permitted: set<Atom>, instances: map<string, U.Vm>)
    requires s.securityGroups != [] && Started(cfg, before, lbsBefore, mid, lbsMid, s, permitted)
    ensures DistinctServicePorts(s.ports) && permitted == s.Desired()
            && Settled(cfg, t, account, before, lbsBefore, s, ListenersOf(s.ports, s.tls), instances) ==>
              Settled(cfg, t, account, mid, lbsMid, s, ListenersOf(s.ports, s.tls), instances)
  {
    if permitted == s.Desired() && Settled(cfg, t, account, before, lbsBefore, s, ListenersOf(s.ports, s.tls), instances) {
      assert mid == before;
    }
  }

  /** The last two steps; nothing is called when all is settled. */
  method FinishService(api: Api, cfg: Config, t: Identity, lb: LbView, s: Service, instances: map<string, U.Vm>) returns (r: Outcome)
    requires api.Valid() && s.name in api.lbs && ShowsLb(lb, s.name, api.lbs[s.name])
    requires s.securityGroups != [] && SourceGroup(api.lbs, s) != DEFAULT_SRC_SG_NAME
    modifies api`groups, api`lbs, api`log
    ensures api.Valid() && old(api.log) <= api.log && OnlyLb(s.name, old(api.lbs), api.lbs)
    ensures api.lbs - {s.name} == old(api.lbs) - {s.name}
    ensures Isolated(api.account, SourceGroup(old(api.lbs), s), {}, old(api.groups), api.groups)
    ensures api.groups.Keys == old(api.groups).Keys
    ensures r.Done? ==> api.lbs[s.name] == old(api.lbs)[s.name].(instances := instances.Keys)
    ensures r.Done? ==> api.groups == Linked(cfg, t, api.account, SourceGroup(old(api.lbs), s), old(api.groups), instances)
    ensures api.reliable && SourceGroup(old(api.lbs), s) != "" && U.Feasible(cfg, t, old(api.groups), instances) ==> r.Done?
    ensures Settled(cfg, t, api.account, old(api.groups), old(api.lbs), s, ListenersOf(s.ports, s.tls), instances) ==>
              api.log == old(api.log)
  {
    ghost var groups, lbs := api.groups, api.lbs;
    r := LinkInstances(api, cfg, t, lb, s, instances);
    if Settled(cfg, t, api.account, groups, lbs, s, ListenersOf(s.ports, s.tls), instances) {
      SettledNeedsNoLink(api.log, |old(api.log)|, cfg, t, api.account, groups, lbs, s, ListenersOf(s.ports, s.tls), instances);
    }
  }

  /** First only the own group's rules change, then each group gains or loses at most the one permission. */
  lemma OthersKeep(account: string, lbGroup: string, own: string, before: Groups, mid: Groups, after: Groups)
    requires OnlyRulesOf(own, before, mid) && mid.Keys == after.Keys && Isolated(account, lbGroup, {}, mid, after)
    ensures forall g :: g in before && g != own ==>
              var its := Atom(Some("-1"), Some(-1), Some(-1), Group(Member(lbGroup, Some(account))));
              before[g].rules - {its} <= after[g].rules <= before[g].rules + {its}
  {
  }

  /**
   The sequence for one service. Whatever happens, other load balancers, and other groups' rules but the one that lets
   this load balancer in, stay. In a reliable cloud it succeeds when it can and the report of the own group fits. The own
   group permits what is desired exactly if it fits. Once everything is as desired, and the report fits, no
   rule, listener or instance is touched again, and nothing at all is called if the policies are right and no proxy
   protocol is requested.
   */
  method EnsureService(api: Api, cfg: Config, t: Identity, s: Service, instances: map<string, U.Vm>)
    returns (r: Outcome, ghost w: OwnReport)
    requires api.Valid() && InPrivateNet(cfg, api.lbs, s)
    modifies api`groups, api`lbs, api`log
    ensures api.Valid() && old(api.log) <= api.log
    ensures ReportsOwn(cfg, old(api.groups), s, w)
    ensures api.lbs - {s.name} == old(api.lbs) - {s.name} && api.groups.Keys == old(api.groups).Keys
    ensures forall g :: g in old(api.groups) && g != s.securityGroups[0] ==>
              var its := Atom(Some("-1"), Some(-1), Some(-1), Group(Member(SourceGroup(old(api.lbs), s), Some(api.account))));
              old(api.groups)[g].rules - {its} <= api.groups[g].rules <= old(api.groups)[g].rules + {its}
    ensures r.Done? && Fits(w.reported, s.Desired()) && s.securityGroups[0] != cfg.elbSecurityGroup ==>
              var its := Atom(Some("-1"), Some(-1), Some(-1), Group(Member(SourceGroup(old(api.lbs), s), Some(api.account))));
              && s.securityGroups[0] in old(api.groups)
              && DesiredAtoms(s.ports, s.ranges) <= api.groups[s.securityGroups[0]].rules <= DesiredAtoms(s.ports, s.ranges) + {its}
    ensures r.Done? ==>
              && Succeeded(cfg, t, api.account, old(api.groups), old(api.lbs), api.groups, api.lbs, s, w.permitted, instances)
              && (w.permitted == s.Desired() <==> Fits(w.reported, s.Desired()))
    ensures api.reliable && CanSettle(cfg, t, old(api.groups), old(api.lbs), s, instances) && Fits(w.reported, s.Desired()) ==> r.Done?
    ensures DistinctServicePorts(s.ports) && Fits(w.reported, s.Desired()) && Sourced(w.reported)
            && Settled(cfg, t, api.account, old(api.groups), old(api.lbs), s, ListenersOf(s.ports, s.tls), instances) ==>
              PolicyCallsOnly(api.log, |old(api.log)|, s.proxyProtocol,
                              PoliciesAsRequested(old(api.lbs)[s.name].policies, ListenersOf(s.ports, s.tls), s.proxyProtocol))
  {
    ghost var before, lbsBefore := api.groups, api.lbs;
    var lb;
    lb, w := StartService(api, cfg, s);
    ghost var mid, lbsMid := api.groups, api.lbs;
    if lb.Err? {
      OthersKeep(api.account, SourceGroup(lbsBefore, s), s.securityGroups[0], before, mid, mid);
      return Failure(lb.error), w;
    }
    SameFeasible(cfg, t, before, s.securityGroups[0], w.permitted, instances);
    StillSettled(cfg, t, api.account, before, lbsBefore, mid, lbsMid, s, w.permitted, instances);
    r := FinishService(api, cfg, t, lb.value, s, instances);
    OthersKeep(api.account, SourceGroup(lbsBefore, s), s.securityGroups[0], before, mid, api.groups);
    if r.Done? {
      LinkedMeansSucceeded(cfg, t, api.account, before, lbsBefore, mid, lbsMid, api.groups, api.lbs, s, w.permitted, instances);
    }
  }

  /** Builds the listeners and takes the first two steps. */
  method StartService(api: Api, cfg: Config, s: Service) returns (r: Result<LbView>, ghost w: OwnReport)
    requires api.Valid() && InPrivateNet(cfg, api.lbs, s)
    modifies api`groups, api`lbs, api`log
    ensures api.Valid() && old(api.log) <= api.log
    ensures ReportsOwn(cfg, old(api.groups), s, w)
    ensures OnlyRulesOf(s.securityGroups[0], old(api.groups), api.groups)
    ensures api.lbs - {s.name} == old(api.lbs) - {s.name}
    ensures r.Ok? ==> Started(cfg, old(api.groups), old(api.lbs), api.groups, api.lbs, s, w.permitted)
    ensures r.Ok? ==> (w.permitted == s.Desired() <==> Fits(w.reported, s.Desired()))
    ensures r.Ok? ==> ShowsLb(r.value, s.name, api.lbs[s.name])
    ensures Fits(w.reported, s.Desired()) && Sourced(w.reported)
            && DistinctServicePorts(s.ports) && s.name in old(api.lbs)
            && L.Converged(old(api.lbs)[s.name].listeners, ListenersOf(s.ports, s.tls))
            && (s.securityGroups[0] != cfg.elbSecurityGroup ==>
                  s.securityGroups[0] in old(api.groups) && old(api.groups)[s.securityGroups[0]].rules == s.Desired()) ==>
              PolicyCallsOnly(api.log, |old(api.log)|, s.proxyProtocol,
                              PoliciesAsRequested(old(api.lbs)[s.name].policies, ListenersOf(s.ports, s.tls), s.proxyProtocol))
    ensures api.reliable && Acceptable(s.ports, s.tls) && DistinctServicePorts(s.ports) && Fits(w.reported, s.Desired())
            && (s.securityGroups[0] in old(api.groups) || s.securityGroups[0] == cfg.elbSecurityGroup) ==>
              r.Ok?
  {
    var listeners := BuildListeners(s.ports, s.tls);
    if listeners.Err? {
      w := SomeReport(cfg, api.groups, s);
      return Err(listeners.error), w;
    }
    ListenersHaveInstancePorts(s.ports, s.tls);
    if DistinctServicePorts(s.ports) {
      DistinctServicePortsGiveDistinctListeners(s.ports, s.tls);
    }
    r, w := PrepareLoadBalancer(api, cfg, s, listeners.value);
  }

  /**
   Convergence: when rules naming the source group have the controller's shape and the own group is no instance's
   group, success settles everything.
   */
  lemma SuccessSettles(cfg: Config, t: Identity, account: string, before: Groups, lbsBefore: map<string, LbState>,
                       after: Groups, lbs: map<string, LbState>, s: Service, permitted: set<Atom>, instances: map<string, U.Vm>)
    requires s.securityGroups != [] && !cfg.disableSecurityGroupIngress && DistinctServicePorts(s.ports)
    requires Succeeded(cfg, t, account, before, lbsBefore, after, lbs, s, permitted, instances) && permitted == s.Desired()
    requires U.AllProtocolShape(account, SourceGroup(lbsBefore, s), before)
    requires s.securityGroups[0] !in U.Needed(instances, U.TaggedGroups(t, before))
    ensures Settled(cfg, t, account, after, lbs, s, ListenersOf(s.ports, s.tls), instances)
  {
    GroupsSettle(cfg, t, account, SourceGroup(lbsBefore, s), before, after, s, instances);
  }

  /** Nothing about the service, the groups or the configuration stands in the way of convergence. */
  ghost predicate CanConverge(cfg: Config, t: Identity, account: string, groups: Groups, lbs: map<string, LbState>, s: Service,
                              instances: map<string, U.Vm>)
    requires s.securityGroups != []
  {
    && !cfg.disableSecurityGroupIngress && CanSettle(cfg, t, groups, lbs, s, instances)
    && U.AllProtocolShape(account, SourceGroup(lbs, s), groups)
    && s.securityGroups[0] !in U.Needed(instances, U.TaggedGroups(t, groups))
  }

  /** What is settled, in terms of the groups and the load balancer themselves. */
  lemma SettledMeans(cfg: Config, t: Identity, account: string, groups: Groups, lbs: map<string, LbState>, s: Service,
                     ls: seq<L.Listener>, instances: map<string, U.Vm>, g: string)
    requires s.securityGroups != [] && Settled(cfg, t, account, groups, lbs, s, ls, instances) && g in groups
    ensures s.name in lbs && L.Converged(lbs[s.name].listeners, ls) && lbs[s.name].instances == instances.Keys
    ensures g == s.securityGroups[0] != cfg.elbSecurityGroup ==> groups[g].rules == DesiredAtoms(s.ports, s.ranges)
    ensures var its := Atom(Some("-1"), Some(-1), Some(-1), Group(Member(SourceGroup(lbs, s), Some(account))));
            var needed := exists k :: k in instances && U.Chosen(instances[k].securityGroups, U.TaggedGroups(t, groups), g);
            && (g != cfg.elbSecurityGroup && needed ==> its in groups[g].rules)
            && (g != cfg.elbSecurityGroup && (t.clusterId == "" || "OscK8sClusterID/" + t.clusterId in groups[g].tags) ==>
                  (its in groups[g].rules <==> needed))
  {
    U.NeededIff(instances, U.TaggedGroups(t, groups), g);
  }

  /** What success leaves: the groups after a pass that follows the opening, the listeners, the policies, the instances. */
  lemma SucceededMeans(cfg: Config, t: Identity, account: string, before: Groups, lbsBefore: map<string, LbState>,
                       after: Groups, lbs: map<string, LbState>, s: Service, permitted: set<Atom>, instances: map<string, U.Vm>)
    requires s.securityGroups != [] && Succeeded(cfg, t, account, before, lbsBefore, after, lbs, s, permitted, instances)
    ensures s.name in lbs && lbs[s.name].instances == instances.Keys
    ensures (forall i, j :: 0 <= i < j < |s.ports| ==> s.ports[i].port != s.ports[j].port) ==>
              L.Converged(lbs[s.name].listeners, ListenersOf(s.ports, s.tls))
    ensures !s.proxyProtocol || s.name !in lbsBefore ==>
              PoliciesAsRequested(lbs[s.name].policies, ListenersOf(s.ports, s.tls), s.proxyProtocol)
    ensures var own := s.securityGroups[0];
            var mid := if own == cfg.elbSecurityGroup then before
                       else map g | g in before :: if g == own then before[g].(rules := permitted) else before[g];
            && (own == cfg.elbSecurityGroup || own in before)
            && after == if cfg.disableSecurityGroupIngress then mid
                        else U.Applied(cfg, account, SourceGroup(lbsBefore, s), mid,
                                       U.PassChanges(t, SourceGroup(lbsBefore, s), mid, instances))
  {
    var own := s.securityGroups[0];
    var mid := if own == cfg.elbSecurityGroup then before
               else map g | g in before :: if g == own then before[g].(rules := permitted) else before[g];
    assert Opened(cfg, before, own, permitted) == mid;
  }

  /** A successful pass leaves the way clear for the next one. */
  lemma StillCanConverge(cfg: Config, t: Identity, account: string, before: Groups, lbsBefore: map<string, LbState>,
                         after: Groups, lbs: map<string, LbState>, s: Service, instances: map<string, U.Vm>)
    requires s.securityGroups != [] && CanConverge(cfg, t, account, before, lbsBefore, s, instances)
    requires Succeeded(cfg, t, account, before, lbsBefore, after, lbs, s, s.Desired(), instances)
    requires Settled(cfg, t, account, after, lbs, s, ListenersOf(s.ports, s.tls), instances)
    ensures CanConverge(cfg, t, account, after, lbs, s, instances)
  {
    var mid := Opened(cfg, before, s.securityGroups[0], s.Desired());
    SameFeasible(cfg, t, before, s.securityGroups[0], s.Desired(), instances);
    U.SameChoice(cfg, t, account, SourceGroup(lbsBefore, s), mid, U.PassChanges(t, SourceGroup(lbsBefore, s), mid, instances), instances);
  }

  /**
   Convergence and rest: when the first pass succeeds on a report that fits, everything is as desired; a second pass over
   the same service then makes no rule, listener or registration call, whatever its outcome, and writes policies only if
   the first pass met a clash. In a reliable cloud both succeed, and all is still as desired.
   */
  method TwoPasses(api: Api, cfg: Config, t: Identity, s: Service, instances: map<string, U.Vm>)
    returns (first: Outcome, second: Outcome, ghost w: OwnReport, ghost v: OwnReport, ghost half: nat)
    requires api.Valid() && InPrivateNet(cfg, api.lbs, s) && CanConverge(cfg, t, api.account, api.groups, api.lbs, s, instances)
    modifies api`groups, api`lbs, api`log
    ensures api.Valid() && old(api.log) <= api.log && |old(api.log)| <= half <= |api.log|
    ensures first.Done? && Fits(w.reported, s.Desired()) && Fits(v.reported, s.Desired()) && Sourced(v.reported) ==>
              PolicyCallsOnly(api.log, half, s.proxyProtocol,
                              s.name in old(api.lbs) ==>
                                !PolicyClash(old(api.lbs)[s.name], ListenersOf(s.ports, s.tls), s.proxyProtocol))
    ensures first.Done? && second.Done? && Fits(w.reported, s.Desired()) && Fits(v.reported, s.Desired()) ==>
              Settled(cfg, t, api.account, api.groups, api.lbs, s, ListenersOf(s.ports, s.tls), instances)
    ensures api.reliable && Fits(w.reported, s.Desired()) && Fits(v.reported, s.Desired()) ==> first.Done? && second.Done?
  {
    ghost var before, lbsBefore := api.groups, api.lbs;
    first, w := EnsureService(api, cfg, t, s, instances);
    half := |api.log|;
    if first.Failure? {
      return first, first, w, w, half;
    }
    ghost var mid, lbsMid := api.groups, api.lbs;
    if Fits(w.reported, s.Desired()) {
      SuccessSettles(cfg, t, api.account, before, lbsBefore, mid, lbsMid, s, w.permitted, instances);
      StillCanConverge(cfg, t, api.account, before, lbsBefore, mid, lbsMid, s, instances);
    }
    second, v := EnsureService(api, cfg, t, s, instances);
    if second.Done? && Fits(w.reported, s.Desired()) && Fits(v.reported, s.Desired()) {
      SuccessSettles(cfg, t, api.account, mid, lbsMid, api.groups, api.lbs, s, v.permitted, instances);
    }
  }
}
