/** Updating a service's instances, and what any run of ensure, update and delete leaves alone (ccm_cloud.go). */
module Runs {
  import opened Wrappers
  import opened IpRules
  import opened CloudApi
  import opened Config
  import opened Tagging
  import opened LoadBalancers
  import opened NodeGroups
  import U = NodeGroupUpdate
  import opened Reconcile
  import opened GroupCreation
  import D = Deletion

  // ---------- Updating instances ----------

  /** The name that stands for the groups of a load balancer without any, outside a net. */
  function FallbackGroups(cfg: Config, lbGroups: seq<string>): seq<string> {
    if |lbGroups| == 0 && cfg.vpcId == "" then [DEFAULT_SRC_SG_NAME] else []
  }

  /** The group that must be let in, when only the load balancer itself can tell. */
  ghost function AttachedSource(cfg: Config, lbs: map<string, LbState>, name: string): string {
    if name in lbs then U.LbGroup(lbs[name].securityGroups, FallbackGroups(cfg, lbs[name].securityGroups)) else ""
  }

  /** The last non-empty group the load balancer has; for none at all, outside a net, the public cloud's name. */
  lemma AttachedSourceIs(cfg: Config, lbs: map<string, LbState>, name: string)
    ensures name !in lbs ==> AttachedSource(cfg, lbs, name) == ""
    ensures name in lbs ==>
              var groups := lbs[name].securityGroups;
              if forall k :: 0 <= k < |groups| ==> groups[k] == ""
              then AttachedSource(cfg, lbs, name) == if groups == [] && cfg.vpcId == "" then "outscale-elb-sg" else ""
              else exists i :: 0 <= i < |groups| && AttachedSource(cfg, lbs, name) == groups[i] != ""
                               && forall k :: i < k < |groups| ==> groups[k] == ""
  {
    if name in lbs {
      U.LastNonEmptyPicks(lbs[name].securityGroups);
    }
  }

  ghost predicate RegistrationFailed(log: seq<Event>, from: nat) {
    exists i :: from <= i < |log| && (log[i].call.Register? || log[i].call.Deregister?) && !log[i].ok
  }

  /**
   Registers the instances, then opens their groups. A failed registration ends the update without an error, and no
   group is opened; otherwise success means that instances and groups are as desired.
   */
  method UpdateService(api: Api, cfg: Config, t: Identity, name: string, instances: map<string, U.Vm>) returns (r: Outcome)
    requires api.Valid() && AttachedSource(cfg, api.lbs, name) != DEFAULT_SRC_SG_NAME
    modifies api`groups, api`lbs, api`log
    ensures api.Valid() && old(api.log) <= api.log
    ensures OnlyLb(name, old(api.lbs), api.lbs) && api.groups.Keys == old(api.groups).Keys
    ensures Isolated(api.account, AttachedSource(cfg, old(api.lbs), name), {}, old(api.groups), api.groups)
    ensures name !in old(api.lbs) ==> r.Failure? && api.log == old(api.log)
    ensures RegistrationFailed(api.log, |old(api.log)|) ==> r.Done? && api.groups == old(api.groups)
    ensures r.Done? ==>
              || RegistrationFailed(api.log, |old(api.log)|)
              || (api.lbs[name] == old(api.lbs)[name].(instances := instances.Keys)
                  && api.groups == Linked(cfg, t, api.account, AttachedSource(cfg, old(api.lbs), name), old(api.groups), instances))
    ensures api.reliable && name in old(api.lbs) && AttachedSource(cfg, old(api.lbs), name) != ""
            && U.Feasible(cfg, t, old(api.groups), instances) ==>
              r.Done? && api.lbs[name].instances == instances.Keys
  {
    var described := api.DescribeLoadBalancer(name);
    if described.Err? {
      return Failure(described.error);
    }
    if described.value.None? {
      return Failure(Invalid("Load balancer not found"));
    }
    var lb := described.value.value;
    var registered := EnsureLoadBalancerInstances(api, name, lb.instances, instances.Keys);
    if registered.Failure? {
      return Done;
    }
    r := U.UpdateInstanceSecurityGroupsForLoadBalancer(api, cfg, t, lb.securityGroups, instances,
                                                          FallbackGroups(cfg, lb.securityGroups));
  }

  // ---------- Runs ----------

  /** One ensure, update or delete: the group it lets in, and the groups it manages as its own. */
  datatype Step = Step(source: string, own: set<string>)

  /** The groups before and after each step; others may create and delete groups, but ids are never reused. */
  ghost predicate IsRun(account: string, states: seq<Groups>, steps: seq<Step>) {
    && |states| == |steps| + 1
    && forall i :: 0 <= i < |steps| ==> Isolated(account, steps[i].source, steps[i].own, states[i], states[i + 1])
  }

  /** A run is any sequence of such steps: it may begin with any groups, and go on with any of them. */
  lemma RunsGrow(account: string, states: seq<Groups>, steps: seq<Step>, step: Step, next: Groups)
    ensures forall groups :: IsRun(account, [groups], [])
    ensures IsRun(account, states, steps) && Isolated(account, step.source, step.own, states[|states| - 1], next) ==>
              IsRun(account, states + [next], steps + [step])
  {
  }

  /** Making sure of a service is such a step, whatever its outcome. */
  lemma EnsuringIsAStep(account: string, source: string, own: string, before: Groups, after: Groups)
    requires before.Keys == after.Keys
    requires forall g :: g in before && g != own ==>
               var its := Atom(Some("-1"), Some(-1), Some(-1), Group(Member(source, Some(account))));
               before[g].rules - {its} <= after[g].rules <= before[g].rules + {its}
    ensures Isolated(account, source, {own}, before, after)
  {
  }

  ghost function Naming(rules: set<Atom>, group: string): set<Atom> {
    set a | a in rules && Names(a, group)
  }

  /**
   Over any run of other services' steps, finished or failed, a group that none of them manages as its own
   keeps exactly the rules that name a group none of them lets in.
   */
  lemma {:induction false} RunKeepsOthersRules(account: string, states: seq<Groups>, steps: seq<Step>, g: string, other: string)
    requires IsRun(account, states, steps)
    requires forall i :: 0 <= i < |states| ==> g in states[i]
    requires forall i :: 0 <= i < |steps| ==> steps[i].source != other && g !in steps[i].own
    ensures Naming(states[|steps|][g].rules, other) == Naming(states[0][g].rules, other)
    decreases |steps|
  {
    if steps != [] {
      var n := |steps| - 1;
      RunKeepsOthersRules(account, states[..n + 1], steps[..n], g, other);
      assert steps[n].source != other && Isolated(account, steps[n].source, steps[n].own, states[n], states[n + 1]);
      assert !Names(LbAtom(account, steps[n].source), other);
    }
  }

  /** Over any such run every permission of these groups that is no step's own rule stays or stays away. */
  lemma {:induction false} RunKeepsOtherSources(account: string, states: seq<Groups>, steps: seq<Step>, g: string, a: Atom)
    requires IsRun(account, states, steps)
    requires forall i :: 0 <= i < |states| ==> g in states[i]
    requires forall i :: 0 <= i < |steps| ==> g !in steps[i].own
    requires forall i :: 0 <= i < |steps| ==> a != LbAtom(account, steps[i].source)
    ensures a in states[|steps|][g].rules <==> a in states[0][g].rules
    decreases |steps|
  {
    if steps != [] {
      var n := |steps| - 1;
      RunKeepsOtherSources(account, states[..n + 1], steps[..n], g, a);
      assert Isolated(account, steps[n].source, steps[n].own, states[n], states[n + 1]);
    }
  }

  /** A deletion, whatever its outcome, is such a step. */
  lemma DeletionIsAStep(cfg: Config, t: Identity, account: string, before: Groups, after: Groups, lbGroups: seq<string>)
    requires D.PartlyDeleted(cfg, t, account, before, after, lbGroups)
    ensures Isolated(account, U.LbGroup(lbGroups, []), {}, before, after)
  {
  }

  /** So is finding or creating a group. */
  lemma GroupCreationIsAStep(account: string, source: string, before: Groups, after: Groups)
    requires RulesKept(before, after)
    ensures Isolated(account, source, {}, before, after)
  {
  }

  /**
   A deletion that closed a group of the cluster, and then any run of steps that let other groups in: the
   group never names the deleted source again, if it had no rule of another shape that did.
   */
  lemma DeletedSourceStaysUnnamed(cfg: Config, t: Identity, account: string, before: Groups, source: string,
                                  states: seq<Groups>, steps: seq<Step>, g: string)
    requires D.Closes(cfg, t, before, g)
    requires forall a :: a in before[g].rules && Names(a, source) ==> a == LbAtom(account, source)
    requires IsRun(account, states, steps) && forall i :: 0 <= i < |states| ==> g in states[i]
    requires states[0][g].rules == D.Unlinked(cfg, t, account, before, source)[g].rules
    requires forall i :: 0 <= i < |steps| ==> steps[i].source != source && g !in steps[i].own
    ensures !U.NamesLb(states[|steps|][g].rules, source)
  {
    D.NamedAfterDeletionIff(cfg, t, account, before, source, g);
    RunKeepsOthersRules(account, states, steps, g, source);
    NamesLbIffNaming(states[|steps|][g].rules, source);
    NamesLbIffNaming(states[0][g].rules, source);
  }

  lemma NamesLbIffNaming(rules: set<Atom>, group: string)
    ensures U.NamesLb(rules, group) <==> Naming(rules, group) != {}
  {
    if U.NamesLb(rules, group) {
      var a :| a in rules && Names(a, group);
      assert a in Naming(rules, group);
    } else if a :| a in Naming(rules, group) {
      assert U.NamesLb(rules, group);
    }
  }
}
