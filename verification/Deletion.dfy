/** Deleting a load balancer, and then its security groups until the cloud lets them go (ccm_cloud.go). */
module Deletion {
  import opened Wrappers
  import opened Collections
  import opened IpRules
  import opened CloudApi
  import opened Config
  import opened Tagging
  import opened LoadBalancers
  import opened NodeGroups
  import opened NodeGroupUpdate

  const DELETE_TIMEOUT: real := 600.0
  const DELETE_PAUSE: real := 10.0
  const MAX_ROUNDS: nat := 62

  /** Time in seconds; it passes by itself, and a sleep takes at least as long as asked. */
  class Clock {
    var time: real

    method Now() returns (t: real)
      modifies this
      ensures t == time && old(time) <= time
    {
      var passed: real := *;
      time := if passed > 0.0 then time + passed else time;
      t := time;
    }

    method Sleep(d: real)
      modifies this
      ensures time >= old(time) + d
    {
      var passed: real := *;
      time := if passed > d then time + passed else time + d;
    }
  }

  // ---------- Which groups may be deleted ----------

  /** Groups attached to the load balancer that are the cluster's, except the configured one. */
  ghost function Deletable(cfg: Config, t: Identity, groups: Groups, lbGroups: seq<string>): set<string> {
    set g | g in lbGroups && g in groups && g != cfg.elbSecurityGroup && Ours(t, groups[g].tags)
  }

  method CollectGroups(api: Api, cfg: Config, t: Identity, lbGroups: seq<string>) returns (r: Result<set<string>>)
    requires api.Valid()
    ensures r.Ok? ==> r.value == Deletable(cfg, t, api.groups, lbGroups)
    ensures r.Ok? ==> forall g :: g in r.value <==>
              && g in lbGroups && g in api.groups && g != cfg.elbSecurityGroup
              && (t.clusterId != "" ==> "OscK8sClusterID/" + t.clusterId in api.groups[g].tags)
    ensures api.reliable ==> r.Ok?
  {
    var f := ById(lbGroups);
    var read := api.ReadSecurityGroups(f);
    if read.Err? {
      return Err(read.error);
    }
    var views := read.value;
    var ids: set<string> := {};
    for i := 0 to |views|
      invariant ids == set g | g in Ids(views)[..i] && g in api.groups && g != cfg.elbSecurityGroup && Ours(t, api.groups[g].tags)
    {
      var id := views[i].id;
      assert views[i] in views && Ids(views)[..i + 1] == Ids(views)[..i] + [id];
      if id == cfg.elbSecurityGroup {
        continue;
      }
      if id == "" {
        continue;
      }
      var ours := HasClusterTag(t, views[i].tags);
      if !ours {
        continue;
      }
      ids := ids + {id};
    }
    assert Ids(views)[..|views|] == Ids(views);
    assert forall g :: g in Ids(views) <==> g in Elems(Ids(views));
    return Ok(ids);
  }

  // ---------- The deletion loop ----------

  /** Some groups are deleted, the others remain, and together they are the ones to delete. */
  ghost predicate Split(before: Groups, ids: set<string>, remaining: set<string>, after: Groups) {
    && remaining <= ids
    && ids - remaining <= before.Keys
    && after == before - (ids - remaining)
  }

  ghost predicate OnlyDeletes(log: seq<Event>, from: nat, ids: set<string>) {
    OnlyCalls(log, from, (e: Event) => e.call.DeleteGroup? && e.call.id in ids)
  }

  /** Tries each remaining group once, in any order; a conflict leaves the group for later. */
  method DeleteOnce(api: Api, ids: set<string>, remaining: set<string>, ghost before: Groups) returns (r: Outcome, left: set<string>)
    requires api.Valid() && Split(before, ids, remaining, api.groups)
    modifies api`groups, api`log
    ensures api.Valid() && old(api.log) <= api.log
    ensures Split(before, ids, left, api.groups) && left <= remaining
    ensures OnlyDeletes(api.log, |old(api.log)|, ids)
    ensures |api.log| <= |old(api.log)| + |ids|
    ensures r.Failure? ==> r.error == Failed && left != {}
  {
    left := remaining;
    var todo := remaining;
    SubsetSize(remaining, ids);
    while todo != {}
      invariant api.Valid() && old(api.log) <= api.log
      invariant todo <= left <= remaining && Split(before, ids, left, api.groups)
      invariant OnlyDeletes(api.log, |old(api.log)|, ids)
      invariant |api.log| + |todo| <= |old(api.log)| + |ids|
      decreases |todo|
    {
      var id :| id in todo;
      todo := todo - {id};
      var done := api.DeleteSecurityGroup(id);
      if done.Done? {
        assert ids - (left - {id}) == (ids - left) + {id};
        left := left - {id};
      } else if done.error != Conflict {
        return done, left;
      }
    }
    return Done, left;
  }

  lemma SubsetSize<T>(a: set<T>, b: set<T>)
    requires a <= b
    ensures |a| <= |b|
  {
    assert b == a + (b - a);
  }

  /** Rounds of deletion until nothing remains, ten seconds apart, for at most ten minutes. */
  method DeleteGroups(api: Api, clock: Clock, ids: set<string>) returns (r: Outcome, remaining: set<string>)
    requires api.Valid()
    modifies api`groups, api`log, clock
    ensures api.Valid() && old(api.log) <= api.log
    ensures Split(old(api.groups), ids, remaining, api.groups)
    ensures OnlyDeletes(api.log, |old(api.log)|, ids)
    ensures r.Done? <==> remaining == {}
    ensures r == Failure(TimedOut) ==> clock.time > old(clock.time) + 600.0
    // However the clock runs, there are at most 62 rounds.
    ensures |api.log| <= |old(api.log)| + 62 * |ids|
  {
    remaining := ids;
    var start := clock.Now();
    var timeoutAt := start + DELETE_TIMEOUT;
    ghost var rounds: nat := 0;
    while true
      invariant api.Valid() && old(api.log) <= api.log
      invariant Split(old(api.groups), ids, remaining, api.groups)
      invariant OnlyDeletes(api.log, |old(api.log)|, ids)
      invariant old(clock.time) <= start && start + rounds as real * DELETE_PAUSE <= clock.time
      invariant rounds < MAX_ROUNDS && |api.log| <= |old(api.log)| + rounds * |ids|
      decreases MAX_ROUNDS - rounds
    {
      rounds := rounds + 1;
      r, remaining := DeleteOnce(api, ids, remaining, old(api.groups));
      OneMoreRound(rounds, |ids|);
      if r.Failure? {
        return;
      }
      if remaining == {} {
        return Done, remaining;
      }
      var now := clock.Now();
      if now > timeoutAt {
        return Failure(TimedOut), remaining;
      }
      clock.Sleep(DELETE_PAUSE);
    }
  }

  lemma OneMoreRound(rounds: nat, n: nat)
    requires 0 < rounds <= MAX_ROUNDS
    ensures (rounds - 1) * n + n == rounds * n <= MAX_ROUNDS * n
  {
    assert MAX_ROUNDS * n == rounds * n + (MAX_ROUNDS - rounds) * n;
  }

  // ---------- The whole deletion ----------

  /** The calls before the groups are deleted. */
  ghost predicate UnlinkCall(e: Event, name: string, account: string, lbGroup: string) {
    match e.call
    case Deregister(lb, _) => lb == name
    case DeleteRules(_, atoms) => atoms == {LbAtom(account, lbGroup)}
    case DeleteLb(lb) => lb == name
    case _ => false
  }

  /** The groups once no instance needs the load balancer any more. */
  ghost function Unlinked(cfg: Config, t: Identity, account: string, groups: Groups, lbGroup: string): Groups {
    if cfg.vpcId == "" || cfg.disableSecurityGroupIngress then groups
    else Applied(cfg, account, lbGroup, groups, PassChanges(t, lbGroup, groups, map[]))
  }

  /** Closes the instances' groups, in a net of the cluster's own only. */
  method CloseGroups(api: Api, cfg: Config, t: Identity, name: string, lbGroups: seq<string>) returns (r: Outcome)
    requires api.Valid() && (cfg.vpcId != "" ==> LbGroup(lbGroups, []) != DEFAULT_SRC_SG_NAME)
    modifies api`groups, api`log
    ensures api.Valid() && old(api.log) <= api.log
    ensures OnlyCalls(api.log, |old(api.log)|, e => UnlinkCall(e, name, api.account, LbGroup(lbGroups, [])))
    ensures OnlyLbRuleOf(cfg, api.account, LbGroup(lbGroups, []), old(api.groups), api.groups,
                         ActualGroups(t, old(api.groups), LbGroup(lbGroups, [])))
    ensures r.Done? ==> api.groups == Unlinked(cfg, t, api.account, old(api.groups), LbGroup(lbGroups, []))
    ensures api.reliable && LbGroup(lbGroups, []) != "" ==> r.Done?
  {
    ghost var lbGroup := LbGroup(lbGroups, []);
    if cfg.vpcId == "" {
      return Done;
    }
    NothingWanted(cfg, t, api.groups, lbGroup);
    r := UpdateInstanceSecurityGroupsForLoadBalancer(api, cfg, t, lbGroups, map[], lbGroups);
    OnlyClosing(api.log, |old(api.log)|, cfg, api.account, lbGroup, old(api.groups), t, name);
  }

  /** Only the registered instances may differ. */
  ghost predicate SameRestBut(had: LbState, now: LbState) {
    now == had.(instances := now.instances)
  }

  /** Deregisters the instances, closes their groups, and deletes the load balancer itself. */
  method Unlink(api: Api, cfg: Config, t: Identity, name: string, lb: LbView) returns (r: Outcome)
    requires api.Valid() && (cfg.vpcId != "" ==> LbGroup(lb.securityGroups, []) != DEFAULT_SRC_SG_NAME)
    modifies api`groups, api`lbs, api`log
    ensures api.Valid() && old(api.log) <= api.log
    ensures OnlyCalls(api.log, |old(api.log)|, e => UnlinkCall(e, name, api.account, LbGroup(lb.securityGroups, [])))
    ensures api.lbs - {name} == old(api.lbs) - {name}
    ensures OnlyLbRuleOf(cfg, api.account, LbGroup(lb.securityGroups, []), old(api.groups), api.groups,
                         ActualGroups(t, old(api.groups), LbGroup(lb.securityGroups, [])))
    ensures name in api.lbs ==> name in old(api.lbs) && SameRestBut(old(api.lbs)[name], api.lbs[name])
    ensures r.Done? ==> name !in api.lbs && DeletedAt(api.log, |old(api.log)|, name)
    ensures r.Done? ==> api.groups == Unlinked(cfg, t, api.account, old(api.groups), LbGroup(lb.securityGroups, []))
    ensures api.reliable && LbGroup(lb.securityGroups, []) != "" ==> r.Done?
  {
    var ignored := EnsureLoadBalancerInstances(api, name, lb.instances, {});
    assert api.lbs - {name} == old(api.lbs) - {name};
    r := CloseGroups(api, cfg, t, name, lb.securityGroups);
    if r.Failure? {
      return;
    }
    ghost var at := |api.log|;
    r := api.DeleteLoadBalancer(name);
    assert api.log[at].call == DeleteLb(name);
  }

  /** The load balancer was deleted by one of the calls. */
  ghost predicate DeletedAt(log: seq<Event>, from: nat, name: string) {
    exists i :: from <= i < |log| && log[i].call == DeleteLb(name) && log[i].ok
  }

  lemma NothingWanted(cfg: Config, t: Identity, groups: Groups, lbGroup: string)
    ensures PassChanges(t, lbGroup, groups, map[]).Keys == ActualGroups(t, groups, lbGroup)
    ensures forall g :: g in PassChanges(t, lbGroup, groups, map[]) ==> !PassChanges(t, lbGroup, groups, map[])[g]
    ensures Feasible(cfg, t, groups, map[])
  {
    assert Needed(map[], TaggedGroups(t, groups)) == {};
  }

  lemma OnlyClosing(log: seq<Event>, from: nat, cfg: Config, account: string, lbGroup: string, groups: Groups, t: Identity, name: string)
    requires NeededCalls(log, from, cfg, account, lbGroup, groups, PassChanges(t, lbGroup, groups, map[]))
    ensures OnlyCalls(log, from, e => UnlinkCall(e, name, account, lbGroup))
  {
    NothingWanted(cfg, t, groups, lbGroup);
    var changes := PassChanges(t, lbGroup, groups, map[]);
    assert forall i :: from <= i < |log| ==> NeededCall(log[i].call, cfg, account, lbGroup, groups, changes);
  }

  /** Groups are deleted only after the load balancer, and only those that may be. */
  ghost predicate DeletesInOrder(log: seq<Event>, from: nat, name: string, may: set<string>) {
    forall i :: from <= i < |log| && log[i].call.DeleteGroup? ==> log[i].call.id in may && DeletedAt(log[..i], from, name)
  }

  /** What may be deleted, in terms of the groups the load balancer had. */
  lemma DeletableAre(cfg: Config, t: Identity, groups: Groups, lbGroups: seq<string>)
    ensures forall g :: g in Deletable(cfg, t, groups, AttachedGroups(cfg, lbGroups)) <==>
            && (g in lbGroups || (lbGroups == [] && cfg.vpcId == "" && g == "outscale-elb-sg"))
            && g != cfg.elbSecurityGroup && g in groups
            && (t.clusterId != "" ==> "OscK8sClusterID/" + t.clusterId in groups[g].tags)
  {
  }

  /** The calls, in terms of the groups the load balancer had, or the public cloud's name when it had none. */
  lemma DeletesMean(log: seq<Event>, from: nat, name: string, cfg: Config, t: Identity, groups: Groups, lbGroups: seq<string>)
    requires DeletesInOrder(log, from, name, Deletable(cfg, t, groups, AttachedGroups(cfg, lbGroups)))
    ensures forall i :: from <= i < |log| && log[i].call.DeleteGroup? ==>
              var g := log[i].call.id;
              && (g in lbGroups || (lbGroups == [] && cfg.vpcId == "" && g == "outscale-elb-sg"))
              && g != cfg.elbSecurityGroup && g in groups
              && (t.clusterId != "" ==> "OscK8sClusterID/" + t.clusterId in groups[g].tags)
              && exists j :: from <= j < i && log[j].call == DeleteLb(name) && log[j].ok
  {
    forall i | from <= i < |log| && log[i].call.DeleteGroup?
      ensures log[i].call.id in Deletable(cfg, t, groups, AttachedGroups(cfg, lbGroups))
      ensures exists j :: from <= j < i && log[j].call == DeleteLb(name) && log[j].ok
    {
      assert DeletedAt(log[..i], from, name);
      var j :| from <= j < |log[..i]| && log[..i][j].call == DeleteLb(name) && log[..i][j].ok;
      assert log[j] == log[..i][j];
    }
  }

  lemma DeletesAreInOrder(before: seq<Event>, log: seq<Event>, from: nat, name: string, account: string, lbGroup: string, may: set<string>)
    requires from <= |before| && before <= log && DeletedAt(before, from, name)
    requires OnlyCalls(before, from, e => UnlinkCall(e, name, account, lbGroup))
    requires OnlyDeletes(log, |before|, may)
    ensures DeletesInOrder(log, from, name, may)
  {
    assert forall i :: from <= i < |before| ==> UnlinkCall(before[i], name, account, lbGroup);
    assert forall i :: from <= i < |before| ==> log[i] == before[i];
    var d :| from <= d < |before| && before[d].call == DeleteLb(name) && before[d].ok;
    forall i | from <= i < |log| && log[i].call.DeleteGroup?
      ensures log[i].call.id in may && DeletedAt(log[..i], from, name)
    {
      assert log[..i][d] == before[d];
    }
  }

  lemma NoDeletesYet(log: seq<Event>, from: nat, name: string, account: string, lbGroup: string, may: set<string>)
    requires OnlyCalls(log, from, e => UnlinkCall(e, name, account, lbGroup))
    ensures DeletesInOrder(log, from, name, may)
  {
    assert forall i :: from <= i < |log| ==> UnlinkCall(log[i], name, account, lbGroup);
  }

  /** The groups the load balancer had; in the public cloud a name stands for them. */
  function AttachedGroups(cfg: Config, lbGroups: seq<string>): seq<string> {
    if |lbGroups| == 0 && cfg.vpcId == "" then [DEFAULT_SRC_SG_NAME] else lbGroups
  }

  /** What any run may have done to the groups: some deletable ones are gone, and others may have lost or kept the load balancer's rule. */
  ghost predicate PartlyDeleted(cfg: Config, t: Identity, account: string, before: Groups, after: Groups, lbGroups: seq<string>) {
    var gone := before.Keys - after.Keys;
    && gone <= Deletable(cfg, t, before, AttachedGroups(cfg, lbGroups))
    && OnlyLbRuleOf(cfg, account, LbGroup(lbGroups, []), before - gone, after, ActualGroups(t, before, LbGroup(lbGroups, [])))
  }

  lemma SplitIsPartlyDeleted(cfg: Config, t: Identity, account: string, before: Groups, open: Groups, after: Groups, lbGroups: seq<string>,
                             remaining: set<string>)
    requires OnlyLbRuleOf(cfg, account, LbGroup(lbGroups, []), before, open, ActualGroups(t, before, LbGroup(lbGroups, [])))
    requires Split(open, Deletable(cfg, t, before, AttachedGroups(cfg, lbGroups)), remaining, after)
    ensures PartlyDeleted(cfg, t, account, before, after, lbGroups)
  {
  }

  lemma SameDeletable(cfg: Config, t: Identity, account: string, lbGroup: string, before: Groups, after: Groups, lbGroups: seq<string>,
                      touched: set<string>)
    requires OnlyLbRuleOf(cfg, account, lbGroup, before, after, touched)
    ensures Deletable(cfg, t, after, lbGroups) == Deletable(cfg, t, before, lbGroups)
  {
  }

  /** Some group was tried to be deleted. */
  ghost predicate GroupsTried(log: seq<Event>, from: nat) {
    exists i :: from <= i < |log| && log[i].call.DeleteGroup?
  }

  /** A group that should be deleted is still there. */
  ghost predicate Leftover(cfg: Config, t: Identity, before: Groups, after: Groups, lbGroups: seq<string>) {
    exists g :: g in Deletable(cfg, t, before, AttachedGroups(cfg, lbGroups)) && g in after
  }

  lemma RemainingIsLeftover(cfg: Config, t: Identity, before: Groups, open: Groups, after: Groups, lbGroups: seq<string>, remaining: set<string>)
    requires open.Keys == before.Keys && remaining != {}
    requires Split(open, Deletable(cfg, t, before, AttachedGroups(cfg, lbGroups)), remaining, after)
    ensures Leftover(cfg, t, before, after, lbGroups)
  {
    var g :| g in remaining;
    assert g in after;
  }

  /** Deletes the load balancer and the deletable groups it had. */
  method DeleteExisting(api: Api, clock: Clock, cfg: Config, t: Identity, name: string, lb: LbView) returns (r: Outcome)
    requires api.Valid() && (cfg.vpcId != "" ==> LbGroup(lb.securityGroups, []) != DEFAULT_SRC_SG_NAME)
    modifies api`groups, api`lbs, api`log, clock
    ensures api.Valid() && old(api.log) <= api.log
    ensures api.lbs - {name} == old(api.lbs) - {name}
    ensures name in api.lbs ==> name in old(api.lbs) && SameRestBut(old(api.lbs)[name], api.lbs[name])
    ensures GroupsTried(api.log, |old(api.log)|) ==>
              name !in api.lbs && (r.Failure? ==> Leftover(cfg, t, old(api.groups), api.groups, lb.securityGroups))
    ensures PartlyDeleted(cfg, t, api.account, old(api.groups), api.groups, lb.securityGroups)
    ensures DeletesInOrder(api.log, |old(api.log)|, name, Deletable(cfg, t, old(api.groups), AttachedGroups(cfg, lb.securityGroups)))
    ensures r.Done? ==>
              && name !in api.lbs
              && api.groups == Unlinked(cfg, t, api.account, old(api.groups), LbGroup(lb.securityGroups, []))
                               - Deletable(cfg, t, old(api.groups), AttachedGroups(cfg, lb.securityGroups))
  {
    ghost var lbGroup := LbGroup(lb.securityGroups, []);
    ghost var before, from := api.groups, |api.log|;
    ghost var may := Deletable(cfg, t, api.groups, AttachedGroups(cfg, lb.securityGroups));
    r := Unlink(api, cfg, t, name, lb);
    NoDeletesYet(api.log, from, name, api.account, lbGroup, may);
    assert !GroupsTried(api.log, from);
    SameDeletable(cfg, t, api.account, lbGroup, before, api.groups, AttachedGroups(cfg, lb.securityGroups),
                  ActualGroups(t, before, lbGroup));
    ghost var open := api.groups;
    SplitIsPartlyDeleted(cfg, t, api.account, before, open, api.groups, lb.securityGroups, may);
    if r.Failure? {
      return;
    }
    var ids := CollectGroups(api, cfg, t, AttachedGroups(cfg, lb.securityGroups));
    if ids.Err? {
      return Failure(ids.error);
    }
    ghost var log := api.log;
    var remaining;
    r, remaining := DeleteGroups(api, clock, ids.value);
    SplitIsPartlyDeleted(cfg, t, api.account, before, open, api.groups, lb.securityGroups, remaining);
    DeletesAreInOrder(log, api.log, from, name, api.account, lbGroup, may);
    assert ids.value - {} == ids.value;
    if r.Failure? {
      RemainingIsLeftover(cfg, t, before, open, api.groups, lb.securityGroups, remaining);
    }
  }

  /**
   Success for a load balancer that existed means it and all deletable groups it had are gone, and the groups of the
   cluster no longer let it in. Once a group was tried, the load balancer is gone, whatever the outcome. A load balancer
   that is already gone counts as success.
   */
  method EnsureLoadBalancerDeleted(api: Api, clock: Clock, cfg: Config, t: Identity, name: string) returns (r: Outcome)
    requires api.Valid()
    requires name in api.lbs && cfg.vpcId != "" ==> LbGroup(api.lbs[name].securityGroups, []) != DEFAULT_SRC_SG_NAME
    modifies api`groups, api`lbs, api`log, clock
    ensures api.Valid() && old(api.log) <= api.log
    ensures api.lbs - {name} == old(api.lbs) - {name}
    ensures r.Done? ==> name !in api.lbs
    ensures name in api.lbs ==> name in old(api.lbs) && SameRestBut(old(api.lbs)[name], api.lbs[name])
    ensures name !in old(api.lbs) ==> api.groups == old(api.groups) && api.log == old(api.log)
    ensures api.reliable && name !in old(api.lbs) ==> r.Done?
    ensures name in old(api.lbs) && GroupsTried(api.log, |old(api.log)|) ==>
              name !in api.lbs
              && (r.Failure? ==> Leftover(cfg, t, old(api.groups), api.groups, old(api.lbs)[name].securityGroups))
    ensures name in old(api.lbs) ==>
              PartlyDeleted(cfg, t, api.account, old(api.groups), api.groups, old(api.lbs)[name].securityGroups)
    ensures name in old(api.lbs) ==>
              DeletesInOrder(api.log, |old(api.log)|, name,
                             Deletable(cfg, t, old(api.groups), AttachedGroups(cfg, old(api.lbs)[name].securityGroups)))
    ensures name in old(api.lbs) && r.Done? ==>
              api.groups == Unlinked(cfg, t, api.account, old(api.groups), LbGroup(old(api.lbs)[name].securityGroups, []))
                            - Deletable(cfg, t, old(api.groups), AttachedGroups(cfg, old(api.lbs)[name].securityGroups))
    // Whatever happens, the configured group stays; a group is only tried to be deleted if the load balancer had it (the
    // public cloud's name standing for none), it bears the cluster's key, and the load balancer is gone.
    ensures cfg.elbSecurityGroup in old(api.groups) ==> cfg.elbSecurityGroup in api.groups
    ensures name in old(api.lbs) && r.Done? ==> forall g :: g in api.groups <==>
              && g in old(api.groups)
              && !(&& (g in old(api.lbs)[name].securityGroups
                       || (old(api.lbs)[name].securityGroups == [] && cfg.vpcId == "" && g == "outscale-elb-sg"))
                   && g != cfg.elbSecurityGroup
                   && (t.clusterId != "" ==> "OscK8sClusterID/" + t.clusterId in old(api.groups)[g].tags))
    ensures forall i :: |old(api.log)| <= i < |api.log| && api.log[i].call.DeleteGroup? ==>
              var g := api.log[i].call.id;
              && name in old(api.lbs)
              && (g in old(api.lbs)[name].securityGroups
                  || (old(api.lbs)[name].securityGroups == [] && cfg.vpcId == "" && g == "outscale-elb-sg"))
              && g != cfg.elbSecurityGroup && g in old(api.groups)
              && (t.clusterId != "" ==> "OscK8sClusterID/" + t.clusterId in old(api.groups)[g].tags)
              && exists j :: |old(api.log)| <= j < i && api.log[j].call == DeleteLb(name) && api.log[j].ok
  {
    var described := api.DescribeLoadBalancer(name);
    if described.Err? {
      return Failure(described.error);
    }
    if described.value.None? {
      return Done;
    }
    r := DeleteExisting(api, clock, cfg, t, name, described.value.value);
    DeletableAre(cfg, t, old(api.groups), described.value.value.securityGroups);
    DeletesMean(api.log, |old(api.log)|, name, cfg, t, old(api.groups), described.value.value.securityGroups);
  }

  /**
   A deletion and another one after it failed. When the first failed while it deleted groups, some are left; the second
   then calls nothing and, in a reliable cloud, succeeds: they stay.
   */
  method DeleteTwice(api: Api, clock: Clock, cfg: Config, t: Identity, name: string)
    returns (first: Outcome, second: Outcome, ghost half: nat)
    requires api.Valid() && name in api.lbs
    requires cfg.vpcId != "" ==> LbGroup(api.lbs[name].securityGroups, []) != DEFAULT_SRC_SG_NAME
    modifies api`groups, api`lbs, api`log, clock
    ensures api.Valid() && old(api.log) <= api.log && |old(api.log)| <= half <= |api.log|
    ensures first.Failure? && GroupsTried(api.log[..half], |old(api.log)|) ==>
              && Leftover(cfg, t, old(api.groups), api.groups, old(api.lbs)[name].securityGroups)
              && |api.log| == half && (api.reliable ==> second.Done?)
  {
    first := EnsureLoadBalancerDeleted(api, clock, cfg, t, name);
    half := |api.log|;
    assert api.log[..half] == api.log;
    if first.Done? {
      return first, first, half;
    }
    ghost var log := api.log;
    second := EnsureLoadBalancerDeleted(api, clock, cfg, t, name);
    assert api.log[..half] == log;
  }

  // ---------- Which groups a deletion closes ----------

  /** A deletion closes the cluster's groups, except the configured one, in a net of its own. */
  ghost predicate Closes(cfg: Config, t: Identity, groups: Groups, g: string) {
    cfg.vpcId != "" && !cfg.disableSecurityGroupIngress && g != cfg.elbSecurityGroup && g in groups && Ours(t, groups[g].tags)
  }

  /**
   After a deletion a group that it closes names the source group exactly when it had a rule of another shape that
   does; any other group exactly when it named it before.
   */
  lemma NamedAfterDeletionIff(cfg: Config, t: Identity, account: string, before: Groups, lbGroup: string, g: string)
    requires g in before
    ensures NamesLb(Unlinked(cfg, t, account, before, lbGroup)[g].rules, lbGroup)
            <==> if Closes(cfg, t, before, g)
                 then exists a :: a in before[g].rules && Names(a, lbGroup) && a != LbAtom(account, lbGroup)
                 else NamesLb(before[g].rules, lbGroup)
  {
    NothingWanted(cfg, t, before, lbGroup);
    ActualIffNames(t, before, lbGroup, g);
    if Closes(cfg, t, before, g) {
      PassInGeneral(cfg, t, account, lbGroup, before, Unlinked(cfg, t, account, before, lbGroup), map[], g);
    }
  }

  /** What closing does to one group: in a net of its own, the cluster's groups but the configured one lose one permission. */
  lemma UnlinkedAt(cfg: Config, t: Identity, account: string, groups: Groups, lbGroup: string, g: string)
    requires g in groups
    ensures Unlinked(cfg, t, account, groups, lbGroup).Keys == groups.Keys
    ensures Unlinked(cfg, t, account, groups, lbGroup)[g] ==
            if cfg.vpcId != "" && !cfg.disableSecurityGroupIngress && g != cfg.elbSecurityGroup
               && (t.clusterId == "" || "OscK8sClusterID/" + t.clusterId in groups[g].tags)
            then groups[g].(rules := groups[g].rules - {Atom(Some("-1"), Some(-1), Some(-1), Group(Member(lbGroup, Some(account))))})
            else groups[g]
  {
    NothingWanted(cfg, t, groups, lbGroup);
    ActualIffNames(t, groups, lbGroup, g);
    assert !NamesLb(groups[g].rules, lbGroup) ==> groups[g].rules - {LbAtom(account, lbGroup)} == groups[g].rules by {
      assert Names(LbAtom(account, lbGroup), lbGroup);
    }
  }

  /** An instance's group without the cluster tag is opened for a load balancer, and stays open when that is deleted. */
  lemma UntaggedGroupStaysOpen(cfg: Config, t: Identity, account: string, before: Groups, lbGroup: string, instances: map<string, Vm>, g: string)
    requires g in before && g != cfg.elbSecurityGroup
    requires g in Needed(instances, TaggedGroups(t, before)) && !Ours(t, before[g].tags)
    ensures var open := Applied(cfg, account, lbGroup, before, PassChanges(t, lbGroup, before, instances));
            LetsIn(open[g].rules, lbGroup) && LetsIn(Unlinked(cfg, t, account, open, lbGroup)[g].rules, lbGroup)
  {
    var open := Applied(cfg, account, lbGroup, before, PassChanges(t, lbGroup, before, instances));
    PassInGeneral(cfg, t, account, lbGroup, before, open, instances, g);
    NothingWanted(cfg, t, open, lbGroup);
    ActualIffNames(t, open, lbGroup, g);
  }
}
