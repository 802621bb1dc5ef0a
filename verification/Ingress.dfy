/** Bringing the ingress rules of one security group to the desired ones (ccm_cloud.go). */
module Ingress {
  import opened Wrappers
  import opened Collections
  import opened IpRules
  import opened CloudApi
  import opened Config

  /** The rules can be compared with what the cloud reports: one kind of source each, accounts spelled out. */
  ghost predicate Comparable(rules: set<Rule>) {
    AllSingleKind(rules) && forall a :: a in Meaning(rules) ==> Resolved(a)
  }

  /** What the cloud understands a request for these permissions to be. */
  ghost function Asked(account: string, atoms: set<Atom>): set<Atom> {
    set a | a in atoms :: Resolve(account, a)
  }

  lemma ResolvedIsAsked(account: string, atoms: set<Atom>)
    requires forall a :: a in atoms ==> Resolved(a)
    ensures Asked(account, atoms) == atoms
  {
    assert forall a :: a in atoms ==> Resolve(account, a) == a;
  }

  method FindSecurityGroup(api: Api, id: string) returns (r: Result<Option<GroupView>>)
    requires api.Valid()
    ensures r.Ok? ==> (r.value.Some? <==> id in api.groups)
    ensures r.Ok? && r.value.Some? ==> r.value.value.id == id && ShowsGroup(r.value.value, api.groups[id])
    ensures api.reliable ==> r.Ok?
  {
    var read := api.ReadSecurityGroups(ById([id]));
    if read.Err? {
      return Err(read.error);
    }
    var views := read.value;
    assert Selected(ById([id]), api.groups) == if id in api.groups then {id} else {};
    OneView(views, id, api.groups);
    if |views| == 0 {
      return Ok(None);
    }
    if |views| != 1 {
      return Err(Invalid("multiple security groups found with same id"));
    }
    assert views[0] in views;
    return Ok(Some(views[0]));
  }

  lemma OneView(views: seq<GroupView>, id: string, groups: Groups)
    requires ViewsOf(views, if id in groups then {id} else {}, groups)
    ensures |views| == (if id in groups then 1 else 0)
    ensures forall v :: v in views ==> v.id == id
  {
    var ids := Ids(views);
    forall i | 0 <= i < |views| ensures views[i].id == id && id in groups {
      assert ids[i] in Elems(ids);
    }
    ListingLength(ids, if id in groups then {id} else {});
  }

  /** What may be seen after any call on the way from the old rules to the desired ones. */
  ghost predicate OnTheWay(id: string, before: Groups, now: Groups, desired: set<Atom>)
    requires id in before
  {
    OnlyRulesOf(id, before, now) && before[id].rules * desired <= now[id].rules <= before[id].rules + desired
  }

  /** Every call was on the way, and rules were only taken away once everything desired was there. */
  ghost predicate SafeEvents(id: string, before: Groups, events: seq<Event>, desired: set<Atom>)
    requires id in before
  {
    forall e :: e in events ==> OnTheWay(id, before, e.after, desired) && (e.call.DeleteRules? ==> desired <= e.after[id].rules)
  }

  ghost predicate OnlyRuleCalls(id: string, before: Groups, events: seq<Event>) {
    forall e :: e in events ==>
      (e.call.CreateRules? || e.call.DeleteRules?) && e.call.id == id && OnlyRulesOf(id, before, e.after)
  }

  /**
   What one run achieves when what was reported fits. Success leaves exactly the desired permissions and tells a
   change; whatever fails, everything old and desired stayed and nothing else appeared. A run that came to
   deleting leaves everything desired, even when the deletion failed. If every reported rule permits something, a run
   that has nothing to change calls nothing and tells no change.
   */
  ghost predicate IngressRun(id: string, before: Groups, after: Groups, events: seq<Event>, desired: set<Atom>, sourced: bool, r: Result<bool>)
    requires id in before
  {
    && OnTheWay(id, before, after, desired)
    && SafeEvents(id, before, events, desired)
    && (r.Ok? ==> after[id].rules == desired && (before[id].rules != desired ==> r.value))
    && (Deleting(events) ==> desired <= after[id].rules)
    && (sourced && before[id].rules == desired ==> events == [] && (r.Ok? ==> !r.value))
  }

  ghost predicate Deleting(events: seq<Event>) {
    exists e :: e in events && e.call.DeleteRules?
  }

  /** The rules to create and to delete, both in ungrouped form. */
  method PlanIngress(inbound: seq<Rule>, permissions: IPRulesSet) returns (add: seq<Rule>, remove: seq<Rule>)
    requires permissions.Valid()
    ensures Elems(add) == Ungrouped(permissions.Rules()) - Ungrouped(Elems(inbound))
    ensures Elems(remove) == Ungrouped(Elems(inbound)) - Ungrouped(permissions.Rules())
  {
    var actual := new IPRulesSet(inbound);
    var wanted := permissions.Ungroup();
    var ungrouped := actual.Ungroup();
    var removeSet := ungrouped.Difference(wanted);
    var addSet := wanted.Difference(ungrouped);
    add := addSet.List();
    remove := removeSet.List();
  }

  /**
   One application of additions and removals: nothing that stays is ever missing, nothing else appears, removals begin
   only when all additions are there, and in the end both are done. Additions are refused if one of them is there already.
   */
  ghost predicate ApplyRun(id: string, before: Groups, after: Groups, events: seq<Event>, add: set<Atom>, remove: set<Atom>, finished: bool)
    requires id in before
  {
    var had := before[id].rules;
    && OnlyRulesOf(id, before, after) && OnlyRuleCalls(id, before, events)
    && Between(had, add, remove, after[id].rules)
    && (forall e :: e in events ==> Between(had, add, remove, e.after[id].rules))
    && (forall e :: e in events && e.call.DeleteRules? ==> (had + add) - remove <= e.after[id].rules)
    && (if Deleting(events) then had !! add && (had + add) - remove <= after[id].rules else had <= after[id].rules)
    && (finished ==> had !! add && after[id].rules == (had + add) - remove)
  }

  ghost predicate Between(had: set<Atom>, add: set<Atom>, remove: set<Atom>, now: set<Atom>) {
    had - remove <= now <= had + add
  }

  lemma AfterCreating(id: string, before: Groups, mid: Groups, events: seq<Event>, add: set<Atom>, remove: set<Atom>)
    requires id in before && OnlyRulesOf(id, before, mid)
    requires before[id].rules <= mid[id].rules <= before[id].rules + add
    requires forall e :: e in events ==> e.after == mid && e.call == CreateRules(id, add)
    ensures ApplyRun(id, before, mid, events, add, remove, false)
  {
  }

  lemma AfterDeleting(id: string, before: Groups, mid: Groups, after: Groups, created: seq<Event>, events: seq<Event>,
                      add: set<Atom>, remove: set<Atom>, finished: bool)
    requires id in before && ApplyRun(id, before, mid, created, add, remove, false) && !Deleting(created)
    requires before[id].rules !! add
    requires mid[id].rules == before[id].rules + add && OnlyRulesOf(id, mid, after)
    requires mid[id].rules - remove <= after[id].rules <= mid[id].rules
    requires finished ==> after[id].rules == mid[id].rules - remove
    requires forall e :: e in events ==> e.after == after && e.call == DeleteRules(id, remove)
    requires events == [] ==> after == mid
    ensures ApplyRun(id, before, after, created + events, add, remove, finished)
  {
    if events != [] {
      assert events[0] in created + events && events[0].call.DeleteRules?;
    }
  }

  lemma NothingApplied(id: string, groups: Groups, add: set<Atom>, remove: set<Atom>)
    requires id in groups
    ensures ApplyRun(id, groups, groups, [], add, remove, false)
    ensures add == {} && remove == {} ==> ApplyRun(id, groups, groups, [], add, remove, true)
  {
  }

  /** For the differences between what is there and what is desired, that is an ingress run. */
  lemma ApplyRunIsIngressRun(id: string, before: Groups, after: Groups, events: seq<Event>, desired: set<Atom>, sourced: bool, r: Result<bool>)
    requires id in before
    requires ApplyRun(id, before, after, events, desired - before[id].rules, before[id].rules - desired, r.Ok?)
    requires r.Ok? && before[id].rules != desired ==> r.value
    requires sourced && before[id].rules == desired ==> events == [] && (r.Ok? ==> !r.value)
    ensures IngressRun(id, before, after, events, desired, sourced, r)
  {
    var had := before[id].rules;
    assert had + (desired - had) == had + desired;
    assert (had + desired) - (had - desired) == desired;
    forall e | e in events ensures OnTheWay(id, before, e.after, desired) {
    }
  }

  /** The plan's sets of permissions, for comparable rules and a report of rules with their accounts. */
  lemma PlanIsAsked(account: string, wanted: set<Rule>, reported: set<Rule>)
    requires Comparable(wanted) && forall a :: a in Meaning(reported) ==> Resolved(a)
    ensures Asked(account, PlannedAdditions(wanted, reported)) == PlannedAdditions(wanted, reported)
    ensures Asked(account, PlannedRemovals(wanted, reported)) == PlannedRemovals(wanted, reported)
  {
    PlanBounds(wanted, reported);
    ResolvedIsAsked(account, PlannedAdditions(wanted, reported));
    ResolvedIsAsked(account, PlannedRemovals(wanted, reported));
  }

  /** What a run of the plan achieves: if the report fits, an ingress run; and success is right exactly if it fits. */
  lemma PlannedRun(account: string, reliable: bool, id: string, before: Groups, after: Groups, events: seq<Event>, wanted: set<Rule>,
                   reported: set<Rule>, r: Result<bool>)
    requires id in before && Meaning(reported) == before[id].rules
    requires Comparable(wanted) && forall a :: a in before[id].rules ==> Resolved(a)
    requires PlanRun(account, reliable, id, before, after, events, wanted, reported, r)
    ensures Fits(reported, Meaning(wanted)) ==>
              IngressRun(id, before, after, events, Meaning(wanted), Sourced(reported), r)
    ensures r.Ok? ==> (after[id].rules == Meaning(wanted) <==> Fits(reported, Meaning(wanted)))
    ensures reliable && Fits(reported, Meaning(wanted)) ==> r.Ok?
  {
    PlanIsAsked(account, wanted, reported);
    PlanIsRightIff(wanted, reported);
    if Fits(reported, Meaning(wanted)) {
      PlanThatFits(wanted, reported);
      PlanEmptyIffNothingToChange(wanted, reported);
      ApplyRunIsIngressRun(id, before, after, events, Meaning(wanted), Sourced(reported), r);
    }
  }

  /** The run is an application of what the comparison asks for; in a reliable cloud it fails only if an addition is there already. */
  ghost predicate PlanRun(account: string, reliable: bool, id: string, before: Groups, after: Groups, events: seq<Event>,
                          wanted: set<Rule>, reported: set<Rule>, r: Result<bool>)
    requires id in before
  {
    && ApplyRun(id, before, after, events, Asked(account, PlannedAdditions(wanted, reported)),
                Asked(account, PlannedRemovals(wanted, reported)), r.Ok?)
    && (if Ungrouped(wanted) == Ungrouped(reported) then events == [] && (r.Ok? ==> !r.value) else r.Ok? ==> r.value)
    && (reliable ==> (r.Ok? <==> before[id].rules !! Asked(account, PlannedAdditions(wanted, reported))))
  }

  /** What an ingress run says of every moment on the way, of the end, and of the other groups. */
  lemma IngressRunMeans(id: string, before: Groups, after: Groups, events: seq<Event>, desired: set<Atom>, sourced: bool, r: Result<bool>)
    requires id in before && IngressRun(id, before, after, events, desired, sourced, r)
    ensures forall e :: e in events ==>
              && e.after.Keys == before.Keys && (forall g :: g in before && g != id ==> e.after[g] == before[g])
              && before[id].rules * desired <= e.after[id].rules <= before[id].rules + desired
              && (e.call.DeleteRules? ==> desired <= e.after[id].rules)
    ensures after.Keys == before.Keys && forall g :: g in before && g != id ==> after[g] == before[g]
    ensures before[id].rules * desired <= after[id].rules <= before[id].rules + desired
    ensures (exists e :: e in events && e.call.DeleteRules?) ==> desired <= after[id].rules
    ensures r.Ok? ==> after[id].rules == desired && (before[id].rules != desired ==> r.value)
    ensures sourced && before[id].rules == desired ==> events == [] && (r.Ok? ==> !r.value)
  {
  }

  /** And for any report: only what is desired appears, and a run without a deletion loses nothing. */
  lemma PlanRunMeans(account: string, reliable: bool, id: string, before: Groups, after: Groups, events: seq<Event>,
                     wanted: set<Rule>, reported: set<Rule>, r: Result<bool>)
    requires id in before && Comparable(wanted) && PlanRun(account, reliable, id, before, after, events, wanted, reported, r)
    ensures forall e :: e in events ==>
              && (e.call.CreateRules? || e.call.DeleteRules?) && e.call.id == id
              && e.after.Keys == before.Keys && (forall g :: g in before && g != id ==> e.after[g] == before[g])
              && e.after[id].rules <= before[id].rules + Meaning(wanted)
    ensures after[id].rules <= before[id].rules + Meaning(wanted)
    ensures (forall e :: e in events ==> !e.call.DeleteRules?) ==> before[id].rules <= after[id].rules
  {
    PlanBounds(wanted, reported);
    ResolvedIsAsked(account, PlannedAdditions(wanted, reported));
  }

  /** When something asked for is there already, the additions are refused, and nothing is lost. */
  lemma RefusedIfThere(account: string, reliable: bool, id: string, before: Groups, after: Groups, events: seq<Event>,
                       wanted: set<Rule>, reported: set<Rule>, r: Result<bool>, d: Atom)
    requires id in before && PlanRun(account, reliable, id, before, after, events, wanted, reported, r)
    requires d in before[id].rules && d in Asked(account, PlannedAdditions(wanted, reported))
    ensures r.Err? && !Deleting(events) && before[id].rules <= after[id].rules
  {
  }

  /** So it is in every run while a report mixes what is desired with another source. */
  lemma MixedReportIsRefused(account: string, reliable: bool, id: string, before: Groups, after: Groups, events: seq<Event>,
                             cidr: string, member: Member, r: Result<bool>)
    requires id in before && before[id].rules == Meaning({MixedRule(cidr, member)})
    requires PlanRun(account, reliable, id, before, after, events, {RangeRule(cidr)}, {MixedRule(cidr, member)}, r)
    ensures r.Err? && !Deleting(events) && before[id].rules <= after[id].rules
  {
    MixedReportAsksAgain(cidr, member);
    AskedAsItIs(account, PlannedAdditions({RangeRule(cidr)}, {MixedRule(cidr, member)}), RangeAtom(cidr));
    RefusedIfThere(account, reliable, id, before, after, events, {RangeRule(cidr)}, {MixedRule(cidr, member)}, r, RangeAtom(cidr));
  }

  lemma AskedAsItIs(account: string, atoms: set<Atom>, a: Atom)
    requires a in atoms && Resolved(a)
    ensures a in Asked(account, atoms)
  {
    assert Resolve(account, a) == a;
  }

  /**
   Brings the group's rules to the desired ones. The reported rules are whatever the cloud makes of those it has.
   For all reports the run is an application of what the comparison asks for.
   */
  method SetSecurityGroupIngress(api: Api, cfg: Config, id: string, permissions: IPRulesSet)
    returns (r: Result<bool>, ghost reported: seq<Rule>)
    requires api.Valid() && permissions.Valid()
    modifies api`groups, api`log
    ensures api.Valid() && old(api.log) <= api.log
    ensures OnlyRulesOf(id, old(api.groups), api.groups)
    ensures id == cfg.elbSecurityGroup ==> r == Ok(false) && api.log == old(api.log) && api.groups == old(api.groups)
    ensures id != cfg.elbSecurityGroup && id !in old(api.groups) ==> r.Err? && api.log == old(api.log) && api.groups == old(api.groups)
    ensures id != cfg.elbSecurityGroup && id in old(api.groups) ==>
              && Regrouping(reported, old(api.groups)[id].rules)
              && PlanRun(api.account, api.reliable, id, old(api.groups), api.groups, api.log[|old(api.log)|..],
                         permissions.Rules(), Elems(reported), r)
    ensures id != cfg.elbSecurityGroup && id in old(api.groups) && Comparable(permissions.Rules()) ==>
              && (Fits(Elems(reported), Meaning(permissions.Rules())) ==>
                    IngressRun(id, old(api.groups), api.groups, api.log[|old(api.log)|..], Meaning(permissions.Rules()),
                               Sourced(Elems(reported)), r))
              && (r.Ok? ==> (api.groups[id].rules == Meaning(permissions.Rules())
                             <==> Fits(Elems(reported), Meaning(permissions.Rules()))))
              && (api.reliable && Fits(Elems(reported), Meaning(permissions.Rules())) ==> r.Ok?)
  {
    reported := [];
    if id == cfg.elbSecurityGroup {
      return Ok(false), reported;
    }
    ghost var before, from := api.groups, |api.log|;
    r, reported := SyncIngress(api, id, permissions);
    if id in before && Comparable(permissions.Rules()) {
      PlannedRun(api.account, api.reliable, id, before, api.groups, api.log[from..], permissions.Rules(), Elems(reported), r);
    }
  }

  method SyncIngress(api: Api, id: string, permissions: IPRulesSet) returns (r: Result<bool>, ghost reported: seq<Rule>)
    requires api.Valid() && permissions.Valid()
    modifies api`groups, api`log
    ensures api.Valid() && old(api.log) <= api.log && OnlyRulesOf(id, old(api.groups), api.groups)
    ensures id !in old(api.groups) ==> r.Err? && api.log == old(api.log) && api.groups == old(api.groups)
    ensures id in old(api.groups) ==>
              && Regrouping(reported, old(api.groups)[id].rules)
              && PlanRun(api.account, api.reliable, id, old(api.groups), api.groups, api.log[|old(api.log)|..],
                         permissions.Rules(), Elems(reported), r)
  {
    reported := [];
    ghost var wanted, before := permissions.Rules(), api.groups;
    var group := FindSecurityGroup(api, id);
    if group.Err? {
      if id in before {
        RegroupingExists(before[id].rules);
        reported :| Regrouping(reported, before[id].rules);
        NothingApplied(id, before, Asked(api.account, PlannedAdditions(wanted, Elems(reported))),
                       Asked(api.account, PlannedRemovals(wanted, Elems(reported))));
      }
      return Err(group.error), reported;
    }
    if group.value.None? {
      return Err(Invalid("security group not found")), reported;
    }
    reported := group.value.value.inbound;
    r := ApplyPlan(api, id, group.value.value.inbound, permissions);
  }

  /** Compares ungrouped forms, and applies the differences if there are any. */
  method ApplyPlan(api: Api, id: string, inbound: seq<Rule>, permissions: IPRulesSet) returns (r: Result<bool>)
    requires api.Valid() && permissions.Valid() && id in api.groups
    modifies api`groups, api`log
    ensures api.Valid() && old(api.log) <= api.log
    ensures PlanRun(api.account, api.reliable, id, old(api.groups), api.groups, api.log[|old(api.log)|..],
                    permissions.Rules(), Elems(inbound), r)
  {
    ghost var wanted := permissions.Rules();
    var add, remove := PlanIngress(inbound, permissions);
    RequestedIsAsked(api.account, add, PlannedAdditions(wanted, Elems(inbound)));
    RequestedIsAsked(api.account, remove, PlannedRemovals(wanted, Elems(inbound)));
    PlanEmptyIffSame(add, remove, Ungrouped(wanted), Ungrouped(Elems(inbound)));
    if |add| == 0 && |remove| == 0 {
      NothingRequested(api.account);
      NothingApplied(id, api.groups, {}, {});
      return Ok(false);
    }
    r := ApplyIngress(api, id, add, remove);
  }

  lemma RequestedIsAsked(account: string, l: seq<Rule>, atoms: set<Atom>)
    requires Meaning(Elems(l)) == atoms
    ensures Requested(account, l) == Asked(account, atoms)
  {
  }

  lemma PlanEmptyIffSame(add: seq<Rule>, remove: seq<Rule>, wanted: set<Rule>, reported: set<Rule>)
    requires Elems(add) == wanted - reported && Elems(remove) == reported - wanted
    ensures add == [] && remove == [] <==> wanted == reported
  {
    NonEmptyHasMember(add);
    NonEmptyHasMember(remove);
    assert forall u :: u in add ==> u in Elems(add);
    assert forall u :: u in remove ==> u in Elems(remove);
    if add == [] && remove == [] {
      assert Elems(add) == {} && Elems(remove) == {};
      forall u ensures u in wanted <==> u in reported {
        assert u !in wanted - reported && u !in reported - wanted;
      }
    }
  }

  /** Creates first and deletes afterwards, so that nothing desired is ever missing in between. */
  method ApplyIngress(api: Api, id: string, add: seq<Rule>, remove: seq<Rule>) returns (r: Result<bool>)
    requires api.Valid() && id in api.groups
    modifies api`groups, api`log
    ensures api.Valid() && old(api.log) <= api.log
    ensures ApplyRun(id, old(api.groups), api.groups, api.log[|old(api.log)|..],
                     Requested(api.account, add), Requested(api.account, remove), r.Ok?)
    ensures r.Ok? ==> r.value
    ensures api.reliable ==> (r.Ok? <==> old(api.groups)[id].rules !! Requested(api.account, add))
  {
    ghost var before, from := api.groups, |api.log|;
    var done := CreateMissing(api, id, add);
    ghost var mid, created := api.groups, api.log[from..];
    AfterCreating(id, before, mid, created, Requested(api.account, add), Requested(api.account, remove));
    if done.Failure? {
      return Err(done.error);
    }
    ghost var log := api.log;
    done := DeleteSurplus(api, id, remove);
    AfterDeleting(id, before, mid, api.groups, created, api.log[|log|..],
                  Requested(api.account, add), Requested(api.account, remove), done.Done?);
    SliceOfLonger(log, api.log, from);
    r := if done.Done? then Ok(true) else Err(done.error);
  }

  lemma SliceOfLonger(log: seq<Event>, longer: seq<Event>, from: nat)
    requires from <= |log| && log <= longer
    ensures longer[from..] == log[from..] + longer[|log|..]
  {
    assert longer[..|log|] == log;
    assert longer == log + longer[|log|..];
  }

  method CreateMissing(api: Api, id: string, add: seq<Rule>) returns (r: Outcome)
    requires api.Valid() && id in api.groups
    modifies api`groups, api`log
    ensures api.Valid() && OnlyRulesOf(id, old(api.groups), api.groups)
    ensures old(api.groups)[id].rules <= api.groups[id].rules <= old(api.groups)[id].rules + Requested(api.account, add)
    ensures r.Done? ==> old(api.groups)[id].rules !! Requested(api.account, add)
    ensures r.Done? ==> api.groups[id].rules == old(api.groups)[id].rules + Requested(api.account, add)
    ensures api.log == if add == [] then old(api.log)
                       else old(api.log) + [Event(CreateRules(id, Requested(api.account, add)), r.Done?, api.groups)]
    ensures api.reliable && old(api.groups)[id].rules !! Requested(api.account, add) ==> r.Done?
  {
    NothingRequested(api.account);
    r := Done;
    if |add| != 0 {
      r := api.CreateSecurityGroupRule(id, add);
    }
  }

  method DeleteSurplus(api: Api, id: string, remove: seq<Rule>) returns (r: Outcome)
    requires api.Valid() && id in api.groups
    modifies api`groups, api`log
    ensures api.Valid() && OnlyRulesOf(id, old(api.groups), api.groups)
    ensures old(api.groups)[id].rules - Requested(api.account, remove) <= api.groups[id].rules <= old(api.groups)[id].rules
    ensures r.Done? ==> api.groups[id].rules == old(api.groups)[id].rules - Requested(api.account, remove)
    ensures api.log == if remove == [] then old(api.log)
                       else old(api.log) + [Event(DeleteRules(id, Requested(api.account, remove)), r.Done?, api.groups)]
    ensures remove == [] ==> api.groups == old(api.groups)
    ensures api.reliable ==> r.Done?
  {
    NothingRequested(api.account);
    r := Done;
    if |remove| != 0 {
      r := api.DeleteSecurityGroupRule(id, remove);
    }
  }

  lemma NothingRequested(account: string)
    ensures Requested(account, []) == {}
  {
    assert Meaning(Elems([])) == {};
  }

  // ---------- Repeated attempts ----------

  /** One attempt, seen from the group's rules: where it may end, whether it came to deleting, and what its answer says. */
  ghost predicate Attempt(before: set<Atom>, desired: set<Atom>, after: set<Atom>, sourced: bool, deleting: bool, r: Result<bool>) {
    && before * desired <= after <= before + desired
    && (deleting ==> desired <= after)
    && (r.Ok? ==> after == desired && (before != desired ==> r.value) && (sourced ==> (r.value <==> before != desired)))
  }

  /** A run is such an attempt. */
  lemma RunIsAttempt(id: string, before: Groups, after: Groups, events: seq<Event>, desired: set<Atom>, sourced: bool, r: Result<bool>)
    requires id in before && IngressRun(id, before, after, events, desired, sourced, r)
    ensures Attempt(before[id].rules, desired, after[id].rules, sourced, Deleting(events), r)
  {
  }

  /**
   Over any number of attempts, failing or not: what was there and desired is never lost and nothing undesired is
   added; from the first attempt on that came to deleting, failed or not, everything desired is there; and from
   the first success on the rules are the desired ones.
   */
  lemma {:induction false} AttemptsAreSafeAndSettle(rules: seq<set<Atom>>, desired: set<Atom>, sourced: seq<bool>, deleting: seq<bool>,
                                                   rs: seq<Result<bool>>, k: nat)
    requires |rules| == |rs| + 1 && |sourced| == |deleting| == |rs| && k <= |rs|
    requires forall i :: 0 <= i < |rs| ==> Attempt(rules[i], desired, rules[i + 1], sourced[i], deleting[i], rs[i])
    ensures rules[0] * desired <= rules[k] <= rules[0] + desired
    ensures forall i :: 0 <= i < k && deleting[i] ==> desired <= rules[k]
    ensures forall i :: 0 <= i < k && rs[i].Ok? ==>
              rules[k] == desired && (k < |rs| && rs[k].Ok? && sourced[k] ==> !rs[k].value)
  {
    if k > 0 {
      AttemptsAreSafeAndSettle(rules, desired, sourced, deleting, rs, k - 1);
      assert Attempt(rules[k - 1], desired, rules[k], sourced[k - 1], deleting[k - 1], rs[k - 1]);
    }
    if k < |rs| {
      assert Attempt(rules[k], desired, rules[k + 1], sourced[k], deleting[k], rs[k]);
    }
  }
}
