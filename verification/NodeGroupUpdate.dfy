/** Which instances' groups must let one load balancer in, and the pass that makes it so (ccm_cloud.go, utils.go). */
module NodeGroupUpdate {
  import opened Wrappers
  import opened Collections
  import opened IpRules
  import opened CloudApi
  import opened Config
  import opened Tagging
  import opened NodeGroups

  /** An instance with the ids of its security groups; an id may be empty. */
  datatype Vm = Vm(id: string, securityGroups: seq<string>)

  const MAIN_SG_PREFIX := "OscK8sMainSG/"

  // ---------- The group of an instance ----------

  /** The groups an instance's own group is chosen from: the tagged ones if it has any, else all. */
  ghost predicate Eligible(l: seq<string>, tagged: set<string>, i: nat) {
    i < |l| && l[i] != "" && ((exists x :: x in l && x != "" && x in tagged) ==> l[i] in tagged)
  }

  ghost predicate Sole(l: seq<string>, tagged: set<string>, i: nat) {
    Eligible(l, tagged, i) && forall j :: Eligible(l, tagged, j) ==> j == i
  }

  ghost predicate Ambiguous(l: seq<string>, tagged: set<string>) {
    exists i: nat, j: nat :: i < j && Eligible(l, tagged, i) && Eligible(l, tagged, j)
  }

  predicate Sorted(at: seq<nat>) {
    forall j, k :: 0 <= j < k < |at| ==> at[j] < at[k]
  }

  /** The positions of the non-empty ids of l[..upTo] that are tagged, or that are not, in order. */
  ghost predicate Picks(l: seq<string>, upTo: nat, tagged: set<string>, wanted: bool, picked: seq<string>, at: seq<nat>) {
    && upTo <= |l| && |picked| == |at| && Sorted(at)
    && (forall k :: 0 <= k < |at| ==> at[k] < upTo && picked[k] == l[at[k]] && l[at[k]] != "" && (l[at[k]] in tagged) == wanted)
    && (forall i :: 0 <= i < upTo && l[i] != "" && (l[i] in tagged) == wanted ==> i in at)
  }

  lemma PicksGrow(l: seq<string>, upTo: nat, tagged: set<string>, wanted: bool, picked: seq<string>, at: seq<nat>)
    requires Picks(l, upTo, tagged, wanted, picked, at) && upTo < |l|
    ensures l[upTo] != "" && (l[upTo] in tagged) == wanted ==> Picks(l, upTo + 1, tagged, wanted, picked + [l[upTo]], at + [upTo])
    ensures l[upTo] == "" || (l[upTo] in tagged) != wanted ==> Picks(l, upTo + 1, tagged, wanted, picked, at)
  {
    assert forall i :: i in at ==> i in at + [upTo];
    assert upTo in at + [upTo];
  }

  /** The eligible positions are the tagged ones, or the untagged ones when there are none. */
  lemma PicksAreEligible(l: seq<string>, tagged: set<string>, wanted: bool, picked: seq<string>, at: seq<nat>)
    requires Picks(l, |l|, tagged, wanted, picked, at) && |at| > 0
    requires wanted || forall x :: x in l && x != "" ==> x !in tagged
    ensures forall i: nat :: Eligible(l, tagged, i) <==> i in at
    ensures |at| == 1 ==> Sole(l, tagged, at[0]) && l[at[0]] == picked[0]
    ensures |at| > 1 ==> Ambiguous(l, tagged)
  {
    assert wanted ==> l[at[0]] in l && l[at[0]] in tagged;
    forall k | 0 <= k < |at| ensures Eligible(l, tagged, at[k]) {
    }
    forall i: nat | Eligible(l, tagged, i) ensures i in at {
      assert l[i] in l;
    }
    if |at| > 1 {
      assert at[0] < at[1] && Eligible(l, tagged, at[0]) && Eligible(l, tagged, at[1]);
    }
  }

  method SplitGroups(l: seq<string>, taggedGroups: set<string>)
    returns (tagged: seq<string>, untagged: seq<string>, ghost atTagged: seq<nat>, ghost atUntagged: seq<nat>)
    ensures Picks(l, |l|, taggedGroups, true, tagged, atTagged)
    ensures Picks(l, |l|, taggedGroups, false, untagged, atUntagged)
  {
    tagged, untagged, atTagged, atUntagged := [], [], [], [];
    for i := 0 to |l|
      invariant Picks(l, i, taggedGroups, true, tagged, atTagged)
      invariant Picks(l, i, taggedGroups, false, untagged, atUntagged)
    {
      PicksGrow(l, i, taggedGroups, true, tagged, atTagged);
      PicksGrow(l, i, taggedGroups, false, untagged, atUntagged);
      if l[i] == "" {
        continue;
      }
      if l[i] in taggedGroups {
        tagged, atTagged := tagged + [l[i]], atTagged + [i];
      } else {
        untagged, atUntagged := untagged + [l[i]], atUntagged + [i];
      }
    }
  }

  /** The only eligible group, none when there is no group at all, an error when several are eligible. */
  method FindSecurityGroupForInstance(vm: Vm, taggedGroups: set<string>) returns (r: Result<Option<string>>)
    ensures r.Ok? && r.value.Some? ==> Chosen(vm.securityGroups, taggedGroups, r.value.value)
    ensures r.Ok? && r.value.None? ==> forall x :: x in vm.securityGroups ==> x == ""
    ensures r.Err? <==> Ambiguous(vm.securityGroups, taggedGroups)
  {
    var tagged, untagged, atTagged, atUntagged := SplitGroups(vm.securityGroups, taggedGroups);
    if |tagged| > 0 {
      PicksAreEligible(vm.securityGroups, taggedGroups, true, tagged, atTagged);
      if |tagged| != 1 {
        return Err(Invalid("Multiple tagged security groups found for instance"));
      }
      return Ok(Some(tagged[0]));
    }
    if |untagged| > 0 {
      PicksAreEligible(vm.securityGroups, taggedGroups, false, untagged, atUntagged);
      if |untagged| != 1 {
        return Err(Invalid("Multiple untagged security groups found for instance"));
      }
      return Ok(Some(untagged[0]));
    }
    return Ok(None);
  }

  // ---------- The groups to open ----------

  ghost predicate Chosen(l: seq<string>, tagged: set<string>, g: string) {
    exists i: nat :: Sole(l, tagged, i) && l[i] == g
  }

  /** An instance chooses the only tagged id it has, or without a tagged one the only id. Empty ids do not count. */
  lemma ChosenIff(l: seq<string>, tagged: set<string>, g: string)
    ensures Chosen(l, tagged, g) <==>
            exists i :: 0 <= i < |l| && l[i] == g != "" && if g in tagged
              then forall j :: 0 <= j < |l| && j != i && l[j] != "" ==> l[j] !in tagged
              else forall j :: 0 <= j < |l| && j != i ==> l[j] == ""
  {
    if Chosen(l, tagged, g) {
      var i: nat :| Sole(l, tagged, i) && l[i] == g;
      forall j: nat | j < |l| && j != i && l[j] != "" ensures g in tagged && l[j] !in tagged {
        assert !Eligible(l, tagged, j);
      }
    }
    if i :| 0 <= i < |l| && l[i] == g != "" && if g in tagged
              then forall j :: 0 <= j < |l| && j != i && l[j] != "" ==> l[j] !in tagged
              else forall j :: 0 <= j < |l| && j != i ==> l[j] == "" {
      if g !in tagged {
        forall x | x in l && x != "" ensures x !in tagged {
          var j :| 0 <= j < |l| && l[j] == x;
        }
      } else {
        assert l[i] in l;
      }
      assert Sole(l, tagged, i);
    }
  }

  /** The choice is ambiguous between two tagged ids, or between two ids when none is tagged. */
  lemma AmbiguousIff(l: seq<string>, tagged: set<string>)
    ensures Ambiguous(l, tagged) <==>
            exists i, j :: 0 <= i < j < |l| && l[i] != "" && l[j] != ""
              && ((l[i] in tagged && l[j] in tagged) || forall k :: 0 <= k < |l| && l[k] != "" ==> l[k] !in tagged)
  {
    if Ambiguous(l, tagged) {
      var i: nat, j: nat :| i < j && Eligible(l, tagged, i) && Eligible(l, tagged, j);
      if l[i] !in tagged || l[j] !in tagged {
        assert forall k :: 0 <= k < |l| ==> l[k] in l;
      }
    }
    if i, j :| 0 <= i < j < |l| && l[i] != "" && l[j] != ""
              && ((l[i] in tagged && l[j] in tagged) || forall k :: 0 <= k < |l| && l[k] != "" ==> l[k] !in tagged) {
      if !(l[i] in tagged && l[j] in tagged) {
        forall x | x in l && x != "" ensures x !in tagged {
          var k :| 0 <= k < |l| && l[k] == x;
        }
      }
      assert Eligible(l, tagged, i) && Eligible(l, tagged, j);
    }
  }

  ghost function ChosenBy(vm: Vm, tagged: set<string>): set<string> {
    set g | g in vm.securityGroups && Chosen(vm.securityGroups, tagged, g)
  }

  /** The groups some instance chose. */
  ghost function Needed(instances: map<string, Vm>, tagged: set<string>): set<string> {
    set k, g | k in instances && g in ChosenBy(instances[k], tagged) :: g
  }

  ghost predicate SomeAmbiguous(instances: map<string, Vm>, tagged: set<string>) {
    exists k :: k in instances && Ambiguous(instances[k].securityGroups, tagged)
  }

  /** The cluster's main groups, which instances' groups are told apart by. */
  ghost function TaggedGroups(t: Identity, groups: Groups): set<string> {
    Selected(ByTag(ClusterTagKey(t), MAIN_SG_PREFIX + t.clusterId, "True"), groups)
  }

  /** The cluster's groups that name the load balancer's group. */
  ghost function ActualGroups(t: Identity, groups: Groups, lbGroup: string): set<string> {
    set g | g in Selected(ByInboundGroup(lbGroup), groups) && Ours(t, groups[g].tags)
  }

  /** Those groups bear the cluster's key and have a permission whose source is the load balancer's group. */
  lemma ActualGroupsAre(t: Identity, groups: Groups, lbGroup: string, g: string)
    ensures g in ActualGroups(t, groups, lbGroup) <==>
            && g in groups && (t.clusterId == "" || "OscK8sClusterID/" + t.clusterId in groups[g].tags)
            && exists a :: a in groups[g].rules && a.source.Group? && a.source.member.groupId == lbGroup
  {
    if g in groups {
      if a :| a in groups[g].rules && a.source.Group? && a.source.member.groupId == lbGroup {
        assert Names(a, lbGroup);
      }
    }
  }

  method ReadOurs(api: Api, t: Identity, f: Filter) returns (r: Result<seq<string>>)
    requires api.Valid()
    ensures r.Ok? ==> Lists(r.value, set g | g in Selected(f, api.groups) && Ours(t, api.groups[g].tags))
    ensures api.reliable ==> r.Ok?
  {
    var read := api.ReadSecurityGroups(f);
    if read.Err? {
      return Err(read.error);
    }
    var views := read.value;
    var ids: seq<string> := [];
    assert Ids(views) == Ids(views)[..|views|];
    for i := 0 to |views|
      invariant Lists(ids, set g | g in Ids(views)[..i] && g in api.groups && Ours(t, api.groups[g].tags))
    {
      assert views[i] in views && Ids(views)[..i + 1] == Ids(views)[..i] + [views[i].id];
      var ours := HasClusterTag(t, views[i].tags);
      if ours {
        assert Ids(views)[i] == views[i].id;
        assert forall k :: 0 <= k < i ==> Ids(views)[..i][k] == Ids(views)[k];
        assert forall k :: 0 <= k < |ids| ==> ids[k] in Elems(ids);
        ElemsOfConcat(ids, [views[i].id]);
        ids := ids + [views[i].id];
      }
    }
    assert forall g :: g in Ids(views) <==> g in Elems(Ids(views));
    assert (set g | g in Ids(views) && g in api.groups && Ours(t, api.groups[g].tags))
        == (set g | g in Selected(f, api.groups) && Ours(t, api.groups[g].tags));
    return Ok(ids);
  }

  method GetTaggedSecurityGroups(api: Api, t: Identity) returns (r: Result<set<string>>)
    requires api.Valid()
    ensures r.Ok? ==> r.value == TaggedGroups(t, api.groups)
    ensures r.Ok? ==> forall g :: g in r.value <==>
              && g in api.groups && "OscK8sClusterID/" + t.clusterId in api.groups[g].tags
              && "OscK8sMainSG/" + t.clusterId in api.groups[g].tags && api.groups[g].tags["OscK8sMainSG/" + t.clusterId] == "True"
    ensures api.reliable ==> r.Ok?
  {
    var f := ByTag(ClusterTagKey(t), MAIN_SG_PREFIX + t.clusterId, "True");
    var read := ReadOurs(api, t, f);
    if read.Err? {
      return Err(read.error);
    }
    var ids := {};
    for i := 0 to |read.value|
      invariant ids == Elems(read.value[..i])
    {
      ids := ids + {read.value[i]};
      assert read.value[..i + 1] == read.value[..i] + [read.value[i]];
    }
    assert read.value[..|read.value|] == read.value;
    assert Elems(read.value) == TaggedGroups(t, api.groups);
    return Ok(ids);
  }

  /** Scans the instances in any order. */
  method SelectGroups(instances: map<string, Vm>, tagged: set<string>) returns (r: Result<map<string, bool>>)
    ensures r.Err? <==> SomeAmbiguous(instances, tagged)
    ensures r.Ok? ==> r.value == map g | g in Needed(instances, tagged) :: true
  {
    var changes: map<string, bool> := map[];
    var todo := instances.Keys;
    while todo != {}
      invariant todo <= instances.Keys
      invariant forall k :: k in instances && k !in todo ==> !Ambiguous(instances[k].securityGroups, tagged)
      invariant changes.Keys == set k, g | k in instances.Keys - todo && g in ChosenBy(instances[k], tagged) :: g
      invariant forall g :: g in changes ==> changes[g]
      decreases |todo|
    {
      var k :| k in todo;
      todo := todo - {k};
      var choice := FindSecurityGroupForInstance(instances[k], tagged);
      if choice.Err? {
        return Err(choice.error);
      }
      ChoiceIsTheChosen(instances[k], tagged, choice.value);
      if choice.value.Some? && choice.value.value != "" {
        changes := changes[choice.value.value := true];
      }
    }
    assert instances.Keys - todo == instances.Keys;
    return Ok(changes);
  }

  lemma ChoiceIsTheChosen(vm: Vm, tagged: set<string>, choice: Option<string>)
    requires choice.Some? ==> Chosen(vm.securityGroups, tagged, choice.value)
    requires choice.None? ==> forall x :: x in vm.securityGroups ==> x == ""
    ensures !Ambiguous(vm.securityGroups, tagged)
    ensures ChosenBy(vm, tagged) == (if choice.Some? then {choice.value} else {})
    ensures choice.Some? ==> choice.value != ""
  {
    var l := vm.securityGroups;
    forall j: nat | choice.None? ensures !Eligible(l, tagged, j) {
      if j < |l| { assert l[j] in l; }
    }
    if choice.Some? {
      var i: nat :| Sole(l, tagged, i) && l[i] == choice.value;
      assert l[i] in l;
    }
  }

  /** Drops the groups that are open already, and marks the ones to close. */
  method CompareToActual(wanted: map<string, bool>, actual: seq<string>) returns (changes: map<string, bool>)
    requires NoDuplicates(actual) && "" !in actual
    requires forall g :: g in wanted ==> wanted[g]
    ensures changes == Changes(wanted.Keys, Elems(actual))
    ensures forall g :: g in changes && changes[g] <==> g in wanted && g !in actual
    ensures forall g :: g in changes && !changes[g] <==> g in actual && g !in wanted
  {
    changes := wanted;
    for i := 0 to |actual|
      invariant changes == Changes(wanted.Keys, Elems(actual[..i]))
    {
      var id := actual[i];
      assert actual[..i + 1] == actual[..i] + [id] && id !in actual[..i];
      assert Elems(actual[..i + 1]) == Elems(actual[..i]) + {id};
      OneMoreActual(wanted.Keys, Elems(actual[..i]), id);
      if id == "" {
        continue;
      }
      if id in changes && changes[id] {
        changes := changes - {id};
      } else {
        changes := changes[id := false];
      }
    }
    assert actual[..|actual|] == actual;
  }

  /** True for the groups to open, false for those to close. */
  ghost function Changes(wanted: set<string>, actual: set<string>): map<string, bool> {
    map g | g in (wanted - actual) + (actual - wanted) :: g in wanted
  }

  lemma OneMoreActual(wanted: set<string>, actual: set<string>, id: string)
    requires id !in actual
    ensures id in Changes(wanted, actual) && Changes(wanted, actual)[id] <==> id in wanted
    ensures Changes(wanted, actual + {id}) ==
              if id in wanted then Changes(wanted, actual) - {id} else Changes(wanted, actual)[id := false]
  {
  }

  // ---------- Carrying the changes out ----------

  ghost function AppliedTo(cfg: Config, account: string, lbGroup: string, g: string, state: GroupState, changes: map<string, bool>): GroupState {
    if g !in changes || g == cfg.elbSecurityGroup then state
    else if changes[g] then state.(rules := Granted(account, lbGroup, state.rules))
    else state.(rules := Revoked(account, lbGroup, state.rules))
  }

  ghost function Applied(cfg: Config, account: string, lbGroup: string, groups: Groups, changes: map<string, bool>): Groups {
    map g | g in groups :: AppliedTo(cfg, account, lbGroup, g, groups[g], changes)
  }

  ghost predicate LbRuleOnly(account: string, lbGroup: string, before: GroupState, after: GroupState) {
    && after == before.(rules := after.rules)
    && before.rules - {LbAtom(account, lbGroup)} <= after.rules <= before.rules + {LbAtom(account, lbGroup)}
  }

  /** No more than the load balancer's own rule came or went, in the given groups. */
  ghost predicate OnlyLbRuleOf(cfg: Config, account: string, lbGroup: string, before: Groups, after: Groups, touched: set<string>) {
    && before.Keys == after.Keys
    && forall g :: g in before ==>
         LbRuleOnly(account, lbGroup, before[g], after[g]) && (g !in touched || g == cfg.elbSecurityGroup ==> after[g] == before[g])
  }

  /** A rule is created where a group must open and none like it is there, deleted where it must close and is open. */
  ghost predicate NeededCall(call: Call, cfg: Config, account: string, lbGroup: string, groups: Groups, changes: map<string, bool>) {
    match call
    case CreateRules(g, atoms) => g in groups && g in changes && changes[g] && g != cfg.elbSecurityGroup
                                  && atoms == {LbAtom(account, lbGroup)} && !LetsIn(groups[g].rules, lbGroup)
    case DeleteRules(g, atoms) => g in groups && g in changes && !changes[g] && g != cfg.elbSecurityGroup
                                  && atoms == {LbAtom(account, lbGroup)} && LetsIn(groups[g].rules, lbGroup)
    case _ => false
  }

  ghost predicate NeededCalls(log: seq<Event>, from: nat, cfg: Config, account: string, lbGroup: string, groups: Groups, changes: map<string, bool>) {
    OnlyCalls(log, from, (e: Event) => NeededCall(e.call, cfg, account, lbGroup, groups, changes))
  }

  /** What holds between two groups of a pass that began with the given groups and log length. */
  ghost predicate Progress(cfg: Config, account: string, lbGroup: string, before: Groups, changes: map<string, bool>, todo: set<string>,
                           now: Groups, log: seq<Event>, from: nat)
  {
    && todo <= changes.Keys
    && now == Applied(cfg, account, lbGroup, before, changes - todo)
    && (forall g :: g in changes && g !in todo && changes[g] ==> g in before || g == cfg.elbSecurityGroup)
    && NeededCalls(log, from, cfg, account, lbGroup, before, changes)
  }

  /** What the change of one group may do to the groups. */
  ghost predicate GroupChange(cfg: Config, account: string, lbGroup: string, g: string, add: bool, now: Groups, next: Groups, ok: bool) {
    && OnlyRulesOf(g, now, next)
    && (g == cfg.elbSecurityGroup ==> next == now)
    && (g in now ==> now[g].rules - {LbAtom(account, lbGroup)} <= next[g].rules <= now[g].rules + {LbAtom(account, lbGroup)})
    && (ok && g != cfg.elbSecurityGroup ==>
          && (add ==> g in now)
          && (g in now ==>
                next[g].rules == if add then Granted(account, lbGroup, now[g].rules) else Revoked(account, lbGroup, now[g].rules)))
  }

  lemma OneMoreGroup(cfg: Config, account: string, lbGroup: string, before: Groups, changes: map<string, bool>, todo: set<string>,
                     now: Groups, log: seq<Event>, from: nat, g: string, next: Groups, longer: seq<Event>, ok: bool)
    requires Progress(cfg, account, lbGroup, before, changes, todo, now, log, from)
    requires g in todo && from <= |log| && log <= longer
    requires GroupChange(cfg, account, lbGroup, g, changes[g], now, next, ok)
    requires NeededCalls(longer, |log|, cfg, account, lbGroup, now, map[g := changes[g]])
    ensures ok ==> Progress(cfg, account, lbGroup, before, changes, todo - {g}, next, longer, from)
    ensures NeededCalls(longer, from, cfg, account, lbGroup, before, changes)
    ensures OnlyLbRuleOf(cfg, account, lbGroup, before, next, changes.Keys)
  {
    AppliedStep(cfg, account, lbGroup, before, changes, todo, now, g, next, ok);
    forall i | from <= i < |longer| ensures NeededCall(longer[i].call, cfg, account, lbGroup, before, changes) {
      if i >= |log| {
        assert NeededCall(longer[i].call, cfg, account, lbGroup, now, map[g := changes[g]]);
      } else {
        assert longer[i] == log[i];
      }
    }
  }

  lemma AppliedStep(cfg: Config, account: string, lbGroup: string, before: Groups, changes: map<string, bool>, todo: set<string>,
                    now: Groups, g: string, next: Groups, ok: bool)
    requires now == Applied(cfg, account, lbGroup, before, changes - todo) && g in todo && todo <= changes.Keys
    requires GroupChange(cfg, account, lbGroup, g, changes[g], now, next, ok)
    ensures ok ==> next == Applied(cfg, account, lbGroup, before, changes - (todo - {g}))
    ensures OnlyLbRuleOf(cfg, account, lbGroup, before, next, changes.Keys)
  {
    if ok {
      forall x | x in before ensures next[x] == AppliedTo(cfg, account, lbGroup, x, before[x], changes - (todo - {g})) {
        AppliedStepAt(cfg, account, lbGroup, before, changes, todo, now, g, next, x);
      }
      AppliedPointwise(cfg, account, lbGroup, before, changes - (todo - {g}), next);
    }
    forall x | x in before
      ensures LbRuleOnly(account, lbGroup, before[x], next[x])
      ensures x !in changes || x == cfg.elbSecurityGroup ==> next[x] == before[x]
    {
      StepBounds(cfg, account, lbGroup, before, changes, todo, now, g, next, ok, x);
    }
  }

  lemma AppliedPointwise(cfg: Config, account: string, lbGroup: string, before: Groups, changes: map<string, bool>, next: Groups)
    requires next.Keys == before.Keys
    requires forall x :: x in before ==> next[x] == AppliedTo(cfg, account, lbGroup, x, before[x], changes)
    ensures next == Applied(cfg, account, lbGroup, before, changes)
  {
  }

  lemma AppliedStepAt(cfg: Config, account: string, lbGroup: string, before: Groups, changes: map<string, bool>, todo: set<string>,
                      now: Groups, g: string, next: Groups, x: string)
    requires now == Applied(cfg, account, lbGroup, before, changes - todo) && g in todo && todo <= changes.Keys
    requires GroupChange(cfg, account, lbGroup, g, changes[g], now, next, true) && x in before
    ensures next[x] == AppliedTo(cfg, account, lbGroup, x, before[x], changes - (todo - {g}))
  {
  }

  lemma StepBounds(cfg: Config, account: string, lbGroup: string, before: Groups, changes: map<string, bool>, todo: set<string>,
                   now: Groups, g: string, next: Groups, ok: bool, x: string)
    requires now == Applied(cfg, account, lbGroup, before, changes - todo) && g in todo && todo <= changes.Keys
    requires GroupChange(cfg, account, lbGroup, g, changes[g], now, next, ok) && x in before
    ensures LbRuleOnly(account, lbGroup, before[x], next[x])
    ensures x !in changes || x == cfg.elbSecurityGroup ==> next[x] == before[x]
  {
  }

  /** Opens or closes one group. */
  method ChangeGroup(api: Api, cfg: Config, g: string, add: bool, lbGroup: string) returns (r: Result<bool>)
    requires api.Valid()
    modifies api`groups, api`log
    ensures api.Valid() && old(api.log) <= api.log
    ensures GroupChange(cfg, api.account, lbGroup, g, add, old(api.groups), api.groups, r.Ok?)
    ensures NeededCalls(api.log, |old(api.log)|, cfg, api.account, lbGroup, old(api.groups), map[g := add])
    ensures api.reliable && (add ==> g in old(api.groups) || g == cfg.elbSecurityGroup) ==> r.Ok?
  {
    if add {
      r := AddSecurityGroupRules(api, cfg, g, lbGroup);
    } else {
      r := RemoveSecurityGroupRules(api, cfg, g, lbGroup);
    }
  }

  /** One more group of a pass. */
  method ChangeOneMore(api: Api, cfg: Config, changes: map<string, bool>, todo: set<string>, g: string, lbGroup: string,
                       ghost before: Groups, ghost from: nat) returns (r: Outcome)
    requires api.Valid() && g in todo && from <= |api.log|
    requires Progress(cfg, api.account, lbGroup, before, changes, todo, api.groups, api.log, from)
    modifies api`groups, api`log
    ensures api.Valid() && old(api.log) <= api.log
    ensures r.Done? ==> Progress(cfg, api.account, lbGroup, before, changes, todo - {g}, api.groups, api.log, from)
    ensures NeededCalls(api.log, from, cfg, api.account, lbGroup, before, changes)
    ensures OnlyLbRuleOf(cfg, api.account, lbGroup, before, api.groups, changes.Keys)
    ensures api.reliable && (changes[g] ==> g in before || g == cfg.elbSecurityGroup) ==> r.Done?
  {
    ghost var now, log := api.groups, api.log;
    var changed := ChangeGroup(api, cfg, g, changes[g], lbGroup);
    OneMoreGroup(cfg, api.account, lbGroup, before, changes, todo, now, log, from, g, api.groups, api.log, changed.Ok?);
    r := if changed.Ok? then Done else Failure(changed.error);
  }

  /** Carries the changes out in any order, and stops at the first failure. */
  method ApplyChanges(api: Api, cfg: Config, changes: map<string, bool>, lbGroup: string) returns (r: Outcome)
    requires api.Valid()
    modifies api`groups, api`log
    ensures api.Valid() && old(api.log) <= api.log
    ensures OnlyLbRuleOf(cfg, api.account, lbGroup, old(api.groups), api.groups, changes.Keys)
    ensures r.Done? ==> api.groups == Applied(cfg, api.account, lbGroup, old(api.groups), changes)
    ensures r.Done? ==> forall g :: g in changes && changes[g] ==> g in old(api.groups) || g == cfg.elbSecurityGroup
    ensures NeededCalls(api.log, |old(api.log)|, cfg, api.account, lbGroup, old(api.groups), changes)
    ensures api.reliable && (forall g :: g in changes && changes[g] ==> g in old(api.groups) || g == cfg.elbSecurityGroup) ==> r.Done?
  {
    var todo := changes.Keys;
    ghost var before, from := api.groups, |api.log|;
    assert api.groups == Applied(cfg, api.account, lbGroup, before, changes - todo);
    while todo != {}
      invariant api.Valid() && old(api.log) <= api.log
      invariant Progress(cfg, api.account, lbGroup, before, changes, todo, api.groups, api.log, from)
      invariant OnlyLbRuleOf(cfg, api.account, lbGroup, before, api.groups, changes.Keys)
      decreases |todo|
    {
      var g :| g in todo;
      r := ChangeOneMore(api, cfg, changes, todo, g, lbGroup, before, from);
      if r.Failure? {
        return;
      }
      todo := todo - {g};
    }
    assert changes - todo == changes;
    return Done;
  }

  // ---------- The pass ----------

  /** The last non-empty id. */
  ghost function LastNonEmpty(l: seq<string>): string {
    if l == [] then "" else if l[|l| - 1] != "" then l[|l| - 1] else LastNonEmpty(l[..|l| - 1])
  }

  /** The group that stands for the load balancer: the last one it has, or was asked to have. */
  ghost function LbGroup(lbGroups: seq<string>, fallback: seq<string>): string {
    LastNonEmpty(if |lbGroups| > 0 then lbGroups else fallback)
  }

  /**
   The last non-empty id of those the load balancer has, whatever the fallback; the fallback only counts for a load
   balancer without any entry, and "" means that no entry counts.
   */
  lemma LbGroupPicks(lbGroups: seq<string>, fallback: seq<string>, other: seq<string>)
    ensures LbGroup([], []) == "" && (fallback != [] ==> LbGroup([], fallback) == LbGroup(fallback, other))
    ensures lbGroups != [] ==> LbGroup(lbGroups, fallback) == LbGroup(lbGroups, other)
    ensures lbGroups != [] ==>
              if forall k :: 0 <= k < |lbGroups| ==> lbGroups[k] == "" then LbGroup(lbGroups, fallback) == ""
              else exists i :: 0 <= i < |lbGroups| && LbGroup(lbGroups, fallback) == lbGroups[i] != ""
                               && forall k :: i < k < |lbGroups| ==> lbGroups[k] == ""
  {
    LastNonEmptyPicks(lbGroups);
  }

  lemma {:induction false} LastNonEmptyPicks(l: seq<string>)
    ensures if forall k :: 0 <= k < |l| ==> l[k] == "" then LastNonEmpty(l) == ""
            else exists i :: 0 <= i < |l| && LastNonEmpty(l) == l[i] != "" && forall k :: i < k < |l| ==> l[k] == ""
  {
    if l != [] && l[|l| - 1] == "" {
      LastNonEmptyPicks(l[..|l| - 1]);
    }
  }

  method FindLbGroup(lbGroups: seq<string>, fallback: seq<string>) returns (id: string)
    ensures id == LbGroup(lbGroups, fallback)
  {
    var items := if |lbGroups| > 0 then lbGroups else fallback;
    id := "";
    for i := 0 to |items|
      invariant id == LastNonEmpty(items[..i])
    {
      assert items[..i + 1][..i] == items[..i];
      if items[i] == "" {
        continue;
      }
      id := items[i];
    }
    assert items[..|items|] == items;
  }

  /** The changes one pass makes, from the groups as they are. */
  ghost function PassChanges(t: Identity, lbGroup: string, groups: Groups, instances: map<string, Vm>): map<string, bool> {
    Changes(Needed(instances, TaggedGroups(t, groups)), ActualGroups(t, groups, lbGroup))
  }

  /** The pass can be carried out: every instance's group is clear, and exists. */
  ghost predicate Feasible(cfg: Config, t: Identity, groups: Groups, instances: map<string, Vm>) {
    && !SomeAmbiguous(instances, TaggedGroups(t, groups))
    && Needed(instances, TaggedGroups(t, groups)) <= groups.Keys + {cfg.elbSecurityGroup}
  }

  method UpdateInstanceSecurityGroupsForLoadBalancer(
      api: Api, cfg: Config, t: Identity, lbGroups: seq<string>, instances: map<string, Vm>, securityGroupIds: seq<string>)
    returns (r: Outcome)
    requires api.Valid() && LbGroup(lbGroups, securityGroupIds) != DEFAULT_SRC_SG_NAME
    modifies api`groups, api`log
    ensures api.Valid() && old(api.log) <= api.log
    ensures cfg.disableSecurityGroupIngress ==> r.Done? && api.log == old(api.log) && api.groups == old(api.groups)
    ensures var lbGroup := LbGroup(lbGroups, securityGroupIds);
            var changes := PassChanges(t, lbGroup, old(api.groups), instances);
            && OnlyLbRuleOf(cfg, api.account, lbGroup, old(api.groups), api.groups, changes.Keys)
            && NeededCalls(api.log, |old(api.log)|, cfg, api.account, lbGroup, old(api.groups), changes)
            && (r.Done? && !cfg.disableSecurityGroupIngress ==>
                  && lbGroup != "" && Feasible(cfg, t, old(api.groups), instances)
                  && api.groups == Applied(cfg, api.account, lbGroup, old(api.groups), changes))
            && (api.reliable && lbGroup != "" && Feasible(cfg, t, old(api.groups), instances) ==> r.Done?)
  {
    if cfg.disableSecurityGroupIngress {
      return Done;
    }
    var lbGroup := FindLbGroup(lbGroups, securityGroupIds);
    if lbGroup == "" {
      return Failure(Invalid("could not determine security group for load balancer"));
    }
    var actual := ReadOurs(api, t, ByInboundGroup(lbGroup));
    if actual.Err? {
      return Failure(actual.error);
    }
    var tagged := GetTaggedSecurityGroups(api, t);
    if tagged.Err? {
      return Failure(tagged.error);
    }
    var selected := SelectGroups(instances, tagged.value);
    if selected.Err? {
      return Failure(selected.error);
    }
    assert Elems(actual.value) == ActualGroups(t, api.groups, lbGroup);
    assert "" !in Elems(actual.value);
    assert selected.value.Keys == Needed(instances, tagged.value);
    var changes := CompareToActual(selected.value, actual.value);
    r := ApplyChanges(api, cfg, changes, lbGroup);
    if r.Done? {
      assert forall g :: g in Needed(instances, tagged.value) ==> g in changes || g in ActualGroups(t, old(api.groups), lbGroup);
    }
  }

  /** The calls of a pass: the one permission, at groups of the changes that need it, never at the configured group. */
  lemma PassCallsMean(t: Identity, cfg: Config, account: string, lbGroup: string, groups: Groups, instances: map<string, Vm>,
                      log: seq<Event>, from: nat, i: nat)
    requires NeededCalls(log, from, cfg, account, lbGroup, groups, PassChanges(t, lbGroup, groups, instances)) && from <= i < |log|
    ensures log[i].call.CreateRules? || log[i].call.DeleteRules?
    ensures log[i].call.atoms == {Atom(Some("-1"), Some(-1), Some(-1), Group(Member(lbGroup, Some(account))))}
    ensures log[i].call.id in groups && log[i].call.id != cfg.elbSecurityGroup
    ensures log[i].call.CreateRules? <==> log[i].call.id in Needed(instances, TaggedGroups(t, groups))
    ensures log[i].call.CreateRules? <==> !LetsIn(groups[log[i].call.id].rules, lbGroup)
    ensures log[i].call.CreateRules? <==> log[i].call.id !in ActualGroups(t, groups, lbGroup)
  {
    assert NeededCall(log[i].call, cfg, account, lbGroup, groups, PassChanges(t, lbGroup, groups, instances));
  }

  // ---------- What a successful pass achieves ----------

  /**
   What a pass leaves of one group: a needed group that did not name the load balancer's group gains the one
   permission unless it has one like it, a group of the cluster that named it and is not needed loses the one permission.
   */
  lemma PassAt(cfg: Config, t: Identity, account: string, lbGroup: string, before: Groups, instances: map<string, Vm>, g: string)
    requires g in before
    ensures var after := Applied(cfg, account, lbGroup, before, PassChanges(t, lbGroup, before, instances));
            var needed := exists k :: k in instances && Chosen(instances[k].securityGroups, TaggedGroups(t, before), g);
            var named := exists a :: a in before[g].rules && a.source.Group? && a.source.member.groupId == lbGroup;
            var ours := t.clusterId == "" || "OscK8sClusterID/" + t.clusterId in before[g].tags;
            var its := Atom(Some("-1"), Some(-1), Some(-1), Group(Member(lbGroup, Some(account))));
            && after.Keys == before.Keys && after[g] == before[g].(rules := after[g].rules)
            && after[g].rules ==
               if g == cfg.elbSecurityGroup then before[g].rules
               else if needed && !(ours && named) then
                 if LetsIn(before[g].rules, lbGroup) then before[g].rules else before[g].rules + {its}
               else if !needed && ours && named then before[g].rules - {its}
               else before[g].rules
  {
    ActualGroupsAre(t, before, lbGroup, g);
    NeededIff(instances, TaggedGroups(t, before), g);
  }

  lemma NeededIff(instances: map<string, Vm>, tagged: set<string>, g: string)
    ensures g in Needed(instances, tagged) <==> exists k :: k in instances && Chosen(instances[k].securityGroups, tagged, g)
  {
    if k :| k in instances && Chosen(instances[k].securityGroups, tagged, g) {
      var i: nat :| Sole(instances[k].securityGroups, tagged, i) && instances[k].securityGroups[i] == g;
      assert g in ChosenBy(instances[k], tagged);
    }
  }

  /** Every rule that names the load balancer's group is the one the controller makes. */
  ghost predicate AllProtocolShape(account: string, lbGroup: string, groups: Groups) {
    forall g, a :: g in groups && a in groups[g].rules && Names(a, lbGroup) ==> a == LbAtom(account, lbGroup)
  }

  ghost predicate NamesLb(rules: set<Atom>, lbGroup: string) {
    exists a :: a in rules && Names(a, lbGroup)
  }

  lemma LetsInUnderShape(account: string, lbGroup: string, rules: set<Atom>)
    requires forall a :: a in rules && Names(a, lbGroup) ==> a == LbAtom(account, lbGroup)
    ensures LetsIn(rules, lbGroup) <==> LbAtom(account, lbGroup) in rules
    ensures NamesLb(rules, lbGroup) <==> LbAtom(account, lbGroup) in rules
  {
    LbRuleIsRequestedAsLbAtom(account, lbGroup);
    assert Names(LbAtom(account, lbGroup), lbGroup);
    if LetsIn(rules, lbGroup) {
      var a :| a in rules && SameAs(LbRule(lbGroup), Group(Member(lbGroup, None)), a, false);
      assert Names(a, lbGroup);
    }
  }

  lemma ActualIffNames(t: Identity, groups: Groups, lbGroup: string, g: string)
    requires g in groups
    ensures g in ActualGroups(t, groups, lbGroup) <==> NamesLb(groups[g].rules, lbGroup) && Ours(t, groups[g].tags)
  {
    assert NamesLb(groups[g].rules, lbGroup) <==> Selects(ByInboundGroup(lbGroup), g, groups[g]);
  }

  /** A pass leaves every group's tags as they were, so the instances choose the same groups. */
  lemma SameChoice(cfg: Config, t: Identity, account: string, lbGroup: string, before: Groups, changes: map<string, bool>,
                   instances: map<string, Vm>)
    ensures var after := Applied(cfg, account, lbGroup, before, changes);
            && after.Keys == before.Keys && (forall g :: g in before ==> after[g].tags == before[g].tags)
            && TaggedGroups(t, after) == TaggedGroups(t, before)
  {
  }

  /** The load balancer is let in by exactly the chosen groups, as far as the groups are the cluster's, and by every chosen one. */
  ghost predicate ExactlyOpen(cfg: Config, t: Identity, account: string, lbGroup: string, groups: Groups, instances: map<string, Vm>) {
    forall g :: g in groups && g != cfg.elbSecurityGroup ==>
      && (Ours(t, groups[g].tags) ==> (LbAtom(account, lbGroup) in groups[g].rules <==> g in Needed(instances, TaggedGroups(t, groups))))
      && (g in Needed(instances, TaggedGroups(t, groups)) ==> LbAtom(account, lbGroup) in groups[g].rules)
  }

  /**
   When every rule naming the load balancer's group has the controller's shape, a pass leaves the cluster's
   groups open exactly where some instance chose them, opens every chosen group, and touches no other.
   */
  lemma PassIsExact(cfg: Config, t: Identity, account: string, lbGroup: string, before: Groups, after: Groups, instances: map<string, Vm>)
    requires after == Applied(cfg, account, lbGroup, before, PassChanges(t, lbGroup, before, instances))
    requires AllProtocolShape(account, lbGroup, before)
    ensures ExactlyOpen(cfg, t, account, lbGroup, after, instances) && AllProtocolShape(account, lbGroup, after)
    ensures forall g :: g in before && !Ours(t, before[g].tags) && g !in Needed(instances, TaggedGroups(t, before)) ==> after[g] == before[g]
    ensures forall g :: g in before ==>
              after[g] == before[g].(rules := after[g].rules)
              && after[g].rules - {LbAtom(account, lbGroup)} == before[g].rules - {LbAtom(account, lbGroup)}
  {
    SameChoice(cfg, t, account, lbGroup, before, PassChanges(t, lbGroup, before, instances), instances);
    ShapeKept(cfg, account, lbGroup, before, PassChanges(t, lbGroup, before, instances));
    forall g | g in before
      ensures ExactAt(cfg, t, account, lbGroup, before, after, Needed(instances, TaggedGroups(t, before)), g)
    {
      PassIsExactAt(cfg, t, account, lbGroup, before, after, instances, g);
    }
  }

  /** One group after the pass: open exactly if it is needed, as far as it is the cluster's, and untouched if it is neither. */
  ghost predicate ExactAt(cfg: Config, t: Identity, account: string, lbGroup: string, before: Groups, after: Groups, needed: set<string>,
                          g: string)
    requires g in before && g in after
  {
    && after[g] == before[g].(rules := after[g].rules)
    && after[g].rules - {LbAtom(account, lbGroup)} == before[g].rules - {LbAtom(account, lbGroup)}
    && (!Ours(t, before[g].tags) && g !in needed ==> after[g] == before[g])
    && (g != cfg.elbSecurityGroup && Ours(t, before[g].tags) ==> (LbAtom(account, lbGroup) in after[g].rules <==> g in needed))
    && (g != cfg.elbSecurityGroup && g in needed ==> LbAtom(account, lbGroup) in after[g].rules)
  }

  lemma PassIsExactAt(cfg: Config, t: Identity, account: string, lbGroup: string, before: Groups, after: Groups,
                      instances: map<string, Vm>, g: string)
    requires after == Applied(cfg, account, lbGroup, before, PassChanges(t, lbGroup, before, instances))
    requires g in before && forall a :: a in before[g].rules && Names(a, lbGroup) ==> a == LbAtom(account, lbGroup)
    ensures ExactAt(cfg, t, account, lbGroup, before, after, Needed(instances, TaggedGroups(t, before)), g)
  {
    LetsInUnderShape(account, lbGroup, before[g].rules);
    ActualIffNames(t, before, lbGroup, g);
  }

  lemma ShapeKept(cfg: Config, account: string, lbGroup: string, before: Groups, changes: map<string, bool>)
    requires AllProtocolShape(account, lbGroup, before)
    ensures AllProtocolShape(account, lbGroup, Applied(cfg, account, lbGroup, before, changes))
  {
  }

  /**
   Without that assumption: a chosen group of the cluster lets the load balancer in afterwards exactly when it
   did before or did not name it at all, and another group of the cluster names it exactly when it had
   a rule of another shape.
   */
  lemma PassInGeneral(cfg: Config, t: Identity, account: string, lbGroup: string, before: Groups, after: Groups,
                      instances: map<string, Vm>, g: string)
    requires after == Applied(cfg, account, lbGroup, before, PassChanges(t, lbGroup, before, instances))
    requires g in before && g != cfg.elbSecurityGroup
    ensures var wanted := Needed(instances, TaggedGroups(t, before));
            && (Ours(t, before[g].tags) && g in wanted ==>
                  (LetsIn(after[g].rules, lbGroup) <==> LetsIn(before[g].rules, lbGroup) || !NamesLb(before[g].rules, lbGroup)))
            && (Ours(t, before[g].tags) && g !in wanted ==>
                  (NamesLb(after[g].rules, lbGroup) <==> NamesLb(before[g].rules - {LbAtom(account, lbGroup)}, lbGroup)))
            && (!Ours(t, before[g].tags) && g in wanted ==> LetsIn(after[g].rules, lbGroup))
  {
    LbRuleIsRequestedAsLbAtom(account, lbGroup);
    ActualIffNames(t, before, lbGroup, g);
  }

  /** A rule of another shape that names the load balancer's group hides that its own rule is missing. */
  lemma OddShapeHidesMissingRule(t: Identity, account: string, lbGroup: string, g: string, vm: Vm)
    requires g != "" && vm.securityGroups == [g]
    ensures var cfg := Config("", false, "vpc");
            var odd := Atom(Some("tcp"), Some(80), Some(80), Group(Member(lbGroup, Some(account))));
            var before := map[g := GroupState("n", "vpc", map[ClusterTagKey(t) := "owned"], {odd})];
            var after := Applied(cfg, account, lbGroup, before, PassChanges(t, lbGroup, before, map[vm.id := vm]));
            g in Needed(map[vm.id := vm], TaggedGroups(t, before)) && after == before && !LetsIn(after[g].rules, lbGroup)
  {
    var cfg := Config("", false, "vpc");
    var odd := Atom(Some("tcp"), Some(80), Some(80), Group(Member(lbGroup, Some(account))));
    var before := map[g := GroupState("n", "vpc", map[ClusterTagKey(t) := "owned"], {odd})];
    var tagged := TaggedGroups(t, before);
    assert vm.securityGroups[0] == g && g in vm.securityGroups;
    assert Eligible(vm.securityGroups, tagged, 0) && Sole(vm.securityGroups, tagged, 0);
    assert g in ChosenBy(vm, tagged);
    var instances := map[vm.id := vm];
    assert vm.id in instances && instances[vm.id] == vm;
    assert Names(odd, lbGroup) && odd in before[g].rules;
    ActualIffNames(t, before, lbGroup, g);
  }

  /** With exactly the chosen groups open, a pass calls nothing. */
  lemma NothingToCall(cfg: Config, t: Identity, account: string, lbGroup: string, groups: Groups, instances: map<string, Vm>,
                      log: seq<Event>, from: nat)
    requires ExactlyOpen(cfg, t, account, lbGroup, groups, instances) && AllProtocolShape(account, lbGroup, groups)
    requires NeededCalls(log, from, cfg, account, lbGroup, groups, PassChanges(t, lbGroup, groups, instances))
    ensures |log| <= from
  {
    if |log| > from {
      assert NeededCall(log[from].call, cfg, account, lbGroup, groups, PassChanges(t, lbGroup, groups, instances));
      var g := log[from].call.id;
      LetsInUnderShape(account, lbGroup, groups[g].rules);
      ActualIffNames(t, groups, lbGroup, g);
    }
  }
}
