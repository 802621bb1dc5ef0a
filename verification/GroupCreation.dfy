/** Finding or creating a security group by name while others create and delete groups (ccm_cloud.go). */
module GroupCreation {
  import opened Wrappers
  import opened Collections
  import opened CloudApi
  import opened Config
  import opened Tagging

  const MAX_READ_THEN_CREATE_RETRIES: nat := 30

  /** How many of the calls from position from on tried to create a group, and how many did. */
  ghost function Creates(log: seq<Event>, from: nat): (n: nat)
    requires from <= |log|
    decreases |log| - from
  {
    if from == |log| then 0 else (if log[from].call.CreateGroup? then 1 else 0) + Creates(log, from + 1)
  }

  ghost function Successes(log: seq<Event>, from: nat): (n: nat)
    requires from <= |log|
    decreases |log| - from
  {
    if from == |log| then 0 else (if log[from].call.CreateGroup? && log[from].ok then 1 else 0) + Successes(log, from + 1)
  }

  lemma {:induction false} CountsAppend(log: seq<Event>, from: nat, e: Event)
    requires from <= |log|
    ensures Creates(log + [e], from) == Creates(log, from) + if e.call.CreateGroup? then 1 else 0
    ensures Successes(log + [e], from) == Successes(log, from) + if e.call.CreateGroup? && e.ok then 1 else 0
    decreases |log| - from
  {
    if from < |log| {
      CountsAppend(log, from + 1, e);
      assert (log + [e])[from] == log[from];
    } else {
      assert Creates(log + [e], from + 1) == 0 && Successes(log + [e], from + 1) == 0;
    }
  }

  /** Tag calls do not count as creations. */
  lemma {:induction false} CountsSkipTags(log: seq<Event>, from: nat, longer: seq<Event>, id: string, tags: map<string, string>)
    requires from <= |log| && log <= longer && OnlyTagCalls(longer, |log|, id, tags)
    ensures Creates(longer, from) == Creates(log, from) && Successes(longer, from) == Successes(log, from)
    decreases |longer|
  {
    if |log| < |longer| {
      var shorter := longer[..|longer| - 1];
      var e := longer[|longer| - 1];
      assert longer == shorter + [e];
      assert forall i :: |log| <= i < |shorter| ==> shorter[i] == longer[i];
      CountsSkipTags(log, from, shorter, id, tags);
      CountsAppend(shorter, from, e);
    } else {
      assert log == longer;
    }
  }

  ghost predicate NameMatches(cfg: Config, g: GroupState, name: string) {
    g.name == name && (cfg.vpcId != "" ==> g.net == cfg.vpcId)
  }

  /** A group the caller may use: it has the requested name and carries the owned tag of the cluster. */
  ghost predicate Usable(t: Identity, cfg: Config, groups: Groups, id: string, name: string) {
    && id in groups && NameMatches(cfg, groups[id], name)
    && (t.clusterId != "" ==> ClusterTagKey(t) in groups[id].tags && groups[id].tags[ClusterTagKey(t)] == LIFECYCLE_OWNED)
  }

  /** Groups that were there are gone, unchanged, or the returned one with more tags. */
  ghost predicate OthersLeftAlone(before: Groups, issuedBefore: set<string>, after: Groups, id: string) {
    forall g :: g in after && g in issuedBefore ==>
      g in before && (after[g] == before[g] || (g == id && after[g] == before[g].(tags := after[g].tags)))
  }

  /** No group that stays gains or loses a rule. */
  ghost predicate RulesKept(before: Groups, after: Groups) {
    forall g :: g in before && g in after ==> after[g].rules == before[g].rules
  }

  /** No group that was there, or ever had been, has changed or come back. */
  ghost predicate NoneChanged(before: Groups, issuedBefore: set<string>, after: Groups) {
    forall g :: g in after && g in issuedBefore ==> g in before && after[g] == before[g]
  }

  /** Of the groups that were there and still are, only the returned one may differ, and only in its tags. */
  lemma OnlyTheReturnedMayDiffer(before: Groups, issuedBefore: set<string>, after: Groups, id: string, g: string)
    requires before.Keys <= issuedBefore && g in before && g in after
    ensures OthersLeftAlone(before, issuedBefore, after, id) && g != id ==> after[g] == before[g]
    ensures OthersLeftAlone(before, issuedBefore, after, id) ==>
              after[g].name == before[g].name && after[g].net == before[g].net && after[g].rules == before[g].rules
    ensures NoneChanged(before, issuedBefore, after) ==> after[g] == before[g]
  {
  }

  // ---------- The tags a caller asks for ----------

  /** The tags of a group made by a call: the caller's, overridden by the cluster's own. */
  ghost function NewTags(t: Identity, additionalTags: map<string, string>): map<string, string> {
    additionalTags + OwnTags(t, LIFECYCLE_OWNED)
  }

  /** The tags of a group that had the given ones and was adopted; no caller's tags are among them. */
  ghost function AdoptedTags(t: Identity, had: map<string, string>): map<string, string> {
    Repaired(had, t, LIFECYCLE_OWNED, map[])
  }

  /** A new group has the cluster's key with "owned", and else what the caller asked for and the legacy tag if it is used. */
  lemma NewTagsAre(t: Identity, additionalTags: map<string, string>, k: string)
    ensures t.clusterId == "" ==> NewTags(t, additionalTags) == additionalTags
    ensures t.clusterId != "" ==>
              var tags, key := NewTags(t, additionalTags), "OscK8sClusterID/" + t.clusterId;
              && (k in tags <==> k in additionalTags || k == key || (t.usesLegacyTags && k == t.legacyKey))
              && (k in tags ==> tags[k] == if k == key then "owned"
                                           else if t.usesLegacyTags && k == t.legacyKey then t.clusterId else additionalTags[k])
  {
    OwnTagsAre(t, LIFECYCLE_OWNED);
    assert additionalTags + map[] == additionalTags;
  }

  /** The returned group was there, or others made it meanwhile, and has the tags of an adopted one. */
  ghost predicate Adopted(t: Identity, before: Groups, issuedBefore: set<string>, after: Groups, id: string) {
    exists had :: IsAdopted(t, before, issuedBefore, after, id, had)
  }

  ghost predicate IsAdopted(t: Identity, before: Groups, issuedBefore: set<string>, after: Groups, id: string, had: map<string, string>) {
    && (id in issuedBefore ==> id in before && before[id].tags == had)
    && id in after && after[id].tags == AdoptedTags(t, had)
  }

  /** A group that was there and is adopted keeps all its tags but the cluster's own ones, and gains no other. */
  lemma AdoptedKeepsOtherTags(t: Identity, before: Groups, issuedBefore: set<string>, after: Groups, id: string, k: string)
    requires Adopted(t, before, issuedBefore, after, id) && id in issuedBefore && k !in OwnTags(t, LIFECYCLE_OWNED)
    ensures id in before && id in after
    ensures k in after[id].tags <==> k in before[id].tags
    ensures k in before[id].tags ==> after[id].tags[k] == before[id].tags[k]
  {
  }

  ghost predicate Carries(tags: map<string, string>, asked: map<string, string>) {
    forall k :: k in asked ==> k in tags && tags[k] == asked[k]
  }

  /** A new group carries the tags asked for exactly when none of them contradicts the cluster's own ones. */
  lemma NewGroupCarriesIff(t: Identity, asked: map<string, string>)
    ensures Carries(NewTags(t, asked), asked)
            <==> forall k :: k in asked && k in OwnTags(t, LIFECYCLE_OWNED) ==> OwnTags(t, LIFECYCLE_OWNED)[k] == asked[k]
  {
    var own := OwnTags(t, LIFECYCLE_OWNED);
    forall k | k in asked ensures k in NewTags(t, asked) && NewTags(t, asked)[k] == if k in own then own[k] else asked[k] {
    }
  }

  /** An adopted group carries them exactly when it had those that are not the cluster's own, and the others agree with these. */
  lemma AdoptedGroupCarriesIff(t: Identity, had: map<string, string>, asked: map<string, string>)
    requires !Foreign(had, Expected(t, LIFECYCLE_OWNED, map[]))
    ensures var own := OwnTags(t, LIFECYCLE_OWNED);
            Carries(AdoptedTags(t, had), asked)
            <==> forall k :: k in asked ==> if k in own then own[k] == asked[k] else k in had && had[k] == asked[k]
  {
    var own := OwnTags(t, LIFECYCLE_OWNED);
    forall k
      ensures k in own ==> k in AdoptedTags(t, had) && AdoptedTags(t, had)[k] == own[k]
      ensures k !in own ==> (k in AdoptedTags(t, had) <==> k in had) && (k in had ==> AdoptedTags(t, had)[k] == had[k])
    {
      AdoptedTagAt(t, had, k);
    }
  }

  lemma AdoptedTagAt(t: Identity, had: map<string, string>, k: string)
    requires !Foreign(had, Expected(t, LIFECYCLE_OWNED, map[]))
    ensures var own := OwnTags(t, LIFECYCLE_OWNED);
            && (k in own ==> k in AdoptedTags(t, had) && AdoptedTags(t, had)[k] == own[k])
            && (k !in own ==> (k in AdoptedTags(t, had) <==> k in had) && (k in had ==> AdoptedTags(t, had)[k] == had[k]))
  {
    var own := OwnTags(t, LIFECYCLE_OWNED);
    assert Expected(t, LIFECYCLE_OWNED, map[]) == own;
    RepairYieldsExpectedKeysIff(had, t, LIFECYCLE_OWNED, map[]);
    var missing := Missing(had, own);
    if k in own && missing == map[] {
      assert k !in missing;
    }
  }

  /**
   Tags beyond the cluster's own reach a group that is tagged right after its creation, but not one whose creator
   stopped in between: that one is recovered without them.
   */
  lemma CrashLosesAdditionalTags(t: Identity, asked: map<string, string>)
    requires asked != map[] && asked.Keys !! OwnTags(t, LIFECYCLE_OWNED).Keys
    ensures !Foreign(map[], Expected(t, LIFECYCLE_OWNED, map[]))
    ensures Carries(NewTags(t, asked), asked) && !Carries(AdoptedTags(t, map[]), asked)
  {
    var k :| k in asked;
    assert k in asked.Keys;
    AdoptedGroupCarriesIff(t, map[], asked);
    NewGroupCarriesIff(t, asked);
  }

  // ---------- Adopting ----------

  /** The owned tag is among the tags of a group that was read and needed no repair, or is sent to it. */
  lemma OwnedTagPresent(t: Identity, tags: map<string, string>)
    requires t.clusterId != "" && !Foreign(tags, Expected(t, LIFECYCLE_OWNED, map[]))
    ensures var missing := Missing(tags, Expected(t, LIFECYCLE_OWNED, map[]));
            missing == map[] ==> ClusterTagKey(t) in tags && tags[ClusterTagKey(t)] == LIFECYCLE_OWNED
    ensures OwnTags(t, LIFECYCLE_OWNED)[ClusterTagKey(t)] == LIFECYCLE_OWNED
  {
    var expected := Expected(t, LIFECYCLE_OWNED, map[]);
    assert ClusterTagKey(t) in expected && expected[ClusterTagKey(t)] == LIFECYCLE_OWNED;
    if Missing(tags, expected) == map[] {
      assert ClusterTagKey(t) !in Missing(tags, expected);
    }
  }

  /** Repairs the tags of a group that was just read. */
  method AdoptGroup(api: Api, cfg: Config, t: Identity, name: string, view: GroupView, others: bool) returns (r: Result<string>)
    requires api.Valid() && view.id in api.groups && ShowsGroup(view, api.groups[view.id])
    requires NameMatches(cfg, api.groups[view.id], name)
    modifies api`groups, api`issued, api`log
    ensures api.Valid() && old(api.log) <= api.log
    ensures exists tags :: OnlyTagCalls(api.log, |old(api.log)|, view.id, tags)
    ensures r.Ok? ==> r.value == view.id && Usable(t, cfg, api.groups, r.value, name)
    ensures r.Ok? ==> api.groups[r.value].name == name && (cfg.vpcId != "" ==> api.groups[r.value].net == cfg.vpcId)
    ensures r.Ok? ==> api.groups[r.value].tags == AdoptedTags(t, old(api.groups)[view.id].tags)
    ensures r.Err? ==> NoneChanged(old(api.groups), old(api.issued), api.groups)
    ensures OthersLeftAlone(old(api.groups), old(api.issued), api.groups, view.id)
    ensures RulesKept(old(api.groups), api.groups)
    ensures Foreign(old(api.groups)[view.id].tags, Expected(t, LIFECYCLE_OWNED, map[])) ==> r.Err?
    ensures api.reliable && !others && !Foreign(old(api.groups)[view.id].tags, Expected(t, LIFECYCLE_OWNED, map[])) ==> r.Ok?
  {
    ghost var tags := api.groups[view.id].tags;
    var repaired := ReadRepairClusterTags(api, t, view.id, LIFECYCLE_OWNED, map[], Some(view.tags), tags, others);
    if repaired.Failure? {
      return Err(repaired.error);
    }
    if t.clusterId != "" {
      OwnedTagPresent(t, tags);
    }
    return Ok(view.id);
  }

  /**
   Returns a group of the given name. A group that exists is adopted: missing cluster tags are added,
   which also recovers a group that was created but never tagged. Otherwise one is created and tagged.
   */
  method EnsureSecurityGroup(api: Api, cfg: Config, t: Identity, name: string, additionalTags: map<string, string>, others: bool)
    returns (r: Result<string>)
    requires api.Valid()
    modifies api`groups, api`issued, api`log
    ensures api.Valid() && old(api.log) <= api.log
    ensures Creates(api.log, |old(api.log)|) <= 30
    ensures Successes(api.log, |old(api.log)|) <= 1
    ensures r.Ok? ==> Usable(t, cfg, api.groups, r.value, name)
    ensures r.Ok? ==> api.groups[r.value].name == name && (cfg.vpcId != "" ==> api.groups[r.value].net == cfg.vpcId)
    ensures r.Ok? && t.clusterId != "" ==>
              var key := "OscK8sClusterID/" + t.clusterId;
              key in api.groups[r.value].tags && api.groups[r.value].tags[key] == "owned"
    // Whatever happens, groups others have are theirs; only the returned group may have gained tags.
    ensures r.Ok? ==> OthersLeftAlone(old(api.groups), old(api.issued), api.groups, r.value)
    ensures r.Err? ==> NoneChanged(old(api.groups), old(api.issued), api.groups)
    ensures RulesKept(old(api.groups), api.groups)
    // A group made by this call has the caller's tags too; an adopted one gains no others than the cluster's own.
    ensures r.Ok? && Successes(api.log, |old(api.log)|) == 1 ==>
              r.value !in old(api.issued) && api.groups[r.value].tags == NewTags(t, additionalTags)
    ensures r.Ok? && Successes(api.log, |old(api.log)|) == 0 ==> Adopted(t, old(api.groups), old(api.issued), api.groups, r.value)
    // Left alone, a call that finds a group of the name creates none and recovers it.
    ensures !others
            && (exists id :: id in old(api.groups) && old(api.groups)[id].name == name
                             && (cfg.vpcId != "" ==> old(api.groups)[id].net == cfg.vpcId)) ==>
              Creates(api.log, |old(api.log)|) == 0 && (r.Ok? ==> r.value in old(api.groups))
    ensures api.reliable && !others
            && (forall id :: id in old(api.groups) && NameMatches(cfg, old(api.groups)[id], name) ==>
                  !Foreign(old(api.groups)[id].tags, Expected(t, LIFECYCLE_OWNED, map[]))) ==>
            r.Ok?
  {
    var attempt := 0;
    ghost var from := |api.log|;
    while true
      invariant api.Valid() && old(api.log) <= api.log && attempt < MAX_READ_THEN_CREATE_RETRIES
      invariant Creates(api.log, from) == attempt && Successes(api.log, from) == 0
      invariant OnlyOthersActed(old(api.groups), old(api.issued), api.groups, api.issued)
      invariant !others ==> api.groups == old(api.groups) && api.issued == old(api.issued)
      invariant !others && attempt > 0 ==> forall id :: id in api.groups ==> !NameMatches(cfg, api.groups[id], name)
      invariant api.reliable ==> attempt == 0
      decreases MAX_READ_THEN_CREATE_RETRIES - attempt
    {
      attempt := attempt + 1;
      ghost var groups, issued := api.groups, api.issued;
      var found := ReadByName(api, cfg, name, others);
      OthersThen(old(api.groups), old(api.issued), groups, issued, api.groups, api.issued);
      if found.Err? {
        return Err(found.error);
      }
      if found.value.Some? {
        r := AdoptFound(api, cfg, t, name, found.value.value, others, old(api.groups), old(api.issued), from);
        return;
      }
      var created, groups1, issued1 := CreateByName(api, cfg, name, others, old(api.groups), old(api.issued), from);
      if created.Err? {
        if created.error != Conflict || attempt >= MAX_READ_THEN_CREATE_RETRIES {
          return Err(created.error);
        }
      } else {
        if created.value == "" {
          return Err(Invalid("created security group, but id was not returned"));
        }
        r := TagNewGroup(api, cfg, t, created.value, name, additionalTags, others, old(api.groups), old(api.issued), groups1, issued1, from);
        return;
      }
    }
  }

  /** The first group of the name that a read shows, others having acted before. */
  method ReadByName(api: Api, cfg: Config, name: string, others: bool) returns (r: Result<Option<GroupView>>)
    requires api.Valid()
    modifies api`groups, api`issued
    ensures api.Valid()
    ensures OnlyOthersActed(old(api.groups), old(api.issued), api.groups, api.issued)
    ensures !others ==> api.groups == old(api.groups) && api.issued == old(api.issued)
    ensures r.Ok? && r.value.Some? ==> r.value.value.id in api.groups && ShowsGroup(r.value.value, api.groups[r.value.value.id])
    ensures r.Ok? && r.value.Some? ==> NameMatches(cfg, api.groups[r.value.value.id], name)
    ensures r.Ok? && r.value.None? ==> forall id :: id in api.groups ==> !NameMatches(cfg, api.groups[id], name)
    ensures r.Ok? && r.value.Some? ==>
              var found := api.groups[r.value.value.id];
              found.name == name && (cfg.vpcId != "" ==> found.net == cfg.vpcId)
    ensures r.Ok? && r.value.None? ==>
              forall id :: id in api.groups && api.groups[id].name == name ==> cfg.vpcId != "" && api.groups[id].net != cfg.vpcId
    ensures api.reliable ==> r.Ok?
  {
    if others {
      api.OthersAct();
    }
    var f := ByName(name, if cfg.vpcId != "" then Some(cfg.vpcId) else None);
    var read := api.ReadSecurityGroups(f);
    if read.Err? {
      return Err(read.error);
    }
    ListingLength(Ids(read.value), Selected(f, api.groups));
    assert |Ids(read.value)| == |read.value|;
    if |read.value| >= 1 {
      assert read.value[0] in read.value;
      assert Ids(read.value)[0] in Elems(Ids(read.value));
      return Ok(Some(read.value[0]));
    }
    forall id | id in api.groups ensures !NameMatches(cfg, api.groups[id], name) {
      assert id !in Selected(f, api.groups);
    }
    return Ok(None);
  }

  /** Repairs the tags of a group that was found, others having acted since the call began. */
  method AdoptFound(api: Api, cfg: Config, t: Identity, name: string, view: GroupView, others: bool,
                    ghost groups0: Groups, ghost issued0: set<string>, ghost from: nat) returns (r: Result<string>)
    requires api.Valid() && from <= |api.log| && OnlyOthersActed(groups0, issued0, api.groups, api.issued)
    requires view.id in api.groups && ShowsGroup(view, api.groups[view.id]) && NameMatches(cfg, api.groups[view.id], name)
    modifies api`groups, api`issued, api`log
    ensures api.Valid() && old(api.log) <= api.log
    ensures Creates(api.log, from) == Creates(old(api.log), from) && Successes(api.log, from) == Successes(old(api.log), from)
    ensures r.Ok? ==> r.value == view.id && Usable(t, cfg, api.groups, r.value, name)
    ensures r.Ok? ==> Adopted(t, groups0, issued0, api.groups, r.value)
    ensures r.Ok? ==> OthersLeftAlone(groups0, issued0, api.groups, r.value)
    ensures r.Err? ==> NoneChanged(groups0, issued0, api.groups)
    ensures groups0.Keys <= issued0 ==> RulesKept(groups0, api.groups)
    ensures api.reliable && !others && !Foreign(old(api.groups)[view.id].tags, Expected(t, LIFECYCLE_OWNED, map[])) ==> r.Ok?
  {
    r := AdoptGroup(api, cfg, t, name, view, others);
    ghost var tags :| OnlyTagCalls(api.log, |old(api.log)|, view.id, tags);
    CountsSkipTags(old(api.log), from, api.log, view.id, tags);
    LeftAloneTwice(groups0, issued0, old(api.groups), old(api.issued), api.groups, view.id);
    assert r.Ok? ==> IsAdopted(t, groups0, issued0, api.groups, view.id, old(api.groups)[view.id].tags);
  }

  /** One creation, others having acted before it. */
  method CreateByName(api: Api, cfg: Config, name: string, others: bool, ghost groups0: Groups, ghost issued0: set<string>, ghost from: nat)
    returns (r: Result<string>, ghost groups1: Groups, ghost issued1: set<string>)
    requires api.Valid() && from <= |api.log| && OnlyOthersActed(groups0, issued0, api.groups, api.issued)
    modifies api`groups, api`issued, api`log
    ensures api.Valid() && old(api.log) <= api.log
    ensures OnlyOthersActed(groups0, issued0, groups1, issued1)
    ensures Creates(api.log, from) == Creates(old(api.log), from) + 1
    ensures Successes(api.log, from) == Successes(old(api.log), from) + if r.Ok? then 1 else 0
    ensures r.Err? ==> api.groups == groups1 && api.issued == issued1
    ensures !others ==> groups1 == old(api.groups) && issued1 == old(api.issued)
    ensures r.Ok? ==> exists id :: Created(groups1, issued1, api.groups, api.issued, id, name, cfg.vpcId) && (r.value == id || r.value == "")
    ensures api.reliable ==> r.Ok? && r.value != ""
  {
    if others {
      api.OthersAct();
      OthersThen(groups0, issued0, old(api.groups), old(api.issued), api.groups, api.issued);
    }
    groups1, issued1 := api.groups, api.issued;
    r := api.CreateSecurityGroup(name, cfg.vpcId);
    CountsAppend(old(api.log), from, api.log[|old(api.log)|]);
  }

  /** Tags a group right after its creation. The log may count the creation already. */
  method TagNewGroup(api: Api, cfg: Config, t: Identity, id: string, name: string, additionalTags: map<string, string>, others: bool,
                     ghost groups0: Groups, ghost issued0: set<string>, ghost groups1: Groups, ghost issued1: set<string>,
                     ghost from: nat) returns (r: Result<string>)
    requires api.Valid() && from <= |api.log|
    requires OnlyOthersActed(groups0, issued0, groups1, issued1)
    requires Created(groups1, issued1, api.groups, api.issued, id, name, cfg.vpcId)
    modifies api`groups, api`issued, api`log
    ensures api.Valid() && old(api.log) <= api.log
    ensures Creates(api.log, from) == Creates(old(api.log), from) && Successes(api.log, from) == Successes(old(api.log), from)
    ensures r.Ok? ==> r.value == id && Usable(t, cfg, api.groups, id, name)
    ensures r.Ok? ==> id !in issued0 && api.groups[id].tags == NewTags(t, additionalTags)
    ensures r.Ok? ==> OthersLeftAlone(groups0, issued0, api.groups, id)
    ensures r.Err? ==> NoneChanged(groups0, issued0, api.groups)
    ensures groups0.Keys <= issued0 ==> RulesKept(groups0, api.groups)
    ensures api.reliable && !others ==> r.Ok?
  {
    var tagged := SendTags(api, t, id, LIFECYCLE_OWNED, additionalTags, others);
    CountsSkipTags(old(api.log), from, api.log, id, additionalTags + OwnTags(t, LIFECYCLE_OWNED));
    if tagged.Failure? {
      return Err(Invalid("error tagging security group"));
    }
    assert map[] + NewTags(t, additionalTags) == NewTags(t, additionalTags);
    return Ok(id);
  }

  lemma OthersThen(g0: Groups, i0: set<string>, g1: Groups, i1: set<string>, g2: Groups, i2: set<string>)
    requires OnlyOthersActed(g0, i0, g1, i1) && OnlyOthersActed(g1, i1, g2, i2)
    ensures OnlyOthersActed(g0, i0, g2, i2)
  {
  }

  lemma LeftAloneTwice(g0: Groups, i0: set<string>, g1: Groups, i1: set<string>, g2: Groups, id: string)
    requires OnlyOthersActed(g0, i0, g1, i1) && OthersLeftAlone(g1, i1, g2, id)
    ensures OthersLeftAlone(g0, i0, g2, id)
  {
  }

  /**
   The security groups a load balancer is made with: those the service specifies, or else the configured group or one
   made for it, and then the extra ones. Empty entries do not count; the list is never empty.
   */
  method BuildElbSecurityGroupList(api: Api, cfg: Config, t: Identity, lbName: string, specified: seq<string>, extra: seq<string>,
                                   additionalTags: map<string, string>, others: bool) returns (r: Result<seq<string>>)
    requires api.Valid()
    modifies api`groups, api`issued, api`log
    ensures api.Valid() && old(api.log) <= api.log && RulesKept(old(api.groups), api.groups)
    ensures r.Ok? ==> r.value != [] && "" !in r.value
    ensures r.Ok? && NonEmpty(specified) != [] ==> r.value == NonEmpty(specified) + NonEmpty(extra)
    ensures r.Ok? && NonEmpty(specified) == [] ==> r.value[1..] == NonEmpty(extra)
    ensures r.Ok? && NonEmpty(specified) == [] && cfg.elbSecurityGroup != "" ==> r.value[0] == cfg.elbSecurityGroup
    ensures r.Ok? && NonEmpty(specified) == [] && cfg.elbSecurityGroup == "" ==>
              Usable(t, cfg, api.groups, r.value[0], "k8s-elb-" + lbName)
    ensures cfg.elbSecurityGroup != "" ==> r.Ok? && api.log == old(api.log) && api.groups == old(api.groups)
  {
    var id := cfg.elbSecurityGroup;
    if cfg.elbSecurityGroup == "" {
      var ensured := EnsureSecurityGroup(api, cfg, t, "k8s-elb-" + lbName, additionalTags, others);
      if ensured.Err? {
        return Err(ensured.error);
      }
      id := ensured.value;
    }
    var list := DropEmpty(specified);
    if |list| == 0 {
      list := [id];
    }
    var more := DropEmpty(extra);
    NonEmptyHasNoEmpty(specified);
    NonEmptyHasNoEmpty(extra);
    return Ok(list + more);
  }

  /** Dropping keeps every entry but the empty ones, in order. */
  lemma {:induction false} NonEmptyIs(l: seq<string>, m: seq<string>)
    ensures NonEmpty([]) == [] && NonEmpty([""]) == []
    ensures forall x :: x != "" ==> NonEmpty([x]) == [x]
    ensures NonEmpty(l + m) == NonEmpty(l) + NonEmpty(m)
  {
    forall x ensures NonEmpty([x]) == if x == "" then [] else [x] {
      assert [x][..0] == [] && NonEmpty([]) == [];
    }
    if m == [] {
      assert l + m == l;
    } else {
      var front := m[..|m| - 1];
      assert (l + m)[..|l + m| - 1] == l + front;
      NonEmptyIs(l, front);
    }
  }

  ghost function NonEmpty(l: seq<string>): seq<string> {
    if l == [] then [] else NonEmpty(l[..|l| - 1]) + if l[|l| - 1] == "" then [] else [l[|l| - 1]]
  }

  lemma {:induction false} NonEmptyHasNoEmpty(l: seq<string>)
    ensures "" !in NonEmpty(l)
  {
    if l != [] {
      NonEmptyHasNoEmpty(l[..|l| - 1]);
    }
  }

  method DropEmpty(l: seq<string>) returns (r: seq<string>)
    ensures r == NonEmpty(l)
  {
    r := [];
    for i := 0 to |l|
      invariant r == NonEmpty(l[..i])
    {
      assert l[..i + 1][..i] == l[..i];
      if |l[i]| > 0 {
        r := r + [l[i]];
      }
    }
    assert l[..|l|] == l;
  }
}
