/** Cluster ownership tags: building, checking and repairing them (tags.go). */
module Tagging {
  import opened Wrappers
  import opened CloudApi

  const CLUSTER_PREFIX := "OscK8sClusterID/"
  const LIFECYCLE_OWNED := "owned"
  const CREATE_TAG_STEPS: nat := 9

  /** Who we are: the cluster id, and whether the legacy tag (of the given key) is used too. */
  datatype Identity = Identity(clusterId: string, usesLegacyTags: bool, legacyKey: string)

  function ClusterTagKey(t: Identity): string {
    CLUSTER_PREFIX + t.clusterId
  }

  class ResourceTagging {
    var clusterId: string
    var usesLegacyTags: bool
    const legacyKey: string

    function Value(): Identity
      reads this
    {
      Identity(clusterId, usesLegacyTags, legacyKey)
    }

    constructor (legacyKey: string)
      ensures Value() == Identity("", false, legacyKey)
    {
      this.legacyKey := legacyKey;
      clusterId, usesLegacyTags := "", false;
    }

    /** Succeeds exactly when one id is known and the two sources do not disagree; then that id is the cluster's. */
    method Init(legacyId: string, newId: string) returns (r: Outcome)
      modifies this
      ensures r.Done? <==> (legacyId != "" || newId != "") && (legacyId == "" || newId == "" || legacyId == newId)
      ensures r.Done? ==> clusterId != "" && clusterId == if legacyId != "" then legacyId else newId
      ensures r.Done? ==> usesLegacyTags == (old(usesLegacyTags) || legacyId != "")
    {
      var id := newId;
      if legacyId != "" {
        if id != "" && legacyId != id {
          return Failure(Invalid("clusterID tags did not match"));
        }
        usesLegacyTags := true;
        id := legacyId;
      }
      clusterId := id;
      if id != "" {
        return Done;
      }
      return Failure(Invalid("AWS cloud failed to find ClusterID"));
    }
  }

  // ---------- Reading tags ----------

  /** Without a cluster id everything counts as ours. */
  predicate Ours(t: Identity, tags: map<string, string>) {
    t.clusterId == "" || ClusterTagKey(t) in tags
  }

  method HasClusterTag(t: Identity, tags: seq<Tag>) returns (r: bool)
    ensures r <==> t.clusterId == "" || exists tag :: tag in tags && tag.key == "OscK8sClusterID/" + t.clusterId
    ensures forall m :: TagList(tags, m) ==> (r <==> Ours(t, m))
  {
    if |t.clusterId| == 0 {
      return true;
    }
    for i := 0 to |tags|
      invariant forall tag :: tag in tags[..i] ==> tag.key != ClusterTagKey(t)
    {
      if tags[i].key == ClusterTagKey(t) {
        assert tags[i] in tags;
        return true;
      }
      assert tags[..i + 1] == tags[..i] + [tags[i]];
    }
    assert tags[..|tags|] == tags;
    return false;
  }

  // ---------- Building tags ----------

  ghost function OwnTags(t: Identity, lifecycle: string): map<string, string> {
    if t.clusterId == "" then map[]
    else (if t.usesLegacyTags then map[t.legacyKey := t.clusterId] else map[]) + map[ClusterTagKey(t) := lifecycle]
  }

  /** The cluster's own tags: the key that contains its id with the lifecycle, and the legacy key with the id if it is used. */
  lemma OwnTagsAre(t: Identity, lifecycle: string)
    ensures t.clusterId == "" ==> OwnTags(t, lifecycle) == map[]
    ensures t.clusterId != "" ==>
              && OwnTags(t, lifecycle).Keys
                 == {"OscK8sClusterID/" + t.clusterId} + (if t.usesLegacyTags then {t.legacyKey} else {})
              && OwnTags(t, lifecycle)["OscK8sClusterID/" + t.clusterId] == lifecycle
              && (t.usesLegacyTags && t.legacyKey != "OscK8sClusterID/" + t.clusterId ==>
                    OwnTags(t, lifecycle)[t.legacyKey] == t.clusterId)
  {
  }

  method BuildTags(t: Identity, lifecycle: string, additional: map<string, string>) returns (tags: map<string, string>)
    ensures tags == additional + OwnTags(t, lifecycle)
  {
    tags := CopyOf(additional);
    if |t.clusterId| == 0 {
      return;
    }
    if t.usesLegacyTags {
      tags := tags[t.legacyKey := t.clusterId];
    }
    tags := tags[ClusterTagKey(t) := lifecycle];
  }

  method CopyOf(m: map<string, string>) returns (copy: map<string, string>)
    ensures copy == m
  {
    copy := map[];
    var todo := m.Keys;
    while todo != {}
      invariant todo <= m.Keys
      invariant copy == map k | k in m && k !in todo :: m[k]
      decreases |todo|
    {
      var k :| k in todo;
      copy := copy[k := m[k]];
      todo := todo - {k};
    }
  }

  // ---------- Repairing tags ----------

  ghost function ValueOf(tags: map<string, string>, k: string): string {
    if k in tags then tags[k] else ""
  }

  /** Some expected key holds another, non-empty value. */
  ghost predicate Foreign(tags: map<string, string>, expected: map<string, string>) {
    exists k :: k in expected && ValueOf(tags, k) != expected[k] && ValueOf(tags, k) != ""
  }

  /** The expected tags that are absent or empty. */
  ghost function Missing(tags: map<string, string>, expected: map<string, string>): map<string, string> {
    map k | k in expected && ValueOf(tags, k) == "" && expected[k] != "" :: expected[k]
  }

  ghost function Expected(t: Identity, lifecycle: string, additional: map<string, string>): map<string, string> {
    additional + OwnTags(t, lifecycle)
  }

  /** The tags after a successful repair; the missing tags are sent together with the cluster's own ones. */
  ghost function Repaired(tags: map<string, string>, t: Identity, lifecycle: string, additional: map<string, string>): map<string, string> {
    var missing := Missing(tags, Expected(t, lifecycle, additional));
    if missing == map[] then tags else tags + (missing + OwnTags(t, lifecycle))
  }

  /** Repair keeps every non-empty value, gives every expected key its value, adds no other key, and has nothing left to do. */
  lemma RepairAddsTheExpected(tags: map<string, string>, t: Identity, lifecycle: string, additional: map<string, string>)
    requires lifecycle != "" && forall k :: k in additional ==> additional[k] != ""
    requires !Foreign(tags, Expected(t, lifecycle, additional))
    ensures var expected := Expected(t, lifecycle, additional);
            var after := Repaired(tags, t, lifecycle, additional);
            && after.Keys == tags.Keys + expected.Keys
            && (forall k :: k in expected ==> after[k] == expected[k])
            && (forall k :: k in tags && (tags[k] != "" || k !in expected) ==> after[k] == tags[k])
            && !Foreign(after, expected) && Missing(after, expected) == map[]
  {
    var expected := Expected(t, lifecycle, additional);
    var after := Repaired(tags, t, lifecycle, additional);
    forall k
      ensures k in after <==> k in tags || k in expected
      ensures k in expected ==> k in after && after[k] == expected[k]
      ensures k in tags && (tags[k] != "" || k !in expected) ==> k in after && after[k] == tags[k]
    {
      RepairAt(tags, t, lifecycle, additional, k);
    }
  }

  lemma RepairAt(tags: map<string, string>, t: Identity, lifecycle: string, additional: map<string, string>, k: string)
    requires lifecycle != "" && forall k :: k in additional ==> additional[k] != ""
    requires !Foreign(tags, Expected(t, lifecycle, additional))
    ensures var expected := Expected(t, lifecycle, additional);
            var after := Repaired(tags, t, lifecycle, additional);
            && (k in after <==> k in tags || k in expected)
            && (k in expected ==> after[k] == expected[k])
            && (k in tags && (tags[k] != "" || k !in expected) ==> after[k] == tags[k])
  {
    var expected := Expected(t, lifecycle, additional);
    var own := OwnTags(t, lifecycle);
    var missing := Missing(tags, expected);
    assert k in own ==> k in expected && expected[k] == own[k] != "";
    assert k in expected ==> expected[k] != "";
    assert k in expected ==> k in missing || ValueOf(tags, k) == expected[k];
    if missing == map[] {
      assert k !in missing;
    }
  }

  /** An expected tag with an empty value is never sent: repair yields every expected key exactly when those are there already. */
  lemma RepairYieldsExpectedKeysIff(tags: map<string, string>, t: Identity, lifecycle: string, additional: map<string, string>)
    requires lifecycle != "" && !Foreign(tags, Expected(t, lifecycle, additional))
    ensures Expected(t, lifecycle, additional).Keys <= Repaired(tags, t, lifecycle, additional).Keys
       <==> forall k :: k in additional && additional[k] == "" && k !in OwnTags(t, lifecycle) ==> k in tags
  {
    var expected := Expected(t, lifecycle, additional);
    var after := Repaired(tags, t, lifecycle, additional);
    var missing := Missing(tags, expected);
    assert forall k :: k in OwnTags(t, lifecycle) ==> expected[k] == OwnTags(t, lifecycle)[k] != "";
    assert forall k :: k in expected && expected[k] != "" ==> k in missing || k in tags;
    assert missing == map[] ==> forall k :: k in expected ==> k !in missing;
    assert forall k :: k in after ==> k in tags || k in missing || k in OwnTags(t, lifecycle);
    assert missing != map[] ==> forall k :: k in missing ==> k in after;
    if expected.Keys <= after.Keys {
      forall k | k in additional && additional[k] == "" && k !in OwnTags(t, lifecycle) ensures k in tags {
        assert k in expected && k !in missing;
      }
    }
    if forall k :: k in additional && additional[k] == "" && k !in OwnTags(t, lifecycle) ==> k in tags {
      forall k | k in expected ensures k in after {
        if k in OwnTags(t, lifecycle) {
        } else if additional[k] == "" {
          assert k in tags;
        }
      }
    }
  }

  /**
   After one cluster repaired a resource, another cluster is refused exactly when both use the legacy
   tag: the key of the new tag contains the cluster id, so new tags of two clusters never clash.
   */
  lemma ExclusiveIffBothLegacy(tags: map<string, string>, a: Identity, b: Identity)
    requires a.clusterId != "" && b.clusterId != "" && a.clusterId != b.clusterId && a.legacyKey == b.legacyKey
    requires a.legacyKey != ClusterTagKey(a) && a.legacyKey != ClusterTagKey(b)
    requires !Foreign(tags, Expected(a, LIFECYCLE_OWNED, map[])) && !Foreign(tags, Expected(b, LIFECYCLE_OWNED, map[]))
    ensures Foreign(Repaired(tags, a, LIFECYCLE_OWNED, map[]), Expected(b, LIFECYCLE_OWNED, map[]))
       <==> a.usesLegacyTags && b.usesLegacyTags
  {
    KeysDiffer(a.clusterId, b.clusterId);
    RepairAddsTheExpected(tags, a, LIFECYCLE_OWNED, map[]);
    var after := Repaired(tags, a, LIFECYCLE_OWNED, map[]);
    var wanted := Expected(b, LIFECYCLE_OWNED, map[]);
    var given := Expected(a, LIFECYCLE_OWNED, map[]);
    assert ValueOf(after, ClusterTagKey(b)) == ValueOf(tags, ClusterTagKey(b)) by {
      assert ClusterTagKey(b) !in given;
    }
    assert ClusterTagKey(b) in wanted;
    if a.usesLegacyTags && b.usesLegacyTags {
      assert a.legacyKey in given && a.legacyKey in wanted;
      assert after[a.legacyKey] == a.clusterId;
    } else if b.usesLegacyTags {
      assert a.legacyKey !in given;
      assert ValueOf(after, a.legacyKey) == ValueOf(tags, a.legacyKey);
      assert a.legacyKey in wanted;
    }
  }

  lemma KeysDiffer(a: string, b: string)
    requires a != b
    ensures CLUSTER_PREFIX + a != CLUSTER_PREFIX + b
  {
    assert (CLUSTER_PREFIX + a)[|CLUSTER_PREFIX|..] == a;
    assert (CLUSTER_PREFIX + b)[|CLUSTER_PREFIX|..] == b;
  }

  // ---------- The calls ----------

  ghost predicate OnlyTagCalls(log: seq<Event>, from: nat, id: string, tags: map<string, string>) {
    forall i :: from <= i < |log| ==> log[i].call == CreateTags(id, tags)
  }

  /** The group with more tags; any other group as it is. */
  ghost function WithTags(g: GroupState, more: map<string, string>): GroupState {
    g.(tags := g.tags + more)
  }

  /** Besides what others created and deleted, at most the tags of one group changed, by the given ones. */
  ghost predicate OnlyTagged(before: Groups, issuedBefore: set<string>, after: Groups, issued: set<string>,
                             id: string, sent: map<string, string>)
  {
    && issuedBefore <= issued
    && forall g :: g in after ==>
         if g !in issuedBefore then g in issued
         else g in before && after[g] == if g == id then WithTags(before[g], sent) else before[g]
  }

  /** Sends the tags until a call succeeds, at most nine times; others may act between the attempts. */
  method SendTags(api: Api, t: Identity, id: string, lifecycle: string, additional: map<string, string>, others: bool)
    returns (r: Outcome)
    requires api.Valid()
    modifies api`groups, api`issued, api`log
    ensures api.Valid() && old(api.log) <= api.log
    ensures |api.log| <= |old(api.log)| + 9
    ensures OnlyTagCalls(api.log, |old(api.log)|, id, additional + OwnTags(t, lifecycle))
    ensures api.log == old(api.log) <==> additional + OwnTags(t, lifecycle) == map[]
    ensures api.log == old(api.log) ==> r.Done? && api.groups == old(api.groups) && api.issued == old(api.issued)
    ensures r.Failure? ==> OnlyOthersActed(old(api.groups), old(api.issued), api.groups, api.issued)
    ensures r.Done? ==>
              OnlyTagged(old(api.groups), old(api.issued), api.groups, api.issued, id, additional + OwnTags(t, lifecycle))
    ensures r.Done? && api.log != old(api.log) && id in old(api.issued) ==> id in api.groups
    ensures !others && r.Failure? ==> api.groups == old(api.groups)
    ensures !others && r.Done? ==> api.groups.Keys == old(api.groups).Keys
    ensures !others ==> api.issued == old(api.issued)
    ensures api.reliable && !others && id in old(api.groups) ==> r.Done?
  {
    var tags := BuildTags(t, lifecycle, additional);
    if |tags| == 0 {
      return Done;
    }
    r := RetryTags(api, id, tags, others);
  }

  method RetryTags(api: Api, id: string, tags: map<string, string>, others: bool) returns (r: Outcome)
    requires api.Valid()
    modifies api`groups, api`issued, api`log
    ensures api.Valid() && old(api.log) <= api.log
    ensures |old(api.log)| < |api.log| <= |old(api.log)| + CREATE_TAG_STEPS
    ensures OnlyTagCalls(api.log, |old(api.log)|, id, tags)
    ensures r.Failure? ==> OnlyOthersActed(old(api.groups), old(api.issued), api.groups, api.issued)
    ensures r.Done? ==> OnlyTagged(old(api.groups), old(api.issued), api.groups, api.issued, id, tags)
    ensures r.Done? ==> id in api.groups
    ensures !others && r.Failure? ==> api.groups == old(api.groups)
    ensures !others && r.Done? ==> api.groups.Keys == old(api.groups).Keys
    ensures !others ==> api.issued == old(api.issued)
    ensures api.reliable && !others && id in old(api.groups) ==> r.Done?
  {
    r := TryTags(api, id, tags, others);
    var attempt := 1;
    while r.Failure? && attempt < CREATE_TAG_STEPS
      invariant api.Valid() && old(api.log) <= api.log && attempt <= CREATE_TAG_STEPS
      invariant |api.log| == |old(api.log)| + attempt
      invariant OnlyTagCalls(api.log, |old(api.log)|, id, tags)
      invariant r.Failure? ==> OnlyOthersActed(old(api.groups), old(api.issued), api.groups, api.issued)
      invariant r.Done? ==> OnlyTagged(old(api.groups), old(api.issued), api.groups, api.issued, id, tags) && id in api.groups
      invariant !others && r.Failure? ==> api.groups == old(api.groups)
      invariant !others && r.Done? ==> api.groups.Keys == old(api.groups).Keys
      invariant !others ==> api.issued == old(api.issued)
      invariant api.reliable && !others && id in old(api.groups) ==> r.Done?
    {
      ghost var groups, issued := api.groups, api.issued;
      r := TryTags(api, id, tags, others);
      OthersFirst(old(api.groups), old(api.issued), groups, issued, api.groups, api.issued, id, tags);
      attempt := attempt + 1;
    }
  }

  /** One attempt, after others had their turn. */
  method TryTags(api: Api, id: string, tags: map<string, string>, others: bool) returns (r: Outcome)
    requires api.Valid()
    modifies api`groups, api`issued, api`log
    ensures api.Valid() && |api.log| == |old(api.log)| + 1 && old(api.log) <= api.log
    ensures api.log[|old(api.log)|].call == CreateTags(id, tags)
    ensures r.Failure? ==> OnlyOthersActed(old(api.groups), old(api.issued), api.groups, api.issued)
    ensures r.Done? ==> OnlyTagged(old(api.groups), old(api.issued), api.groups, api.issued, id, tags) && id in api.groups
    ensures !others && r.Failure? ==> api.groups == old(api.groups)
    ensures !others && r.Done? ==> api.groups.Keys == old(api.groups).Keys
    ensures !others ==> api.issued == old(api.issued)
    ensures api.reliable && !others && id in old(api.groups) ==> r.Done?
  {
    if others {
      api.OthersAct();
    }
    r := api.CreateTagsOn(id, tags);
  }

  lemma OthersFirst(g0: Groups, i0: set<string>, g1: Groups, i1: set<string>, g2: Groups, i2: set<string>,
                    id: string, tags: map<string, string>)
    requires OnlyOthersActed(g0, i0, g1, i1)
    ensures OnlyOthersActed(g1, i1, g2, i2) ==> OnlyOthersActed(g0, i0, g2, i2)
    ensures OnlyTagged(g1, i1, g2, i2, id, tags) ==> OnlyTagged(g0, i0, g2, i2, id, tags)
  {
  }

  /** The observed tags by key; the last of several equal keys wins. */
  method TagMap(observed: seq<Tag>) returns (m: map<string, string>)
    ensures forall tags :: TagList(observed, tags) ==> m == tags
  {
    m := map[];
    for i := 0 to |observed|
      invariant forall k :: k in m <==> exists t :: t in observed[..i] && t.key == k
      invariant forall k :: k in m ==> Tag(k, m[k]) in observed[..i]
    {
      m := m[observed[i].key := observed[i].value];
      assert observed[..i + 1] == observed[..i] + [observed[i]];
      assert observed[i] == Tag(observed[i].key, observed[i].value);
    }
    assert observed[..|observed|] == observed;
  }

  /** The expected tags to add, or nothing when some key holds another non-empty value. */
  method PlanRepair(actual: map<string, string>, expected: map<string, string>) returns (add: Option<map<string, string>>)
    ensures add.None? <==> exists k :: k in expected && k in actual && actual[k] != "" && actual[k] != expected[k]
    ensures add.Some? ==> forall k :: k in add.value <==> k in expected && expected[k] != "" && (k !in actual || actual[k] == "")
    ensures add.Some? ==> forall k :: k in add.value ==> add.value[k] == expected[k]
    ensures add.None? <==> Foreign(actual, expected)
    ensures add.Some? ==> add.value == Missing(actual, expected)
  {
    var addTags := map[];
    var todo := expected.Keys;
    while todo != {}
      invariant todo <= expected.Keys
      invariant forall k :: k in addTags <==> k in expected && k !in todo && ValueOf(actual, k) == "" && expected[k] != ""
      invariant forall k :: k in addTags ==> addTags[k] == expected[k]
      invariant forall k :: k in expected && k !in todo ==> ValueOf(actual, k) == expected[k] || ValueOf(actual, k) == ""
      decreases |todo|
    {
      var k :| k in todo;
      var value := if k in actual then actual[k] else "";
      todo := todo - {k};
      if value != expected[k] {
        if value == "" {
          addTags := addTags[k := expected[k]];
        } else {
          return None;
        }
      }
    }
    return Some(addTags);
  }

  /** Adds the missing tags of a resource whose tags were read before; refuses a resource with another owner's tags. */
  method ReadRepairClusterTags(api: Api, t: Identity, id: string, lifecycle: string, additional: map<string, string>,
                               observed: Option<seq<Tag>>, ghost tags: map<string, string>, others: bool) returns (r: Outcome)
    requires api.Valid()
    requires observed.Some? ==> TagList(observed.value, tags)
    modifies api`groups, api`issued, api`log
    ensures api.Valid() && old(api.log) <= api.log && |api.log| <= |old(api.log)| + CREATE_TAG_STEPS
    ensures observed.None? ==> r.Failure? && api.log == old(api.log)
    // A foreign tag is an error without any call; nothing missing is success without any call.
    ensures Foreign(tags, Expected(t, lifecycle, additional)) ==> r.Failure? && api.log == old(api.log)
    ensures r.Done? && api.log == old(api.log) ==> Missing(tags, Expected(t, lifecycle, additional)) == map[]
    ensures Missing(tags, Expected(t, lifecycle, additional)) == map[] ==> api.log == old(api.log)
    ensures observed.Some? && Missing(tags, Expected(t, lifecycle, additional)) == map[] ==>
              (r.Done? <==> !Foreign(tags, Expected(t, lifecycle, additional)))
    ensures api.log == old(api.log) ==> api.groups == old(api.groups) && api.issued == old(api.issued)
    // Otherwise the missing tags are sent, together with the cluster's own ones.
    ensures OnlyTagCalls(api.log, |old(api.log)|, id, Missing(tags, Expected(t, lifecycle, additional)) + OwnTags(t, lifecycle))
    ensures r.Failure? ==> OnlyOthersActed(old(api.groups), old(api.issued), api.groups, api.issued)
    ensures r.Done? && api.log != old(api.log) ==>
              OnlyTagged(old(api.groups), old(api.issued), api.groups, api.issued, id,
                         Missing(tags, Expected(t, lifecycle, additional)) + OwnTags(t, lifecycle))
    ensures r.Done? && api.log != old(api.log) && id in old(api.issued) ==> id in api.groups
    ensures !others && r.Failure? ==> api.groups == old(api.groups)
    ensures !others && r.Done? ==> api.groups.Keys == old(api.groups).Keys
    ensures !others ==> api.issued == old(api.issued)
    ensures api.reliable && !others && observed.Some? && id in old(api.groups)
            && !Foreign(tags, Expected(t, lifecycle, additional)) ==>
            r.Done?
  {
    if observed.None? {
      return Failure(Invalid("Got an nil Tags"));
    }
    var actual := TagMap(observed.value);
    var expected := BuildTags(t, lifecycle, additional);
    var add := PlanRepair(actual, expected);
    if add.None? {
      return Failure(Invalid("resource has tag belonging to another cluster"));
    }
    if |add.value| == 0 {
      return Done;
    }
    r := SendTags(api, t, id, lifecycle, add.value, others);
    if r.Failure? {
      return Failure(Invalid("error adding missing tags to resource"));
    }
  }

  /** When the observed tags are the group's tags, a successful undisturbed repair leaves the repaired ones and changes no other group. */
  lemma RepairLeavesRepairedTags(before: Groups, after: Groups, issued: set<string>, t: Identity, id: string,
                                 lifecycle: string, additional: map<string, string>, called: bool)
    requires before.Keys == after.Keys <= issued && id in before
    requires var missing := Missing(before[id].tags, Expected(t, lifecycle, additional));
             if called then OnlyTagged(before, issued, after, issued, id, missing + OwnTags(t, lifecycle)) && missing != map[]
             else after == before && missing == map[]
    ensures after == before[id := before[id].(tags := Repaired(before[id].tags, t, lifecycle, additional))]
  {
  }
}
