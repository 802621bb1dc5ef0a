/** Choosing a load balancer's subnet (ccm_cloud.go, utils.go). */
module Subnets {
  import opened Wrappers
  import opened Collections
  import opened Strings
  import opened CloudApi

  const TAG_NAME_SUBNET_INTERNAL_ELB := "kubernetes.io/role/internal-elb"
  const TAG_NAME_SUBNET_PUBLIC_ELB := "kubernetes.io/role/elb"

  datatype Subnet = Subnet(id: string, zone: string, tags: seq<Tag>)

  datatype Link = Link(subnetId: string, main: bool)

  datatype RouteTable = RouteTable(links: seq<Link>, gateways: seq<string>)

  // ---------- Is a subnet public ----------

  predicate LinksSubnet(t: RouteTable, id: string) {
    exists l :: l in t.links && l.subnetId == id
  }

  predicate IsMain(t: RouteTable) {
    exists l :: l in t.links && l.main
  }

  predicate HasInternetGateway(t: RouteTable) {
    exists g :: g in t.gateways && "igw" <= g
  }

  /** The last table that qualifies. */
  ghost function LastWith(rt: seq<RouteTable>, p: RouteTable -> bool): Option<RouteTable> {
    if rt == [] then None
    else if p(rt[|rt| - 1]) then Some(rt[|rt| - 1])
    else LastWith(rt[..|rt| - 1], p)
  }

  /** The table linked to the subnet, or else the main one. */
  ghost function TableOf(rt: seq<RouteTable>, id: string): Option<RouteTable> {
    var linked := LastWith(rt, t => LinksSubnet(t, id));
    if linked.Some? then linked else LastWith(rt, t => IsMain(t))
  }

  method FindTable(rt: seq<RouteTable>, id: string, byMain: bool) returns (r: Option<RouteTable>)
    ensures r == LastWith(rt, t => if byMain then IsMain(t) else LinksSubnet(t, id))
  {
    r := None;
    for i := 0 to |rt|
      invariant r == LastWith(rt[..i], t => if byMain then IsMain(t) else LinksSubnet(t, id))
    {
      assert rt[..i + 1][..i] == rt[..i];
      var hit := false;
      for j := 0 to |rt[i].links|
        invariant !hit && forall l :: l in rt[i].links[..j] ==> !(if byMain then l.main else l.subnetId == id)
      {
        var l := rt[i].links[j];
        if (if byMain then l.main else l.subnetId == id) {
          assert l in rt[i].links;
          hit := true;
          break;
        }
      }
      assert rt[i].links[..|rt[i].links|] == rt[i].links;
      if hit {
        r := Some(rt[i]);
      }
    }
    assert rt[..|rt|] == rt;
  }

  method IsSubnetPublic(rt: seq<RouteTable>, id: string) returns (r: Result<bool>)
    ensures r.Err? <==> TableOf(rt, id).None?
    ensures r.Ok? ==> (r.value <==> HasInternetGateway(TableOf(rt, id).value))
  {
    var table := FindTable(rt, id, false);
    SamePredicate(rt, t => if false then IsMain(t) else LinksSubnet(t, id), t => LinksSubnet(t, id));
    if table.None? {
      table := FindTable(rt, id, true);
      SamePredicate(rt, t => if true then IsMain(t) else LinksSubnet(t, id), t => IsMain(t));
    }
    if table.None? {
      return Err(Invalid("could not locate routing table for subnet"));
    }
    var gateways := table.value.gateways;
    for i := 0 to |gateways|
      invariant forall g :: g in gateways[..i] ==> !("igw" <= g)
    {
      if "igw" <= gateways[i] {
        assert gateways[i] in gateways;
        return Ok(true);
      }
      assert gateways[..i + 1] == gateways[..i] + [gateways[i]];
    }
    assert gateways[..|gateways|] == gateways;
    return Ok(false);
  }

  lemma {:induction false} SamePredicate(rt: seq<RouteTable>, p: RouteTable -> bool, q: RouteTable -> bool)
    requires forall t :: p(t) == q(t)
    ensures LastWith(rt, p) == LastWith(rt, q)
  {
    if rt != [] {
      SamePredicate(rt[..|rt| - 1], p, q);
    }
  }

  /** The last table linked to the subnet counts, or without one the last main table; public means a gateway whose id begins with igw. */
  lemma PublicIs(rt: seq<RouteTable>, id: string, k: nat)
    requires k < |rt|
    requires if exists j, l :: 0 <= j < |rt| && l in rt[j].links && l.subnetId == id
             then (exists l :: l in rt[k].links && l.subnetId == id)
                  && forall j, l :: k < j < |rt| && l in rt[j].links ==> l.subnetId != id
             else (exists l :: l in rt[k].links && l.main)
                  && forall j, l :: k < j < |rt| && l in rt[j].links ==> !l.main
    ensures TableOf(rt, id) == Some(rt[k])
    ensures Public(rt, id) <==> exists g :: g in rt[k].gateways && |g| >= 3 && g[0] == 'i' && g[1] == 'g' && g[2] == 'w'
  {
    LastIsAt(rt, t => LinksSubnet(t, id), k);
    LastIsAt(rt, t => IsMain(t), k);
    LastIsTheOne(rt, t => LinksSubnet(t, id));
    assert forall g :: "igw" <= g <==> |g| >= 3 && g[0] == 'i' && g[1] == 'g' && g[2] == 'w';
  }

  lemma {:induction false} LastIsAt(rt: seq<RouteTable>, p: RouteTable -> bool, k: nat)
    requires k < |rt|
    ensures p(rt[k]) && (forall j :: k < j < |rt| ==> !p(rt[j])) ==> LastWith(rt, p) == Some(rt[k])
  {
    if k < |rt| - 1 {
      LastIsAt(rt[..|rt| - 1], p, k);
    }
  }

  ghost predicate AtMostOne(rt: seq<RouteTable>, p: RouteTable -> bool) {
    forall i, j :: 0 <= i < j < |rt| ==> !(p(rt[i]) && p(rt[j]))
  }

  ghost predicate LinkedOnce(rt: seq<RouteTable>, id: string) {
    AtMostOne(rt, t => LinksSubnet(t, id))
  }

  /** Every subnet is linked to at most one table, and at most one table is the main one. */
  ghost predicate WellLinked(rt: seq<RouteTable>) {
    (forall id :: LinkedOnce(rt, id)) && AtMostOne(rt, t => IsMain(t))
  }

  lemma {:induction false} LastIsTheOne(rt: seq<RouteTable>, p: RouteTable -> bool)
    ensures LastWith(rt, p).None? <==> forall t :: t in rt ==> !p(t)
    ensures LastWith(rt, p).Some? ==> LastWith(rt, p).value in rt && p(LastWith(rt, p).value)
    ensures AtMostOne(rt, p) ==> forall t :: t in rt && p(t) ==> LastWith(rt, p) == Some(t)
  {
    if rt != [] {
      LastIsTheOne(rt[..|rt| - 1], p);
      assert rt == rt[..|rt| - 1] + [rt[|rt| - 1]];
    }
  }

  /** The order of the tables does not matter. */
  lemma TableIsOrderFree(rt: seq<RouteTable>, other: seq<RouteTable>, id: string)
    requires WellLinked(rt) && WellLinked(other) && Elems(rt) == Elems(other)
    ensures TableOf(rt, id) == TableOf(other, id)
  {
    assert forall t :: t in rt <==> t in Elems(rt);
    assert forall t :: t in other <==> t in Elems(other);
    assert LinkedOnce(rt, id) && LinkedOnce(other, id);
    LastIsTheOne(rt, t => LinksSubnet(t, id));
    LastIsTheOne(other, t => LinksSubnet(t, id));
    LastIsTheOne(rt, t => IsMain(t));
    LastIsTheOne(other, t => IsMain(t));
  }

  // ---------- Which subnets qualify ----------

  predicate HasTag(s: Subnet, key: string) {
    exists t :: t in s.tags && t.key == key
  }

  method FindTag(tags: seq<Tag>, key: string) returns (found: bool)
    ensures found <==> exists t :: t in tags && t.key == key
  {
    for i := 0 to |tags|
      invariant forall t :: t in tags[..i] ==> t.key != key
    {
      if tags[i].key == key {
        assert tags[i] in tags;
        return true;
      }
    }
    assert tags[..|tags|] == tags;
    return false;
  }

  function TagName(internal: bool): string {
    if internal then TAG_NAME_SUBNET_INTERNAL_ELB else TAG_NAME_SUBNET_PUBLIC_ELB
  }

  predicate Considered(s: Subnet) {
    s.zone != "" && s.id != ""
  }

  ghost predicate Public(rt: seq<RouteTable>, id: string) {
    TableOf(rt, id).Some? && HasInternetGateway(TableOf(rt, id).value)
  }

  /** An internal load balancer wants a tagged subnet, another one a public subnet. */
  ghost predicate Candidate(rt: seq<RouteTable>, internal: bool, s: Subnet) {
    Considered(s) && if internal then HasTag(s, TagName(true)) else Public(rt, s.id)
  }

  /** Tagged before untagged, then by id. */
  predicate Better(a: Subnet, b: Subnet, tag: string) {
    if HasTag(a, tag) != HasTag(b, tag) then HasTag(a, tag) else Before(a.id, b.id)
  }

  /** s is a candidate of its zone, and no candidate of the zone is better. */
  ghost predicate Best(subnets: set<Subnet>, rt: seq<RouteTable>, internal: bool, s: Subnet) {
    && s in subnets && Candidate(rt, internal, s)
    && forall o :: o in subnets && Candidate(rt, internal, o) && o.zone == s.zone ==> !Better(o, s, TagName(internal))
  }

  ghost function Zones(subnets: set<Subnet>, rt: seq<RouteTable>, internal: bool): set<string> {
    set s | s in subnets && Candidate(rt, internal, s) :: s.zone
  }

  ghost predicate BestOfZone(subnets: set<Subnet>, rt: seq<RouteTable>, internal: bool, zone: string, id: string) {
    exists s :: Best(subnets, rt, internal, s) && s.zone == zone && s.id == id
  }

  /** The ids of the best subnets, one for each zone that has a candidate, in the order of the zones. */
  ghost predicate Choice(subnets: set<Subnet>, rt: seq<RouteTable>, internal: bool, zones: seq<string>, ids: seq<string>) {
    && Ascending(zones) && Elems(zones) == Zones(subnets, rt, internal)
    && |ids| == |zones|
    && forall k :: 0 <= k < |ids| ==> BestOfZone(subnets, rt, internal, zones[k], ids[k])
  }

  /**
   A choice in terms of the subnets: the k-th id belongs to a subnet of the k-th zone that is tagged as internal, or public,
   and to which every other such subnet of the zone loses, by the tag or else by its id; and no zone with one is left out.
   */
  lemma ChoiceMeans(subnets: set<Subnet>, rt: seq<RouteTable>, internal: bool, zones: seq<string>, ids: seq<string>, k: nat)
    requires Choice(subnets, rt, internal, zones, ids) && k < |ids|
    ensures exists s :: s in subnets && s.id == ids[k] != "" && s.zone == zones[k] != ""
              && (if internal then HasTag(s, "kubernetes.io/role/internal-elb") else Public(rt, s.id))
              && forall o :: o in subnets && o.id != "" && o.zone == s.zone
                             && (if internal then HasTag(o, "kubernetes.io/role/internal-elb") else Public(rt, o.id)) ==>
                   var key := if internal then "kubernetes.io/role/internal-elb" else "kubernetes.io/role/elb";
                   if HasTag(s, key) != HasTag(o, key) then HasTag(s, key) else s.id == o.id || Before(s.id, o.id)
    ensures forall s :: s in subnets && s.id != "" && s.zone != ""
                        && (if internal then HasTag(s, "kubernetes.io/role/internal-elb") else Public(rt, s.id)) ==>
              s.zone in zones
    ensures forall i, j :: 0 <= i < j < |zones| ==> Before(zones[i], zones[j])
  {
    assert BestOfZone(subnets, rt, internal, zones[k], ids[k]);
    var s :| Best(subnets, rt, internal, s) && s.zone == zones[k] && s.id == ids[k];
    var tag := TagName(internal);
    forall o | o in subnets && Candidate(rt, internal, o) && o.zone == s.zone
      ensures if HasTag(s, tag) != HasTag(o, tag) then HasTag(s, tag) else s.id == o.id || Before(s.id, o.id)
    {
      BetterIsTotal(s, o, tag);
    }
    assert forall z :: z in zones <==> z in Elems(zones);
  }

  // ---------- The scan ----------

  /** The best of the given subnets of each zone that has a candidate among them. */
  ghost predicate BestOfEach(byZone: map<string, Subnet>, subnets: set<Subnet>, rt: seq<RouteTable>, internal: bool) {
    && byZone.Keys == Zones(subnets, rt, internal)
    && forall z :: z in byZone ==> byZone[z].zone == z && Best(subnets, rt, internal, byZone[z])
  }

  lemma BetterIsTotal(a: Subnet, b: Subnet, tag: string)
    ensures Better(a, b, tag) || Better(b, a, tag) || (a.id == b.id && HasTag(a, tag) == HasTag(b, tag))
    ensures !Better(a, a, tag)
  {
    BeforeIsTotal(a.id, b.id);
    BeforeIsTotal(a.id, a.id);
  }

  lemma BetterIsTransitive(a: Subnet, b: Subnet, c: Subnet, tag: string)
    requires Better(a, b, tag) && Better(b, c, tag)
    ensures Better(a, c, tag)
  {
    if HasTag(a, tag) == HasTag(b, tag) == HasTag(c, tag) {
      BeforeIsTransitive(a.id, b.id, c.id);
    }
  }

  /** A subnet that is no candidate changes nothing. */
  lemma PassedOver(byZone: map<string, Subnet>, seen: set<Subnet>, rt: seq<RouteTable>, internal: bool, s: Subnet)
    requires BestOfEach(byZone, seen, rt, internal) && !Candidate(rt, internal, s)
    ensures BestOfEach(byZone, seen + {s}, rt, internal)
  {
    assert Zones(seen + {s}, rt, internal) == Zones(seen, rt, internal);
  }

  lemma FirstOfZone(byZone: map<string, Subnet>, seen: set<Subnet>, rt: seq<RouteTable>, internal: bool, s: Subnet)
    requires BestOfEach(byZone, seen, rt, internal) && Candidate(rt, internal, s) && s.zone !in byZone
    ensures BestOfEach(byZone[s.zone := s], seen + {s}, rt, internal)
  {
    OnlyOneOfZone(seen, rt, internal, s);
    forall z | z in byZone ensures Best(seen + {s}, rt, internal, byZone[z]) {
      OthersStayBest(seen, rt, internal, s, byZone[z]);
    }
  }

  lemma OnlyOneOfZone(seen: set<Subnet>, rt: seq<RouteTable>, internal: bool, s: Subnet)
    requires Candidate(rt, internal, s) && s.zone !in Zones(seen, rt, internal)
    ensures Zones(seen + {s}, rt, internal) == Zones(seen, rt, internal) + {s.zone}
    ensures Best(seen + {s}, rt, internal, s)
  {
    BetterIsTotal(s, s, TagName(internal));
    assert forall o :: o in seen && Candidate(rt, internal, o) ==> o.zone in Zones(seen, rt, internal);
  }

  lemma OthersStayBest(seen: set<Subnet>, rt: seq<RouteTable>, internal: bool, s: Subnet, b: Subnet)
    requires Best(seen, rt, internal, b) && b.zone != s.zone
    ensures Best(seen + {s}, rt, internal, b)
  {
  }

  /** Of two candidates of a zone the better one stays. */
  lemma Replaced(byZone: map<string, Subnet>, seen: set<Subnet>, rt: seq<RouteTable>, internal: bool, s: Subnet)
    requires BestOfEach(byZone, seen, rt, internal) && Candidate(rt, internal, s) && s.zone in byZone
    requires Better(s, byZone[s.zone], TagName(internal))
    ensures BestOfEach(byZone[s.zone := s], seen + {s}, rt, internal)
  {
    ZonesStay(byZone, seen, rt, internal, s);
    BetterIsBest(seen, rt, internal, s, byZone[s.zone]);
    forall z | z in byZone && z != s.zone ensures Best(seen + {s}, rt, internal, byZone[z]) {
      OthersStayBest(seen, rt, internal, s, byZone[z]);
    }
  }

  lemma ZonesStay(byZone: map<string, Subnet>, seen: set<Subnet>, rt: seq<RouteTable>, internal: bool, s: Subnet)
    requires BestOfEach(byZone, seen, rt, internal) && s.zone in byZone
    ensures Zones(seen + {s}, rt, internal) == Zones(seen, rt, internal)
  {
  }

  /** What is better than a zone's best is the best. */
  lemma BetterIsBest(seen: set<Subnet>, rt: seq<RouteTable>, internal: bool, s: Subnet, best: Subnet)
    requires Candidate(rt, internal, s) && Best(seen, rt, internal, best) && best.zone == s.zone
    requires Better(s, best, TagName(internal))
    ensures Best(seen + {s}, rt, internal, s)
  {
    var tag := TagName(internal);
    BetterIsTotal(s, s, tag);
    forall o | o in seen && Candidate(rt, internal, o) && o.zone == s.zone ensures !Better(o, s, tag) {
      if Better(o, s, tag) {
        BetterIsTransitive(o, s, best, tag);
      }
    }
  }

  lemma Kept(byZone: map<string, Subnet>, seen: set<Subnet>, rt: seq<RouteTable>, internal: bool, s: Subnet)
    requires BestOfEach(byZone, seen, rt, internal) && Candidate(rt, internal, s) && s.zone in byZone
    requires !Better(s, byZone[s.zone], TagName(internal))
    ensures BestOfEach(byZone, seen + {s}, rt, internal)
  {
    ZonesStay(byZone, seen, rt, internal, s);
  }

  /** One step of the scan: takes a subnet in when it is the first of its zone or better than the one held. */
  method Consider(byZone: map<string, Subnet>, rt: seq<RouteTable>, internal: bool, s: Subnet, ghost seen: set<Subnet>)
    returns (r: Result<map<string, Subnet>>)
    requires BestOfEach(byZone, seen, rt, internal)
    ensures r.Err? <==> Considered(s) && TableOf(rt, s.id).None?
    ensures r.Ok? ==> BestOfEach(r.value, seen + {s}, rt, internal)
  {
    if s.zone == "" || s.id == "" {
      PassedOver(byZone, seen, rt, internal, s);
      return Ok(byZone);
    }
    var isPublic := IsSubnetPublic(rt, s.id);
    if isPublic.Err? {
      return Err(isPublic.error);
    }
    if !internal && !isPublic.value {
      PassedOver(byZone, seen, rt, internal, s);
      return Ok(byZone);
    }
    var subnetHasTag := FindTag(s.tags, TagName(internal));
    if s.zone !in byZone {
      if subnetHasTag || (isPublic.value && !internal) {
        FirstOfZone(byZone, seen, rt, internal, s);
        return Ok(byZone[s.zone := s]);
      }
      PassedOver(byZone, seen, rt, internal, s);
      return Ok(byZone);
    }
    var existing := byZone[s.zone];
    var existingHasTag := FindTag(existing.tags, TagName(internal));
    if Candidate(rt, internal, s) {
      if Better(s, existing, TagName(internal)) {
        Replaced(byZone, seen, rt, internal, s);
      } else {
        Kept(byZone, seen, rt, internal, s);
      }
    } else {
      PassedOver(byZone, seen, rt, internal, s);
    }
    if existingHasTag != subnetHasTag {
      return Ok(if subnetHasTag then byZone[s.zone := s] else byZone);
    }
    BeforeIsTotal(s.id, existing.id);
    return Ok(if Before(s.id, existing.id) then byZone[s.zone := s] else byZone);
  }

  /** One subnet for each zone, in the order of the zones; an error when some subnet has no route table. */
  method FindElbSubnets(subnets: seq<Subnet>, rt: seq<RouteTable>, internal: bool) returns (r: Result<seq<string>>)
    ensures r.Err? <==> exists s :: s in subnets && Considered(s) && TableOf(rt, s.id).None?
    ensures r.Ok? ==> exists zones :: Choice(Elems(subnets), rt, internal, zones, r.value)
  {
    var byZone: map<string, Subnet> := map[];
    for i := 0 to |subnets|
      invariant BestOfEach(byZone, Elems(subnets[..i]), rt, internal)
      invariant forall s :: s in subnets[..i] && Considered(s) ==> TableOf(rt, s.id).Some?
    {
      assert subnets[..i + 1] == subnets[..i] + [subnets[i]] && subnets[i] in subnets;
      assert Elems(subnets[..i + 1]) == Elems(subnets[..i]) + {subnets[i]};
      var next := Consider(byZone, rt, internal, subnets[i], Elems(subnets[..i]));
      if next.Err? {
        return Err(next.error);
      }
      byZone := next.value;
    }
    assert subnets[..|subnets|] == subnets;
    var zones, ids := ListBest(byZone, Elems(subnets), rt, internal);
    return Ok(ids);
  }

  method ListBest(byZone: map<string, Subnet>, ghost subnets: set<Subnet>, ghost rt: seq<RouteTable>, ghost internal: bool)
    returns (zones: seq<string>, ids: seq<string>)
    requires BestOfEach(byZone, subnets, rt, internal)
    ensures Choice(subnets, rt, internal, zones, ids)
  {
    zones := Sort(byZone.Keys);
    ids := [];
    for i := 0 to |zones|
      invariant |ids| == i && forall k :: 0 <= k < i ==> zones[k] in byZone && ids[k] == byZone[zones[k]].id
    {
      assert zones[i] in zones;
      ids := ids + [byZone[zones[i]].id];
    }
    assert Elems(zones) == byZone.Keys;
    forall k | 0 <= k < |ids| ensures BestOfZone(subnets, rt, internal, zones[k], ids[k]) {
      var s := byZone[zones[k]];
      assert Best(subnets, rt, internal, s) && s.zone == zones[k] && s.id == ids[k];
    }
  }

  // ---------- Order does not matter ----------

  lemma BestHasOneId(subnets: set<Subnet>, rt: seq<RouteTable>, internal: bool, a: Subnet, b: Subnet)
    requires a.zone == b.zone && Best(subnets, rt, internal, a) && Best(subnets, rt, internal, b)
    ensures a.id == b.id
  {
    BetterIsTotal(a, b, TagName(internal));
  }

  /** For the same subnets and well-linked tables in any orders there is one choice. */
  lemma ChoiceIsOrderFree(subnets: set<Subnet>, rt: seq<RouteTable>, other: seq<RouteTable>, internal: bool,
                          zones: seq<string>, ids: seq<string>, otherZones: seq<string>, otherIds: seq<string>)
    requires WellLinked(rt) && WellLinked(other) && Elems(rt) == Elems(other)
    requires Choice(subnets, rt, internal, zones, ids) && Choice(subnets, other, internal, otherZones, otherIds)
    ensures ids == otherIds && zones == otherZones
  {
    forall s | s in subnets ensures Candidate(rt, internal, s) <==> Candidate(other, internal, s) {
      TableIsOrderFree(rt, other, s.id);
    }
    assert Zones(subnets, rt, internal) == Zones(subnets, other, internal);
    assert forall z :: z in zones <==> z in Elems(zones);
    assert forall z :: z in otherZones <==> z in Elems(otherZones);
    AscendingIsUnique(zones, otherZones);
    forall k | 0 <= k < |ids| ensures ids[k] == otherIds[k] {
      assert BestOfZone(subnets, rt, internal, zones[k], ids[k]) && BestOfZone(subnets, other, internal, zones[k], otherIds[k]);
      var a :| Best(subnets, rt, internal, a) && a.zone == zones[k] && a.id == ids[k];
      var b :| Best(subnets, other, internal, b) && b.zone == zones[k] && b.id == otherIds[k];
      assert Best(subnets, rt, internal, b);
      BestHasOneId(subnets, rt, internal, a, b);
    }
  }

  /** The subnet used in the end: the requested one if it is among them, or else the least id. */
  method PickSubnet(ids: seq<string>, requested: string) returns (r: Result<seq<string>>)
    ensures r.Err? <==> ids != [] && requested != "" && requested !in ids
    ensures r.Ok? && ids == [] ==> r.value == []
    ensures r.Ok? && ids != [] && requested != "" ==> r.value == [requested]
    ensures r.Ok? && ids != [] && requested == "" ==> |r.value| == 1 && r.value[0] in ids && forall x :: x in ids ==> !Before(x, r.value[0])
  {
    if |ids| > 0 && requested != "" {
      if requested in ids {
        return Ok([requested]);
      }
      return Err(Invalid("user subnet specified in the annotation was not found"));
    }
    if |ids| > 1 {
      var least := Least(ids);
      return Ok([least]);
    }
    if |ids| == 1 {
      BeforeIsTotal(ids[0], ids[0]);
    }
    return Ok(ids);
  }
}
