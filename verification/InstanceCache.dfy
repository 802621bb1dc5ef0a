/** The cached snapshot of all instances, and concurrent callers that read and refresh it (instances.go). */
module InstanceCache {
  import opened Wrappers
  import opened Collections
  import opened NodeGroupUpdate

  type Instances = map<string, Vm>

  /** All instances, as read at some time from the timestamp on. */
  datatype Snapshot = Snapshot(timestamp: int, instances: Instances)

  /** A maximal age of zero means no limit. */
  datatype Criteria = Criteria(maxAge: int, hasInstances: seq<string>)

  // ---------- The code ----------

  predicate OlderThan(s: Snapshot, other: Snapshot) {
    other.timestamp > s.timestamp
  }

  /** What the cache holds after a snapshot was published. */
  function Newer(cached: Option<Snapshot>, s: Snapshot): Option<Snapshot> {
    if cached.Some? && OlderThan(s, cached.value) then cached else Some(s)
  }

  /** Young enough, and with every instance asked for. */
  predicate Suits(s: Snapshot, c: Criteria, now: int) {
    && (c.maxAge > 0 ==> now - s.timestamp <= c.maxAge)
    && forall id :: id in c.hasInstances ==> id in s.instances
  }

  method MeetsCriteria(s: Snapshot, c: Criteria, now: int) returns (r: bool)
    ensures r <==> Suits(s, c, now)
    ensures r <==> (c.maxAge <= 0 || now - s.timestamp <= c.maxAge) && forall i :: 0 <= i < |c.hasInstances| ==> c.hasInstances[i] in s.instances
  {
    if c.maxAge > 0 {
      if now - s.timestamp > c.maxAge {
        return false;
      }
    }
    if |c.hasInstances| != 0 {
      for i := 0 to |c.hasInstances|
        invariant forall id :: id in c.hasInstances[..i] ==> id in s.instances
      {
        if c.hasInstances[i] !in s.instances {
          assert c.hasInstances[i] in c.hasInstances;
          return false;
        }
        assert c.hasInstances[..i + 1] == c.hasInstances[..i] + [c.hasInstances[i]];
      }
      assert c.hasInstances[..|c.hasInstances|] == c.hasInstances;
    }
    return true;
  }

  /** The instances of the given ids that the snapshot knows. */
  ghost function Found(s: Snapshot, ids: seq<string>): Instances {
    map id | id in ids && id in s.instances :: s.instances[id]
  }

  method FindInstances(s: Snapshot, ids: seq<string>) returns (m: Instances)
    ensures m == Found(s, ids)
    ensures forall id :: id in m <==> id in ids && id in s.instances
    ensures forall id :: id in m ==> m[id] == s.instances[id]
  {
    m := map[];
    for i := 0 to |ids|
      invariant m == Found(s, ids[..i])
    {
      assert ids[..i + 1] == ids[..i] + [ids[i]];
      if ids[i] in s.instances {
        m := m[ids[i] := s.instances[ids[i]]];
      }
    }
    assert ids[..|ids|] == ids;
  }

  /** The instances a read reports, by id. */
  method MapById(vms: seq<Vm>) returns (m: Instances)
    ensures m.Keys == set vm | vm in vms :: vm.id
    ensures forall id :: id in m ==> m[id] in vms && m[id].id == id
  {
    m := map[];
    for i := 0 to |vms|
      invariant m.Keys == set vm | vm in vms[..i] :: vm.id
      invariant forall id :: id in m ==> m[id] in vms && m[id].id == id
    {
      assert vms[..i + 1] == vms[..i] + [vms[i]];
      m := m[vms[i].id := vms[i]];
    }
    assert vms[..|vms|] == vms;
  }

  /** The two critical sections of the cache. */
  class Cache {
    var snapshot: Option<Snapshot>

    constructor ()
      ensures snapshot == None
    {
      snapshot := None;
    }

    method Publish(s: Snapshot)
      modifies this
      ensures snapshot == Newer(old(snapshot), s)
      ensures snapshot == if old(snapshot).Some? && old(snapshot).value.timestamp > s.timestamp then old(snapshot) else Some(s)
    {
      if snapshot.Some? && OlderThan(s, snapshot.value) {
        return;
      }
      snapshot := Some(s);
    }

    method GetSnapshot() returns (s: Option<Snapshot>)
      ensures s == snapshot
    {
      return snapshot;
    }
  }

  /** What the cloud holds at each instant. */
  type History = int -> Instances

  /** The data was the cloud's at some instant between the timestamp and the given time. */
  ghost predicate Genuine(h: History, s: Snapshot, until: int) {
    exists t :: s.timestamp <= t <= until && h(t) == s.instances
  }

  /** The cloud's instances over time, and the clock. */
  class Cloud {
    const history: History
    var time: int

    ghost predicate Valid() {
      forall t, id :: id in history(t) ==> history(t)[id].id == id
    }

    method Now() returns (t: int)
      modifies this
      ensures t == time && old(time) <= time
    {
      var passed: int := *;
      time := if passed > 0 then time + passed else time;
      t := time;
    }

    /** Reports the instances of some instant of the call, or fails. */
    method DescribeInstances() returns (r: Option<seq<Vm>>)
      requires Valid()
      modifies this
      ensures old(time) <= time
      ensures r.Some? ==> exists t :: old(time) <= t <= time && Reports(r.value, history(t))
    {
      var at := Now();
      var ok: bool := *;
      if !ok {
        return None;
      }
      ReportExists(history(at));
      var vms :| Reports(vms, history(at));
      var later := Now();
      return Some(vms);
    }
  }

  predicate Reports(vms: seq<Vm>, data: Instances) {
    (forall vm :: vm in vms ==> vm.id in data && data[vm.id] == vm) && forall id :: id in data ==> data[id] in vms
  }

  lemma ReportExists(data: Instances)
    requires forall id :: id in data ==> data[id].id == id
    ensures exists vms :: Reports(vms, data)
  {
    var vms := SetHasListing(set id | id in data :: data[id]);
    assert forall vm :: vm in vms <==> vm in Elems(vms);
    assert Reports(vms, data);
  }

  ghost predicate Holds(cache: Cache, cloud: Cloud)
    reads cache, cloud
  {
    cloud.Valid() && (cache.snapshot.Some? ==> Genuine(cloud.history, cache.snapshot.value, cloud.time))
  }

  /** The cached timestamp did not go back. */
  predicate NotOlder(was: Option<Snapshot>, now: Option<Snapshot>) {
    was.Some? ==> now.Some? && was.value.timestamp <= now.value.timestamp
  }

  /** Other callers publish snapshots of their own, any number of them. */
  method OthersPublish(cache: Cache, cloud: Cloud)
    requires Holds(cache, cloud)
    modifies cache, cloud
    ensures Holds(cache, cloud) && old(cloud.time) <= cloud.time && NotOlder(old(cache.snapshot), cache.snapshot)
  {
    var later := cloud.Now();
    if cache.snapshot.Some? {
      GenuineLater(cloud.history, cache.snapshot.value, old(cloud.time), cloud.time);
    }
    var stamp: int, at: int := *, *;
    var s := Snapshot(stamp, cloud.history(at));
    if stamp <= at <= cloud.time && NotOlder(cache.snapshot, Some(s)) {
      assert Genuine(cloud.history, s, cloud.time);
      cache.snapshot := Some(s);
    }
  }

  /** Takes the time, reads the cloud, and publishes what it read. */
  method DescribeAllInstancesUncached(cache: Cache, cloud: Cloud) returns (r: Option<Snapshot>)
    requires Holds(cache, cloud)
    modifies cache, cloud
    ensures Holds(cache, cloud) && old(cloud.time) <= cloud.time && NotOlder(old(cache.snapshot), cache.snapshot)
    ensures r.Some? ==> old(cloud.time) <= r.value.timestamp && Genuine(cloud.history, r.value, cloud.time)
    ensures r.Some? ==> NotOlder(r, cache.snapshot)
  {
    var now := cloud.Now();
    var vms := cloud.DescribeInstances();
    ghost var read := cloud.time;
    if cache.snapshot.Some? {
      GenuineLater(cloud.history, cache.snapshot.value, old(cloud.time), cloud.time);
    }
    OthersPublish(cache, cloud);
    if vms.None? {
      return None;
    }
    var m := MapById(vms.value);
    ghost var t :| now <= t <= read && Reports(vms.value, cloud.history(t));
    ReportIsTheData(vms.value, m, cloud.history(t));
    var snapshot := Snapshot(now, m);
    assert Genuine(cloud.history, snapshot, cloud.time);
    cache.Publish(snapshot);
    return Some(snapshot);
  }

  lemma ReportIsTheData(vms: seq<Vm>, m: Instances, data: Instances)
    requires Reports(vms, data)
    requires m.Keys == set vm | vm in vms :: vm.id
    requires forall id :: id in m ==> m[id] in vms && m[id].id == id
    requires forall id :: id in data ==> data[id].id == id
    ensures m == data
  {
    assert forall id :: id in data ==> data[id] in vms;
  }

  /** The cached snapshot if it suits when it is looked at, or else one read during the call. */
  method DescribeAllInstancesCached(cache: Cache, cloud: Cloud, criteria: Criteria) returns (r: Option<Snapshot>)
    requires Holds(cache, cloud)
    modifies cache, cloud
    ensures Holds(cache, cloud) && old(cloud.time) <= cloud.time && NotOlder(old(cache.snapshot), cache.snapshot)
    ensures r.Some? ==>
              || (exists at :: old(cloud.time) <= at <= cloud.time && Suits(r.value, criteria, at) && Genuine(cloud.history, r.value, at))
              || (old(cloud.time) <= r.value.timestamp && Genuine(cloud.history, r.value, cloud.time))
  {
    OthersPublish(cache, cloud);
    ghost var start := cloud.time;
    r := cache.GetSnapshot();
    OthersPublish(cache, cloud);
    ghost var looked := cloud.time;
    var suits := false;
    if r.Some? {
      var now := cloud.Now();
      GenuineLater(cloud.history, r.value, start, now);
      GenuineLater(cloud.history, cache.snapshot.value, looked, now);
      suits := MeetsCriteria(r.value, criteria, now);
    }
    if !suits {
      r := DescribeAllInstancesUncached(cache, cloud);
    }
  }

  // ---------- Concurrent callers ----------

  /** Where a caller is: since tells when it called, and at when it got its answer. */
  datatype Caller =
    | Called(criteria: Criteria, since: int)
    | Got(criteria: Criteria, since: int, got: Option<Snapshot>)
    | Refused(criteria: Criteria, since: int)
    | Stamped(criteria: Criteria, since: int, stamp: int)
    | HasRead(criteria: Criteria, since: int, read: Snapshot)
    | Returned(criteria: Criteria, since: int, snapshot: Snapshot, fetched: bool, at: int)
    | Gone

  /** All that was ever published is kept for the record. */
  datatype State = State(now: int, cached: Option<Snapshot>, published: set<Snapshot>, callers: map<nat, Caller>)

  datatype Action =
    | Tick(to: int)
    | Call(caller: nat, criteria: Criteria)
    | Get(caller: nat)
    | Decide(caller: nat)
    | Stamp(caller: nat)
    | Read(caller: nat)
    | Fail(caller: nat)
    | Publish(caller: nat)

  ghost predicate Initial(s: State) {
    s.cached == None && s.published == {} && s.callers == map[]
  }

  function With(s: State, i: nat, c: Caller): State {
    s.(callers := s.callers[i := c])
  }

  /** One atomic action of one caller, or the passing of time. */
  ghost predicate Takes(h: History, s: State, a: Action, s': State) {
    match a
    case Tick(to) => s.now <= to && s' == s.(now := to)
    case Call(i, c) => i !in s.callers && s' == With(s, i, Called(c, s.now))
    case Get(i) =>
      i in s.callers && s.callers[i].Called? && s' == With(s, i, Got(s.callers[i].criteria, s.callers[i].since, s.cached))
    case Decide(i) =>
      && i in s.callers && s.callers[i].Got?
      && var c := s.callers[i];
         s' == With(s, i, if c.got.Some? && Suits(c.got.value, c.criteria, s.now)
                          then Returned(c.criteria, c.since, c.got.value, false, s.now)
                          else Refused(c.criteria, c.since))
    case Stamp(i) =>
      i in s.callers && s.callers[i].Refused? && s' == With(s, i, Stamped(s.callers[i].criteria, s.callers[i].since, s.now))
    case Read(i) =>
      && i in s.callers && s.callers[i].Stamped?
      && s' == With(s, i, HasRead(s.callers[i].criteria, s.callers[i].since, Snapshot(s.callers[i].stamp, h(s.now))))
    case Fail(i) =>
      i in s.callers && s.callers[i].Stamped? && s' == With(s, i, Gone)
    case Publish(i) =>
      && i in s.callers && s.callers[i].HasRead?
      && var c := s.callers[i];
         s' == With(s, i, Returned(c.criteria, c.since, c.read, true, s.now))
               .(cached := Newer(s.cached, c.read), published := s.published + {c.read})
  }

  /** A caller that has no answer yet can always take its next step; only a read may fail instead. */
  lemma NoCallerIsStuck(h: History, s: State, i: nat) returns (a: Action, s': State)
    requires i in s.callers && !s.callers[i].Returned? && !s.callers[i].Gone?
    ensures Takes(h, s, a, s') && s'.now == s.now && i in s'.callers
    ensures match s.callers[i]
            case Called(c, since) => s'.callers[i] == Got(c, since, s.cached)
            case Got(c, since, got) =>
              s'.callers[i] == if got.Some? && (c.maxAge <= 0 || s.now - got.value.timestamp <= c.maxAge)
                                  && (forall id :: id in c.hasInstances ==> id in got.value.instances)
                               then Returned(c, since, got.value, false, s.now) else Refused(c, since)
            case Refused(c, since) => s'.callers[i] == Stamped(c, since, s.now)
            case Stamped(c, since, stamp) => s'.callers[i] == HasRead(c, since, Snapshot(stamp, h(s.now)))
            case HasRead(c, since, read) => s'.callers[i] == Returned(c, since, read, true, s.now) && s'.cached.Some?
            case _ => true
  {
    var c := s.callers[i];
    match c
    case Called(_, _) =>
      a, s' := Get(i), With(s, i, Got(c.criteria, c.since, s.cached));
    case Got(_, _, _) =>
      a, s' := Decide(i), With(s, i, if c.got.Some? && Suits(c.got.value, c.criteria, s.now)
                                     then Returned(c.criteria, c.since, c.got.value, false, s.now)
                                     else Refused(c.criteria, c.since));
    case Refused(_, _) =>
      a, s' := Stamp(i), With(s, i, Stamped(c.criteria, c.since, s.now));
    case Stamped(_, _, stamp) =>
      a, s' := Read(i), With(s, i, HasRead(c.criteria, c.since, Snapshot(stamp, h(s.now))));
    case HasRead(_, _, read) =>
      a, s' := Publish(i), With(s, i, Returned(c.criteria, c.since, read, true, s.now))
                           .(cached := Newer(s.cached, read), published := s.published + {read});
  }

  /** What an answer is worth. */
  ghost predicate Sound(h: History, c: Caller)
    requires c.Returned?
  {
    && Genuine(h, c.snapshot, c.at)
    && (if c.fetched then c.since <= c.snapshot.timestamp else Suits(c.snapshot, c.criteria, c.at))
  }

  ghost predicate CallerInvariant(h: History, s: State, c: Caller) {
    match c
    case Called(_, since) => since <= s.now
    case Got(_, since, got) => since <= s.now && (got.Some? ==> got.value in s.published)
    case Refused(_, since) => since <= s.now
    case Stamped(_, since, stamp) => since <= stamp <= s.now
    case HasRead(_, since, read) => since <= read.timestamp && Genuine(h, read, s.now)
    case Returned(_, since, _, _, at) => since <= at <= s.now && Sound(h, c)
    case Gone => true
  }

  /** The cache holds a newest snapshot of all that were published. */
  ghost predicate CachesNewest(s: State) {
    && (s.cached.None? ==> s.published == {})
    && (s.cached.Some? ==> s.cached.value in s.published && forall p :: p in s.published ==> p.timestamp <= s.cached.value.timestamp)
  }

  ghost predicate Invariant(h: History, s: State) {
    && CachesNewest(s)
    && (forall p :: p in s.published ==> Genuine(h, p, s.now))
    && forall i :: i in s.callers ==> CallerInvariant(h, s, s.callers[i])
  }

  lemma GenuineLater(h: History, s: Snapshot, until: int, later: int)
    requires Genuine(h, s, until) && until <= later
    ensures Genuine(h, s, later)
  {
  }

  /** Callers that do not act keep their invariant. */
  lemma OthersKeep(h: History, s: State, s': State, c: Caller)
    requires CallerInvariant(h, s, c) && s.now <= s'.now && s.published <= s'.published
    ensures CallerInvariant(h, s', c)
  {
    if c.HasRead? {
      GenuineLater(h, c.read, s.now, s'.now);
    }
  }

  lemma ActionKeepsInvariant(h: History, s: State, a: Action, s': State)
    requires Invariant(h, s) && Takes(h, s, a, s')
    ensures Invariant(h, s')
  {
    forall p | p in s.published ensures Genuine(h, p, s'.now) {
      GenuineLater(h, p, s.now, s'.now);
    }
    forall i | i in s.callers ensures CallerInvariant(h, s', s.callers[i]) {
      OthersKeep(h, s, s', s.callers[i]);
    }
    if a.Read? {
      assert Genuine(h, Snapshot(s.callers[a.caller].stamp, h(s.now)), s.now);
    }
  }

  /** A run: from nothing, by any interleaving of the callers' actions. */
  ghost predicate IsRun(h: History, states: seq<State>, actions: seq<Action>) {
    && |states| == |actions| + 1 && Initial(states[0])
    && forall i :: 0 <= i < |actions| ==> Takes(h, states[i], actions[i], states[i + 1])
  }

  lemma {:induction false} InvariantHolds(h: History, states: seq<State>, actions: seq<Action>, k: nat)
    requires IsRun(h, states, actions) && k < |states|
    ensures Invariant(h, states[k])
  {
    if k > 0 {
      InvariantHolds(h, states, actions, k - 1);
      ActionKeepsInvariant(h, states[k - 1], actions[k - 1], states[k]);
    }
  }

  /** At every moment of every run the cache holds a newest published snapshot, and its timestamp never goes back. */
  lemma {:induction false} CacheIsNewestAndMonotone(h: History, states: seq<State>, actions: seq<Action>, j: nat, k: nat)
    requires IsRun(h, states, actions) && j <= k < |states|
    ensures CachesNewest(states[k])
    ensures states[j].cached.Some? ==> states[k].cached.Some? && states[j].cached.value.timestamp <= states[k].cached.value.timestamp
  {
    InvariantHolds(h, states, actions, k);
    if j < k {
      CacheIsNewestAndMonotone(h, states, actions, j, k - 1);
      assert Takes(h, states[k - 1], actions[k - 1], states[k]);
    }
  }

  /**
   Every answer of every run: a cached one holds the cloud's data of an instant no older than the maximal age, and looking
   up the instances asked for finds exactly them; any other was read from the cloud between the call and the answer.
   */
  lemma AnswersAreFresh(h: History, states: seq<State>, actions: seq<Action>, k: nat, i: nat)
    requires IsRun(h, states, actions) && k < |states|
    requires i in states[k].callers && states[k].callers[i].Returned?
    ensures var c := states[k].callers[i];
            && (!c.fetched && c.criteria.maxAge > 0 ==>
                  exists t :: c.at - c.criteria.maxAge <= t <= c.at && h(t) == c.snapshot.instances)
            && (!c.fetched ==> Found(c.snapshot, c.criteria.hasInstances).Keys == Elems(c.criteria.hasInstances))
            && (c.fetched ==> exists t :: c.since <= t <= c.at && h(t) == c.snapshot.instances)
  {
    InvariantHolds(h, states, actions, k);
    var c := states[k].callers[i];
    assert CallerInvariant(h, states[k], c);
    var t :| c.snapshot.timestamp <= t <= c.at && h(t) == c.snapshot.instances;
  }
}
