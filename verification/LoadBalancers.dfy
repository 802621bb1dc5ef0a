/** Bringing one load balancer to its desired listeners, backend policies and instances (osc_loadbalancer.go). */
module LoadBalancers {
  import opened Wrappers
  import opened Collections
  import opened Listeners
  import opened CloudApi

  const PROXY_PROTOCOL_POLICY := "k8s-proxyprotocol-enabled"

  predicate HasProxy(policies: map<int, set<string>>, port: int) {
    PROXY_PROTOCOL_POLICY in PoliciesOf(policies, port)
  }

  /** The instance ports of the listeners the plan deletes. */
  ghost function RemovedInstancePorts(m: PortMap, ls: seq<Listener>): set<int> {
    set p | p in m && !Wanted(m[p], Wrap(ls)) :: PortValue(m[p].instancePort)
  }

  /** The ports of the listeners the plan deletes. */
  ghost function RemovedLbPorts(m: PortMap, ls: seq<Listener>): set<int> {
    set p | p in m && !Wanted(m[p], Wrap(ls))
  }

  lemma RemovedInstancePortsOfPlan(m: PortMap, descriptions: seq<Option<Listener>>, ls: seq<Listener>)
    requires Keyed(m) && Describes(descriptions, m)
    ensures PortSet(InstancePorts(Unwanted(descriptions, Wrap(ls)))) == RemovedInstancePorts(m, ls)
    ensures LbPorts(Unwanted(descriptions, Wrap(ls))) == [] <==> RemovedLbPorts(m, ls) == {}
    ensures LbPorts(Unwanted(descriptions, Wrap(ls))) == [] <==> Unwanted(descriptions, Wrap(ls)) == []
  {
    var gone := Unwanted(descriptions, Wrap(ls));
    UnwantedMembers(descriptions, Wrap(ls));
    RemovedPorts(m, descriptions, ls);
    assert |LbPorts(gone)| == |gone|;
    if gone != [] {
      assert LbPorts(gone)[0] in LbPorts(gone);
      assert PortValue(LbPorts(gone)[0]) in PortSet(LbPorts(gone));
    }
    forall q | q in RemovedInstancePorts(m, ls) ensures q in PortSet(InstancePorts(gone)) {
      var p :| p in m && !Wanted(m[p], Wrap(ls)) && PortValue(m[p].instancePort) == q;
      assert m[p] in gone;
      var k :| 0 <= k < |gone| && gone[k] == m[p];
      assert InstancePorts(gone)[k] == m[p].instancePort;
    }
    forall q | q in PortSet(InstancePorts(gone)) ensures q in RemovedInstancePorts(m, ls) {
      var k :| 0 <= k < |gone| && PortValue(InstancePorts(gone)[k]) == q;
      assert gone[k] in gone;
    }
  }

  // ---------- Calls ----------

  method CreateProxyProtocolPolicy(api: Api, name: string, update: bool) returns (r: Outcome)
    requires api.Valid()
    modifies api`lbs, api`log
    ensures api.Valid() && OnlyLb(name, old(api.lbs), api.lbs)
    ensures name in api.lbs ==> api.lbs[name] == old(api.lbs)[name].(definedPolicies := api.lbs[name].definedPolicies)
    ensures r.Done? ==> name in api.lbs && PROXY_PROTOCOL_POLICY in api.lbs[name].definedPolicies
    ensures r.Failure? ==> r.error != Conflict
    ensures exists ok: bool :: api.log == old(api.log) + [Event(CreatePolicy(name, PROXY_PROTOCOL_POLICY), ok, api.groups)]
    ensures api.reliable && name in api.lbs && (update || PROXY_PROTOCOL_POLICY !in old(api.lbs)[name].definedPolicies) ==> r.Done?
  {
    r := api.CreateLoadBalancerPolicy(name, PROXY_PROTOCOL_POLICY);
    if r.Failure? {
      if update && r.error == DuplicatePolicy {
        return Done;
      }
      return Failure(Invalid("error creating proxy protocol policy on load balancer"));
    }
  }

  method SetBackendPolicies(api: Api, name: string, port: int, policies: set<string>) returns (r: Outcome)
    requires api.Valid()
    modifies api`lbs, api`log
    ensures api.Valid() && OnlyLb(name, old(api.lbs), api.lbs)
    ensures r.Done? ==> name in api.lbs
    ensures r.Done? ==> api.lbs[name] == old(api.lbs)[name].(policies := old(api.lbs)[name].policies[port := policies])
    ensures r.Failure? ==> api.lbs == old(api.lbs) && r.error != Conflict
    ensures api.log == old(api.log) + [Event(SetPolicies(name, port, policies), r.Done?, api.groups)]
    ensures api.reliable && name in api.lbs && policies <= old(api.lbs)[name].definedPolicies ==> r.Done?
  {
    r := api.SetLoadBalancerPoliciesForBackendServer(name, port, policies);
    if r.Failure? {
      return Failure(Invalid("error adjusting AWS loadbalancer backend policies"));
    }
  }

  // ---------- What one pass may call ----------

  /** A pass over load balancer name calls only it, changes no group, and writes policies only on desired ports whose
      state differs or, with proxy protocol, on removed ports. */
  ghost predicate LbCall(e: Event, name: string, had: LbState, ls: seq<Listener>, proxyProtocol: bool, groups: Groups) {
    && e.after == groups
    && match e.call
       case DeleteListeners(lb, ports) => lb == name && ports == RemovedLbPorts(had.listeners, ls) && ports != {}
       case CreateListeners(lb, created) => lb == name && created != []
                                            && forall l :: l in created ==> l in ls && (DistinctPorts(ls) ==> !Present(had.listeners, l))
       case CreatePolicy(lb, policy) => lb == name && policy == PROXY_PROTOCOL_POLICY && proxyProtocol
       case SetPolicies(lb, port, policies) =>
         && lb == name
         && (|| (proxyProtocol && policies == {} && port in RemovedInstancePorts(had.listeners, ls))
             || (port in DesiredInstancePorts(ls) && HasProxy(had.policies, port) != proxyProtocol
                 && policies == (if proxyProtocol then {PROXY_PROTOCOL_POLICY} else {})))
       case _ => false
  }

  ghost predicate LbCalls(log: seq<Event>, from: nat, name: string, had: LbState, ls: seq<Listener>, proxyProtocol: bool, groups: Groups) {
    forall i :: from <= i < |log| ==> LbCall(log[i], name, had, ls, proxyProtocol, groups)
  }

  ghost predicate Permits(allowed: Event -> bool, name: string, had: LbState, ls: seq<Listener>, proxyProtocol: bool, groups: Groups) {
    forall e :: LbCall(e, name, had, ls, proxyProtocol, groups) ==> allowed(e)
  }

  /** Only listeners, policy definitions and policies may differ. */
  ghost predicate SameRest(had: LbState, now: LbState) {
    had.securityGroups == now.securityGroups && had.instances == now.instances
  }

  // ---------- Listeners ----------

  /** The search for a port among the ports of the removed listeners. */
  method FindPort(port: int, ports: seq<Option<int>>) returns (hit: bool)
    ensures hit <==> port in PortSet(ports)
  {
    for j := 0 to |ports|
      invariant port !in PortSet(ports[..j])
    {
      if port == PortValue(ports[j]) {
        return true;
      }
      assert ports[..j + 1] == ports[..j] + [ports[j]];
    }
    assert ports[..|ports|] == ports;
    return false;
  }

  /** now is had with the policies of those backends that have one of the ports cleared. */
  ghost predicate Cleared(had: map<int, set<string>>, now: map<int, set<string>>, backends: seq<Backend>, ports: set<int>) {
    forall p :: PoliciesOf(now, p) == if p in ports && PortAmong(backends, p) then {} else PoliciesOf(had, p)
  }

  lemma ClearedGrows(had: map<int, set<string>>, now: map<int, set<string>>, backends: seq<Backend>, i: nat, ports: set<int>)
    requires i < |backends| && backends[i].instancePort in ports
    requires Cleared(had, now, backends[..i], ports)
    ensures Cleared(had, now[backends[i].instancePort := {}], backends[..i + 1], ports)
  {
    PortAmongGrows(backends, i);
  }

  /** Clears the policies of the described backends among the given ports. */
  method ClearRemovedPolicies(api: Api, name: string, backends: seq<Backend>, ports: seq<Option<int>>,
                              ghost allowed: Event -> bool) returns (r: Outcome)
    requires api.Valid() && name in api.lbs
    requires forall p, ok :: p in PortSet(ports) ==> allowed(Event(SetPolicies(name, p, {}), ok, api.groups))
    modifies api`lbs, api`log
    ensures api.Valid() && OnlyLb(name, old(api.lbs), api.lbs)
    ensures api.lbs[name] == old(api.lbs)[name].(policies := api.lbs[name].policies)
    ensures old(api.log) <= api.log
    ensures OnlyCalls(api.log, |old(api.log)|, allowed)
    ensures r.Failure? ==> r.error != Conflict
    ensures r.Done? ==> Cleared(old(api.lbs)[name].policies, api.lbs[name].policies, backends, PortSet(ports))
    ensures api.reliable ==> r.Done?
  {
    assert backends[..0] == [];
    for i := 0 to |backends|
      invariant api.Valid() && OnlyLb(name, old(api.lbs), api.lbs) && name in api.lbs
      invariant api.lbs[name] == old(api.lbs)[name].(policies := api.lbs[name].policies)
      invariant old(api.log) <= api.log
      invariant OnlyCalls(api.log, |old(api.log)|, allowed)
      invariant Cleared(old(api.lbs)[name].policies, api.lbs[name].policies, backends[..i], PortSet(ports))
    {
      PortAmongGrows(backends, i);
      var hit := FindPort(backends[i].instancePort, ports);
      if hit {
        ghost var policies := api.lbs[name].policies;
        var done := SetBackendPolicies(api, name, backends[i].instancePort, {});
        if done.Failure? {
          return done;
        }
        ClearedGrows(old(api.lbs)[name].policies, policies, backends, i, PortSet(ports));
      }
    }
    assert backends[..|backends|] == backends;
    return Done;
  }

  ghost predicate PortAmong(backends: seq<Backend>, p: int) {
    exists b :: b in backends && b.instancePort == p
  }

  lemma PortAmongGrows(backends: seq<Backend>, i: nat)
    requires i < |backends|
    ensures forall p :: PortAmong(backends[..i + 1], p) <==> PortAmong(backends[..i], p) || backends[i].instancePort == p
  {
    assert backends[..i + 1] == backends[..i] + [backends[i]];
    forall p ensures PortAmong(backends[..i + 1], p) <==> PortAmong(backends[..i], p) || backends[i].instancePort == p {
      if PortAmong(backends[..i], p) {
        var b :| b in backends[..i] && b.instancePort == p;
        assert b in backends[..i + 1];
      }
      assert backends[i] in backends[..i + 1];
    }
  }

  /** What had been policies once the removed ports are cleared. */
  ghost predicate ClearedOnRemoval(had: LbState, now: LbState, ls: seq<Listener>, proxyProtocol: bool) {
    forall p :: PoliciesOf(now.policies, p)
      == (if proxyProtocol && p in RemovedInstancePorts(had.listeners, ls) then {} else PoliciesOf(had.policies, p))
  }

  lemma ClearedIsClearedOnRemoval(had: LbState, now: LbState, ls: seq<Listener>, backends: seq<Backend>)
    requires BackendList(backends, had.policies)
    requires Cleared(had.policies, now.policies, backends, RemovedInstancePorts(had.listeners, ls))
    ensures ClearedOnRemoval(had, now, ls, true)
  {
    forall p ensures PoliciesOf(now.policies, p)
      == (if p in RemovedInstancePorts(had.listeners, ls) then {} else PoliciesOf(had.policies, p))
    {
      if p in had.policies && had.policies[p] != {} {
        assert PortAmong(backends, p);
      }
    }
  }

  /** Deletes the removed listeners, with proxy protocol after clearing their backends' policies. */
  method DeleteRemovedListeners(api: Api, view: LbView, removals: seq<Option<int>>, instancePorts: seq<Option<int>>,
                                proxyProtocol: bool, ghost listeners: seq<Listener>, ghost allowed: Event -> bool) returns (r: Outcome)
    requires api.Valid() && view.name in api.lbs && ShowsLb(view, view.name, api.lbs[view.name])
    requires PortSet(removals) == RemovedLbPorts(api.lbs[view.name].listeners, listeners) != {}
    requires PortSet(instancePorts) == RemovedInstancePorts(api.lbs[view.name].listeners, listeners)
    requires forall ok :: allowed(Event(DeleteListeners(view.name, PortSet(removals)), ok, api.groups))
    requires proxyProtocol ==>
      forall p, ok :: p in PortSet(instancePorts) ==> allowed(Event(SetPolicies(view.name, p, {}), ok, api.groups))
    modifies api`lbs, api`log
    ensures api.Valid() && OnlyLb(view.name, old(api.lbs), api.lbs)
    ensures SameRest(old(api.lbs)[view.name], api.lbs[view.name])
    ensures old(api.log) <= api.log
    ensures OnlyCalls(api.log, |old(api.log)|, allowed)
    ensures r.Failure? ==> r.error != Conflict
    ensures r.Done? ==> ClearedOnRemoval(old(api.lbs)[view.name], api.lbs[view.name], listeners, proxyProtocol)
    ensures r.Done? ==> api.lbs[view.name].listeners == old(api.lbs)[view.name].listeners - PortSet(removals)
    ensures api.reliable ==> r.Done?
  {
    var name := view.name;
    ghost var had := api.lbs[name];
    if proxyProtocol {
      var cleared := ClearRemovedPolicies(api, name, view.backends, instancePorts, allowed);
      if cleared.Failure? {
        return cleared;
      }
      ClearedIsClearedOnRemoval(had, api.lbs[name], listeners, view.backends);
    }
    var deleted := api.DeleteLoadBalancerListeners(name, removals);
    if deleted.Failure? {
      return Failure(Invalid("error deleting OSC loadbalancer listeners"));
    }
    return Done;
  }

  function Unwrap(ls: seq<Option<Listener>>): (r: seq<Listener>)
    requires forall l :: l in ls ==> l.Some?
    ensures Wrap(r) == ls
  {
    assert forall i :: 0 <= i < |ls| ==> ls[i] in ls;
    var r := seq(|ls|, i requires 0 <= i < |ls| => ls[i].value);
    assert Wrap(r) == ls;
    r
  }

  lemma AdditionsOfPlan(m: PortMap, descriptions: seq<Option<Listener>>, ls: seq<Listener>)
    requires Keyed(m) && Describes(descriptions, m)
    ensures forall l :: l in Additions(descriptions, Wrap(ls)) ==> l.Some? && l.value in ls
    ensures DistinctPorts(ls) ==> forall l :: l in Additions(descriptions, Wrap(ls)) ==> !Present(m, l.value)
  {
    NotFoundMembers(Wrap(ls), Found(descriptions, Wrap(ls)), |ls|);
    forall l | l in Additions(descriptions, Wrap(ls))
      ensures l.Some? && l.value in ls && (DistinctPorts(ls) ==> !Present(m, l.value))
    {
      var i: nat :| i < |ls| && i !in Found(descriptions, Wrap(ls)) && Wrap(ls)[i] == l;
      if DistinctPorts(ls) {
        FoundIffPresent(m, descriptions, ls, i);
      }
    }
  }

  /** The plan for a described load balancer, in terms of the listeners m it has. */
  method PlanListeners(descriptions: seq<Option<Listener>>, listeners: seq<Listener>, ghost m: PortMap)
    returns (additions: seq<Listener>, removals: seq<Option<int>>, instancePorts: seq<Option<int>>)
    requires Keyed(m) && Describes(descriptions, m)
    ensures PortSet(removals) == RemovedLbPorts(m, listeners) && (removals == [] <==> RemovedLbPorts(m, listeners) == {})
    ensures PortSet(instancePorts) == RemovedInstancePorts(m, listeners)
    ensures forall l :: l in additions ==> l in listeners && (DistinctPorts(listeners) ==> !Present(m, l))
    ensures DistinctPorts(listeners) ==> !Collides(m - PortSet(removals), additions)
    ensures DistinctPorts(listeners) ==> Converged((m - PortSet(removals)) + ByPort(additions), listeners)
  {
    var wrapped;
    wrapped, removals, instancePorts := SyncElbListeners(Wrap(listeners), descriptions);
    RemovedInstancePortsOfPlan(m, descriptions, listeners);
    RemovedPorts(m, descriptions, listeners);
    AdditionsOfPlan(m, descriptions, listeners);
    additions := Unwrap(wrapped);
    assert forall l :: l in additions ==> Some(l) in Wrap(additions) by {
      forall l | l in additions ensures Some(l) in Wrap(additions) {
        var i :| 0 <= i < |additions| && additions[i] == l;
        assert Wrap(additions)[i] == Some(l);
      }
    }
    if DistinctPorts(listeners) {
      PlanConverges(m, descriptions, listeners, additions);
    }
  }

  /** Deletes what is not desired, then creates what is missing; tells whether anything was called. */
  method SyncListeners(api: Api, view: LbView, listeners: seq<Listener>, proxyProtocol: bool, ghost allowed: Event -> bool)
    returns (r: Result<bool>)
    requires api.Valid() && view.name in api.lbs && ShowsLb(view, view.name, api.lbs[view.name])
    requires Permits(allowed, view.name, api.lbs[view.name], listeners, proxyProtocol, api.groups)
    modifies api`lbs, api`log
    ensures api.Valid() && OnlyLb(view.name, old(api.lbs), api.lbs)
    ensures SameRest(old(api.lbs)[view.name], api.lbs[view.name])
    ensures old(api.log) <= api.log && OnlyCalls(api.log, |old(api.log)|, allowed)
    ensures DistinctPorts(listeners) ==> r != Err(Conflict)
    ensures r.Ok? ==> ClearedOnRemoval(old(api.lbs)[view.name], api.lbs[view.name], listeners, proxyProtocol)
    ensures r.Ok? && DistinctPorts(listeners) ==> Converged(api.lbs[view.name].listeners, listeners)
    ensures r.Ok? && !r.value ==> api.lbs == old(api.lbs)
    ensures api.reliable && DistinctPorts(listeners) ==> r.Ok?
  {
    var name := view.name;
    ghost var had := api.lbs[name];
    var additions, removals, instancePorts := PlanListeners(view.listeners, listeners, had.listeners);
    var done := Done;
    ListenerCallsPermitted(allowed, name, had, listeners, proxyProtocol, api.groups, additions);
    if |removals| != 0 {
      done := DeleteRemovedListeners(api, view, removals, instancePorts, proxyProtocol, listeners, allowed);
    } else {
      NothingRemoved(had, listeners);
      assert had.listeners - PortSet(removals) == had.listeners;
    }
    if done.Done? {
      done := CreateAddedListeners(api, name, additions);
    }
    r := if done.Failure? then Err(done.error) else Ok(|removals| != 0 || |additions| != 0);
  }

  method CreateAddedListeners(api: Api, name: string, additions: seq<Listener>) returns (r: Outcome)
    requires api.Valid() && name in api.lbs
    modifies api`lbs, api`log
    ensures api.Valid() && OnlyLb(name, old(api.lbs), api.lbs)
    ensures api.lbs[name] == old(api.lbs)[name].(listeners := api.lbs[name].listeners)
    ensures r.Done? && DistinctPorts(additions) ==> api.lbs[name].listeners == old(api.lbs)[name].listeners + ByPort(additions)
    ensures r == Failure(Conflict) ==> Collides(old(api.lbs)[name].listeners, additions)
    ensures additions == [] ==> r.Done? && api.lbs == old(api.lbs)
    ensures api.log == if additions == [] then old(api.log)
                       else old(api.log) + [Event(CreateListeners(name, additions), r.Done?, api.groups)]
    ensures api.reliable && !Collides(old(api.lbs)[name].listeners, additions) ==> r.Done?
  {
    r := Done;
    if |additions| != 0 {
      r := api.CreateLoadBalancerListeners(name, additions);
    } else {
      assert api.lbs[name].listeners + ByPort(additions) == api.lbs[name].listeners;
    }
  }

  lemma NothingRemoved(had: LbState, ls: seq<Listener>)
    requires RemovedLbPorts(had.listeners, ls) == {}
    ensures RemovedInstancePorts(had.listeners, ls) == {}
    ensures ClearedOnRemoval(had, had, ls, true) && ClearedOnRemoval(had, had, ls, false)
  {
    forall p | p in had.listeners ensures Wanted(had.listeners[p], Wrap(ls)) {
      assert p !in RemovedLbPorts(had.listeners, ls);
    }
  }

  // ---------- Backend policies ----------

  method ProxyProtocolEnabled(backend: Backend) returns (r: bool)
    ensures r == (PROXY_PROTOCOL_POLICY in PolicyNames(backend))
  {
    for i := 0 to |backend.policyNames|
      invariant PROXY_PROTOCOL_POLICY !in backend.policyNames[..i]
    {
      if backend.policyNames[i] == PROXY_PROTOCOL_POLICY {
        return true;
      }
    }
    return false;
  }

  /** Whether each described backend has the proxy policy. */
  method BackendStates(backends: seq<Backend>, ghost policies: map<int, set<string>>) returns (m: map<int, bool>)
    requires BackendList(backends, policies)
    ensures forall p :: p in m <==> PortAmong(backends, p)
    ensures forall p :: p in m ==> m[p] == HasProxy(policies, p)
  {
    m := map[];
    for i := 0 to |backends|
      invariant forall p :: p in m <==> PortAmong(backends[..i], p)
      invariant forall p :: p in m ==> m[p] == HasProxy(policies, p)
    {
      PortAmongGrows(backends, i);
      assert backends[i] in backends;
      var enabled := ProxyProtocolEnabled(backends[i]);
      m := m[backends[i].instancePort := enabled];
    }
    assert backends[..|backends|] == backends;
  }

  ghost function DesiredInstancePorts(ls: seq<Listener>): set<int> {
    set l | l in ls :: PortValue(l.instancePort)
  }

  function ProxyPolicies(proxyProtocol: bool): set<string> {
    if proxyProtocol then {PROXY_PROTOCOL_POLICY} else {}
  }

  /** now is cur with the policies rewritten on those of the ports whose state, as described in had, is not the requested one. */
  ghost predicate Adjusted(had: map<int, set<string>>, cur: map<int, set<string>>, now: map<int, set<string>>,
                           ports: set<int>, proxyProtocol: bool)
  {
    forall p :: PoliciesOf(now, p)
      == if p in ports && HasProxy(had, p) != proxyProtocol then ProxyPolicies(proxyProtocol) else PoliciesOf(cur, p)
  }

  ghost predicate OnlyPolicyDefined(had: LbState, now: LbState) {
    now == had.(definedPolicies := now.definedPolicies)
  }

  /** Writes the policies of the desired instance ports whose described state differs from the requested one. */
  method SyncProxyPolicies(api: Api, view: LbView, listeners: seq<Listener>, proxyProtocol: bool,
                           ghost had: LbState, ghost allowed: Event -> bool) returns (r: Result<bool>)
    requires api.Valid() && view.name in api.lbs && ShowsLb(view, view.name, had)
    requires forall l :: l in listeners ==> l.instancePort.Some?
    requires proxyProtocol ==> forall ok :: allowed(Event(CreatePolicy(view.name, PROXY_PROTOCOL_POLICY), ok, api.groups))
    requires forall p, ok :: p in DesiredInstancePorts(listeners) && HasProxy(had.policies, p) != proxyProtocol ==>
               allowed(Event(SetPolicies(view.name, p, ProxyPolicies(proxyProtocol)), ok, api.groups))
    modifies api`lbs, api`log
    ensures api.Valid() && OnlyLb(view.name, old(api.lbs), api.lbs)
    ensures SameRest(old(api.lbs)[view.name], api.lbs[view.name])
    ensures api.lbs[view.name].listeners == old(api.lbs)[view.name].listeners
    ensures old(api.log) <= api.log
    ensures OnlyCalls(api.log, |old(api.log)|, allowed)
    ensures r != Err(Conflict)
    ensures r.Ok? ==> Adjusted(had.policies, old(api.lbs)[view.name].policies, api.lbs[view.name].policies,
                               DesiredInstancePorts(listeners), proxyProtocol)
    ensures r.Ok? && !r.value ==> OnlyPolicyDefined(old(api.lbs)[view.name], api.lbs[view.name])
    ensures api.reliable ==> r.Ok?
  {
    var name := view.name;
    if proxyProtocol {
      var created := CreateProxyProtocolPolicy(api, name, true);
      if created.Failure? {
        return Err(created.error);
      }
    }
    var states := BackendStates(view.backends, had.policies);
    r := AdjustPolicies(api, name, view.backends, states, listeners, proxyProtocol, had, allowed);
  }

  method AdjustPolicies(api: Api, name: string, ghost backends: seq<Backend>, states: map<int, bool>, listeners: seq<Listener>,
                        proxyProtocol: bool, ghost had: LbState, ghost allowed: Event -> bool) returns (r: Result<bool>)
    requires api.Valid() && name in api.lbs && BackendList(backends, had.policies)
    requires forall p :: p in states <==> PortAmong(backends, p)
    requires forall p :: p in states ==> states[p] == HasProxy(had.policies, p)
    requires forall l :: l in listeners ==> l.instancePort.Some?
    requires forall p, ok :: p in DesiredInstancePorts(listeners) && HasProxy(had.policies, p) != proxyProtocol ==>
               allowed(Event(SetPolicies(name, p, ProxyPolicies(proxyProtocol)), ok, api.groups))
    modifies api`lbs, api`log
    ensures api.Valid() && OnlyLb(name, old(api.lbs), api.lbs)
    ensures api.lbs[name] == old(api.lbs)[name].(policies := api.lbs[name].policies)
    ensures old(api.log) <= api.log
    ensures OnlyCalls(api.log, |old(api.log)|, allowed)
    ensures r != Err(Conflict)
    ensures r.Ok? ==> Adjusted(had.policies, old(api.lbs)[name].policies, api.lbs[name].policies,
                               DesiredInstancePorts(listeners), proxyProtocol)
    ensures r.Ok? && !r.value ==> api.lbs == old(api.lbs)
    ensures api.reliable && ProxyPolicies(proxyProtocol) <= old(api.lbs)[name].definedPolicies ==> r.Ok?
  {
    var dirty := false;
    ghost var cur := api.lbs[name].policies;
    for i := 0 to |listeners|
      invariant api.Valid() && OnlyLb(name, old(api.lbs), api.lbs) && name in api.lbs
      invariant api.lbs[name] == old(api.lbs)[name].(policies := api.lbs[name].policies)
      invariant old(api.log) <= api.log
      invariant OnlyCalls(api.log, |old(api.log)|, allowed)
      invariant Adjusted(had.policies, cur, api.lbs[name].policies, DesiredInstancePorts(listeners[..i]), proxyProtocol)
      invariant !dirty ==> api.lbs == old(api.lbs)
    {
      assert listeners[i] in listeners;
      var port := listeners[i].instancePort.value;
      var setPolicy := if port !in states then proxyProtocol else states[port] != proxyProtocol;
      UndescribedHasNoProxy(backends, had.policies, port);
      assert port in DesiredInstancePorts(listeners);
      assert setPolicy == (HasProxy(had.policies, port) != proxyProtocol);
      AdjustedGrows(had.policies, cur, api.lbs[name].policies, listeners, i, proxyProtocol);
      var done := AdjustPort(api, name, port, setPolicy, ProxyPolicies(proxyProtocol), allowed);
      if done.Failure? {
        return Err(done.error);
      }
      dirty := dirty || setPolicy;
    }
    assert listeners[..|listeners|] == listeners;
    return Ok(dirty);
  }

  method AdjustPort(api: Api, name: string, port: int, setPolicy: bool, policies: set<string>, ghost allowed: Event -> bool)
    returns (r: Outcome)
    requires api.Valid() && name in api.lbs
    requires setPolicy ==> forall ok :: allowed(Event(SetPolicies(name, port, policies), ok, api.groups))
    modifies api`lbs, api`log
    ensures api.Valid() && OnlyLb(name, old(api.lbs), api.lbs) && old(api.log) <= api.log
    ensures OnlyCalls(api.log, |old(api.log)|, allowed)
    ensures r.Failure? ==> r.error != Conflict && api.lbs == old(api.lbs)
    ensures !setPolicy ==> r.Done? && api.lbs == old(api.lbs)
    ensures r.Done? && setPolicy ==>
              api.lbs[name] == old(api.lbs)[name].(policies := old(api.lbs)[name].policies[port := policies])
    ensures api.reliable && policies <= old(api.lbs)[name].definedPolicies ==> r.Done?
  {
    r := Done;
    if setPolicy {
      r := SetBackendPolicies(api, name, port, policies);
    }
  }

  lemma UndescribedHasNoProxy(backends: seq<Backend>, policies: map<int, set<string>>, port: int)
    requires BackendList(backends, policies)
    ensures !PortAmong(backends, port) ==> !HasProxy(policies, port)
  {
  }

  lemma AdjustedGrows(had: map<int, set<string>>, cur: map<int, set<string>>, now: map<int, set<string>>,
                      ls: seq<Listener>, i: nat, proxyProtocol: bool)
    requires i < |ls| && Adjusted(had, cur, now, DesiredInstancePorts(ls[..i]), proxyProtocol)
    ensures var port := PortValue(ls[i].instancePort);
            var next := if HasProxy(had, port) != proxyProtocol then now[port := ProxyPolicies(proxyProtocol)] else now;
            Adjusted(had, cur, next, DesiredInstancePorts(ls[..i + 1]), proxyProtocol)
  {
    assert ls[..i + 1] == ls[..i] + [ls[i]];
    assert DesiredInstancePorts(ls[..i + 1]) == DesiredInstancePorts(ls[..i]) + {PortValue(ls[i].instancePort)};
  }

  /**
   The described policies are the ones from before the removal: a desired port that also belonged to
   a removed listener and had the policy loses it and is taken to have it still.
   */
  ghost predicate PolicyClash(had: LbState, ls: seq<Listener>, proxyProtocol: bool) {
    proxyProtocol && exists l :: l in ls && HasProxy(had.policies, PortValue(l.instancePort))
                                 && PortValue(l.instancePort) in RemovedInstancePorts(had.listeners, ls)
  }

  /** Every desired instance port has the proxy policy exactly when it is requested. */
  ghost predicate PoliciesAsRequested(policies: map<int, set<string>>, ls: seq<Listener>, proxyProtocol: bool) {
    forall l :: l in ls ==> HasProxy(policies, PortValue(l.instancePort)) == proxyProtocol
  }

  /** On the ports that desired listeners forward to, the policy is there or not, as requested. */
  lemma PoliciesAsRequestedIff(policies: map<int, set<string>>, ls: seq<Listener>, proxyProtocol: bool)
    requires forall l :: l in ls ==> l.instancePort.Some?
    ensures PoliciesAsRequested(policies, ls, proxyProtocol) <==>
            forall l :: l in ls ==>
              ((l.instancePort.value in policies && "k8s-proxyprotocol-enabled" in policies[l.instancePort.value]) <==> proxyProtocol)
  {
    assert forall l :: l in ls ==>
      (HasProxy(policies, PortValue(l.instancePort))
       <==> l.instancePort.value in policies && "k8s-proxyprotocol-enabled" in policies[l.instancePort.value]);
  }

  /** A clash: a desired listener forwards to a port that has the policy and that a listener equal to no desired one forwards to. */
  lemma PolicyClashIff(had: LbState, ls: seq<Listener>, proxyProtocol: bool)
    requires forall l :: l in ls ==> l.instancePort.Some?
    ensures PolicyClash(had, ls, proxyProtocol) <==>
            proxyProtocol && exists l, p ::
              && l in ls && p in had.listeners && had.listeners[p].instancePort.GetOr(0) == l.instancePort.value
              && l.instancePort.value in had.policies && "k8s-proxyprotocol-enabled" in had.policies[l.instancePort.value]
              && forall o :: o in ls ==> !ElbListenersAreEqual(had.listeners[p], o)
  {
    forall p | p in had.listeners
      ensures Wanted(had.listeners[p], Wrap(ls)) <==> exists o :: o in ls && ElbListenersAreEqual(had.listeners[p], o)
    {
      WantedIff(had.listeners[p], ls);
    }
  }

  lemma WantedIff(actual: Listener, ls: seq<Listener>)
    ensures Wanted(actual, Wrap(ls)) <==> exists o :: o in ls && ElbListenersAreEqual(actual, o)
  {
    if Wanted(actual, Wrap(ls)) {
      var i: nat :| MatchAt(actual, Wrap(ls), i);
      assert ls[i] in ls;
    }
    if o :| o in ls && ElbListenersAreEqual(actual, o) {
      var i: nat :| i < |ls| && ls[i] == o;
      assert MatchAt(actual, Wrap(ls), i);
    }
  }

  /** The pass gets the policies right exactly when no port clashes. */
  lemma PoliciesRightIffNoClash(had: LbState, cur: LbState, now: LbState, ls: seq<Listener>, proxyProtocol: bool)
    requires ClearedOnRemoval(had, cur, ls, proxyProtocol)
    requires Adjusted(had.policies, cur.policies, now.policies, DesiredInstancePorts(ls), proxyProtocol)
    ensures PoliciesAsRequested(now.policies, ls, proxyProtocol) <==> !PolicyClash(had, ls, proxyProtocol)
  {
    if PolicyClash(had, ls, proxyProtocol) {
      var l :| l in ls && HasProxy(had.policies, PortValue(l.instancePort))
               && PortValue(l.instancePort) in RemovedInstancePorts(had.listeners, ls);
      assert !HasProxy(now.policies, PortValue(l.instancePort));
    } else {
      forall l | l in ls ensures HasProxy(now.policies, PortValue(l.instancePort)) == proxyProtocol {
        assert PortValue(l.instancePort) in DesiredInstancePorts(ls);
      }
    }
  }

  /**
   A service port changed while its node port stayed: the old listener is removed, the new one uses the same
   instance port, and the pass leaves that port without the policy it should have.
   */
  lemma MovedServicePortLosesPolicy(policies: map<int, set<string>>, cur: LbState, now: LbState)
    requires HasProxy(policies, 30000)
    requires var was := Listener(Some("TCP"), Some("TCP"), Some(30000), Some(80), None);
             var had := LbState([], map[80 := was], {PROXY_PROTOCOL_POLICY}, policies, {});
             var ls := [was.(loadBalancerPort := Some(81))];
             ClearedOnRemoval(had, cur, ls, true)
             && Adjusted(had.policies, cur.policies, now.policies, DesiredInstancePorts(ls), true)
    ensures var was := Listener(Some("TCP"), Some("TCP"), Some(30000), Some(80), None);
            var had := LbState([], map[80 := was], {PROXY_PROTOCOL_POLICY}, policies, {});
            var ls := [was.(loadBalancerPort := Some(81))];
            DistinctPorts(ls) && PolicyClash(had, ls, true) && !PoliciesAsRequested(now.policies, ls, true)
  {
    var was := Listener(Some("TCP"), Some("TCP"), Some(30000), Some(80), None);
    var had := LbState([], map[80 := was], {PROXY_PROTOCOL_POLICY}, policies, {});
    var ls := [was.(loadBalancerPort := Some(81))];
    WantedByItsPort(was, ls);
    assert had.listeners[80] == was && 80 in had.listeners;
    assert 30000 in RemovedInstancePorts(had.listeners, ls);
    assert ls[0] in ls;
    PoliciesRightIffNoClash(had, cur, now, ls, true);
  }

  // ---------- The load balancer ----------

  /** What a successful pass leaves of a load balancer that was there. */
  ghost predicate LbBrought(had: LbState, now: LbState, ls: seq<Listener>, proxyProtocol: bool) {
    && SameRest(had, now)
    && (DistinctPorts(ls) ==> Converged(now.listeners, ls))
    && (PoliciesAsRequested(now.policies, ls, proxyProtocol) <==> !PolicyClash(had, ls, proxyProtocol))
  }

  method UpdateExisting(api: Api, view: LbView, listeners: seq<Listener>, proxyProtocol: bool, ghost allowed: Event -> bool)
    returns (r: Result<bool>)
    requires api.Valid() && view.name in api.lbs && ShowsLb(view, view.name, api.lbs[view.name])
    requires forall l :: l in listeners ==> l.instancePort.Some?
    requires Permits(allowed, view.name, api.lbs[view.name], listeners, proxyProtocol, api.groups)
    modifies api`lbs, api`log
    ensures api.Valid() && OnlyLb(view.name, old(api.lbs), api.lbs)
    ensures SameRest(old(api.lbs)[view.name], api.lbs[view.name])
    ensures old(api.log) <= api.log && OnlyCalls(api.log, |old(api.log)|, allowed)
    ensures DistinctPorts(listeners) ==> r != Err(Conflict)
    ensures r.Ok? ==> LbBrought(old(api.lbs)[view.name], api.lbs[view.name], listeners, proxyProtocol)
    ensures r.Ok? && !r.value ==> OnlyPolicyDefined(old(api.lbs)[view.name], api.lbs[view.name])
    ensures api.reliable && DistinctPorts(listeners) ==> r.Ok?
  {
    var name := view.name;
    ghost var had := api.lbs[name];
    var synced := SyncListeners(api, view, listeners, proxyProtocol, allowed);
    if synced.Err? {
      return synced;
    }
    ghost var cur := api.lbs[name];
    PolicyCallsPermitted(allowed, name, had, listeners, proxyProtocol, api.groups);
    var adjusted := SyncProxyPolicies(api, view, listeners, proxyProtocol, had, allowed);
    if adjusted.Err? {
      return adjusted;
    }
    PoliciesRightIffNoClash(had, cur, api.lbs[name], listeners, proxyProtocol);
    return Ok(synced.value || adjusted.value);
  }

  lemma ListenerCallsPermitted(allowed: Event -> bool, name: string, had: LbState, ls: seq<Listener>, proxyProtocol: bool,
                               groups: Groups, additions: seq<Listener>)
    requires Permits(allowed, name, had, ls, proxyProtocol, groups)
    requires forall l :: l in additions ==> l in ls && (DistinctPorts(ls) ==> !Present(had.listeners, l))
    ensures RemovedLbPorts(had.listeners, ls) != {} ==>
              forall ok :: allowed(Event(DeleteListeners(name, RemovedLbPorts(had.listeners, ls)), ok, groups))
    ensures proxyProtocol ==> forall p, ok :: p in RemovedInstancePorts(had.listeners, ls) ==>
              allowed(Event(SetPolicies(name, p, {}), ok, groups))
    ensures additions != [] ==> forall ok :: allowed(Event(CreateListeners(name, additions), ok, groups))
  {
    forall ok | RemovedLbPorts(had.listeners, ls) != {}
      ensures allowed(Event(DeleteListeners(name, RemovedLbPorts(had.listeners, ls)), ok, groups))
    {
      assert LbCall(Event(DeleteListeners(name, RemovedLbPorts(had.listeners, ls)), ok, groups), name, had, ls, proxyProtocol, groups);
    }
    forall p, ok | proxyProtocol && p in RemovedInstancePorts(had.listeners, ls)
      ensures allowed(Event(SetPolicies(name, p, {}), ok, groups))
    {
      assert LbCall(Event(SetPolicies(name, p, {}), ok, groups), name, had, ls, proxyProtocol, groups);
    }
    forall ok | additions != [] ensures allowed(Event(CreateListeners(name, additions), ok, groups)) {
      assert LbCall(Event(CreateListeners(name, additions), ok, groups), name, had, ls, proxyProtocol, groups);
    }
  }

  lemma PolicyCallsPermitted(allowed: Event -> bool, name: string, had: LbState, ls: seq<Listener>, proxyProtocol: bool, groups: Groups)
    requires Permits(allowed, name, had, ls, proxyProtocol, groups)
    ensures proxyProtocol ==> forall ok :: allowed(Event(CreatePolicy(name, PROXY_PROTOCOL_POLICY), ok, groups))
    ensures forall p, ok :: p in DesiredInstancePorts(ls) && HasProxy(had.policies, p) != proxyProtocol ==>
              allowed(Event(SetPolicies(name, p, ProxyPolicies(proxyProtocol)), ok, groups))
  {
    forall ok | proxyProtocol ensures allowed(Event(CreatePolicy(name, PROXY_PROTOCOL_POLICY), ok, groups)) {
      assert LbCall(Event(CreatePolicy(name, PROXY_PROTOCOL_POLICY), ok, groups), name, had, ls, proxyProtocol, groups);
    }
    forall p, ok | p in DesiredInstancePorts(ls) && HasProxy(had.policies, p) != proxyProtocol
      ensures allowed(Event(SetPolicies(name, p, ProxyPolicies(proxyProtocol)), ok, groups))
    {
      assert LbCall(Event(SetPolicies(name, p, ProxyPolicies(proxyProtocol)), ok, groups), name, had, ls, proxyProtocol, groups);
    }
  }

  /** The calls that make a new load balancer. */
  ghost predicate NewLbCall(e: Event, name: string, ls: seq<Listener>, proxyProtocol: bool, groups: Groups) {
    && e.after == groups
    && match e.call
       case CreateLb(lb) => lb == name
       case CreatePolicy(lb, policy) => lb == name && proxyProtocol
       case SetPolicies(lb, port, policies) =>
         lb == name && proxyProtocol && policies == {PROXY_PROTOCOL_POLICY} && port in DesiredInstancePorts(ls)
       case _ => false
  }

  ghost predicate NewLbCalls(log: seq<Event>, from: nat, name: string, ls: seq<Listener>, proxyProtocol: bool, groups: Groups) {
    OnlyCalls(log, from, e => NewLbCall(e, name, ls, proxyProtocol, groups))
  }

  method CreateNew(api: Api, name: string, listeners: seq<Listener>, securityGroups: seq<string>, proxyProtocol: bool)
    returns (r: Outcome)
    requires api.Valid() && name !in api.lbs
    requires forall l :: l in listeners ==> l.instancePort.Some?
    modifies api`lbs, api`log
    ensures api.Valid() && old(api.log) <= api.log
    ensures NewLbCalls(api.log, |old(api.log)|, name, listeners, proxyProtocol, api.groups)
    ensures api.lbs - {name} == old(api.lbs)
    ensures r.Failure? ==> r.error != Conflict
    ensures r.Done? ==> name in api.lbs && DistinctPorts(listeners)
    ensures r.Done? ==> api.lbs[name].listeners == ByPort(listeners)
    ensures r.Done? ==> api.lbs[name].securityGroups == securityGroups && api.lbs[name].instances == {}
    ensures r.Done? ==> PoliciesAsRequested(api.lbs[name].policies, listeners, proxyProtocol)
    ensures api.reliable && DistinctPorts(listeners) ==> r.Done?
  {
    var created := api.CreateLoadBalancer(name, listeners, securityGroups);
    if created.Failure? {
      return Failure(Failed);
    }
    assert api.lbs - {name} == old(api.lbs);
    if proxyProtocol {
      ghost var groups := api.groups;
      r := RequestProxy(api, name, listeners, e => NewLbCall(e, name, listeners, true, groups));
      return;
    }
    return Done;
  }

  /** Defines the proxy policy and sets it on every listener's instance port. */
  method RequestProxy(api: Api, name: string, listeners: seq<Listener>, ghost allowed: Event -> bool) returns (r: Outcome)
    requires api.Valid() && name in api.lbs
    requires forall l :: l in listeners ==> l.instancePort.Some?
    requires forall ok :: allowed(Event(CreatePolicy(name, PROXY_PROTOCOL_POLICY), ok, api.groups))
    requires forall p, ok :: p in DesiredInstancePorts(listeners) ==>
               allowed(Event(SetPolicies(name, p, {PROXY_PROTOCOL_POLICY}), ok, api.groups))
    modifies api`lbs, api`log
    ensures api.Valid() && old(api.log) <= api.log && OnlyCalls(api.log, |old(api.log)|, allowed)
    ensures name in api.lbs && api.lbs - {name} == old(api.lbs) - {name}
    ensures api.lbs[name].listeners == old(api.lbs)[name].listeners && SameRest(old(api.lbs)[name], api.lbs[name])
    ensures r.Failure? ==> r.error != Conflict
    ensures r.Done? ==> PoliciesAsRequested(api.lbs[name].policies, listeners, true)
    ensures api.reliable && PROXY_PROTOCOL_POLICY !in old(api.lbs)[name].definedPolicies ==> r.Done?
  {
    var policy := CreateProxyProtocolPolicy(api, name, false);
    assert api.lbs - {name} == old(api.lbs) - {name};
    if policy.Failure? {
      return policy;
    }
    r := SetProxyOnAll(api, name, listeners, allowed);
    assert api.lbs - {name} == old(api.lbs) - {name};
  }

  /** Sets the proxy policy on every listener's instance port. */
  method SetProxyOnAll(api: Api, name: string, listeners: seq<Listener>, ghost allowed: Event -> bool) returns (r: Outcome)
    requires api.Valid() && name in api.lbs
    requires forall l :: l in listeners ==> l.instancePort.Some?
    requires forall p, ok :: p in DesiredInstancePorts(listeners) ==>
               allowed(Event(SetPolicies(name, p, {PROXY_PROTOCOL_POLICY}), ok, api.groups))
    modifies api`lbs, api`log
    ensures api.Valid() && OnlyLb(name, old(api.lbs), api.lbs) && old(api.log) <= api.log
    ensures OnlyCalls(api.log, |old(api.log)|, allowed)
    ensures api.lbs[name] == old(api.lbs)[name].(policies := api.lbs[name].policies)
    ensures r.Failure? ==> r.error != Conflict
    ensures r.Done? ==> PoliciesAsRequested(api.lbs[name].policies, listeners, true)
    ensures api.reliable && PROXY_PROTOCOL_POLICY in old(api.lbs)[name].definedPolicies ==> r.Done?
  {
    for i := 0 to |listeners|
      invariant api.Valid() && OnlyLb(name, old(api.lbs), api.lbs) && old(api.log) <= api.log && name in api.lbs
      invariant api.lbs[name] == old(api.lbs)[name].(policies := api.lbs[name].policies)
      invariant OnlyCalls(api.log, |old(api.log)|, allowed)
      invariant PoliciesAsRequested(api.lbs[name].policies, listeners[..i], true)
    {
      assert listeners[i] in listeners;
      ghost var was := api.lbs[name].policies;
      assert listeners[i].instancePort.value in DesiredInstancePorts(listeners);
      var done := SetBackendPolicies(api, name, listeners[i].instancePort.value, {PROXY_PROTOCOL_POLICY});
      if done.Failure? {
        return done;
      }
      RequestedGrows(was, listeners, i);
    }
    assert listeners[..|listeners|] == listeners;
    return Done;
  }

  lemma RequestedGrows(policies: map<int, set<string>>, ls: seq<Listener>, i: nat)
    requires i < |ls| && PoliciesAsRequested(policies, ls[..i], true)
    ensures PoliciesAsRequested(policies[PortValue(ls[i].instancePort) := {PROXY_PROTOCOL_POLICY}], ls[..i + 1], true)
  {
    assert ls[..i + 1] == ls[..i] + [ls[i]];
  }

  /** What a successful call leaves under the name, be the load balancer new or not. */
  ghost predicate Ensured(before: map<string, LbState>, after: map<string, LbState>, name: string, ls: seq<Listener>,
                          securityGroups: seq<string>, proxyProtocol: bool)
  {
    && name in after
    && after - {name} == before - {name}
    && (name in before ==> LbBrought(before[name], after[name], ls, proxyProtocol))
    && (name !in before ==>
          && Converged(after[name].listeners, ls)
          && PoliciesAsRequested(after[name].policies, ls, proxyProtocol)
          && after[name].instances == {} && after[name].securityGroups == securityGroups)
  }

  /** What is left under the name, in terms of what was there. */
  lemma EnsuredMeans(before: map<string, LbState>, after: map<string, LbState>, name: string, ls: seq<Listener>,
                     securityGroups: seq<string>, proxyProtocol: bool)
    requires Ensured(before, after, name, ls, securityGroups, proxyProtocol)
    ensures name in after && forall n :: n != name ==> (n in after <==> n in before) && (n in before ==> after[n] == before[n])
    ensures (forall i, j :: 0 <= i < j < |ls| ==> LbPort(ls[i]) != LbPort(ls[j])) ==> Converged(after[name].listeners, ls)
    ensures !proxyProtocol || name !in before ==> PoliciesAsRequested(after[name].policies, ls, proxyProtocol)
    ensures name in before ==>
              && after[name].securityGroups == before[name].securityGroups && after[name].instances == before[name].instances
              && (PoliciesAsRequested(after[name].policies, ls, proxyProtocol) <==> !PolicyClash(before[name], ls, proxyProtocol))
    ensures name !in before ==> after[name].securityGroups == securityGroups && after[name].instances == {}
  {
    forall n | n != name ensures (n in after <==> n in before) && (n in before ==> after[n] == before[n]) {
      assert n in after <==> n in after - {name};
      assert n in before <==> n in before - {name};
    }
  }

  /** The calls on a load balancer that was there, in terms of its listeners and the desired ones. */
  lemma LbCallsMean(log: seq<Event>, from: nat, name: string, had: LbState, ls: seq<Listener>, proxyProtocol: bool, groups: Groups, i: nat)
    requires LbCalls(log, from, name, had, ls, proxyProtocol, groups) && from <= i < |log|
    ensures match log[i].call
            case DeleteListeners(lb, ports) => lb == name && forall p :: p in ports <==>
              p in had.listeners && forall o :: o in ls ==> !ElbListenersAreEqual(had.listeners[p], o)
            case CreateListeners(lb, created) => lb == name && forall l :: l in created ==>
              && l in ls
              && ((forall j, k :: 0 <= j < k < |ls| ==> LbPort(ls[j]) != LbPort(ls[k])) && LbPort(l) in had.listeners ==>
                    !ElbListenersAreEqual(had.listeners[LbPort(l)], l))
            case CreatePolicy(lb, policy) => lb == name && policy == "k8s-proxyprotocol-enabled" && proxyProtocol
            case SetPolicies(lb, port, policies) => lb == name
              && (|| (proxyProtocol && policies == {}
                      && exists p :: p in had.listeners && had.listeners[p].instancePort.GetOr(0) == port
                                     && forall o :: o in ls ==> !ElbListenersAreEqual(had.listeners[p], o))
                  || ((exists o :: o in ls && o.instancePort.GetOr(0) == port)
                      && policies == (if proxyProtocol then {"k8s-proxyprotocol-enabled"} else {})
                      && (port in had.policies && "k8s-proxyprotocol-enabled" in had.policies[port]) != proxyProtocol))
            case _ => false
  {
    assert LbCall(log[i], name, had, ls, proxyProtocol, groups);
    forall p | p in had.listeners
      ensures Wanted(had.listeners[p], Wrap(ls)) <==> exists o :: o in ls && ElbListenersAreEqual(had.listeners[p], o)
    {
      WantedIff(had.listeners[p], ls);
    }
  }

  lemma ByPortConverged(ls: seq<Listener>)
    requires DistinctPorts(ls)
    ensures Converged(ByPort(ls), ls)
  {
    ByPortMembers(ls);
    forall l | l in ls ensures Present(ByPort(ls), l) {
      ListenersEqualIsEquivalence(l, l, l);
    }
  }

  method EnsureLoadBalancer(api: Api, name: string, listeners: seq<Listener>, subnets: Option<seq<string>>,
                            securityGroupIds: seq<string>, proxyProtocol: bool) returns (r: Result<Option<LbView>>)
    requires api.Valid()
    requires forall l :: l in listeners ==> l.instancePort.Some?
    modifies api`lbs, api`log
    ensures api.Valid() && old(api.log) <= api.log
    ensures api.lbs - {name} == old(api.lbs) - {name}
    ensures name in old(api.lbs) ==> name in api.lbs && SameRest(old(api.lbs)[name], api.lbs[name])
    ensures name in old(api.lbs) ==>
              LbCalls(api.log, |old(api.log)|, name, old(api.lbs)[name], listeners, proxyProtocol, api.groups)
    ensures name !in old(api.lbs) ==> NewLbCalls(api.log, |old(api.log)|, name, listeners, proxyProtocol, api.groups)
    ensures DistinctPorts(listeners) ==> r != Err(Conflict)
    ensures r.Ok? ==> Ensured(old(api.lbs), api.lbs, name, listeners, if subnets.None? then [] else securityGroupIds, proxyProtocol)
    ensures r.Ok? ==> r.value.Some? && ShowsLb(r.value.value, name, api.lbs[name])
    ensures api.reliable && DistinctPorts(listeners) ==> r.Ok?
  {
    var described := api.DescribeLoadBalancer(name);
    if described.Err? {
      return Err(Failed);
    }
    var dirty := false;
    if described.value.None? {
      var created := CreateNew(api, name, listeners, if subnets.None? then [] else securityGroupIds, proxyProtocol);
      if created.Failure? {
        return Err(created.error);
      }
      ByPortConverged(listeners);
      dirty := true;
    } else {
      ghost var had, groups := api.lbs[name], api.groups;
      var updated := UpdateExisting(api, described.value.value, listeners, proxyProtocol,
                                    e => LbCall(e, name, had, listeners, proxyProtocol, groups));
      if updated.Err? {
        return Err(updated.error);
      }
      dirty := updated.value;
    }
    if dirty {
      described := api.DescribeLoadBalancer(name);
      if described.Err? {
        return Err(Failed);
      }
    }
    return Ok(described.value);
  }

  /** Where the policies are as requested, none is written but the cleared ones of removed ports. */
  lemma RequestedPoliciesAreNotWritten(log: seq<Event>, from: nat, name: string, had: LbState, ls: seq<Listener>, proxyProtocol: bool, groups: Groups)
    requires PoliciesAsRequested(had.policies, ls, proxyProtocol)
    requires LbCalls(log, from, name, had, ls, proxyProtocol, groups)
    ensures forall i :: from <= i < |log| && log[i].call.SetPolicies? ==>
              proxyProtocol && log[i].call.policies == {} && log[i].call.port in RemovedInstancePorts(had.listeners, ls)
  {
    forall i | from <= i < |log| && log[i].call.SetPolicies?
      ensures proxyProtocol && log[i].call.policies == {} && log[i].call.port in RemovedInstancePorts(had.listeners, ls)
    {
      assert LbCall(log[i], name, had, ls, proxyProtocol, groups);
    }
  }

  /** The policy's definition if it is requested, or a write if some policy is not right yet. */
  ghost predicate PolicyCall(e: Event, proxyProtocol: bool, right: bool) {
    (e.call.CreatePolicy? && proxyProtocol) || (e.call.SetPolicies? && !right)
  }

  /** With the desired listeners in place, a pass makes no listener call, and writes policies only if some are not as requested. */
  lemma ConvergedMakesNoListenerCall(log: seq<Event>, from: nat, name: string, had: LbState, ls: seq<Listener>, proxyProtocol: bool, groups: Groups)
    requires DistinctPorts(ls) && Keyed(had.listeners) && Converged(had.listeners, ls)
    requires LbCalls(log, from, name, had, ls, proxyProtocol, groups)
    ensures forall i :: from <= i < |log| ==>
              PolicyCall(log[i], proxyProtocol, PoliciesAsRequested(had.policies, ls, proxyProtocol))
  {
    forall p | p in had.listeners ensures Wanted(had.listeners[p], Wrap(ls)) {
      WantedByItsPort(had.listeners[p], ls);
      var i :| 0 <= i < |ls| && LbPort(ls[i]) == p;
      assert ls[i] in ls;
    }
    if PoliciesAsRequested(had.policies, ls, proxyProtocol) {
      RequestedPoliciesAreNotWritten(log, from, name, had, ls, proxyProtocol, groups);
    }
    forall k | from <= k < |log| ensures PolicyCall(log[k], proxyProtocol, PoliciesAsRequested(had.policies, ls, proxyProtocol)) {
      assert LbCall(log[k], name, had, ls, proxyProtocol, groups);
      NoListenerCallNeeded(log[k], name, had, ls, proxyProtocol, groups);
    }
  }

  lemma NoListenerCallNeeded(e: Event, name: string, had: LbState, ls: seq<Listener>, proxyProtocol: bool, groups: Groups)
    requires DistinctPorts(ls) && Converged(had.listeners, ls) && LbCall(e, name, had, ls, proxyProtocol, groups)
    requires forall p :: p in had.listeners ==> Wanted(had.listeners[p], Wrap(ls))
    ensures (e.call.CreatePolicy? && proxyProtocol) || e.call.SetPolicies?
  {
    match e.call
    case CreateListeners(_, created) => NonEmptyHasMember(created);
    case DeleteListeners(_, ports) => assert forall p :: p !in ports;
    case _ =>
  }

  // ---------- Instances ----------

  method ListOf(s: set<string>) returns (l: seq<string>)
    ensures Lists(l, s)
  {
    l := [];
    var todo := s;
    while todo != {}
      invariant todo <= s && Lists(l, s - todo)
      decreases |todo|
    {
      var x :| x in todo;
      assert forall i :: 0 <= i < |l| ==> l[i] in Elems(l);
      ElemsOfConcat(l, [x]);
      l := l + [x];
      todo := todo - {x};
    }
    assert s - todo == s;
  }

  /** Every call only moved the registered instances towards the expected ones. */
  ghost predicate InstanceCalls(log: seq<Event>, from: nat, name: string, expected: set<string>, actual: set<string>, groups: Groups) {
    forall i :: from <= i < |log| ==> InstanceCall(log[i], name, expected, actual, groups)
  }

  ghost predicate InstanceCall(e: Event, name: string, expected: set<string>, actual: set<string>, groups: Groups) {
      && e.after == groups
      && (|| (e.call == Register(name, expected - actual) && expected - actual != {})
          || (e.call == Deregister(name, actual - expected) && actual - expected != {}))
  }

  /** The last of the calls made since then failed. */
  ghost predicate EndsInFailure(log: seq<Event>, from: nat) {
    |log| > from && !log[|log| - 1].ok
  }

  method RegisterMissing(api: Api, name: string, add: seq<string>) returns (r: Outcome)
    requires api.Valid()
    modifies api`lbs, api`log
    ensures api.Valid() && OnlyLb(name, old(api.lbs), api.lbs)
    ensures name in api.lbs ==> api.lbs[name] == old(api.lbs)[name].(instances := api.lbs[name].instances)
    ensures name in api.lbs ==> old(api.lbs)[name].instances <= api.lbs[name].instances
    ensures name in api.lbs ==> api.lbs[name].instances <= old(api.lbs)[name].instances + Elems(add)
    ensures name in api.lbs && r.Done? ==> api.lbs[name].instances == old(api.lbs)[name].instances + Elems(add)
    ensures api.log == if add == [] then old(api.log)
                       else old(api.log) + [Event(Register(name, Elems(add)), r.Done?, api.groups)]
    ensures r.Failure? ==> add != []
    ensures api.reliable && name in api.lbs ==> r.Done?
  {
    r := Done;
    if |add| > 0 {
      r := api.RegisterInstancesWithLoadBalancer(name, add);
    }
  }

  method DeregisterOthers(api: Api, name: string, remove: seq<string>) returns (r: Outcome)
    requires api.Valid()
    modifies api`lbs, api`log
    ensures api.Valid() && OnlyLb(name, old(api.lbs), api.lbs)
    ensures name in api.lbs ==> api.lbs[name] == old(api.lbs)[name].(instances := api.lbs[name].instances)
    ensures name in api.lbs ==> old(api.lbs)[name].instances - Elems(remove) <= api.lbs[name].instances
    ensures name in api.lbs ==> api.lbs[name].instances <= old(api.lbs)[name].instances
    ensures name in api.lbs && r.Done? ==> api.lbs[name].instances == old(api.lbs)[name].instances - Elems(remove)
    ensures api.log == if remove == [] then old(api.log)
                       else old(api.log) + [Event(Deregister(name, Elems(remove)), r.Done?, api.groups)]
    ensures r.Failure? ==> remove != []
    ensures api.reliable && name in api.lbs ==> r.Done?
  {
    r := Done;
    if |remove| > 0 {
      r := api.DeregisterInstancesFromLoadBalancer(name, remove);
    }
  }

  /** Registers the expected instances that are missing, then removes the others. */
  method EnsureLoadBalancerInstances(api: Api, name: string, lbInstances: seq<string>, expected: set<string>) returns (r: Outcome)
    requires api.Valid()
    modifies api`lbs, api`log
    ensures api.Valid() && OnlyLb(name, old(api.lbs), api.lbs) && old(api.log) <= api.log
    ensures InstanceCalls(api.log, |old(api.log)|, name, expected, Elems(lbInstances), api.groups)
    ensures name in api.lbs ==> api.lbs[name] == old(api.lbs)[name].(instances := api.lbs[name].instances)
    ensures name in api.lbs && r.Done? ==>
              api.lbs[name].instances == (old(api.lbs)[name].instances + (expected - Elems(lbInstances))) - (Elems(lbInstances) - expected)
    // No expected instance is ever taken away, and none but expected ones appear.
    ensures name in api.lbs ==> old(api.lbs)[name].instances * expected <= api.lbs[name].instances
    ensures name in api.lbs ==> api.lbs[name].instances <= old(api.lbs)[name].instances + expected
    ensures r.Failure? ==> EndsInFailure(api.log, |old(api.log)|)
    ensures r.Done? ==> forall i :: |old(api.log)| <= i < |api.log| ==> api.log[i].ok
    ensures api.reliable && name in api.lbs ==> r.Done?
  {
    var actual := SetOf(lbInstances);
    var additions, removals := expected - actual, actual - expected;
    var addInstances := ListOf(additions);
    var removeInstances := ListOf(removals);
    ListingLength(addInstances, additions);
    ListingLength(removeInstances, removals);
    r := RegisterMissing(api, name, addInstances);
    if r.Done? {
      r := DeregisterOthers(api, name, removeInstances);
    }
  }

  method SetOf(l: seq<string>) returns (s: set<string>)
    ensures s == Elems(l)
  {
    s := {};
    for i := 0 to |l|
      invariant s == Elems(l[..i])
    {
      s := s + {l[i]};
      assert l[..i + 1] == l[..i] + [l[i]];
    }
    assert l[..|l|] == l;
  }
}
