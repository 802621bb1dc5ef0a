/**
 Load balancer listeners: when two of them are the same, and the plan that brings the actual ones to
 the desired ones (osc_loadbalancer.go).
 */
module Listeners {
  import opened Wrappers

  datatype Listener = Listener(
    protocol: Option<string>, instanceProtocol: Option<string>,
    instancePort: Option<int>, loadBalancerPort: Option<int>, certificate: Option<string>)

  /** The port a pointer stands for; a nil pointer reads as zero. */
  function PortValue(p: Option<int>): int {
    p.GetOr(0)
  }

  function LbPort(l: Listener): int {
    PortValue(l.loadBalancerPort)
  }

  // ---------- Equality of listeners ----------

  function LowerChar(c: char): char {
    if 'A' <= c <= 'Z' then (c as int + 32) as char else c
  }

  function UpperChar(c: char): char {
    if 'a' <= c <= 'z' then (c as int - 32) as char else c
  }

  function ToLower(s: string): string {
    seq(|s|, i requires 0 <= i < |s| => LowerChar(s[i]))
  }

  function ToUpper(s: string): string {
    seq(|s|, i requires 0 <= i < |s| => UpperChar(s[i]))
  }

  predicate EqualFold(s: string, t: string) {
    |s| == |t| && forall i :: 0 <= i < |s| ==> LowerChar(s[i]) == LowerChar(t[i])
  }

  /** Two optional strings, both absent or equal without regard to case. */
  predicate SameText(l: Option<string>, r: Option<string>) {
    if l.None? || r.None? then l == r else EqualFold(l.value, r.value)
  }

  predicate ElbListenersAreEqual(actual: Listener, expected: Listener) {
    && SameText(actual.protocol, expected.protocol)
    && SameText(actual.instanceProtocol, expected.instanceProtocol)
    && PortValue(actual.instancePort) == PortValue(expected.instancePort)
    && PortValue(actual.loadBalancerPort) == PortValue(expected.loadBalancerPort)
    && SameText(actual.certificate, expected.certificate)
  }

  function LowerText(t: Option<string>): Option<string> {
    if t.None? then None else Some(ToLower(t.value))
  }

  /** One representative for all the ways to write the same listener. */
  function Normal(l: Listener): Listener {
    Listener(LowerText(l.protocol), LowerText(l.instanceProtocol),
             Some(PortValue(l.instancePort)), Some(PortValue(l.loadBalancerPort)), LowerText(l.certificate))
  }

  /** Texts are the same when at each place they hold the same character or the two cases of one ASCII letter. */
  lemma SameTextIff(s: string, t: string)
    ensures SameText(Some(s), Some(t)) <==>
            |s| == |t| && forall i :: 0 <= i < |s| ==>
              || s[i] == t[i]
              || ('A' <= s[i] <= 'Z' && t[i] as int == s[i] as int + 32)
              || ('A' <= t[i] <= 'Z' && s[i] as int == t[i] as int + 32)
    ensures !SameText(Some(s), None) && !SameText(None, Some(t)) && SameText(None, None)
  {
  }

  /** Lower case changes the ASCII capitals and nothing else; upper case the small letters. */
  lemma CasesAre(s: string, i: nat)
    requires i < |s|
    ensures |ToLower(s)| == |ToUpper(s)| == |s|
    ensures ToLower(s)[i] as int == if 'A' <= s[i] <= 'Z' then s[i] as int + 32 else s[i] as int
    ensures ToUpper(s)[i] as int == if 'a' <= s[i] <= 'z' then s[i] as int - 32 else s[i] as int
  {
  }

  lemma SameTextIffSameLower(l: Option<string>, r: Option<string>)
    ensures SameText(l, r) <==> LowerText(l) == LowerText(r)
  {
    if l.Some? && r.Some? && ToLower(l.value) == ToLower(r.value) {
      assert |ToLower(l.value)| == |ToLower(r.value)|;
      forall i | 0 <= i < |l.value| ensures LowerChar(l.value[i]) == LowerChar(r.value[i]) {
        assert ToLower(l.value)[i] == ToLower(r.value)[i];
      }
    }
  }

  /** Listener equality is having the same normal form. */
  lemma ListenersEqualIffNormal(l: Listener, r: Listener)
    ensures ElbListenersAreEqual(l, r) <==> Normal(l) == Normal(r)
  {
    SameTextIffSameLower(l.protocol, r.protocol);
    SameTextIffSameLower(l.instanceProtocol, r.instanceProtocol);
    SameTextIffSameLower(l.certificate, r.certificate);
  }

  lemma ListenersEqualIsEquivalence(a: Listener, b: Listener, c: Listener)
    ensures ElbListenersAreEqual(a, a)
    ensures ElbListenersAreEqual(a, b) ==> ElbListenersAreEqual(b, a)
    ensures ElbListenersAreEqual(a, b) && ElbListenersAreEqual(b, c) ==> ElbListenersAreEqual(a, c)
  {
    ListenersEqualIffNormal(a, a);
    ListenersEqualIffNormal(a, b);
    ListenersEqualIffNormal(b, a);
    ListenersEqualIffNormal(b, c);
    ListenersEqualIffNormal(a, c);
  }

  // ---------- The plan ----------

  ghost predicate MatchAt(actual: Listener, listeners: seq<Option<Listener>>, i: nat) {
    i < |listeners| && listeners[i].Some? && ElbListenersAreEqual(actual, listeners[i].value)
  }

  ghost predicate Wanted(actual: Listener, listeners: seq<Option<Listener>>) {
    exists i: nat :: MatchAt(actual, listeners, i)
  }

  ghost predicate FirstMatchAt(actual: Listener, listeners: seq<Option<Listener>>, i: nat) {
    MatchAt(actual, listeners, i) && forall j: nat :: j < i ==> !MatchAt(actual, listeners, j)
  }

  /** The described listeners that match no desired one, in order. */
  ghost function Unwanted(descriptions: seq<Option<Listener>>, listeners: seq<Option<Listener>>): seq<Listener> {
    if descriptions == [] then []
    else
      var last := descriptions[|descriptions| - 1];
      Unwanted(descriptions[..|descriptions| - 1], listeners)
      + if last.None? || Wanted(last.value, listeners) then [] else [last.value]
  }

  /** The indices of the desired listeners that some description matches first. */
  ghost function Found(descriptions: seq<Option<Listener>>, listeners: seq<Option<Listener>>): set<nat> {
    set i: nat, k: nat | i < |listeners| && k < |descriptions| && descriptions[k].Some?
                         && FirstMatchAt(descriptions[k].value, listeners, i) :: i
  }

  /** The elements among the first n whose index is not in found, in order. */
  ghost function NotFound(listeners: seq<Option<Listener>>, found: set<nat>, n: nat): seq<Option<Listener>>
    requires n <= |listeners|
  {
    if n == 0 then []
    else NotFound(listeners, found, n - 1) + if n - 1 in found then [] else [listeners[n - 1]]
  }

  ghost function Additions(descriptions: seq<Option<Listener>>, listeners: seq<Option<Listener>>): seq<Option<Listener>> {
    NotFound(listeners, Found(descriptions, listeners), |listeners|)
  }

  function LbPorts(ls: seq<Listener>): seq<Option<int>> {
    seq(|ls|, i requires 0 <= i < |ls| => ls[i].loadBalancerPort)
  }

  function InstancePorts(ls: seq<Listener>): seq<Option<int>> {
    seq(|ls|, i requires 0 <= i < |ls| => ls[i].instancePort)
  }

  /** The plan: desired listeners to create, and the ports of the listeners to delete. Nil entries are skipped. */
  method SyncElbListeners(listeners: seq<Option<Listener>>, descriptions: seq<Option<Listener>>)
    returns (additions: seq<Option<Listener>>, removals: seq<Option<int>>, removalsInstancePorts: seq<Option<int>>)
    ensures additions == Additions(descriptions, listeners)
    ensures removals == LbPorts(Unwanted(descriptions, listeners))
    ensures removalsInstancePorts == InstancePorts(Unwanted(descriptions, listeners))
  {
    var foundSet: set<nat> := {};
    removals, removalsInstancePorts, additions := [], [], [];
    for k := 0 to |descriptions|
      invariant foundSet == Found(descriptions[..k], listeners)
      invariant removals == LbPorts(Unwanted(descriptions[..k], listeners))
      invariant removalsInstancePorts == InstancePorts(Unwanted(descriptions[..k], listeners))
    {
      assert descriptions[..k + 1][..k] == descriptions[..k];
      FoundGrows(descriptions, listeners, k);
      if descriptions[k].Some? {
        var actual := descriptions[k].value;
        var found := false;
        var i := 0;
        while i < |listeners| && !found
          invariant 0 <= i <= |listeners|
          invariant forall j: nat :: j < i ==> !MatchAt(actual, listeners, j)
          invariant found ==> FirstMatchAt(actual, listeners, i)
          invariant foundSet == Found(descriptions[..k], listeners) + if found then {i} else {}
          decreases |listeners| - i, !found
        {
          if listeners[i].Some? && ElbListenersAreEqual(actual, listeners[i].value) {
            foundSet := foundSet + {i};
            found := true;
          } else {
            i := i + 1;
          }
        }
        assert found == Wanted(actual, listeners);
        if !found {
          removals := removals + [actual.loadBalancerPort];
          removalsInstancePorts := removalsInstancePorts + [actual.instancePort];
        } else {
          assert FirstMatches(actual, listeners) == {i};
        }
      }
    }
    assert descriptions[..|descriptions|] == descriptions;
    for i := 0 to |listeners|
      invariant additions == NotFound(listeners, foundSet, i)
    {
      if i !in foundSet {
        additions := additions + [listeners[i]];
      }
    }
  }

  ghost function FirstMatches(actual: Listener, listeners: seq<Option<Listener>>): set<nat> {
    set i: nat | i < |listeners| && FirstMatchAt(actual, listeners, i)
  }

  lemma FoundGrows(descriptions: seq<Option<Listener>>, listeners: seq<Option<Listener>>, k: nat)
    requires k < |descriptions|
    ensures Found(descriptions[..k + 1], listeners)
         == Found(descriptions[..k], listeners)
            + if descriptions[k].Some? then FirstMatches(descriptions[k].value, listeners) else {}
  {
    var a, b := descriptions[..k + 1], descriptions[..k];
    assert forall m: nat :: m < k ==> a[m] == b[m];
    forall i | i in Found(a, listeners)
      ensures i in Found(b, listeners) || (a[k].Some? && i in FirstMatches(a[k].value, listeners))
    {
      var m: nat :| m < |a| && a[m].Some? && FirstMatchAt(a[m].value, listeners, i);
      if m < k { assert FirstMatchAt(b[m].value, listeners, i); }
    }
    forall i | i in Found(b, listeners) ensures i in Found(a, listeners) {
      var m: nat :| m < |b| && b[m].Some? && FirstMatchAt(b[m].value, listeners, i);
      assert FirstMatchAt(a[m].value, listeners, i);
    }
    if a[k].Some? {
      forall i | i in FirstMatches(a[k].value, listeners) ensures i in Found(a, listeners) {
        assert FirstMatchAt(a[k].value, listeners, i);
      }
    }
  }

  // ---------- What the plan achieves ----------

  /** The listeners a load balancer has, by port. */
  type PortMap = map<int, Listener>

  predicate Keyed(m: PortMap) {
    forall p :: p in m ==> LbPort(m[p]) == p
  }

  /** A description of the listeners, in any order; nil entries may be mixed in. */
  predicate Describes(descriptions: seq<Option<Listener>>, m: PortMap) {
    && (forall d :: d in descriptions && d.Some? ==> LbPort(d.value) in m && m[LbPort(d.value)] == d.value)
    && (forall p :: p in m ==> Some(m[p]) in descriptions)
  }

  predicate DistinctPorts(ls: seq<Listener>) {
    forall i, j :: 0 <= i < j < |ls| ==> LbPort(ls[i]) != LbPort(ls[j])
  }

  function Wrap(ls: seq<Listener>): seq<Option<Listener>> {
    seq(|ls|, i requires 0 <= i < |ls| => Some(ls[i]))
  }

  function PortSet(ports: seq<Option<int>>): set<int> {
    set p | p in ports :: PortValue(p)
  }

  function ByPort(ls: seq<Listener>): PortMap
    requires DistinctPorts(ls)
  {
    map i | 0 <= i < |ls| :: LbPort(ls[i]) := ls[i]
  }

  lemma ByPortMembers(ls: seq<Listener>)
    requires DistinctPorts(ls)
    ensures Keyed(ByPort(ls))
    ensures forall i :: 0 <= i < |ls| ==> LbPort(ls[i]) in ByPort(ls) && ByPort(ls)[LbPort(ls[i])] == ls[i]
    ensures forall p :: p in ByPort(ls) ==> exists i :: 0 <= i < |ls| && LbPort(ls[i]) == p
  {
  }

  /** The port of l holds a listener equal to l. */
  ghost predicate Present(m: PortMap, l: Listener) {
    LbPort(l) in m && ElbListenersAreEqual(m[LbPort(l)], l)
  }

  ghost predicate HasPort(ls: seq<Listener>, p: int) {
    exists i :: 0 <= i < |ls| && LbPort(ls[i]) == p
  }

  /** Every desired listener is there, on its own port, and nothing else is. */
  ghost predicate Converged(m: PortMap, ls: seq<Listener>) {
    (forall l :: l in ls ==> Present(m, l)) && (forall p :: p in m ==> HasPort(ls, p))
  }

  /**
   For desired listeners with ports: the load balancer has exactly their ports, and on each a listener with the
   desired instance port, protocols and certificate.
   */
  lemma ConvergedIff(m: PortMap, ls: seq<Listener>)
    requires forall l :: l in ls ==> l.loadBalancerPort.Some? && l.instancePort.Some?
    ensures Converged(m, ls) <==>
            && m.Keys == (set l | l in ls :: l.loadBalancerPort.value)
            && forall l :: l in ls ==>
                 var there := m[l.loadBalancerPort.value];
                 && there.loadBalancerPort.GetOr(0) == l.loadBalancerPort.value
                 && there.instancePort.GetOr(0) == l.instancePort.value
                 && SameText(there.protocol, l.protocol) && SameText(there.instanceProtocol, l.instanceProtocol)
                 && SameText(there.certificate, l.certificate)
  {
    var ports := set l | l in ls :: l.loadBalancerPort.value;
    forall p ensures HasPort(ls, p) <==> p in ports {
      if l :| l in ls && l.loadBalancerPort.value == p {
        var i :| 0 <= i < |ls| && ls[i] == l;
        assert LbPort(ls[i]) == p;
      }
      if i :| 0 <= i < |ls| && LbPort(ls[i]) == p {
        assert ls[i] in ls;
      }
    }
    assert forall l :: l in ls ==> LbPort(l) == l.loadBalancerPort.value;
    if Converged(m, ls) {
      assert forall l :: l in ls ==> Present(m, l);
      forall p ensures p in m.Keys <==> p in ports {
        assert p in m ==> HasPort(ls, p);
      }
    }
    if m.Keys == ports {
      forall p | p in m ensures HasPort(ls, p) {
        assert p in ports;
      }
    }
  }

  /** A desired certificate is on its port, up to the case of letters. */
  lemma ConvergedHasCertificate(m: PortMap, ls: seq<Listener>, l: Listener, port: int, certificate: string)
    requires Converged(m, ls) && l in ls && l.loadBalancerPort == Some(port) && l.certificate == Some(certificate)
    ensures port in m && m[port].certificate.Some?
    ensures var has := m[port].certificate.value;
            |has| == |certificate| && forall i :: 0 <= i < |has| ==>
              || has[i] == certificate[i]
              || ('A' <= has[i] <= 'Z' && certificate[i] as int == has[i] as int + 32)
              || ('A' <= certificate[i] <= 'Z' && has[i] as int == certificate[i] as int + 32)
  {
    assert Present(m, l);
    SameTextIff(m[port].certificate.GetOr(""), certificate);
  }

  lemma UnwantedMembers(descriptions: seq<Option<Listener>>, listeners: seq<Option<Listener>>)
    ensures forall l :: l in Unwanted(descriptions, listeners) <==> Some(l) in descriptions && !Wanted(l, listeners)
  {
    if descriptions != [] {
      var rest := descriptions[..|descriptions| - 1];
      UnwantedMembers(rest, listeners);
      assert descriptions == rest + [descriptions[|descriptions| - 1]];
    }
  }

  lemma NotFoundMembers(listeners: seq<Option<Listener>>, found: set<nat>, n: nat)
    requires n <= |listeners|
    ensures forall l :: l in NotFound(listeners, found, n) <==> exists i: nat :: i < n && i !in found && listeners[i] == l
    ensures |NotFound(listeners, found, n)| <= n
  {
    if n != 0 {
      NotFoundMembers(listeners, found, n - 1);
      forall l | l in NotFound(listeners, found, n)
        ensures exists i: nat :: i < n && i !in found && listeners[i] == l
      {
        if l in NotFound(listeners, found, n - 1) {
          var i: nat :| i < n - 1 && i !in found && listeners[i] == l;
        } else {
          assert listeners[n - 1] == l;
        }
      }
    }
  }

  /** With distinct desired ports, a listener on port p is wanted only by the desired listener on port p. */
  lemma WantedByItsPort(l: Listener, ls: seq<Listener>)
    requires DistinctPorts(ls)
    ensures Wanted(l, Wrap(ls)) <==> exists i :: 0 <= i < |ls| && LbPort(ls[i]) == LbPort(l) && ElbListenersAreEqual(l, ls[i])
    ensures forall i: nat :: MatchAt(l, Wrap(ls), i) ==> FirstMatchAt(l, Wrap(ls), i)
  {
    if Wanted(l, Wrap(ls)) {
      var i: nat :| MatchAt(l, Wrap(ls), i);
      assert LbPort(ls[i]) == LbPort(l);
    }
    if i :| 0 <= i < |ls| && LbPort(ls[i]) == LbPort(l) && ElbListenersAreEqual(l, ls[i]) {
      assert MatchAt(l, Wrap(ls), i);
    }
  }

  /** A desired listener needs no creation exactly when its port holds an equal listener. */
  lemma FoundIffPresent(m: PortMap, descriptions: seq<Option<Listener>>, ls: seq<Listener>, i: nat)
    requires Keyed(m) && Describes(descriptions, m) && DistinctPorts(ls) && i < |ls|
    ensures i in Found(descriptions, Wrap(ls)) <==> Present(m, ls[i])
  {
    var p := LbPort(ls[i]);
    if i in Found(descriptions, Wrap(ls)) {
      var k: nat :| k < |descriptions| && descriptions[k].Some? && FirstMatchAt(descriptions[k].value, Wrap(ls), i);
      assert descriptions[k] in descriptions;
    }
    if p in m && ElbListenersAreEqual(m[p], ls[i]) {
      assert Some(m[p]) in descriptions;
      var k: nat :| k < |descriptions| && descriptions[k] == Some(m[p]);
      WantedByItsPort(m[p], ls);
      assert MatchAt(m[p], Wrap(ls), i);
      assert FirstMatchAt(descriptions[k].value, Wrap(ls), i);
    }
  }

  /** The ports the plan deletes are those whose listener no desired listener equals. */
  lemma RemovedPorts(m: PortMap, descriptions: seq<Option<Listener>>, ls: seq<Listener>)
    requires Keyed(m) && Describes(descriptions, m)
    ensures PortSet(LbPorts(Unwanted(descriptions, Wrap(ls)))) == set p | p in m && !Wanted(m[p], Wrap(ls))
  {
    var gone := Unwanted(descriptions, Wrap(ls));
    UnwantedMembers(descriptions, Wrap(ls));
    forall p | p in m && !Wanted(m[p], Wrap(ls)) ensures p in PortSet(LbPorts(gone)) {
      assert m[p] in gone;
      var k :| 0 <= k < |gone| && gone[k] == m[p];
      assert LbPorts(gone)[k] == m[p].loadBalancerPort;
    }
    forall p | p in PortSet(LbPorts(gone)) ensures p in m && !Wanted(m[p], Wrap(ls)) {
      var k :| 0 <= k < |gone| && PortValue(LbPorts(gone)[k]) == p;
      assert gone[k] in gone;
    }
  }

  /** What is left once the removals are deleted. */
  ghost function Kept(m: PortMap, ls: seq<Listener>): PortMap {
    map p | p in m && Wanted(m[p], Wrap(ls)) :: m[p]
  }

  /**
   Deleting the removals by port and then creating the additions: the deletion spares every listener
   a desired one equals, no addition hits an occupied port, and every desired listener ends up
   alone on its port.
   */
  lemma PlanConverges(m: PortMap, descriptions: seq<Option<Listener>>, ls: seq<Listener>, additions: seq<Listener>)
    requires Keyed(m) && Describes(descriptions, m) && DistinctPorts(ls)
    requires Wrap(additions) == Additions(descriptions, Wrap(ls))
    ensures m - PortSet(LbPorts(Unwanted(descriptions, Wrap(ls)))) == Kept(m, ls)
    ensures DistinctPorts(additions)
    ensures forall l :: l in additions ==> LbPort(l) !in Kept(m, ls)
    ensures Converged(Kept(m, ls) + ByPort(additions), ls)
  {
    RemovedPorts(m, descriptions, ls);
    AdditionsAreTheMissing(m, descriptions, ls, additions);
    ByPortMembers(additions);
    var final := Kept(m, ls) + ByPort(additions);
    forall l | l in ls ensures Present(final, l) {
      var i: nat :| i < |ls| && ls[i] == l;
      FoundIffPresent(m, descriptions, ls, i);
      if i in Found(descriptions, Wrap(ls)) {
        WantedByItsPort(m[LbPort(l)], ls);
        assert LbPort(l) !in ByPort(additions);
      } else {
        ListenersEqualIsEquivalence(l, l, l);
        assert l in additions;
      }
    }
    forall p | p in final ensures HasPort(ls, p) {
      if p in ByPort(additions) {
        var k :| 0 <= k < |additions| && LbPort(additions[k]) == p;
        assert additions[k] in additions;
      } else {
        WantedByItsPort(m[p], ls);
      }
    }
  }

  lemma AdditionsAreTheMissing(m: PortMap, descriptions: seq<Option<Listener>>, ls: seq<Listener>, additions: seq<Listener>)
    requires Keyed(m) && Describes(descriptions, m) && DistinctPorts(ls)
    requires Wrap(additions) == Additions(descriptions, Wrap(ls))
    ensures DistinctPorts(additions)
    ensures forall l :: l in additions <==>
              exists i: nat :: i < |ls| && ls[i] == l && i !in Found(descriptions, Wrap(ls))
    ensures forall l :: l in additions ==> LbPort(l) !in Kept(m, ls)
  {
    var found := Found(descriptions, Wrap(ls));
    NotFoundMembers(Wrap(ls), found, |ls|);
    NotFoundDistinct(ls, found, |ls|, additions);
    forall l ensures l in additions <==> Some(l) in Wrap(additions) {
      if l in additions {
        var k :| 0 <= k < |additions| && additions[k] == l;
        assert Wrap(additions)[k] == Some(l);
      }
    }
    forall l | l in additions ensures LbPort(l) !in Kept(m, ls) {
      var i: nat :| i < |ls| && ls[i] == l && i !in found;
      FoundIffPresent(m, descriptions, ls, i);
      var p := LbPort(l);
      if p in m {
        WantedByItsPort(m[p], ls);
      }
    }
  }

  lemma NotFoundDistinct(ls: seq<Listener>, found: set<nat>, n: nat, out: seq<Listener>)
    requires n <= |ls| && DistinctPorts(ls)
    requires Wrap(out) == NotFound(Wrap(ls), found, n)
    ensures DistinctPorts(out)
    ensures forall k :: 0 <= k < |out| ==> exists i: nat :: i < n && ls[i] == out[k]
  {
    assert |Wrap(out)| == |out|;
    if n != 0 {
      if n - 1 in found {
        NotFoundDistinct(ls, found, n - 1, out);
      } else {
        var front := out[..|out| - 1];
        assert Wrap(out) == NotFound(Wrap(ls), found, n - 1) + [Some(ls[n - 1])];
        assert Wrap(front) == Wrap(out)[..|out| - 1];
        assert Wrap(front) == NotFound(Wrap(ls), found, n - 1);
        NotFoundDistinct(ls, found, n - 1, front);
        assert Wrap(out)[|out| - 1] == Some(ls[n - 1]);
      }
    }
  }

  /** Planning again finds nothing to do exactly when the listeners have converged. */
  lemma PlanEmptyIffConverged(m: PortMap, descriptions: seq<Option<Listener>>, ls: seq<Listener>)
    requires Keyed(m) && Describes(descriptions, m) && DistinctPorts(ls)
    ensures Additions(descriptions, Wrap(ls)) == [] && Unwanted(descriptions, Wrap(ls)) == [] <==> Converged(m, ls)
  {
    if Converged(m, ls) {
      ConvergedPlanEmpty(m, descriptions, ls);
    }
    if Additions(descriptions, Wrap(ls)) == [] && Unwanted(descriptions, Wrap(ls)) == [] {
      EmptyPlanConverged(m, descriptions, ls);
    }
  }

  lemma ConvergedPlanEmpty(m: PortMap, descriptions: seq<Option<Listener>>, ls: seq<Listener>)
    requires Keyed(m) && Describes(descriptions, m) && DistinctPorts(ls) && Converged(m, ls)
    ensures Additions(descriptions, Wrap(ls)) == [] && Unwanted(descriptions, Wrap(ls)) == []
  {
    var gone, new' := Unwanted(descriptions, Wrap(ls)), Additions(descriptions, Wrap(ls));
    if gone != [] {
      UnwantedMembers(descriptions, Wrap(ls));
      var l := gone[0];
      assert Some(l) in descriptions;
      assert HasPort(ls, LbPort(l));
      var i: nat :| i < |ls| && LbPort(ls[i]) == LbPort(l);
      assert ls[i] in ls;
      assert MatchAt(l, Wrap(ls), i);
      assert false;
    }
    if new' != [] {
      NotFoundMembers(Wrap(ls), Found(descriptions, Wrap(ls)), |ls|);
      assert new'[0] in new';
      var i: nat :| i < |ls| && i !in Found(descriptions, Wrap(ls)) && Wrap(ls)[i] == new'[0];
      assert ls[i] in ls;
      FoundIffPresent(m, descriptions, ls, i);
      assert false;
    }
  }

  lemma EmptyPlanConverged(m: PortMap, descriptions: seq<Option<Listener>>, ls: seq<Listener>)
    requires Keyed(m) && Describes(descriptions, m) && DistinctPorts(ls)
    requires Additions(descriptions, Wrap(ls)) == [] && Unwanted(descriptions, Wrap(ls)) == []
    ensures Converged(m, ls)
  {
    forall l | l in ls ensures Present(m, l) {
      var i: nat :| i < |ls| && ls[i] == l;
      NotFoundMembers(Wrap(ls), Found(descriptions, Wrap(ls)), |ls|);
      assert Wrap(ls)[i] !in Additions(descriptions, Wrap(ls));
      FoundIffPresent(m, descriptions, ls, i);
    }
    forall p | p in m ensures HasPort(ls, p) {
      UnwantedMembers(descriptions, Wrap(ls));
      assert m[p] !in Unwanted(descriptions, Wrap(ls));
      WantedByItsPort(m[p], ls);
    }
  }
}
