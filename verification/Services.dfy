/** What a service asks for: its listeners (utils.go) and the permissions of its load balancer (ccm_cloud.go). */
module Services {
  import opened Wrappers
  import opened Collections
  import opened IpRules
  import L = Listeners
  import opened Ingress

  datatype ServicePort = ServicePort(name: string, protocol: string, port: int, nodePort: int)

  /** The ports an annotation lists, by name or number. */
  datatype PortSets = PortSets(names: set<string>, numbers: set<int>)

  /** The certificate and backend protocol annotations, empty when absent; no port sets means every port. */
  datatype TlsSettings = TlsSettings(certificate: string, backendProtocol: string, sslPorts: Option<PortSets>)

  const BACKEND_PROTOCOL_MAPPING := map["https" := "https", "http" := "https", "ssl" := "ssl", "tcp" := "ssl"]

  predicate UsesCertificate(p: ServicePort, tls: TlsSettings) {
    tls.certificate != "" && (tls.sslPorts.None? || p.port in tls.sslPorts.value.numbers || L.ToLower(p.name) in tls.sslPorts.value.names)
  }

  /** A certificate is for every port, or for the listed numbers and the names listed in lower case. */
  lemma UsesCertificateIff(p: ServicePort, tls: TlsSettings)
    ensures tls.certificate == "" ==> !UsesCertificate(p, tls)
    ensures tls.certificate != "" && tls.sslPorts.None? ==> UsesCertificate(p, tls)
    ensures tls.certificate != "" && tls.sslPorts.Some? ==>
              (UsesCertificate(p, tls) <==>
                 || p.port in tls.sslPorts.value.numbers
                 || exists n :: n in tls.sslPorts.value.names && |n| == |p.name| && forall i :: 0 <= i < |n| ==>
                      n[i] as int == if 'A' <= p.name[i] <= 'Z' then p.name[i] as int + 32 else p.name[i] as int)
  {
    var lower := L.ToLower(p.name);
    if tls.sslPorts.Some? {
      forall n | n in tls.sslPorts.value.names && |n| == |p.name| && forall i :: 0 <= i < |n| ==>
                   n[i] as int == if 'A' <= p.name[i] <= 'Z' then p.name[i] as int + 32 else p.name[i] as int
        ensures n == lower
      {
        assert forall i :: 0 <= i < |n| ==> n[i] == lower[i];
      }
    }
  }

  /** The listener keeps both ports; a certificate comes with an encrypted front, and with nothing else. */
  function BuildListener(p: ServicePort, tls: TlsSettings): (r: Result<L.Listener>)
    ensures r.Err? <==> UsesCertificate(p, tls) && tls.backendProtocol !in {"", "https", "http", "ssl", "tcp"}
    ensures r.Ok? ==> r.value.instancePort == Some(p.nodePort) && r.value.loadBalancerPort == Some(p.port)
    ensures r.Ok? ==> (r.value.certificate.Some? <==> UsesCertificate(p, tls))
    ensures r.Ok? && r.value.certificate.Some? ==>
              && r.value.certificate == Some(tls.certificate)
              && r.value.protocol == Some(if tls.backendProtocol in {"http", "https"} then "HTTPS" else "SSL")
              && r.value.instanceProtocol == Some(map["" := "TCP", "https" := "HTTPS", "http" := "HTTP", "ssl" := "SSL", "tcp" := "TCP"][tls.backendProtocol])
    ensures r.Ok? && r.value.certificate.None? && p.protocol == "TCP" ==>
              r.value.protocol == r.value.instanceProtocol
              && r.value.protocol == Some(if tls.backendProtocol == "http" then "HTTP" else "TCP")
  {
    UpperCases();
    var protocol := L.ToLower(p.protocol);
    if UsesCertificate(p, tls) then
      if tls.backendProtocol == "" then
        Ok(L.Listener(Some(L.ToUpper("ssl")), Some(L.ToUpper("tcp")), Some(p.nodePort), Some(p.port), Some(tls.certificate)))
      else if tls.backendProtocol !in BACKEND_PROTOCOL_MAPPING then Err(Invalid("Invalid backend protocol"))
      else
        Ok(L.Listener(Some(L.ToUpper(BACKEND_PROTOCOL_MAPPING[tls.backendProtocol])), Some(L.ToUpper(tls.backendProtocol)),
                      Some(p.nodePort), Some(p.port), Some(tls.certificate)))
    else if tls.backendProtocol == "http" then
      Ok(L.Listener(Some(L.ToUpper("http")), Some(L.ToUpper("http")), Some(p.nodePort), Some(p.port), None))
    else
      Ok(L.Listener(Some(L.ToUpper(protocol)), Some(L.ToUpper(protocol)), Some(p.nodePort), Some(p.port), None))
  }

  lemma UpperCases()
    ensures L.ToUpper("ssl") == "SSL" && L.ToUpper("https") == "HTTPS" && L.ToUpper("http") == "HTTP"
    ensures L.ToLower("TCP") == "tcp" && L.ToUpper("tcp") == "TCP"
  {
  }

  predicate DistinctServicePorts(ports: seq<ServicePort>) {
    forall i, j :: 0 <= i < j < |ports| ==> ports[i].port != ports[j].port
  }

  /** The ports that get a listener. */
  ghost function Exposed(ports: seq<ServicePort>): seq<ServicePort> {
    if ports == [] then []
    else Exposed(ports[..|ports| - 1]) + if ports[|ports| - 1].nodePort == 0 then [] else [ports[|ports| - 1]]
  }

  /** Only TCP ports, each of which can get its listener. */
  ghost predicate Acceptable(ports: seq<ServicePort>, tls: TlsSettings) {
    ports != [] && forall p :: p in ports ==> p.protocol == "TCP" && (p.nodePort == 0 || BuildListener(p, tls).Ok?)
  }

  ghost function ListenerOf(p: ServicePort, tls: TlsSettings): L.Listener {
    var r := BuildListener(p, tls);
    if r.Ok? then r.value else L.Listener(None, None, None, None, None)
  }

  /** One listener for each port with a node port, in order. */
  ghost function ListenersOf(ports: seq<ServicePort>, tls: TlsSettings): seq<L.Listener> {
    var exposed := Exposed(ports);
    seq(|exposed|, i requires 0 <= i < |exposed| => ListenerOf(exposed[i], tls))
  }

  method BuildListeners(ports: seq<ServicePort>, tls: TlsSettings) returns (r: Result<seq<L.Listener>>)
    ensures r.Ok? <==> Acceptable(ports, tls)
    ensures r.Ok? ==> ports != [] && forall p :: p in ports ==> p.protocol == "TCP"
    ensures ports != [] && (forall p :: p in ports ==> p.protocol == "TCP")
            && (tls.certificate == "" || tls.backendProtocol in {"", "https", "http", "ssl", "tcp"}) ==>
              r.Ok?
    ensures r.Ok? ==> r.value == ListenersOf(ports, tls)
  {
    if |ports| == 0 {
      return Err(Invalid("requested load balancer with no ports"));
    }
    var ls: seq<L.Listener> := [];
    for i := 0 to |ports|
      invariant ls == ListenersOf(ports[..i], tls)
      invariant forall p :: p in ports[..i] ==> p.protocol == "TCP" && (p.nodePort == 0 || BuildListener(p, tls).Ok?)
    {
      assert ports[i] in ports && ports[..i + 1][..i] == ports[..i];
      assert ports[..i + 1] == ports[..i] + [ports[i]];
      if ports[i].protocol != "TCP" {
        return Err(Invalid("Only TCP LoadBalancer is supported for AWS ELB"));
      }
      if ports[i].nodePort == 0 {
        continue;
      }
      var l := BuildListener(ports[i], tls);
      if l.Err? {
        return Err(l.error);
      }
      ls := ls + [l.value];
    }
    assert ports[..|ports|] == ports;
    return Ok(ls);
  }

  lemma {:induction false} ExposedAreFromPorts(ports: seq<ServicePort>, i: nat) returns (at: nat)
    requires i < |Exposed(ports)|
    ensures at < |ports| && ports[at] == Exposed(ports)[i] && ports[at].nodePort != 0
    ensures |Exposed(ports[..at])| == i
  {
    var front := ports[..|ports| - 1];
    if i < |Exposed(front)| {
      at := ExposedAreFromPorts(front, i);
      assert ports[..at] == front[..at];
    } else {
      at := |ports| - 1;
    }
  }

  /**
   The listeners are those of the ports with a node port, in order: the i-th is built for some such port, which i
   others come before.
   */
  lemma ListenerComesFromPort(ports: seq<ServicePort>, tls: TlsSettings, i: nat) returns (at: nat)
    requires Acceptable(ports, tls) && i < |ListenersOf(ports, tls)|
    ensures at < |ports| && ports[at].nodePort != 0 && |ListenersOf(ports[..at], tls)| == i
    ensures BuildListener(ports[at], tls) == Ok(ListenersOf(ports, tls)[i])
  {
    at := ExposedAreFromPorts(ports, i);
    assert ports[at] in ports;
  }

  /** And every port with a node port gets its listener. */
  lemma {:induction false} PortGetsListener(ports: seq<ServicePort>, tls: TlsSettings, at: nat)
    requires Acceptable(ports, tls) && at < |ports| && ports[at].nodePort != 0
    ensures exists l :: l in ListenersOf(ports, tls) && BuildListener(ports[at], tls) == Ok(l)
  {
    ExposedContains(ports, at);
    var i :| 0 <= i < |Exposed(ports)| && Exposed(ports)[i] == ports[at];
    assert ports[at] in ports;
    assert ListenersOf(ports, tls)[i] == ListenerOf(ports[at], tls);
  }

  lemma {:induction false} ExposedContains(ports: seq<ServicePort>, at: nat)
    requires at < |ports| && ports[at].nodePort != 0
    ensures ports[at] in Exposed(ports)
  {
    var front := ports[..|ports| - 1];
    if at < |front| {
      ExposedContains(front, at);
      assert front[at] == ports[at];
    }
  }

  lemma ListenersHaveInstancePorts(ports: seq<ServicePort>, tls: TlsSettings)
    requires Acceptable(ports, tls)
    ensures forall l :: l in ListenersOf(ports, tls) ==> l.instancePort.Some? && l.instancePort.value != 0
  {
    var ls := ListenersOf(ports, tls);
    forall l | l in ls ensures l.instancePort.Some? && l.instancePort.value != 0 {
      var i :| 0 <= i < |ls| && ls[i] == l;
      var a := ExposedAreFromPorts(ports, i);
    }
  }

  /** Distinct service ports give listeners on distinct ports. */
  lemma DistinctServicePortsGiveDistinctListeners(ports: seq<ServicePort>, tls: TlsSettings)
    requires DistinctServicePorts(ports) && Acceptable(ports, tls)
    ensures L.DistinctPorts(ListenersOf(ports, tls))
  {
    var ls := ListenersOf(ports, tls);
    forall i, j | 0 <= i < j < |ls| ensures L.LbPort(ls[i]) != L.LbPort(ls[j]) {
      var a := ExposedAreFromPorts(ports, i);
      var b := ExposedAreFromPorts(ports, j);
      assert ports[a] in ports && ports[b] in ports;
    }
  }

  // ---------- Permissions ----------

  /** The load balancer's ports, and ICMP fragmentation messages. */
  ghost function Scopes(ports: seq<ServicePort>): set<(string, int, int)> {
    (set p | p in ports :: (L.ToLower(p.protocol), p.port, p.port)) + {("icmp", 3, 4)}
  }

  /** Each of those from each source range. */
  ghost function DesiredAtoms(ports: seq<ServicePort>, ranges: seq<string>): set<Atom> {
    set s, x | s in Scopes(ports) && x in ranges :: Atom(Some(s.0), Some(s.1), Some(s.2), Range(x))
  }

  /** A service asks for its ports, each over its own protocol, and for ICMP 3 to 4, from the ranges, and for nothing else. */
  lemma DesiredAtomsAre(ports: seq<ServicePort>, ranges: seq<string>, a: Atom)
    ensures a in DesiredAtoms(ports, ranges) <==>
            && a.source.Range? && a.source.cidr in ranges
            && (|| (a.protocol == Some("icmp") && a.fromPort == Some(3) && a.toPort == Some(4))
                || exists p :: p in ports && a.fromPort == a.toPort == Some(p.port) && a.protocol == Some(L.ToLower(p.protocol)))
  {
    if a in DesiredAtoms(ports, ranges) {
      var s, x :| s in Scopes(ports) && x in ranges && a == Atom(Some(s.0), Some(s.1), Some(s.2), Range(x));
    }
    if a.source.Range? && a.source.cidr in ranges {
      if a.protocol == Some("icmp") && a.fromPort == Some(3) && a.toPort == Some(4) {
        assert ("icmp", 3, 4) in Scopes(ports);
      }
      if p :| p in ports && a.fromPort == a.toPort == Some(p.port) && a.protocol == Some(L.ToLower(p.protocol)) {
        assert (L.ToLower(p.protocol), p.port, p.port) in Scopes(ports);
      }
    }
  }

  /** Over TCP the permission for a port is the one for lower-case tcp. */
  lemma TcpPortIsDesired(ports: seq<ServicePort>, ranges: seq<string>, p: ServicePort, cidr: string)
    requires p in ports && p.protocol == "TCP" && cidr in ranges
    ensures Atom(Some("tcp"), Some(p.port), Some(p.port), Range(cidr)) in DesiredAtoms(ports, ranges)
  {
    UpperCases();
    DesiredAtomsAre(ports, ranges, Atom(Some("tcp"), Some(p.port), Some(p.port), Range(cidr)));
  }

  function Permission(protocol: string, fromPort: int, toPort: int, ranges: seq<string>): Rule {
    Rule(Some(protocol), Some(fromPort), Some(toPort), Some(ranges), None, None)
  }

  ghost function PermissionRules(scopes: set<(string, int, int)>, ranges: seq<string>): set<Rule> {
    set s | s in scopes :: Permission(s.0, s.1, s.2, ranges)
  }

  method BuildPermissions(ports: seq<ServicePort>, ranges: seq<string>) returns (permissions: IPRulesSet)
    ensures fresh(permissions) && permissions.Valid()
    ensures permissions.Rules() == PermissionRules(Scopes(ports), ranges)
  {
    permissions := new IPRulesSet([]);
    for i := 0 to |ports|
      invariant fresh(permissions) && permissions.Valid()
      invariant permissions.Rules() == set p | p in ports[..i] :: Permission(L.ToLower(p.protocol), p.port, p.port, ranges)
    {
      var permission := Permission(L.ToLower(ports[i].protocol), ports[i].port, ports[i].port, ranges);
      permissions.Insert([permission]);
      assert Elems([permission]) == {permission};
      assert ports[..i + 1] == ports[..i] + [ports[i]];
    }
    assert ports[..|ports|] == ports;
    var icmp := Permission("icmp", 3, 4, ranges);
    permissions.Insert([icmp]);
    assert Elems([icmp]) == {icmp};
  }

  /** The permissions are comparable with what the cloud reports, and mean every port from every range. */
  lemma PermissionsMeanDesired(ports: seq<ServicePort>, ranges: seq<string>)
    requires ranges != []
    ensures Comparable(PermissionRules(Scopes(ports), ranges))
    ensures Meaning(PermissionRules(Scopes(ports), ranges)) == DesiredAtoms(ports, ranges)
  {
    var rules := PermissionRules(Scopes(ports), ranges);
    forall r | r in rules ensures Sources(r) == set x | x in ranges :: Range(x) {
    }
    forall a | a in DesiredAtoms(ports, ranges) ensures a in Meaning(rules) {
      var s, x :| s in Scopes(ports) && x in ranges && a == Atom(Some(s.0), Some(s.1), Some(s.2), Range(x));
      var r := Permission(s.0, s.1, s.2, ranges);
      assert r in rules && x in r.Ranges();
      assert Range(x) in Sources(r) && a == Allows(r, Range(x));
      assert a in Atoms(r);
    }
  }
}
