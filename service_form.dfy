/** The service edit form: service to form values (with health-check
    defaults) when a service is opened, form values to service on submit. */
module ServiceForm {
  import opened Document
  import opened FormValues

  const DefaultHealthPath: string := "/health"
  const DefaultHealthInterval: string := "30s"
  const DefaultHealthTimeout: string := "10s"

  datatype ServiceFormData = ServiceFormData(
    name: string,
    servers: seq<Server>,
    healthCheckEnabled: bool,
    healthCheckPath: string,
    healthCheckInterval: string,
    healthCheckTimeout: string,
    serversTransport: string)

  /** The service shown when a service is opened for editing. */
  function ServiceToForm(name: string, s: Service): (f: ServiceFormData)
    ensures f.name == name && f.servers == s.loadBalancer.servers
    ensures f.healthCheckEnabled <==> s.loadBalancer.healthCheck.Some?
    ensures var hc := s.loadBalancer.healthCheck;
      && (if hc.Some? && hc.value.path.Some? && hc.value.path.value != "" then f.healthCheckPath == hc.value.path.value
          else f.healthCheckPath == DefaultHealthPath)
      && (if hc.Some? && hc.value.interval.Some? && hc.value.interval.value != "" then f.healthCheckInterval == hc.value.interval.value
          else f.healthCheckInterval == DefaultHealthInterval)
      && (if hc.Some? && hc.value.timeout.Some? && hc.value.timeout.value != "" then f.healthCheckTimeout == hc.value.timeout.value
          else f.healthCheckTimeout == DefaultHealthTimeout)
    ensures f.serversTransport == if s.loadBalancer.serversTransport.Some? then s.loadBalancer.serversTransport.value else ""
  {
    var lb := s.loadBalancer;
    var hc := lb.healthCheck;
    ServiceFormData(
      name, lb.servers, hc.Some?,
      OrDefault(if hc.Some? then hc.value.path else None, DefaultHealthPath),
      OrDefault(if hc.Some? then hc.value.interval else None, DefaultHealthInterval),
      OrDefault(if hc.Some? then hc.value.timeout else None, DefaultHealthTimeout),
      lb.serversTransport.GetOr(""))
  }

  /** `servers.filter(server => server.url.trim())`. */
  function NonBlankServers(s: seq<Server>): (r: seq<Server>)
    ensures |r| <= |s|
  {
    if s == [] then [] else KeptServer(s[0]) + NonBlankServers(s[1..])
  }

  /** One server through the filter: kept exactly when its URL is not blank. */
  function KeptServer(x: Server): (r: seq<Server>)
    ensures r == [] <==> Blank(x.url)
    ensures r != [] ==> r == [x]
  {
    if Trim(x.url) != "" then [x] else []
  }

  /** The kept servers are exactly those whose URL is not blank. */
  lemma {:induction false} NonBlankServersMembers(s: seq<Server>)
    ensures forall x :: x in NonBlankServers(s) <==> x in s && !Blank(x.url)
  {
    if s != [] {
      NonBlankServersMembers(s[1..]);
      assert s == [s[0]] + s[1..];
    }
  }

  /** The filter distributes over concatenation, so each server is kept or
      dropped where it stands and the kept ones keep their order. */
  lemma {:induction false} NonBlankServersAppend(a: seq<Server>, b: seq<Server>)
    ensures NonBlankServers(a + b) == NonBlankServers(a) + NonBlankServers(b)
  {
    if a == [] {
      assert a + b == b;
    } else {
      var head := KeptServer(a[0]);
      var rest := NonBlankServers(a[1..]);
      calc {
        NonBlankServers(a + b);
        { ConcatTail(a, b); }
        head + NonBlankServers(a[1..] + b);
        { NonBlankServersAppend(a[1..], b); }
        head + (rest + NonBlankServers(b));
        { ConcatAssoc(head, rest, NonBlankServers(b)); }
        (head + rest) + NonBlankServers(b);
        NonBlankServers(a) + NonBlankServers(b);
      }
    }
  }

  lemma ConcatAssoc<T>(x: seq<T>, y: seq<T>, z: seq<T>)
    ensures x + (y + z) == (x + y) + z
  {
  }

  lemma ConcatTail<T>(a: seq<T>, b: seq<T>)
    requires a != []
    ensures (a + b)[0] == a[0] && (a + b)[1..] == a[1..] + b
  {
  }

  /** Servers with no blank URL are all kept, in order. */
  lemma {:induction false} NonBlankServersKeepsAll(s: seq<Server>)
    requires forall x :: x in s ==> !Blank(x.url)
    ensures NonBlankServers(s) == s
  {
    if s != [] {
      var tail := s[1..];
      assert s == [s[0]] + tail;
      NonBlankServersKeepsAll(tail);
      assert s[0] in s;
    }
  }

  /** The load balancer built on submit, by the service form and the
      combined form alike: blank servers dropped, a complete health check
      exactly when it is enabled, the transport name as typed exactly when
      it is not blank. */
  function LoadBalancerFromForm(servers: seq<Server>, healthCheckEnabled: bool, path: string,
                                interval: string, timeout: string, serversTransport: string): (lb: LoadBalancer)
    ensures lb.servers == NonBlankServers(servers)
    ensures lb.healthCheck.Some? <==> healthCheckEnabled
    ensures lb.healthCheck.Some? ==> lb.healthCheck.value == HealthCheck(Some(interval), Some(path), Some(timeout))
    ensures lb.serversTransport.Some? <==> !Blank(serversTransport)
    ensures lb.serversTransport.Some? ==> lb.serversTransport.value == serversTransport
  {
    LoadBalancer(
      NonBlankServers(servers),
      if healthCheckEnabled then Some(HealthCheck(Some(interval), Some(path), Some(timeout))) else None,
      if Trim(serversTransport) != "" then Some(serversTransport) else None)
  }

  function ServiceFromForm(f: ServiceFormData): (s: Saved<Service>)
    ensures s.name == f.name
    ensures s.entity == Service(LoadBalancerFromForm(
      f.servers, f.healthCheckEnabled, f.healthCheckPath, f.healthCheckInterval,
      f.healthCheckTimeout, f.serversTransport))
  {
    Saved(f.name, Service(LoadBalancerFromForm(
      f.servers, f.healthCheckEnabled, f.healthCheckPath, f.healthCheckInterval,
      f.healthCheckTimeout, f.serversTransport)))
  }

  /** What a service becomes through the form, stated on services alone:
      blank servers dropped, a present health check completed with the
      defaults, a blank transport dropped. */
  function Normalized(s: Service): Service {
    var lb := s.loadBalancer;
    Service(LoadBalancer(
      NonBlankServers(lb.servers),
      match lb.healthCheck
      case None => None
      case Some(hc) => Some(HealthCheck(
        Some(OrDefault(hc.interval, DefaultHealthInterval)),
        Some(OrDefault(hc.path, DefaultHealthPath)),
        Some(OrDefault(hc.timeout, DefaultHealthTimeout)))),
      if lb.serversTransport.Some? && !Blank(lb.serversTransport.value) then lb.serversTransport else None))
  }

  /** Services the form reproduces exactly. */
  predicate CanonicalService(s: Service) {
    var lb := s.loadBalancer;
    && (forall x :: x in lb.servers ==> !Blank(x.url))
    && (lb.healthCheck.Some? ==>
          var hc := lb.healthCheck.value;
          && hc.interval.Some? && hc.interval.value != ""
          && hc.path.Some? && hc.path.value != ""
          && hc.timeout.Some? && hc.timeout.value != "")
    && (lb.serversTransport.Some? ==> !Blank(lb.serversTransport.value))
  }

  /** Opening a service and submitting the form unchanged saves its
      normalized form under the same name. */
  lemma ServiceRoundTrip(name: string, s: Service)
    ensures ServiceFromForm(ServiceToForm(name, s)) == Saved(name, Normalized(s))
  {
    var lb := s.loadBalancer;
    assert lb.serversTransport.None? ==> Trim("") == "";
  }

  /** Normalizing a service changes it exactly when the form could not have
      produced it. */
  lemma NormalizedFixesCanonical(s: Service)
    ensures Normalized(s) == s <==> CanonicalService(s)
  {
    if CanonicalService(s) {
      CanonicalIsFixed(s);
    }
    if Normalized(s) == s {
      FixedIsCanonical(s);
    }
  }

  lemma CanonicalIsFixed(s: Service)
    requires CanonicalService(s)
    ensures Normalized(s) == s
  {
    var lb := s.loadBalancer;
    NonBlankServersKeepsAll(lb.servers);
    if lb.healthCheck.Some? {
      var hc := lb.healthCheck.value;
      assert OrDefault(hc.interval, DefaultHealthInterval) == hc.interval.value;
      assert OrDefault(hc.path, DefaultHealthPath) == hc.path.value;
      assert OrDefault(hc.timeout, DefaultHealthTimeout) == hc.timeout.value;
    }
  }

  lemma FixedIsCanonical(s: Service)
    requires Normalized(s) == s
    ensures CanonicalService(s)
  {
    var lb := s.loadBalancer;
    var servers := NonBlankServers(lb.servers);
    assert servers == lb.servers;
    NonBlankServersMembers(lb.servers);
    forall i | 0 <= i < |lb.servers| ensures !Blank(lb.servers[i].url) {
      assert lb.servers[i] in servers;
    }
  }

  /** A submitted service whose health-check fields are filled in is reproduced exactly by a further round trip. */
  lemma FromFormCanonical(f: ServiceFormData)
    requires f.healthCheckEnabled ==> f.healthCheckPath != "" && f.healthCheckInterval != "" && f.healthCheckTimeout != ""
    ensures CanonicalService(ServiceFromForm(f).entity)
  {
    var s := ServiceFromForm(f).entity;
    NonBlankServersMembers(f.servers);
    forall i | 0 <= i < |s.loadBalancer.servers| ensures !Blank(s.loadBalancer.servers[i].url) {
      assert s.loadBalancer.servers[i] in s.loadBalancer.servers;
    }
  }

  /** Submitting and reopening shows the non-blank servers, the health-check
      defaults in place of empty fields and, when the check is off, in place
      of whatever was typed, and an empty transport in place of a blank one. */
  lemma FormRoundTrip(f: ServiceFormData)
    ensures var s := ServiceFromForm(f);
      ServiceToForm(s.name, s.entity)
      == f.(servers := NonBlankServers(f.servers),
            healthCheckPath := if f.healthCheckEnabled then OrDefault(Some(f.healthCheckPath), DefaultHealthPath) else DefaultHealthPath,
            healthCheckInterval := if f.healthCheckEnabled then OrDefault(Some(f.healthCheckInterval), DefaultHealthInterval) else DefaultHealthInterval,
            healthCheckTimeout := if f.healthCheckEnabled then OrDefault(Some(f.healthCheckTimeout), DefaultHealthTimeout) else DefaultHealthTimeout,
            serversTransport := if Blank(f.serversTransport) then "" else f.serversTransport)
  {
  }
}
