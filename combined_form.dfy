/** The combined router-and-service form: the service name derived from the
    router name as it is typed, and the request payload built on submit. */
module CombinedForm {
  import opened Document
  import opened FormValues
  import RouterForm
  import ServiceForm
  import CombinedRoute

  const RouterSuffix: string := "-router"
  const ServiceSuffix: string := "-service"

  predicate OccursAt(s: string, pat: string, i: nat) {
    i + |pat| <= |s| && s[i..i + |pat|] == pat
  }

  /** `s.endsWith(suffix)`: `s` is some string followed by `suffix`. */
  predicate EndsWith(s: string, suffix: string): (b: bool)
    ensures b <==> |suffix| <= |s| && s == s[..|s| - |suffix|] + suffix
  {
    |suffix| <= |s| && s[|s| - |suffix|..] == suffix
  }

  /** The first position at or after `from` where `pat` occurs. */
  function IndexFrom(s: string, pat: string, from: nat): (r: Option<nat>)
    decreases |s| - from
    ensures r.Some? ==> from <= r.value && OccursAt(s, pat, r.value)
    ensures r.Some? ==> forall j :: from <= j < r.value ==> !OccursAt(s, pat, j)
    ensures r.None? ==> forall j :: from <= j ==> !OccursAt(s, pat, j)
  {
    if from + |pat| > |s| then None
    else if s[from..from + |pat|] == pat then Some(from)
    else IndexFrom(s, pat, from + 1)
  }

  /** `s.indexOf(pat)`: the first position where `pat` occurs. */
  function IndexOf(s: string, pat: string): (r: Option<nat>)
    ensures r.Some? ==> OccursAt(s, pat, r.value) && forall j :: 0 <= j < r.value ==> !OccursAt(s, pat, j)
    ensures r.None? ==> forall j :: !OccursAt(s, pat, j)
  {
    IndexFrom(s, pat, 0)
  }

  /** `s.replace(pat, rep)` with a string pattern: only the first
      occurrence is replaced. The replacement is inserted literally, without
      the `$&`, `$$` and similar expansions JavaScript performs; the only
      replacement used, `-service`, contains no `$`. */
  function ReplaceFirst(s: string, pat: string, rep: string): (r: string)
    ensures IndexOf(s, pat).None? ==> r == s
    ensures IndexOf(s, pat).Some? ==>
      var i := IndexOf(s, pat).value;
      && |r| == |s| - |pat| + |rep|
      && r[..i] == s[..i] && r[i..i + |rep|] == rep && r[i + |rep|..] == s[i + |pat|..]
  {
    match IndexOf(s, pat)
    case None => s
    case Some(i) => s[..i] + rep + s[i + |pat|..]
  }

  /** The service-name field after the router-name field changes to
      `routerName`; `current` is the service name shown before. An empty
      router name leaves it alone. */
  function DerivedServiceName(routerName: string, current: string): (n: string)
    ensures routerName == "" ==> n == current
    ensures routerName != "" ==> IndexOf(n, ServiceSuffix).Some?
  {
    if routerName == "" then current
    else if EndsWith(routerName, RouterSuffix) then
      assert OccursAt(routerName, RouterSuffix, |routerName| - |RouterSuffix|);
      var n := ReplaceFirst(routerName, RouterSuffix, ServiceSuffix);
      assert OccursAt(n, ServiceSuffix, IndexOf(routerName, RouterSuffix).value);
      n
    else
      var n := routerName + ServiceSuffix;
      assert n[|routerName|..|routerName| + |ServiceSuffix|] == ServiceSuffix;
      assert OccursAt(n, ServiceSuffix, |routerName|);
      n
  }

  /** A non-empty router name without the suffix gets `-service` appended;
      an empty one leaves the field as it was. */
  lemma ServiceNameWithoutSuffix(routerName: string, current: string)
    requires !EndsWith(routerName, RouterSuffix)
    ensures routerName == "" ==> DerivedServiceName(routerName, current) == current
    ensures routerName != "" ==> DerivedServiceName(routerName, current) == routerName + ServiceSuffix
    ensures routerName != "" ==> EndsWith(DerivedServiceName(routerName, current), ServiceSuffix)
  {
    if routerName != "" {
      var r := routerName + ServiceSuffix;
      assert r[|r| - |ServiceSuffix|..] == ServiceSuffix;
    }
  }

  /** A name whose only `-router` is its suffix swaps that suffix for
      `-service`. */
  lemma ServiceNameSwapsSuffix(stem: string, current: string)
    requires forall j :: 0 <= j < |stem| ==> !OccursAt(stem + RouterSuffix, RouterSuffix, j)
    ensures DerivedServiceName(stem + RouterSuffix, current) == stem + ServiceSuffix
  {
    var name := stem + RouterSuffix;
    assert name[|name| - |RouterSuffix|..] == RouterSuffix;
    assert OccursAt(name, RouterSuffix, |stem|);
    var i := IndexOf(name, RouterSuffix);
    assert i == Some(|stem|);
    var r := ReplaceFirst(name, RouterSuffix, ServiceSuffix);
    assert r == r[..|stem|] + r[|stem|..|stem| + |ServiceSuffix|] + r[|stem| + |ServiceSuffix|..];
    assert name[..|stem|] == stem;
  }

  /** Two occurrences of `-router` never overlap: its dash occurs only
      at its start. */
  lemma RouterSuffixNoOverlap(s: string, i: nat, k: nat)
    requires i < k && OccursAt(s, RouterSuffix, i) && OccursAt(s, RouterSuffix, k)
    ensures i + |RouterSuffix| <= k
  {
    assert s[k] == s[k..k + |RouterSuffix|][0] == '-';
    assert forall d :: 0 < d < |RouterSuffix| ==> s[i + d] == s[i..i + |RouterSuffix|][d] == RouterSuffix[d] != '-';
  }

  /** A string whose tail from one position on is the tail of `name` from
      the position before ends as `name` does. */
  lemma KeepsSuffix(n: string, name: string, j: nat)
    requires 0 < j <= |name| - |RouterSuffix| && EndsWith(name, RouterSuffix)
    requires |n| == |name| + 1 && n[j + 1..] == name[j..]
    ensures EndsWith(n, RouterSuffix)
  {
    var t := name[j..];
    assert n[|n| - |RouterSuffix|..] == t[|t| - |RouterSuffix|..];
    assert name[|name| - |RouterSuffix|..] == t[|t| - |RouterSuffix|..];
  }

  /** A name ending in `-router` has its first `-router` replaced by
      `-service`. When that first occurrence is not the suffix, the two do
      not overlap and the result still ends in `-router`. */
  lemma ServiceNameReplacesFirstOccurrence(name: string, current: string)
    requires EndsWith(name, RouterSuffix)
    ensures IndexOf(name, RouterSuffix).Some?
    ensures var i := IndexOf(name, RouterSuffix).value;
      DerivedServiceName(name, current) == name[..i] + ServiceSuffix + name[i + |RouterSuffix|..]
    ensures IndexOf(name, RouterSuffix).value < |name| - |RouterSuffix| ==>
      EndsWith(DerivedServiceName(name, current), RouterSuffix)
  {
    var k := |name| - |RouterSuffix|;
    assert OccursAt(name, RouterSuffix, k);
    var i := IndexOf(name, RouterSuffix).value;
    var n := ReplaceFirst(name, RouterSuffix, ServiceSuffix);
    assert n == n[..i] + n[i..i + |ServiceSuffix|] + n[i + |ServiceSuffix|..];
    if i < k {
      RouterSuffixNoOverlap(name, i, k);
      KeepsSuffix(n, name, i + |RouterSuffix|);
    }
  }

  /** The form's values; the `{value}` and `{url}` wrappers of the
      field-array rows are `string` and `Server`. */
  datatype CombinedFormData = CombinedFormData(
    routerName: string,
    serviceName: string,
    entryPoints: seq<string>,
    rule: string,
    tlsEnabled: bool,
    certResolver: string,
    middlewares: seq<string>,
    servers: seq<Server>,
    healthCheckEnabled: bool,
    healthCheckPath: string,
    healthCheckInterval: string,
    healthCheckTimeout: string,
    serversTransport: string)

  /** The submit handler: a router that names the service field, entry
      points filtered, the middleware selection taken as it is, and the
      service's load balancer built as by the service form. */
  function CombinedFromForm(f: CombinedFormData): (p: RouterServicePayload)
    ensures p.routerName == f.routerName && p.serviceName == f.serviceName
    ensures p.router.service == p.serviceName
    ensures p.router.rule == f.rule
    ensures p.router.entryPoints == NonEmpty(f.entryPoints)
    ensures p.router.tls == RouterForm.TlsFromForm(f.tlsEnabled, f.certResolver)
    ensures p.router.middlewares.Some? <==> f.middlewares != []
    ensures p.router.middlewares.Some? ==> p.router.middlewares.value == f.middlewares
    ensures p.service.loadBalancer == ServiceForm.LoadBalancerFromForm(
      f.servers, f.healthCheckEnabled, f.healthCheckPath, f.healthCheckInterval,
      f.healthCheckTimeout, f.serversTransport)
  {
    var router := Router(
      NonEmpty(f.entryPoints), f.rule, f.serviceName,
      RouterForm.TlsFromForm(f.tlsEnabled, f.certResolver),
      if |f.middlewares| > 0 then Some(f.middlewares) else None);
    var service := Service(ServiceForm.LoadBalancerFromForm(
      f.servers, f.healthCheckEnabled, f.healthCheckPath, f.healthCheckInterval,
      f.healthCheckTimeout, f.serversTransport));
    RouterServicePayload(f.routerName, f.serviceName, router, service)
  }

  /** With a selection free of empty names, the router is the one the
      router form would save from the same values. */
  lemma CombinedRouterMatchesRouterForm(f: CombinedFormData)
    requires NoEmptyEntries(f.middlewares)
    ensures CombinedFromForm(f).router == RouterForm.RouterFromForm(RouterForm.RouterFormData(
      f.routerName, f.entryPoints, f.rule, f.serviceName, f.tlsEnabled, f.certResolver, f.middlewares)).entity
  {
    NonEmptyKeepsAll(f.middlewares);
  }

  /** The service is always the one the service form would save from the
      same values. */
  lemma CombinedServiceMatchesServiceForm(f: CombinedFormData)
    ensures CombinedFromForm(f).service == ServiceForm.ServiceFromForm(ServiceForm.ServiceFormData(
      f.serviceName, f.servers, f.healthCheckEnabled, f.healthCheckPath, f.healthCheckInterval,
      f.healthCheckTimeout, f.serversTransport)).entity
  {
  }

  /** The handler's overwrite of the router's service is a no-op for this
      form's payloads: the stored router is exactly the one the form built,
      and the stored service the one it built. */
  lemma CombinedStoresWhatFormBuilt(c: Config, f: CombinedFormData)
    requires CombinedRoute.UpsertRouterService(c, CombinedFromForm(f)).Some?
    ensures var p := CombinedFromForm(f);
      var h := CombinedRoute.UpsertRouterService(c, p).value.http.value;
      && f.routerName in h.routers.value && h.routers.value[f.routerName] == p.router
      && f.serviceName in h.services.value && h.services.value[f.serviceName] == p.service
  {
    var p := CombinedFromForm(f);
    assert p.router.(service := p.serviceName) == p.router;
  }
}
