/** The dynamic-configuration document and the entities it holds, shared by
    the backend store and the browser forms. JavaScript's "absent or
    undefined" is `None`; fields the entity types declare mandatory are
    plain fields. */
module Document {

  datatype Option<+T> = None | Some(value: T) {
    function GetOr(default: T): T {
      match this
      case Some(v) => v
      case None => default
    }
  }

  /** `a || fallback` on an optional string (a form field or an environment
      variable): absent or empty gives the fallback. */
  function OrDefault(a: Option<string>, fallback: string): (r: string)
    ensures a.Some? && a.value != "" ==> r == a.value
    ensures a.None? || a.value == "" ==> r == fallback
  {
    if a.Some? && a.value != "" then a.value else fallback
  }

  /** A router's `tls` when present: either the boolean form or the
      object form `{certResolver?}`. */
  datatype Tls = TlsFlag(enabled: bool) | TlsOptions(certResolver: Option<string>)

  datatype Router = Router(
    entryPoints: seq<string>,
    rule: string,
    service: string,
    tls: Option<Tls>,
    middlewares: Option<seq<string>>)

  datatype Server = Server(url: string)

  datatype HealthCheck = HealthCheck(interval: Option<string>, path: Option<string>, timeout: Option<string>)

  datatype LoadBalancer = LoadBalancer(
    servers: seq<Server>,
    healthCheck: Option<HealthCheck>,
    serversTransport: Option<string>)

  datatype Service = Service(loadBalancer: LoadBalancer)

  /** One entry of a string-to-string record. */
  datatype KeyValue = KeyValue(key: string, value: string)

  /** A string-to-string JavaScript record: its entries in insertion order.
      Records built by the model keep each key once (`DistinctKeys`). */
  type Dict = seq<KeyValue>

  predicate DistinctKeys(d: Dict) {
    forall i, j :: 0 <= i < j < |d| ==> d[i].key != d[j].key
  }

  /** The set of keys of a record (`Object.keys`). */
  function KeySet(d: Dict): (ks: set<string>)
    ensures forall k :: k in ks <==> exists i :: 0 <= i < |d| && d[i].key == k
  {
    set i | 0 <= i < |d| :: d[i].key
  }

  datatype ErrorsConfig = ErrorsConfig(query: string, service: string, status: seq<string>)

  datatype RateLimitConfig = RateLimitConfig(average: int, burst: int)

  datatype HeadersConfig = HeadersConfig(customRequestHeaders: Option<Dict>, customResponseHeaders: Option<Dict>)

  datatype RedirectRegexConfig = RedirectRegexConfig(permanent: bool, regex: string, replacement: string)

  /** Structurally, any subset of the four variants may be present; the
      forms and the page pick among them by priority. */
  datatype Middleware = Middleware(
    errors: Option<ErrorsConfig>,
    rateLimit: Option<RateLimitConfig>,
    headers: Option<HeadersConfig>,
    redirectRegex: Option<RedirectRegexConfig>)

  /** The number of populated variants of a middleware. */
  function VariantCount(m: Middleware): (n: nat)
    ensures n <= 4
  {
    (if m.errors.Some? then 1 else 0) + (if m.rateLimit.Some? then 1 else 0)
    + (if m.headers.Some? then 1 else 0) + (if m.redirectRegex.Some? then 1 else 0)
  }

  /** A servers-transport definition, carried verbatim and never interpreted. */
  datatype TransportSpec = TransportSpec(raw: string)

  /** The `http` section. Each map may be missing from (or null in) a
      hand-written file, hence `Option`. */
  datatype Http = Http(
    routers: Option<map<string, Router>>,
    services: Option<map<string, Service>>,
    middlewares: Option<map<string, Middleware>>,
    serversTransports: Option<map<string, TransportSpec>>)

  /** A parsed document. `http == None` stands for a document without an
      `http` key and for a file whose content parses to null. */
  datatype Config = Config(http: Option<Http>)

  /** The document used when `dynamic.yml` cannot be read or parsed. */
  function EmptyConfig(): (c: Config)
    ensures c.http.Some?
    ensures c.http.value.routers == Some(map[])
    ensures c.http.value.services == Some(map[])
    ensures c.http.value.middlewares == Some(map[])
    ensures c.http.value.serversTransports.None?
  {
    Config(Some(Http(Some(map[]), Some(map[]), Some(map[]), None)))
  }

  /** `after` is `before` with `name` bound to `v` and every other key as it was. */
  ghost predicate UpdatedAt<V>(before: map<string, V>, after: map<string, V>, name: string, v: V) {
    && name in after && after[name] == v
    && forall k :: k != name ==> (k in after <==> k in before) && (k in after ==> after[k] == before[k])
  }

  /** `after` is `before` without `name` and every other key as it was. */
  ghost predicate RemovedAt<V>(before: map<string, V>, after: map<string, V>, name: string) {
    && name !in after
    && forall k :: k != name ==> (k in after <==> k in before) && (k in after ==> after[k] == before[k])
  }

  /** The body of the combined create request; the combined form sends the
      same shape. */
  datatype RouterServicePayload = RouterServicePayload(
    routerName: string,
    serviceName: string,
    router: Router,
    service: Service)
}
