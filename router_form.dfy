/** The router edit form: router to form values when a router is opened,
    form values to router on submit. */
module RouterForm {
  import opened Document
  import opened FormValues

  /** The form's values; the `{value}` wrappers of the field-array rows are
      left out. */
  datatype RouterFormData = RouterFormData(
    name: string,
    entryPoints: seq<string>,
    rule: string,
    service: string,
    tlsEnabled: bool,
    certResolver: string,
    middlewares: seq<string>)

  /** `!!tls`: absent and `false` are falsy, `true` and every object truthy. */
  predicate TlsTruthy(t: Option<Tls>): (b: bool)
    ensures b <==> t.Some? && t != Some(TlsFlag(false))
  {
    match t
    case None => false
    case Some(TlsFlag(b)) => b
    case Some(TlsOptions(_)) => true
  }

  /** `tlsConfig?.certResolver || ''`, where `tlsConfig` is the object form only. */
  function CertResolverOf(t: Option<Tls>): (r: string)
    ensures r != "" <==>
      (t.Some? && t.value.TlsOptions? && t.value.certResolver.Some? && t.value.certResolver.value != "")
    ensures r != "" ==> t.value.certResolver.value == r
  {
    match t
    case Some(TlsOptions(cr)) => OrDefault(cr, "")
    case _ => ""
  }

  /** The router shown when a router is opened for editing. */
  function RouterToForm(name: string, r: Router): (f: RouterFormData)
    ensures f.name == name && f.entryPoints == r.entryPoints && f.rule == r.rule && f.service == r.service
    ensures f.tlsEnabled <==> r.tls.Some? && r.tls != Some(TlsFlag(false))
    ensures f.certResolver != "" <==>
      (r.tls.Some? && r.tls.value.TlsOptions? && r.tls.value.certResolver.Some? && r.tls.value.certResolver.value != "")
    ensures f.certResolver != "" ==> r.tls.value.certResolver.value == f.certResolver
    ensures r.middlewares.Some? ==> f.middlewares == r.middlewares.value
    ensures r.middlewares.None? ==> f.middlewares == []
  {
    RouterFormData(
      name, r.entryPoints, r.rule, r.service,
      TlsTruthy(r.tls), CertResolverOf(r.tls), r.middlewares.GetOr([]))
  }

  /** The three-way TLS encoding: disabled gives no `tls`, a resolver gives
      the object form, no resolver gives `true`. Reading the result back
      gives the same switch and the resolver (empty when disabled). */
  function TlsFromForm(enabled: bool, certResolver: string): (t: Option<Tls>)
    ensures t.None? <==> !enabled
    ensures TlsTruthy(t) == enabled
    ensures CertResolverOf(t) == if enabled then certResolver else ""
    ensures t.Some? && t.value.TlsOptions? ==> t.value.certResolver == Some(certResolver) && certResolver != ""
  {
    if enabled then
      if certResolver != "" then Some(TlsOptions(Some(certResolver))) else Some(TlsFlag(true))
    else None
  }

  /** The TLS values the form can produce. */
  predicate CanonicalTls(t: Option<Tls>) {
    match t
    case None => true
    case Some(TlsFlag(b)) => b
    case Some(TlsOptions(cr)) => cr.Some? && cr.value != ""
  }

  /** Routers the form can produce: no empty entry point, no empty or empty
      list of middlewares, and TLS absent, `true` or with a resolver. */
  predicate CanonicalRouter(r: Router) {
    && NoEmptyEntries(r.entryPoints)
    && CanonicalTls(r.tls)
    && (r.middlewares.Some? ==> r.middlewares.value != [] && NoEmptyEntries(r.middlewares.value))
  }

  /** The submit handler: filters both lists, encodes TLS, omits an empty
      middleware list, and saves under the name field. */
  function RouterFromForm(f: RouterFormData): (s: Saved<Router>)
    ensures s.name == f.name
    ensures CanonicalRouter(s.entity)
    ensures s.entity.rule == f.rule && s.entity.service == f.service
    ensures s.entity.entryPoints == NonEmpty(f.entryPoints)
    ensures s.entity.middlewares.Some? <==> NonEmpty(f.middlewares) != []
    ensures s.entity.middlewares.Some? ==> s.entity.middlewares.value == NonEmpty(f.middlewares)
    ensures s.entity.tls == TlsFromForm(f.tlsEnabled, f.certResolver)
  {
    NonEmptyMembers(f.entryPoints);
    NonEmptyMembers(f.middlewares);
    var middlewares := NonEmpty(f.middlewares);
    Saved(f.name, Router(
      NonEmpty(f.entryPoints), f.rule, f.service,
      TlsFromForm(f.tlsEnabled, f.certResolver),
      if |middlewares| > 0 then Some(middlewares) else None))
  }

  /** What a router becomes through the form, stated on routers alone: empty
      entries dropped, `false` dropped, an object without resolver turned
      into `true`, an empty middleware list dropped. */
  function Normalized(r: Router): Router {
    var middlewares := if r.middlewares.Some? then NonEmpty(r.middlewares.value) else [];
    r.(entryPoints := NonEmpty(r.entryPoints),
       tls := match r.tls
              case Some(TlsFlag(false)) => None
              case Some(TlsOptions(cr)) => if cr.Some? && cr.value != "" then r.tls else Some(TlsFlag(true))
              case _ => r.tls,
       middlewares := if middlewares == [] then None else Some(middlewares))
  }

  /** Opening a router and submitting the form unchanged saves its
      normalized form under the same name. */
  lemma RouterRoundTrip(name: string, r: Router)
    ensures RouterFromForm(RouterToForm(name, r)) == Saved(name, Normalized(r))
  {
  }

  /** Routers the form can produce are exactly those it reproduces. */
  lemma NormalizedFixesCanonical(r: Router)
    ensures Normalized(r) == r <==> CanonicalRouter(r)
  {
    if CanonicalRouter(r) {
      NonEmptyKeepsAll(r.entryPoints);
      if r.middlewares.Some? {
        NonEmptyKeepsAll(r.middlewares.value);
      }
    }
    if Normalized(r) == r {
      NonEmptyMembers(r.entryPoints);
      if r.middlewares.Some? {
        NonEmptyMembers(r.middlewares.value);
      }
    }
  }

  /** The lossy cases: `tls: {}` comes back as `true`, `tls: false` and
      `middlewares: []` come back absent. */
  lemma LossyRoundTrips(name: string, r: Router)
    ensures r.tls == Some(TlsOptions(None)) ==> RouterFromForm(RouterToForm(name, r)).entity.tls == Some(TlsFlag(true))
    ensures r.tls == Some(TlsFlag(false)) ==> RouterFromForm(RouterToForm(name, r)).entity.tls.None?
    ensures r.middlewares == Some([]) ==> RouterFromForm(RouterToForm(name, r)).entity.middlewares.None?
  {
  }

  /** Submitting and reopening shows the filtered lists and, when TLS is
      off, an empty resolver; nothing else changes. */
  lemma FormRoundTrip(f: RouterFormData)
    ensures var s := RouterFromForm(f);
      RouterToForm(s.name, s.entity)
      == f.(entryPoints := NonEmpty(f.entryPoints),
            middlewares := NonEmpty(f.middlewares),
            certResolver := if f.tlsEnabled then f.certResolver else "")
  {
  }
}
