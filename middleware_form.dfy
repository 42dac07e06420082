/** The middleware edit form: a middleware to form values when it is
    opened (the first populated variant wins), form values to a middleware
    of exactly the selected variant on submit. */
module MiddlewareForm {
  import opened Document
  import opened FormValues

  datatype MiddlewareType = ErrorsType | RateLimitType | HeadersType | RedirectRegexType

  /** The form's values. `kind` (the `type` field) is `None` when the form holds no type, as
      after opening a middleware with no populated variant. */
  datatype MiddlewareFormData = MiddlewareFormData(
    name: string,
    kind: Option<MiddlewareType>,
    errorQuery: string,
    errorService: string,
    errorStatus: seq<string>,
    rateLimitAverage: int,
    rateLimitBurst: int,
    requestHeaders: seq<KeyValue>,
    responseHeaders: seq<KeyValue>,
    redirectPermanent: bool,
    redirectRegex: string,
    redirectReplacement: string)

  /** The values one variant contributes to the form. */
  datatype VariantFields =
    | ErrorsFields(query: string, service: string, status: seq<string>)
    | RateLimitFields(average: int, burst: int)
    | HeadersFields(requestHeaders: seq<KeyValue>, responseHeaders: seq<KeyValue>)
    | RedirectRegexFields(permanent: bool, regex: string, replacement: string)

  /** The partial form record passed to `reset`: the name and, when some
      variant is populated, that variant's type and fields. */
  datatype FormPatch = FormPatch(name: string, variant: Option<VariantFields>)

  function TypeOf(v: VariantFields): MiddlewareType {
    match v
    case ErrorsFields(_, _, _) => ErrorsType
    case RateLimitFields(_, _) => RateLimitType
    case HeadersFields(_, _) => HeadersType
    case RedirectRegexFields(_, _, _) => RedirectRegexType
  }

  /** The variant the form opens on: errors, then rate limit, then headers,
      then redirect; `None` when none is populated. */
  function SelectedType(m: Middleware): (t: Option<MiddlewareType>)
    ensures t.None? <==> VariantCount(m) == 0
    ensures t == Some(ErrorsType) <==> m.errors.Some?
    ensures t == Some(RateLimitType) <==> m.errors.None? && m.rateLimit.Some?
    ensures t == Some(HeadersType) <==> m.errors.None? && m.rateLimit.None? && m.headers.Some?
    ensures t == Some(RedirectRegexType) <==>
      m.errors.None? && m.rateLimit.None? && m.headers.None? && m.redirectRegex.Some?
  {
    if m.errors.Some? then Some(ErrorsType)
    else if m.rateLimit.Some? then Some(RateLimitType)
    else if m.headers.Some? then Some(HeadersType)
    else if m.redirectRegex.Some? then Some(RedirectRegexType)
    else None
  }

  /** The form values for an opened middleware. */
  function MiddlewareToPatch(name: string, m: Middleware): (p: FormPatch)
    ensures p.name == name
    ensures p.variant.None? <==> SelectedType(m).None?
    ensures p.variant.Some? ==> Some(TypeOf(p.variant.value)) == SelectedType(m)
  {
    FormPatch(name,
      if m.errors.Some? then
        var e := m.errors.value;
        Some(ErrorsFields(e.query, e.service, e.status))
      else if m.rateLimit.Some? then
        Some(RateLimitFields(m.rateLimit.value.average, m.rateLimit.value.burst))
      else if m.headers.Some? then
        var h := m.headers.value;
        Some(HeadersFields(h.customRequestHeaders.GetOr([]), h.customResponseHeaders.GetOr([])))
      else if m.redirectRegex.Some? then
        var r := m.redirectRegex.value;
        Some(RedirectRegexFields(r.permanent, r.regex, r.replacement))
      else None)
  }

  /** `reset(patch)` over whatever the form held before: the patch's fields
      replace those values, the rest stay. */
  function ApplyPatch(p: FormPatch, base: MiddlewareFormData): (f: MiddlewareFormData)
    ensures f.name == p.name
    ensures p.variant.Some? ==> f.kind == Some(TypeOf(p.variant.value))
    ensures p.variant.None? ==> f == base.(name := p.name)
  {
    var f := base.(name := p.name);
    match p.variant
    case None => f
    case Some(ErrorsFields(q, s, st)) =>
      f.(kind := Some(ErrorsType), errorQuery := q, errorService := s, errorStatus := st)
    case Some(RateLimitFields(a, b)) =>
      f.(kind := Some(RateLimitType), rateLimitAverage := a, rateLimitBurst := b)
    case Some(HeadersFields(rq, rs)) =>
      f.(kind := Some(HeadersType), requestHeaders := rq, responseHeaders := rs)
    case Some(RedirectRegexFields(pm, rx, rp)) =>
      f.(kind := Some(RedirectRegexType), redirectPermanent := pm, redirectRegex := rx, redirectReplacement := rp)
  }

  /** A header record is set exactly when its list has rows; rows with an
      empty key or value are skipped, so it may be set and empty. */
  function HeadersFromRows(rows: seq<KeyValue>): (d: Option<Dict>)
    ensures d.Some? <==> |rows| > 0
    ensures d.Some? ==> d.value == HeaderRecord(rows)
  {
    if |rows| > 0 then Some(HeaderRecord(rows)) else None
  }

  /** The middleware the submit handler saves: exactly the variant the
      `type` field selects, or none when it selects none. */
  function MiddlewareOf(f: MiddlewareFormData): (m: Middleware)
    ensures VariantCount(m) == if f.kind.Some? then 1 else 0
    ensures SelectedType(m) == f.kind
    ensures m.errors.Some? ==> m.errors.value == ErrorsConfig(f.errorQuery, f.errorService, NonEmpty(f.errorStatus))
    ensures m.rateLimit.Some? ==> m.rateLimit.value == RateLimitConfig(f.rateLimitAverage, f.rateLimitBurst)
    ensures m.headers.Some? ==>
      m.headers.value == HeadersConfig(HeadersFromRows(f.requestHeaders), HeadersFromRows(f.responseHeaders))
    ensures m.redirectRegex.Some? ==>
      m.redirectRegex.value == RedirectRegexConfig(f.redirectPermanent, f.redirectRegex, f.redirectReplacement)
  {
    var none := Middleware(None, None, None, None);
    match f.kind
    case None => none
    case Some(ErrorsType) =>
      none.(errors := Some(ErrorsConfig(f.errorQuery, f.errorService, NonEmpty(f.errorStatus))))
    case Some(RateLimitType) =>
      none.(rateLimit := Some(RateLimitConfig(f.rateLimitAverage, f.rateLimitBurst)))
    case Some(HeadersType) =>
      none.(headers := Some(HeadersConfig(HeadersFromRows(f.requestHeaders), HeadersFromRows(f.responseHeaders))))
    case Some(RedirectRegexType) =>
      none.(redirectRegex := Some(RedirectRegexConfig(f.redirectPermanent, f.redirectRegex, f.redirectReplacement)))
  }

  /** The submit handler: fills a fresh middleware through the `type`
      switch, builds the header records row by row, and saves under the
      name field. */
  method SubmitMiddleware(f: MiddlewareFormData) returns (s: Saved<Middleware>)
    ensures s == Saved(f.name, MiddlewareOf(f))
  {
    var m := Middleware(None, None, None, None);
    match f.kind {
      case None =>
      case Some(ErrorsType) =>
        m := m.(errors := Some(ErrorsConfig(f.errorQuery, f.errorService, NonEmpty(f.errorStatus))));
      case Some(RateLimitType) =>
        m := m.(rateLimit := Some(RateLimitConfig(f.rateLimitAverage, f.rateLimitBurst)));
      case Some(HeadersType) =>
        var headers := HeadersConfig(None, None);
        if |f.requestHeaders| > 0 {
          var d := BuildHeaderRecord(f.requestHeaders);
          headers := headers.(customRequestHeaders := Some(d));
        }
        if |f.responseHeaders| > 0 {
          var d := BuildHeaderRecord(f.responseHeaders);
          headers := headers.(customResponseHeaders := Some(d));
        }
        m := m.(headers := Some(headers));
      case Some(RedirectRegexType) =>
        m := m.(redirectRegex := Some(RedirectRegexConfig(f.redirectPermanent, f.redirectRegex, f.redirectReplacement)));
    }
    s := Saved(f.name, m);
  }

  /** A record through the form: absent or empty comes back absent, and
      the entries with an empty key or value are dropped. */
  function NormalizedRecord(d: Option<Dict>): Option<Dict> {
    match d
    case None => None
    case Some(entries) => if entries == [] then None else Some(AssignedEntries(entries))
  }

  /** What a middleware with some variant becomes through the form, stated
      on middlewares alone: only the first populated variant is kept, empty
      status codes are dropped, header records as `NormalizedRecord`. */
  function Normalized(m: Middleware): Middleware {
    var none := Middleware(None, None, None, None);
    if m.errors.Some? then
      none.(errors := Some(m.errors.value.(status := NonEmpty(m.errors.value.status))))
    else if m.rateLimit.Some? then none.(rateLimit := m.rateLimit)
    else if m.headers.Some? then
      var h := m.headers.value;
      none.(headers := Some(HeadersConfig(NormalizedRecord(h.customRequestHeaders), NormalizedRecord(h.customResponseHeaders))))
    else none.(redirectRegex := m.redirectRegex)
  }

  /** Header records read from the document keep each key once. */
  predicate WellFormedHeaders(m: Middleware) {
    m.headers.Some? ==>
      && (m.headers.value.customRequestHeaders.Some? ==> DistinctKeys(m.headers.value.customRequestHeaders.value))
      && (m.headers.value.customResponseHeaders.Some? ==> DistinctKeys(m.headers.value.customResponseHeaders.value))
  }

  lemma RecordRoundTrip(d: Option<Dict>)
    requires d.Some? ==> DistinctKeys(d.value)
    ensures HeadersFromRows(d.GetOr([])) == NormalizedRecord(d)
  {
    if d.Some? && d.value != [] {
      HeaderRecordOfRecord(d.value);
    }
  }

  /** Opening a middleware with some variant and submitting the form
      unchanged saves its normalized form under the same name, whatever the
      form held before it was opened. */
  lemma MiddlewareRoundTrip(name: string, m: Middleware, base: MiddlewareFormData)
    requires VariantCount(m) > 0
    requires WellFormedHeaders(m)
    ensures var f := ApplyPatch(MiddlewareToPatch(name, m), base);
      f.name == name && MiddlewareOf(f) == Normalized(m)
  {
    if m.errors.None? && m.rateLimit.None? && m.headers.Some? {
      RecordRoundTrip(m.headers.value.customRequestHeaders);
      RecordRoundTrip(m.headers.value.customResponseHeaders);
    }
  }

  /** Records that come back unchanged: absent, or non-empty with no empty
      key or value. */
  predicate StableRecord(d: Option<Dict>) {
    d.Some? ==> d.value != [] && forall i :: 0 <= i < |d.value| ==> Assigned(d.value[i])
  }

  lemma StableRecordNormalized(d: Option<Dict>)
    requires StableRecord(d)
    ensures NormalizedRecord(d) == d
  {
  }

  /** A middleware with exactly one variant, no empty status code and
      stable header records is its own normalized form. */
  lemma NormalizedExact(m: Middleware)
    requires VariantCount(m) == 1
    requires m.errors.Some? ==> NoEmptyEntries(m.errors.value.status)
    requires m.headers.Some? ==>
      StableRecord(m.headers.value.customRequestHeaders) && StableRecord(m.headers.value.customResponseHeaders)
    ensures Normalized(m) == m
  {
    if m.errors.Some? {
      NonEmptyKeepsAll(m.errors.value.status);
    }
    if m.errors.None? && m.rateLimit.None? && m.headers.Some? {
      StableRecordNormalized(m.headers.value.customRequestHeaders);
      StableRecordNormalized(m.headers.value.customResponseHeaders);
    }
  }

  /** A middleware with exactly one variant, no empty status code and
      stable header records comes back unchanged. */
  lemma MiddlewareExactRoundTrip(name: string, m: Middleware, base: MiddlewareFormData)
    requires VariantCount(m) == 1
    requires WellFormedHeaders(m)
    requires m.errors.Some? ==> NoEmptyEntries(m.errors.value.status)
    requires m.headers.Some? ==>
      StableRecord(m.headers.value.customRequestHeaders) && StableRecord(m.headers.value.customResponseHeaders)
    ensures MiddlewareOf(ApplyPatch(MiddlewareToPatch(name, m), base)) == m
  {
    MiddlewareRoundTrip(name, m, base);
    NormalizedExact(m);
  }

  /** A middleware with no populated variant opens with only its name set. */
  lemma EmptyMiddlewareOpensWithName(name: string, m: Middleware, base: MiddlewareFormData)
    requires VariantCount(m) == 0
    ensures ApplyPatch(MiddlewareToPatch(name, m), base) == base.(name := name)
  {
  }

  /** A non-empty header list whose rows all miss a key or a value gives a
      record that is present and empty. */
  lemma PresentButEmptyRecord(rows: seq<KeyValue>)
    requires |rows| > 0
    requires forall j :: 0 <= j < |rows| ==> !Assigned(rows[j])
    ensures HeadersFromRows(rows) == Some([])
  {
    HeaderRecordNone(rows);
  }
}
