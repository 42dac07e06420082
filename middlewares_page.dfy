/** The middleware list page: the type label, the one-line description and
    the tag colour shown for each middleware. Each is its own if-chain over
    the four variants, as on the page; `KindOf` is the priority they share. */
module MiddlewaresPage {
  import opened Document
  import opened FormValues
  import MiddlewareForm

  /** The variant a middleware is shown as: the first populated one in the
      order errors, rate limit, headers, redirect. */
  datatype Kind = ErrorsKind | RateLimitKind | HeadersKind | RedirectRegexKind | UnknownKind

  function KindOf(m: Middleware): (k: Kind)
    ensures k == UnknownKind <==> VariantCount(m) == 0
    ensures k == ErrorsKind <==> m.errors.Some?
  {
    if m.errors.Some? then ErrorsKind
    else if m.rateLimit.Some? then RateLimitKind
    else if m.headers.Some? then HeadersKind
    else if m.redirectRegex.Some? then RedirectRegexKind
    else UnknownKind
  }

  function MiddlewareTypeLabel(m: Middleware): (name: string)
    ensures name == "Unknown" <==> VariantCount(m) == 0
    ensures name == "Error Pages" <==> m.errors.Some?
    ensures name in {"Error Pages", "Rate Limit", "Headers", "Redirect Regex", "Unknown"}
  {
    if m.errors.Some? then "Error Pages"
    else if m.rateLimit.Some? then "Rate Limit"
    else if m.headers.Some? then "Headers"
    else if m.redirectRegex.Some? then "Redirect Regex"
    else "Unknown"
  }

  function TypeTagColor(m: Middleware): (color: string)
    ensures color == "tag-blue" <==> m.errors.Some? || VariantCount(m) == 0
    ensures color in {"tag-blue", "tag-yellow", "tag-purple", "tag-teal"}
  {
    if m.errors.Some? then "tag-blue"
    else if m.rateLimit.Some? then "tag-yellow"
    else if m.headers.Some? then "tag-purple"
    else if m.redirectRegex.Some? then "tag-teal"
    else "tag-blue"
  }

  function LabelOf(k: Kind): string {
    match k
    case ErrorsKind => "Error Pages"
    case RateLimitKind => "Rate Limit"
    case HeadersKind => "Headers"
    case RedirectRegexKind => "Redirect Regex"
    case UnknownKind => "Unknown"
  }

  function ColorOf(k: Kind): string {
    match k
    case ErrorsKind => "tag-blue"
    case RateLimitKind => "tag-yellow"
    case HeadersKind => "tag-purple"
    case RedirectRegexKind => "tag-teal"
    case UnknownKind => "tag-blue"
  }

  /** The label and the colour come from the same branch: the one `KindOf`
      picks. The label tells the kind apart; the colour does so except that
      unknown middlewares share the errors colour. */
  lemma LabelAndColorAgree(m: Middleware)
    ensures MiddlewareTypeLabel(m) == LabelOf(KindOf(m))
    ensures TypeTagColor(m) == ColorOf(KindOf(m))
    ensures forall k :: LabelOf(k) == MiddlewareTypeLabel(m) <==> k == KindOf(m)
    ensures forall k :: ColorOf(k) == TypeTagColor(m) <==>
      k == KindOf(m) || {k, KindOf(m)} == {ErrorsKind, UnknownKind}
  {
  }

  /** Two middlewares get the same label exactly when they are shown as the
      same kind. */
  lemma LabelIdentifiesKind(m1: Middleware, m2: Middleware)
    ensures MiddlewareTypeLabel(m1) == MiddlewareTypeLabel(m2) <==> KindOf(m1) == KindOf(m2)
  {
    LabelAndColorAgree(m1);
    LabelAndColorAgree(m2);
  }

  /** The page labels a middleware with the variant the edit form opens on. */
  lemma LabelMatchesFormType(m: Middleware)
    ensures MiddlewareForm.SelectedType(m).None? <==> MiddlewareTypeLabel(m) == "Unknown"
    ensures MiddlewareForm.SelectedType(m) == Some(MiddlewareForm.ErrorsType) <==> MiddlewareTypeLabel(m) == "Error Pages"
    ensures MiddlewareForm.SelectedType(m) == Some(MiddlewareForm.RateLimitType) <==> MiddlewareTypeLabel(m) == "Rate Limit"
    ensures MiddlewareForm.SelectedType(m) == Some(MiddlewareForm.HeadersType) <==> MiddlewareTypeLabel(m) == "Headers"
    ensures MiddlewareForm.SelectedType(m) == Some(MiddlewareForm.RedirectRegexType) <==> MiddlewareTypeLabel(m) == "Redirect Regex"
  {
  }

  /** `list.join(sep)`: it opens with the first element and closes with the
      last. */
  function Join(ss: seq<string>, sep: string): (r: string)
    ensures ss == [] ==> r == ""
    ensures ss != [] ==> |ss[0]| <= |r| && r[..|ss[0]|] == ss[0]
    ensures ss != [] ==> |ss[|ss| - 1]| <= |r| && r[|r| - |ss[|ss| - 1]|..] == ss[|ss| - 1]
  {
    if ss == [] then ""
    else if |ss| == 1 then ss[0]
    else ss[0] + sep + Join(ss[1..], sep)
  }

  function TotalLength(ss: seq<string>): nat {
    if ss == [] then 0 else |ss[0]| + TotalLength(ss[1..])
  }

  /** A join holds every element and one separator between each two. */
  lemma {:induction false} JoinLength(ss: seq<string>, sep: string)
    ensures |Join(ss, sep)| == TotalLength(ss) + (if ss == [] then 0 else (|ss| - 1) * |sep|)
  {
    if |ss| > 1 {
      JoinLength(ss[1..], sep);
    }
  }

  /** Joining two non-empty lists puts one separator between the parts. */
  lemma {:induction false} JoinAppend(a: seq<string>, b: seq<string>, sep: string)
    requires a != [] && b != []
    ensures Join(a + b, sep) == Join(a, sep) + sep + Join(b, sep)
  {
    var ab := a + b;
    assert |ab| > 1 && ab[0] == a[0];
    if |a| == 1 {
      assert ab[1..] == b;
      assert Join(ab, sep) == a[0] + sep + Join(b, sep);
    } else {
      assert ab[1..] == a[1..] + b;
      JoinAppend(a[1..], b, sep);
      assert Join(ab, sep) == a[0] + sep + (Join(a[1..], sep) + sep + Join(b, sep));
      assert Join(a, sep) == a[0] + sep + Join(a[1..], sep);
      Regroup(a[0], sep, Join(a[1..], sep), sep, Join(b, sep));
    }
  }

  lemma Regroup(x: string, y: string, z: string, u: string, v: string)
    ensures x + y + (z + u + v) == (x + y + z) + u + v
  {
  }

  function DigitChar(d: nat): char
    requires d < 10
  {
    "0123456789"[d]
  }

  function DigitValue(c: char): int {
    (c as int) - ('0' as int)
  }

  /** The decimal digits of a natural number, without leading zeros. */
  function NatDigits(n: nat): (s: string)
    ensures |s| > 0
    ensures forall i :: 0 <= i < |s| ==> '0' <= s[i] <= '9'
    ensures |s| > 1 ==> s[0] != '0'
  {
    if n < 10 then [DigitChar(n)] else NatDigits(n / 10) + [DigitChar(n % 10)]
  }

  /** An integer in a template string: `-` then the digits when negative. */
  function Decimal(n: int): (s: string)
    ensures |s| > 0
    ensures n < 0 <==> s[0] == '-'
  {
    if n < 0 then "-" + NatDigits(-n) else NatDigits(n)
  }

  /** The value of a string of decimal digits. */
  function DigitsValue(s: string): int {
    if s == [] then 0 else DigitsValue(s[..|s| - 1]) * 10 + DigitValue(s[|s| - 1])
  }

  /** Reading a decimal number back. */
  function ParseDecimal(s: string): int {
    if s != [] && s[0] == '-' then -DigitsValue(s[1..]) else DigitsValue(s)
  }

  lemma {:induction false} NatDigitsValue(n: nat)
    ensures DigitsValue(NatDigits(n)) == n
  {
    if n >= 10 {
      NatDigitsValue(n / 10);
      var s := NatDigits(n);
      assert s[..|s| - 1] == NatDigits(n / 10);
    }
  }

  /** A leading minus sign is read as the negation of the digits after it. */
  lemma ParseNegative(digits: string)
    ensures ParseDecimal("-" + digits) == -DigitsValue(digits)
  {
    var s := "-" + digits;
    assert s[0] == '-' && s[1..] == digits;
  }

  /** A negative number is read back through its minus sign. */
  lemma NegativeRoundTrip(n: int)
    requires n < 0
    ensures ParseDecimal(Decimal(n)) == n
  {
    var m: nat := -n;
    var digits := NatDigits(m);
    assert Decimal(n) == "-" + digits;
    assert ParseDecimal("-" + digits) == n by {
      NatDigitsValue(m);
      ParseNegative(digits);
    }
  }

  /** A non-negative number is read back from its digits alone. */
  lemma NonNegativeRoundTrip(n: int)
    requires n >= 0
    ensures ParseDecimal(Decimal(n)) == n
  {
    var digits := NatDigits(n);
    assert Decimal(n) == digits;
    assert '0' <= digits[0] <= '9';
    NatDigitsValue(n);
  }

  /** The number shown is the number stored. */
  lemma DecimalRoundTrip(n: int)
    ensures ParseDecimal(Decimal(n)) == n
  {
    if n < 0 {
      NegativeRoundTrip(n);
    } else {
      NonNegativeRoundTrip(n);
    }
  }

  /** `Object.keys(record).length`, 0 for an absent record. It never exceeds
      the number of entries, and equals it when each key is kept once. */
  function KeyCount(d: Option<Dict>): (n: nat)
    ensures d.None? ==> n == 0
    ensures d.Some? ==> n <= |d.value|
    ensures d.Some? && DistinctKeys(d.value) ==> n == |d.value|
  {
    if d.Some? then
      KeySetBound(d.value);
      if DistinctKeys(d.value) then KeyCountOfDistinct(d.value); |KeySet(d.value)|
      else |KeySet(d.value)|
    else 0
  }

  /** A record has at most as many keys as entries. */
  lemma {:induction false} KeySetBound(d: Dict)
    ensures |KeySet(d)| <= |d|
  {
    if d != [] {
      KeySetCons(d);
      KeySetBound(d[1..]);
    }
  }

  /** A record that keeps each key once has as many keys as entries. */
  lemma {:induction false} KeyCountOfDistinct(d: Dict)
    requires DistinctKeys(d)
    ensures |KeySet(d)| == |d|
  {
    if d != [] {
      var rest := d[1..];
      assert forall i :: 0 <= i < |rest| ==> rest[i] == d[i + 1];
      assert DistinctKeys(rest);
      KeySetCons(d);
      KeyCountOfDistinct(rest);
      assert d[0].key !in KeySet(rest);
      assert KeySet(d) == {d[0].key} + KeySet(rest);
    }
  }

  const Arrow: string := " \U{00E2}\U{2020}\U{2019} "
  const UnknownDescription: string := "Custom middleware configuration"

  const ErrorsHead: string := "Error handling for status codes: "
  const RateLimitHead: string := "Rate limit: "
  const HeadersHead: string := "Custom headers: "
  const PermanentHead: string := "Redirect (permanent): "
  const TemporaryHead: string := "Redirect (temporary): "

  /** The errors template: its heading, then the codes with one `", "`
      between each two. */
  function ErrorsText(e: ErrorsConfig): (t: string)
    ensures StartsWith(t, ErrorsHead)
    ensures |t| == |ErrorsHead| + TotalLength(e.status) + (if e.status == [] then 0 else (|e.status| - 1) * 2)
  {
    StartsWithSelf(ErrorsHead, Join(e.status, ", "));
    JoinLength(e.status, ", ");
    ErrorsHead + Join(e.status, ", ")
  }

  /** The rate-limit template: its heading, the two numbers, a closing
      parenthesis. */
  function RateLimitText(r: RateLimitConfig): (t: string)
    ensures StartsWith(t, RateLimitHead)
    ensures t[|t| - 1] == ')'
  {
    var t := RateLimitHead + Decimal(r.average) + "/s (burst: " + Decimal(r.burst) + ")";
    StartsWithSelf(RateLimitHead, Decimal(r.average) + "/s (burst: " + Decimal(r.burst) + ")");
    assert t == RateLimitHead + (Decimal(r.average) + "/s (burst: " + Decimal(r.burst) + ")");
    t
  }

  /** The headers template: its heading, the two key counts, and the word
      `response` at the end. */
  function HeadersText(h: HeadersConfig): (t: string)
    ensures StartsWith(t, HeadersHead)
    ensures |t| >= 9 && t[|t| - 9..] == " response"
  {
    var req, res := Decimal(KeyCount(h.customRequestHeaders)), Decimal(KeyCount(h.customResponseHeaders));
    var t := HeadersHead + req + " request, " + res + " response";
    StartsWithSelf(HeadersHead, req + " request, " + res + " response");
    assert t == HeadersHead + (req + " request, " + res + " response");
    t
  }

  /** The redirect template: its heading names the mode, and it ends with
      the replacement. */
  function RedirectText(r: RedirectRegexConfig): (t: string)
    ensures StartsWith(t, if r.permanent then PermanentHead else TemporaryHead)
    ensures |r.replacement| <= |t| && t[|t| - |r.replacement|..] == r.replacement
  {
    var head := ModeHead(r.permanent);
    var t := head + r.regex + Arrow + r.replacement;
    StartsWithSelf(head, r.regex + Arrow + r.replacement);
    assert t == head + (r.regex + Arrow + r.replacement);
    EndsWithSelf(head + r.regex + Arrow, r.replacement);
    t
  }

  /** The redirect heading: `Redirect `, the mode in parentheses, `: `. */
  function ModeHead(permanent: bool): (h: string)
    ensures h == if permanent then PermanentHead else TemporaryHead
  {
    "Redirect " + (if permanent then "(permanent)" else "(temporary)") + ": "
  }

  lemma EndsWithSelf(a: string, b: string)
    ensures |b| <= |a + b| && (a + b)[|a + b| - |b|..] == b
  {
  }

  /** The description line: one template per variant, by the same priority
      as the label. */
  function MiddlewareDescription(m: Middleware): (d: string)
    ensures VariantCount(m) == 0 ==> d == UnknownDescription
    ensures d != ""
  {
    if m.errors.Some? then ErrorsText(m.errors.value)
    else if m.rateLimit.Some? then RateLimitText(m.rateLimit.value)
    else if m.headers.Some? then HeadersText(m.headers.value)
    else if m.redirectRegex.Some? then RedirectText(m.redirectRegex.value)
    else UnknownDescription
  }

  predicate StartsWith(s: string, prefix: string) {
    |prefix| <= |s| && s[..|prefix|] == prefix
  }

  lemma StartsWithAppend(a: string, b: string, p: string)
    requires StartsWith(a, p)
    ensures StartsWith(a + b, p)
  {
    assert (a + b)[..|p|] == a[..|p|];
  }

  lemma StartsWithSelf(a: string, b: string)
    ensures StartsWith(a + b, a)
  {
    assert (a + b)[..|a|] == a;
  }

  /** A string that starts with `head` starts with another prefix of the
      same length exactly when the two are equal. */
  lemma SamePrefix(d: string, head: string, p: string)
    requires StartsWith(d, head) && |p| == |head|
    ensures StartsWith(d, p) <==> p == head
  {
  }

  /** The errors description lists the status codes after its heading, and
      its length is that of the codes with a `", "` between each two. */
  lemma ErrorsDescription(m: Middleware)
    requires m.errors.Some?
    ensures var d := MiddlewareDescription(m);
      var heading := "Error handling for status codes: ";
      var status := m.errors.value.status;
      && StartsWith(d, heading)
      && d[|heading|..] == Join(status, ", ")
      && |d| == |heading| + TotalLength(status) + (if status == [] then 0 else (|status| - 1) * 2)
  {
    var status := m.errors.value.status;
    StartsWithSelf("Error handling for status codes: ", Join(status, ", "));
    JoinLength(status, ", ");
  }

  /** The headers description reports the key counts, 0 for an absent
      record; for records that keep each key once, their entry counts. */
  lemma HeadersDescription(m: Middleware)
    requires KindOf(m) == HeadersKind
    ensures var h := m.headers.value;
      MiddlewareDescription(m) == "Custom headers: " + Decimal(KeyCount(h.customRequestHeaders)) + " request, "
                                  + Decimal(KeyCount(h.customResponseHeaders)) + " response"
    ensures var h := m.headers.value;
      && (h.customRequestHeaders.None? ==> KeyCount(h.customRequestHeaders) == 0)
      && (h.customResponseHeaders.None? ==> KeyCount(h.customResponseHeaders) == 0)
      && (h.customRequestHeaders.Some? && DistinctKeys(h.customRequestHeaders.value) ==>
            KeyCount(h.customRequestHeaders) == |h.customRequestHeaders.value|)
      && (h.customResponseHeaders.Some? && DistinctKeys(h.customResponseHeaders.value) ==>
            KeyCount(h.customResponseHeaders) == |h.customResponseHeaders.value|)
  {
    var h := m.headers.value;
    if h.customRequestHeaders.Some? && DistinctKeys(h.customRequestHeaders.value) {
      KeyCountOfDistinct(h.customRequestHeaders.value);
    }
    if h.customResponseHeaders.Some? && DistinctKeys(h.customResponseHeaders.value) {
      KeyCountOfDistinct(h.customResponseHeaders.value);
    }
  }

  /** The rate-limit description shows both numbers, which read back as
      the stored values. */
  lemma RateLimitDescription(m: Middleware)
    requires KindOf(m) == RateLimitKind
    ensures var r := m.rateLimit.value;
      && MiddlewareDescription(m) == "Rate limit: " + Decimal(r.average) + "/s (burst: " + Decimal(r.burst) + ")"
      && ParseDecimal(Decimal(r.average)) == r.average && ParseDecimal(Decimal(r.burst)) == r.burst
  {
    DecimalRoundTrip(m.rateLimit.value.average);
    DecimalRoundTrip(m.rateLimit.value.burst);
  }

  /** The redirect description opens with `(permanent)` exactly for a
      permanent redirect and with `(temporary)` otherwise. */
  lemma RedirectDescribesMode(m: Middleware)
    requires KindOf(m) == RedirectRegexKind
    ensures StartsWith(MiddlewareDescription(m), PermanentHead) <==> m.redirectRegex.value.permanent
    ensures StartsWith(MiddlewareDescription(m), TemporaryHead) <==> !m.redirectRegex.value.permanent
  {
    var r := m.redirectRegex.value;
    var d := RedirectText(r);
    assert PermanentHead[10] != TemporaryHead[10];
    SamePrefix(d, if r.permanent then PermanentHead else TemporaryHead, PermanentHead);
    SamePrefix(d, if r.permanent then PermanentHead else TemporaryHead, TemporaryHead);
  }

  /** Three characters of the description that differ between kinds. */
  function Signature(k: Kind): string {
    match k
    case ErrorsKind => "Era"
    case RateLimitKind => "Rtm"
    case HeadersKind => "Csh"
    case RedirectRegexKind => "Rdt"
    case UnknownKind => "Csm"
  }

  /** The signature of a string that starts with a heading of more than
      eight characters is the heading's. */
  lemma HeadSignature(d: string, head: string)
    requires StartsWith(d, head) && |head| > 7
    ensures |d| > 7 && [d[0], d[2], d[7]] == [head[0], head[2], head[7]]
  {
    assert d[..|head|] == head;
  }

  lemma ErrorsSignature(e: ErrorsConfig)
    ensures var d := ErrorsText(e); |d| > 7 && [d[0], d[2], d[7]] == "Era"
  {
    HeadSignature(ErrorsText(e), ErrorsHead);
  }

  lemma RateLimitSignature(r: RateLimitConfig)
    ensures var d := RateLimitText(r); |d| > 7 && [d[0], d[2], d[7]] == "Rtm"
  {
    HeadSignature(RateLimitText(r), RateLimitHead);
  }

  lemma HeadersSignature(h: HeadersConfig)
    ensures var d := HeadersText(h); |d| > 7 && [d[0], d[2], d[7]] == "Csh"
  {
    HeadSignature(HeadersText(h), HeadersHead);
  }

  lemma RedirectSignature(r: RedirectRegexConfig)
    ensures var d := RedirectText(r); |d| > 7 && [d[0], d[2], d[7]] == "Rdt"
  {
    HeadSignature(RedirectText(r), if r.permanent then PermanentHead else TemporaryHead);
  }

  /** The first, third and eighth characters of a description tell its kind. */
  lemma DescriptionSignature(m: Middleware)
    ensures var d := MiddlewareDescription(m);
      |d| > 7 && [d[0], d[2], d[7]] == Signature(KindOf(m))
  {
    match KindOf(m)
    case ErrorsKind => ErrorsSignature(m.errors.value);
    case RateLimitKind => RateLimitSignature(m.rateLimit.value);
    case HeadersKind => HeadersSignature(m.headers.value);
    case RedirectRegexKind => RedirectSignature(m.redirectRegex.value);
    case UnknownKind =>
  }

  /** Middlewares shown as different kinds get different descriptions. */
  lemma DescriptionIdentifiesKind(m1: Middleware, m2: Middleware)
    requires KindOf(m1) != KindOf(m2)
    ensures MiddlewareDescription(m1) != MiddlewareDescription(m2)
  {
    DescriptionSignature(m1);
    DescriptionSignature(m2);
  }
}
