/**
 * Tenant resolution (billing-backend `ResolveTenant` middleware).
 *
 * The tenant slug is the trimmed `X-Tenant` header when it is non-empty,
 * otherwise the first label of the request host (three or more labels, or
 * two labels whose first is not `www`), otherwise `default`. The slug is
 * then normalised -- every character outside `a-z0-9-` becomes `-`, and
 * only afterwards is the result lower-cased, so an upper-case letter ends up
 * as `-` -- and the tenant with that slug (or none) is stored in the
 * request's `Tenancy` holder.
 */
module ResolveTenant {
  import opened Text
  import opened Support

  /** The slug the host names: its first dot-separated label when the host has the right shape, else empty. */
  function HostSlug(host: string): string {
    var parts := Explode(host, '.');
    if |parts| >= 3 then parts[0]
    else if |parts| == 2 && parts[0] != "www" then parts[0]
    else ""
  }

  /** The trimmed `X-Tenant` header, empty when it was not sent. */
  function HeaderSlug(header: Option<string>): string {
    Trim(header.GetOr(""), IsPhpSpace)
  }

  /** The slug before normalisation. */
  function RawSlug(header: Option<string>, host: string): string {
    ChooseSlug(HeaderSlug(header), HostSlug(host))
  }

  /** The trimmed header when non-empty, else the host's slug when non-empty, else `default`. */
  function ChooseSlug(fromHeader: string, fromHost: string): string {
    var slug := if fromHeader != "" then fromHeader else fromHost;
    if slug == "" then "default" else slug
  }

  predicate IsSlugChar(c: char) {
    ('a' <= c <= 'z') || ('0' <= c <= '9') || c == '-'
  }

  /** `preg_replace('/[^a-z0-9\-]/', '-', s)`: every character outside the slug alphabet becomes `-`. */
  function Sanitize(s: string): (r: string)
    ensures |r| == |s|
    ensures forall i :: 0 <= i < |s| ==> r[i] == if IsSlugChar(s[i]) then s[i] else '-'
  {
    if s == [] then [] else [if IsSlugChar(s[0]) then s[0] else '-'] + Sanitize(s[1..])
  }

  /** `strtolower(preg_replace(...))`: sanitise first, then lower-case. */
  function Normalize(s: string): string {
    LowerString(Sanitize(s))
  }

  /** The slug the middleware looks up. */
  function Slug(header: Option<string>, host: string): string {
    Normalize(RawSlug(header, host))
  }

  /** Normalisation keeps the length, keeps slug characters, turns every other character into `-`. */
  lemma NormalizeShape(s: string)
    ensures |Normalize(s)| == |s|
    ensures forall i :: 0 <= i < |s| ==> Normalize(s)[i] == if IsSlugChar(s[i]) then s[i] else '-'
    ensures forall i :: 0 <= i < |s| ==> IsSlugChar(Normalize(s)[i])
  {
    var t := Sanitize(s);
    forall i | 0 <= i < |s|
      ensures Normalize(s)[i] == t[i]
    {
      assert !('A' <= t[i] <= 'Z');
    }
  }

  /** A string made of slug characters is its own normal form. */
  lemma NormalizeFixesSlugs(s: string)
    requires forall i :: 0 <= i < |s| ==> IsSlugChar(s[i])
    ensures Normalize(s) == s
  {
    NormalizeShape(s);
  }

  /** Normalising twice is normalising once. */
  lemma NormalizeIdempotent(s: string)
    ensures Normalize(Normalize(s)) == Normalize(s)
  {
    NormalizeShape(s);
    NormalizeFixesSlugs(Normalize(s));
  }

  /** Upper-case letters are replaced before lower-casing could save them. */
  lemma NormalizeUpperCase()
    ensures Normalize("Acme") == "-cme"
  {
    NormalizeShape("Acme");
  }

  /** The final slug is never empty and uses only the slug alphabet. */
  lemma SlugShape(header: Option<string>, host: string)
    ensures |Slug(header, host)| > 0
    ensures forall i :: 0 <= i < |Slug(header, host)| ==> IsSlugChar(Slug(header, host)[i])
  {
    NormalizeShape(RawSlug(header, host));
  }

  /** A non-empty trimmed header decides the slug whatever the host. */
  lemma HeaderWins(header: Option<string>, host: string)
    requires HeaderSlug(header) != ""
    ensures RawSlug(header, host) == HeaderSlug(header)
  {
  }

  /** Without a usable header the host decides, with `default` when it names nothing. */
  lemma SlugFromHost(header: Option<string>, host: string)
    requires HeaderSlug(header) == ""
    ensures RawSlug(header, host) == if HostSlug(host) == "" then "default" else HostSlug(host)
  {
  }

  /** The fallback slug is already in normal form. */
  lemma DefaultIsNormal()
    ensures Normalize("default") == "default"
  {
    NormalizeFixesSlugs("default");
  }

  /** A host of two or more labels has a dot, and its first label is the text before the first dot. */
  lemma FirstLabel(host: string)
    requires |Explode(host, '.')| >= 2
    ensures var k := IndexOf(host, '.');
            k >= 0 && Explode(host, '.')[0] == host[..k]
  {
    if '.' !in host {
      ExplodeWithoutSep(host, '.');
    }
    ExplodeFirst(host, '.');
  }

  /** A host of three or more labels names its first label, the text before the first dot. */
  lemma LongHostSlug(host: string)
    requires |Explode(host, '.')| >= 3
    ensures var k := IndexOf(host, '.');
            k >= 0 && HostSlug(host) == host[..k]
  {
    FirstLabel(host);
  }

  /** A two-label host names its first label, unless that is exactly `www`. */
  lemma ShortHostSlug(host: string)
    requires |Explode(host, '.')| == 2
    ensures var k := IndexOf(host, '.');
            k >= 0 && HostSlug(host) == if host[..k] == "www" then "" else host[..k]
  {
    FirstLabel(host);
  }

  /** A host without a dot (`localhost`) names nothing. */
  lemma DotlessHostSlug(host: string)
    requires '.' !in host
    ensures HostSlug(host) == ""
  {
    ExplodeWithoutSep(host, '.');
  }

  /** Without a usable header, a host without a dot gives the tenant slug `default`. */
  lemma SingleLabelHostIsDefault(header: Option<string>, host: string)
    requires HeaderSlug(header) == ""
    requires '.' !in host
    ensures Slug(header, host) == "default"
  {
    assert RawSlug(header, host) == "default" by {
      DotlessHostSlug(host);
      SlugFromHost(header, host);
    }
    DefaultIsNormal();
  }

  /** `Tenant::where('slug', slug)->first()`: the first tenant with that slug, or none. */
  function Lookup(tenants: seq<Tenant>, slug: string): (r: Option<Tenant>)
    ensures r.None? <==> forall i :: 0 <= i < |tenants| ==> tenants[i].slug != slug
    ensures r.Some? ==> r.value in tenants && r.value.slug == slug
    ensures r.Some? ==> exists k :: 0 <= k < |tenants| && tenants[k] == r.value
                                    && forall j :: 0 <= j < k ==> tenants[j].slug != slug
  {
    if tenants == [] then None
    else if tenants[0].slug == slug then Some(tenants[0])
    else
      var r := Lookup(tenants[1..], slug);
      assert forall i :: 1 <= i < |tenants| ==> tenants[i] == tenants[1..][i - 1];
      if r.Some? then
        assert exists k :: 0 <= k < |tenants| && tenants[k] == r.value
                           && forall j :: 0 <= j < k ==> tenants[j].slug != slug by {
          var k' :| 0 <= k' < |tenants[1..]| && tenants[1..][k'] == r.value
                    && forall j :: 0 <= j < k' ==> tenants[1..][j].slug != slug;
          assert tenants[k' + 1] == r.value;
          assert forall j :: 0 <= j < k' + 1 ==> tenants[j].slug != slug by {
            forall j | 0 <= j < k' + 1 ensures tenants[j].slug != slug {
              if j > 0 { assert tenants[j] == tenants[1..][j - 1]; }
            }
          }
        }
        r
      else r
  }

  /**
   * `handle`: resolve the slug, look the tenant up in `tenants` (the rows of
   * the tenants table) and store the result, or none, in the holder before
   * the next handler runs.
   */
  method Handle(header: Option<string>, host: string, tenants: seq<Tenant>, tenancy: Tenancy)
    modifies tenancy
    ensures tenancy.current == Lookup(tenants, Slug(header, host))
    ensures tenancy.current.Some? ==> tenancy.current.value.slug == Slug(header, host)
  {
    var slug := Slug(header, host);
    var tenant := Lookup(tenants, slug);
    tenancy.Set(tenant);
  }
}
