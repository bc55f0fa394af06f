/**
 * The parsed form of a sitemap: either a location not loaded yet, a list of
 * sitemaps (from robots.txt or a sitemap index), or a list of page entries.
 * A sitemap is immutable once built.
 */
module Sitemaps {
  import opened Wrappers
  import opened Text
  import opened Web

  datatype SitemapType = NotLoaded | RobotsTxt | Index | Items

  /** The change frequencies of the sitemaps.org protocol. */
  datatype ChangeFrequency = Always | Hourly | Daily | Weekly | Monthly | Yearly | Never

  /**
    * An IEEE 754 `double` as far as a priority needs it: a finite value, an
    * infinity, or NaN. Rounding and the sign of zero are not modelled.
    */
  datatype Double = Finite(value: real) | PositiveInfinity | NegativeInfinity | NaN

  /** `a <= b` on doubles that are not NaN. */
  predicate AtMost(a: Double, b: Double)
    requires !a.NaN? && !b.NaN?
  {
    a.NegativeInfinity? || b.PositiveInfinity? || (a.Finite? && b.Finite? && a.value <= b.value)
  }

  /** `Math.Max`: NaN when either argument is NaN, otherwise the larger. */
  function Max(a: Double, b: Double): (r: Double)
    ensures r.NaN? <==> a.NaN? || b.NaN?
    ensures !r.NaN? ==> AtMost(a, r) && AtMost(b, r) && (r == a || r == b)
  {
    if a.NaN? || b.NaN? then NaN else if AtMost(a, b) then b else a
  }

  /** `Math.Min`: NaN when either argument is NaN, otherwise the smaller. */
  function Min(a: Double, b: Double): (r: Double)
    ensures r.NaN? <==> a.NaN? || b.NaN?
    ensures !r.NaN? ==> AtMost(r, a) && AtMost(r, b) && (r == a || r == b)
  {
    if a.NaN? || b.NaN? then NaN else if AtMost(a, b) then a else b
  }

  /** One page entry; dates are instants on a linear time scale (`DateTime` ticks). */
  datatype SitemapItem = SitemapItem(
    location: Uri,
    lastModified: Option<int>,
    changeFrequency: Option<ChangeFrequency>,
    priority: Option<Double>)

  datatype Sitemap = Sitemap(
    location: Option<Uri>,
    sitemapType: SitemapType,
    sitemaps: seq<Sitemap>,
    items: seq<SitemapItem>,
    lastModified: Option<int>)
  {
    predicate IsLoaded()
    {
      sitemapType != NotLoaded
    }
  }

  /** The only failure of the constructors: a required argument is null. */
  datatype ArgumentNull = ArgumentNull(paramName: string)

  /** A location only, to be loaded later. */
  function NewLocation(location: Option<Uri>, lastModified: Option<int>): (r: Result<Sitemap, ArgumentNull>)
    ensures r.Failure? <==> location.None?
    ensures r.Success? ==> r.value.location == location && r.value.lastModified == lastModified
                           && r.value.sitemapType == NotLoaded && !r.value.IsLoaded()
                           && r.value.sitemaps == [] && r.value.items == []
  {
    if location.None? then Failure(ArgumentNull("sitemapLocation"))
    else Success(Sitemap(location, NotLoaded, [], [], lastModified))
  }

  /** The location names a robots.txt file. */
  predicate IsRobotsLocation(location: Option<Uri>)
  {
    location.Some? && StartsWithIgnoreCase(location.value.localPath, "/robots.txt")
  }

  /** A list of sitemaps: the sitemaps named in robots.txt when the location is one, a sitemap index otherwise. */
  function NewSitemapList(sitemaps: Option<seq<Sitemap>>, location: Option<Uri>, lastModified: Option<int>)
    : (r: Result<Sitemap, ArgumentNull>)
    ensures r.Failure? <==> sitemaps.None?
    ensures r.Success? ==> r.value.sitemaps == sitemaps.value && r.value.items == []
                           && r.value.location == location && r.value.lastModified == lastModified
    ensures r.Success? ==> r.value.IsLoaded() && (r.value.sitemapType == RobotsTxt <==> IsRobotsLocation(location))
                           && (r.value.sitemapType == Index <==> !IsRobotsLocation(location))
  {
    if sitemaps.None? then Failure(ArgumentNull("sitemaps"))
    else
      var kind := if IsRobotsLocation(location) then RobotsTxt else Index;
      Success(Sitemap(location, kind, sitemaps.value, [], lastModified))
  }

  /** A list of page entries. */
  function NewItemList(items: Option<seq<SitemapItem>>, location: Option<Uri>, lastModified: Option<int>)
    : (r: Result<Sitemap, ArgumentNull>)
    ensures r.Failure? <==> items.None?
    ensures r.Success? ==> r.value.items == items.value && r.value.sitemaps == []
                           && r.value.location == location && r.value.lastModified == lastModified
                           && r.value.sitemapType == Items && r.value.IsLoaded()
  {
    if items.None? then Failure(ArgumentNull("items"))
    else Success(Sitemap(location, Items, [], items.value, lastModified))
  }

  /** The robots check ignores letter case, and needs a location. */
  lemma RobotsLocationExamples(u: Uri)
    ensures !IsRobotsLocation(None)
    ensures u.localPath == "/ROBOTS.TXT" ==> IsRobotsLocation(Some(u))
    ensures u.localPath == "/sitemap.xml" ==> !IsRobotsLocation(Some(u))
  {
    if u.localPath == "/ROBOTS.TXT" {
      assert u.localPath[..11] == "/ROBOTS.TXT";
      assert forall i :: 0 <= i < 11 ==> Fold(u.localPath[..11][i]) == Fold("/robots.txt"[i]);
    } else if u.localPath == "/sitemap.xml" {
      assert Fold(u.localPath[..11][1]) != Fold("/robots.txt"[1]);
    }
  }
}
