/**
 * Turning sitemap XML into a `Sitemap`. Namespaces are ignored: elements are
 * found by local name alone. The XML reader, URI construction and the date,
 * number and enumeration parsers are collaborators given as functions.
 */
module SitemapParsing {
  import opened Wrappers
  import opened Text
  import opened Web
  import opened Sitemaps

  datatype XName = XName(namespace: string, localName: string)

  /** An element with its name, its text value and its child elements in document order. */
  datatype XElement = XElement(name: XName, value: string, children: seq<XElement>)

  const SITEMAP_SCHEMA := "http://www.sitemaps.org/schemas/sitemap/0.9"
  const SITEMAP_INDEX_NAME := XName(SITEMAP_SCHEMA, "sitemapindex")
  const SITEMAP_NAME := XName(SITEMAP_SCHEMA, "sitemap")
  const URL_SET_NAME := XName(SITEMAP_SCHEMA, "urlset")
  const URL_NAME := XName(SITEMAP_SCHEMA, "url")
  const LOCATION_NAME := XName(SITEMAP_SCHEMA, "loc")
  const LAST_MODIFIED_NAME := XName(SITEMAP_SCHEMA, "lastmod")
  const CHANGE_FREQUENCY_NAME := XName(SITEMAP_SCHEMA, "changefreq")
  const PRIORITY_NAME := XName(SITEMAP_SCHEMA, "priority")

  /** The collaborators of the parser. */
  datatype ParserEnv = ParserEnv(
    parseXml: string -> Option<XElement>,             // `XElement.Parse`; None when it throws
    tryCreateAbsolute: string -> Option<Uri>,         // `Uri.TryCreate(s, UriKind.Absolute, ...)`
    tryCreateRelative: (Uri, string) -> Option<Uri>,  // `Uri.TryCreate(baseUri, s, ...)`
    parseDate: string -> Option<int>,                 // the exact formats, then `DateTime.TryParse`
    parseChangeFrequency: string -> Option<ChangeFrequency>,  // `Enum.TryParse(s, true, ...)`
    parseDouble: string -> Option<Double>)              // `double.TryParse`

  /** Why `Parse` throws. */
  datatype ParseError = MalformedXml | NullReference

  // ---------------------------------------------------------------------------
  // Namespace-blind lookups

  /** Local names compared ignoring letter case; the namespaces play no part. */
  predicate EqualsAnyNs(name: XName, compareName: XName)
  {
    EqualsIgnoreCase(name.localName, compareName.localName)
  }

  /** The elements of `elements` whose local name is exactly `localName`, in order. */
  function WithLocalName(elements: seq<XElement>, localName: string): (r: seq<XElement>)
    ensures |r| <= |elements|
    ensures forall e :: e in r <==> e in elements && e.name.localName == localName
    decreases |elements|
  {
    if elements == [] then []
    else (if elements[0].name.localName == localName then [elements[0]] else []) + WithLocalName(elements[1..], localName)
  }

  /** The child elements with the local name of `name`, in any namespace, compared with letter case. */
  function ElementsAnyNs(source: XElement, name: XName): (r: seq<XElement>)
    ensures forall e :: e in r <==> e in source.children && e.name.localName == name.localName
  {
    WithLocalName(source.children, name.localName)
  }

  /** The head of the matches is the first element with the name. */
  lemma {:induction false} WithLocalNameHead(elements: seq<XElement>, localName: string, i: nat)
    requires i < |elements| && elements[i].name.localName == localName
    requires forall j :: 0 <= j < i ==> elements[j].name.localName != localName
    ensures WithLocalName(elements, localName) != [] && WithLocalName(elements, localName)[0] == elements[i]
    decreases i
  {
    if i > 0 {
      WithLocalNameHead(elements[1..], localName, i - 1);
    }
  }

  /** `FirstOrDefault` of the matching children. */
  function ElementAnyNs(source: XElement, name: XName): (r: Option<XElement>)
    ensures r.None? <==> forall e :: e in source.children ==> e.name.localName != name.localName
    ensures r.Some? ==> r.value in source.children && r.value.name.localName == name.localName
  {
    var all := ElementsAnyNs(source, name);
    if all == [] then None else assert all[0] in all; Some(all[0])
  }

  /** A single-element lookup finds the first child with the name. */
  lemma ElementAnyNsFindsFirst(source: XElement, name: XName, i: nat)
    requires i < |source.children| && source.children[i].name.localName == name.localName
    requires forall j :: 0 <= j < i ==> source.children[j].name.localName != name.localName
    ensures ElementAnyNs(source, name) == Some(source.children[i])
  {
    WithLocalNameHead(source.children, name.localName, i);
  }

  /** `element?.Value` */
  function ValueOf(element: Option<XElement>): Option<string>
  {
    if element.Some? then Some(element.value.value) else None
  }

  // ---------------------------------------------------------------------------
  // Fields

  /** Resolves against the base when there is one, else requires an absolute URI. */
  function SafeUriParse(env: ParserEnv, baseUri: Option<Uri>, location: string): Option<Uri>
  {
    if baseUri.Some? then env.tryCreateRelative(baseUri.value, location) else env.tryCreateAbsolute(location)
  }

  /** A missing or blank date is no date; anything else is up to the date parser. */
  function SafeDateTimeParse(env: ParserEnv, date: Option<string>): Option<int>
  {
    if IsNullOrWhiteSpace(date) then None else env.parseDate(date.value)
  }

  /** `Math.Min(1.0, Math.Max(0.0, p))`: NaN stays NaN, everything else lands in [0, 1]. */
  function Clamp01(p: Double): (r: Double)
    ensures r.NaN? <==> p.NaN?
    ensures !r.NaN? ==> r.Finite? && 0.0 <= r.value <= 1.0
    ensures p.Finite? && 0.0 <= p.value <= 1.0 ==> r == p
    ensures p.NegativeInfinity? || (p.Finite? && p.value < 0.0) ==> r == Finite(0.0)
    ensures p.PositiveInfinity? || (p.Finite? && p.value > 1.0) ==> r == Finite(1.0)
  {
    Min(Finite(1.0), Max(Finite(0.0), p))
  }

  /** A sitemap named by an index entry: not loaded, with its location resolved; None when the location is empty or unresolvable. */
  function ParseSitemapFields(env: ParserEnv, baseUri: Option<Uri>, location: Option<string>, lastModified: Option<string>)
    : (r: Option<Sitemap>)
    ensures r.Some? <==> !IsNullOrEmpty(location) && SafeUriParse(env, baseUri, location.value).Some?
    ensures r.Some? ==> r.value == Sitemap(SafeUriParse(env, baseUri, location.value), NotLoaded, [], [],
                                           SafeDateTimeParse(env, lastModified))
  {
    if IsNullOrEmpty(location) then None
    else
      var parsedLocation := SafeUriParse(env, baseUri, location.value);
      if parsedLocation.None? then None
      else Some(NewLocation(parsedLocation, SafeDateTimeParse(env, lastModified)).value)
  }

  /** A page entry; None when the location is empty or unresolvable. A priority is clamped into [0, 1]. */
  function ParseSitemapItemFields(env: ParserEnv, baseUri: Option<Uri>, location: Option<string>, lastModified: Option<string>,
                                  changeFrequency: Option<string>, priority: Option<string>)
    : (r: Option<SitemapItem>)
    ensures r.Some? <==> !IsNullOrEmpty(location) && SafeUriParse(env, baseUri, location.value).Some?
    ensures r.Some? ==> r.value.location == SafeUriParse(env, baseUri, location.value).value
                        && r.value.lastModified == SafeDateTimeParse(env, lastModified)
    ensures r.Some? && r.value.priority.Some? && !r.value.priority.value.NaN? ==>
              r.value.priority.value.Finite? && 0.0 <= r.value.priority.value.value <= 1.0
    ensures r.Some? && priority.Some? ==> (r.value.priority == Some(NaN) <==> env.parseDouble(priority.value) == Some(NaN))
    ensures r.Some? ==> (r.value.priority.None? <==> priority.None? || env.parseDouble(priority.value).None?)
    ensures r.Some? ==> (r.value.changeFrequency.None? <==> changeFrequency.None? || env.parseChangeFrequency(changeFrequency.value).None?)
    ensures r.Some? ==> r.value.priority == (if priority.Some? && env.parseDouble(priority.value).Some?
                                             then Some(Clamp01(env.parseDouble(priority.value).value)) else None)
    ensures r.Some? ==> r.value.changeFrequency == (if changeFrequency.Some? then env.parseChangeFrequency(changeFrequency.value) else None)
  {
    if IsNullOrEmpty(location) then None
    else
      var parsedLocation := SafeUriParse(env, baseUri, location.value);
      if parsedLocation.None? then None
      else
        var parsedChangeFrequency := if changeFrequency.Some? then env.parseChangeFrequency(changeFrequency.value) else None;
        var triedPriority := if priority.Some? then env.parseDouble(priority.value) else None;
        var parsedPriority := if triedPriority.Some? then Some(Clamp01(triedPriority.value)) else None;
        Some(SitemapItem(parsedLocation.value, SafeDateTimeParse(env, lastModified), parsedChangeFrequency, parsedPriority))
  }

  // ---------------------------------------------------------------------------
  // Latest modification date

  /** The dates that are present, in order. */
  function PresentDates(dates: seq<Option<int>>): (r: seq<int>)
    ensures forall d :: d in r <==> Some(d) in dates
    decreases |dates|
  {
    if dates == [] then []
    else
      var last := dates[|dates| - 1];
      assert forall o :: o in dates <==> o in dates[..|dates| - 1] || o == last;
      PresentDates(dates[..|dates| - 1]) + (if last.Some? then [last.value] else [])
  }

  /** The largest element of a non-empty list. */
  function MaxOf(list: seq<int>): (r: int)
    requires list != []
    ensures r in list && forall x :: x in list ==> x <= r
    decreases |list|
  {
    if |list| == 1 then list[0]
    else
      var front := list[..|list| - 1];
      assert forall x :: x in list <==> x in front || x == list[|list| - 1];
      var m := MaxOf(front);
      if m < list[|list| - 1] then list[|list| - 1] else m
  }

  /** The latest date present, if any. */
  function MaxDate(dates: seq<Option<int>>): (r: Option<int>)
    ensures r.None? <==> forall d :: d in dates ==> d.None?
    ensures r.Some? ==> Some(r.value) in dates && forall d :: d in dates && d.Some? ==> d.value <= r.value
  {
    var present := PresentDates(dates);
    if present == [] then None
    else
      assert forall d :: d in dates && d.Some? ==> d.value in present;
      Some(MaxOf(present))
  }

  /** `SafeMaxDate`: the present dates, then a scan keeping the largest. */
  method SafeMaxDate(dates: seq<Option<int>>) returns (r: Option<int>)
    ensures r == MaxDate(dates)
  {
    var dateList := PresentDates(dates);
    if |dateList| == 0 {
      return None;
    }
    var maxDate := dateList[0];
    for i := 1 to |dateList|
      invariant maxDate == MaxOf(dateList[..i])
    {
      assert dateList[..i + 1][..i] == dateList[..i];
      if maxDate < dateList[i] {
        maxDate := dateList[i];
      }
    }
    assert dateList[..|dateList|] == dateList;
    r := Some(maxDate);
  }

  // ---------------------------------------------------------------------------
  // Index sitemaps

  /** One `<sitemap>` element: skipped (None) when its `loc` is missing or blank, or when the location does not parse. */
  function IndexEntry(env: ParserEnv, baseUri: Option<Uri>, element: XElement): (r: Option<Sitemap>)
    ensures IsNullOrWhiteSpace(ValueOf(ElementAnyNs(element, LOCATION_NAME))) ==> r.None?
    ensures !IsNullOrWhiteSpace(ValueOf(ElementAnyNs(element, LOCATION_NAME))) ==>
              r == ParseSitemapFields(env, baseUri, ValueOf(ElementAnyNs(element, LOCATION_NAME)),
                                      ValueOf(ElementAnyNs(element, LAST_MODIFIED_NAME)))
    ensures r.Some? <==> !IsNullOrWhiteSpace(ValueOf(ElementAnyNs(element, LOCATION_NAME)))
                         && SafeUriParse(env, baseUri, ValueOf(ElementAnyNs(element, LOCATION_NAME)).value).Some?
    ensures r.Some? ==> r.value.location.Some? && r.value.sitemapType == NotLoaded
  {
    var locElement := ElementAnyNs(element, LOCATION_NAME);
    if IsNullOrWhiteSpace(ValueOf(locElement)) then None
    else
      var lastmodElement := ElementAnyNs(element, LAST_MODIFIED_NAME);
      ParseSitemapFields(env, baseUri, ValueOf(locElement), ValueOf(lastmodElement))
  }

  /** The sitemaps an index lists, in order. */
  function IndexSitemaps(env: ParserEnv, baseUri: Option<Uri>, elements: seq<XElement>): (r: seq<Sitemap>)
    ensures |r| <= |elements|
    ensures forall s :: s in r ==> s.location.Some? && s.sitemapType == NotLoaded
    decreases |elements|
  {
    if elements == [] then []
    else
      var entry := IndexEntry(env, baseUri, elements[|elements| - 1]);
      IndexSitemaps(env, baseUri, elements[..|elements| - 1]) + (if entry.Some? then [entry.value] else [])
  }

  /** Every listed sitemap is the entry of some `<sitemap>` element. */
  lemma {:induction false} IndexSitemapsFrom(env: ParserEnv, baseUri: Option<Uri>, elements: seq<XElement>, s: Sitemap)
    requires s in IndexSitemaps(env, baseUri, elements)
    ensures exists k :: 0 <= k < |elements| && IndexEntry(env, baseUri, elements[k]) == Some(s)
    decreases |elements|
  {
    var front := elements[..|elements| - 1];
    var entry := IndexEntry(env, baseUri, elements[|elements| - 1]);
    assert IndexSitemaps(env, baseUri, elements)
           == IndexSitemaps(env, baseUri, front) + (if entry.Some? then [entry.value] else []);
    if s in IndexSitemaps(env, baseUri, front) {
      IndexSitemapsFrom(env, baseUri, front, s);
      var k :| 0 <= k < |front| && IndexEntry(env, baseUri, front[k]) == Some(s);
      assert front[k] == elements[k];
    } else {
      assert entry == Some(s);
    }
  }

  /** The entry of every `<sitemap>` element that yields one is listed. */
  lemma {:induction false} IndexSitemapsHas(env: ParserEnv, baseUri: Option<Uri>, elements: seq<XElement>, k: nat)
    requires k < |elements| && IndexEntry(env, baseUri, elements[k]).Some?
    ensures IndexEntry(env, baseUri, elements[k]).value in IndexSitemaps(env, baseUri, elements)
    decreases |elements|
  {
    var front := elements[..|elements| - 1];
    var entry := IndexEntry(env, baseUri, elements[|elements| - 1]);
    assert IndexSitemaps(env, baseUri, elements)
           == IndexSitemaps(env, baseUri, front) + (if entry.Some? then [entry.value] else []);
    if k < |elements| - 1 {
      assert front[k] == elements[k];
      IndexSitemapsHas(env, baseUri, front, k);
    }
  }

  /** One more `<sitemap>` element adds its entry, if any, at the end. */
  lemma IndexStep(env: ParserEnv, baseUri: Option<Uri>, elements: seq<XElement>, i: nat, entry: Option<Sitemap>)
    requires i < |elements| && entry == IndexEntry(env, baseUri, elements[i])
    ensures IndexSitemaps(env, baseUri, elements[..i + 1])
            == IndexSitemaps(env, baseUri, elements[..i]) + (if entry.Some? then [entry.value] else [])
  {
    var prefix := elements[..i + 1];
    assert prefix[..i] == elements[..i] && prefix[i] == elements[i];
  }

  /** `x => x.LastModified` over a list of sitemaps. */
  function SitemapDates(sitemaps: seq<Sitemap>): (r: seq<Option<int>>)
    ensures |r| == |sitemaps| && forall i :: 0 <= i < |r| ==> r[i] == sitemaps[i].lastModified
  {
    seq(|sitemaps|, i requires 0 <= i < |sitemaps| => sitemaps[i].lastModified)
  }

  /** What `ParseIndexSitemap` returns. */
  function IndexSitemap(env: ParserEnv, root: XElement, location: Option<Uri>): (r: Sitemap)
    ensures r.sitemapType == (if IsRobotsLocation(location) then RobotsTxt else Index)
    ensures r.items == [] && r.location == location
    ensures r.sitemaps == IndexSitemaps(env, location, ElementsAnyNs(root, SITEMAP_NAME))
    ensures r.lastModified == MaxDate(SitemapDates(r.sitemaps))
  {
    var sitemaps := IndexSitemaps(env, location, ElementsAnyNs(root, SITEMAP_NAME));
    NewSitemapList(Some(sitemaps), location, MaxDate(SitemapDates(sitemaps))).value
  }

  method ParseIndexSitemap(env: ParserEnv, root: XElement, location: Option<Uri>) returns (r: Sitemap)
    ensures r == IndexSitemap(env, root, location)
  {
    var elements := ElementsAnyNs(root, SITEMAP_NAME);
    var sitemaps: seq<Sitemap> := [];
    for i := 0 to |elements|
      invariant sitemaps == IndexSitemaps(env, location, elements[..i])
    {
      var sitemap := IndexEntry(env, location, elements[i]);
      IndexStep(env, location, elements, i, sitemap);
      if sitemap.Some? {
        sitemaps := sitemaps + [sitemap.value];
      }
    }
    assert elements[..|elements|] == elements;
    var lastModified := SafeMaxDate(SitemapDates(sitemaps));
    r := NewSitemapList(Some(sitemaps), location, lastModified).value;
  }

  // ---------------------------------------------------------------------------
  // Item sitemaps

  /**
   * One `<url>` element: skipped (None) when its `loc` is missing or blank;
   * otherwise the parsed item, which is null (`Some(None)`) when the
   * location does not parse.
   */
  function ItemEntry(env: ParserEnv, baseUri: Option<Uri>, element: XElement): (r: Option<Option<SitemapItem>>)
    ensures r.None? <==> IsNullOrWhiteSpace(ValueOf(ElementAnyNs(element, LOCATION_NAME)))
    ensures r.Some? ==>
              r.value == ParseSitemapItemFields(env, baseUri, ValueOf(ElementAnyNs(element, LOCATION_NAME)),
                                                ValueOf(ElementAnyNs(element, LAST_MODIFIED_NAME)),
                                                ValueOf(ElementAnyNs(element, CHANGE_FREQUENCY_NAME)),
                                                ValueOf(ElementAnyNs(element, PRIORITY_NAME)))
    ensures r == Some(None) <==> !IsNullOrWhiteSpace(ValueOf(ElementAnyNs(element, LOCATION_NAME)))
                                 && SafeUriParse(env, baseUri, ValueOf(ElementAnyNs(element, LOCATION_NAME)).value).None?
  {
    var locElement := ElementAnyNs(element, LOCATION_NAME);
    if IsNullOrWhiteSpace(ValueOf(locElement)) then None
    else
      var lastmodElement := ElementAnyNs(element, LAST_MODIFIED_NAME);
      var changefreqElement := ElementAnyNs(element, CHANGE_FREQUENCY_NAME);
      var priorityElement := ElementAnyNs(element, PRIORITY_NAME);
      Some(ParseSitemapItemFields(env, baseUri, ValueOf(locElement), ValueOf(lastmodElement),
                                  ValueOf(changefreqElement), ValueOf(priorityElement)))
  }

  /** The list `ParseSitemapItems` builds as written: every entry with a `loc`, nulls included. */
  function ItemListAsWritten(env: ParserEnv, baseUri: Option<Uri>, elements: seq<XElement>): (r: seq<Option<SitemapItem>>)
    ensures |r| <= |elements|
    decreases |elements|
  {
    if elements == [] then []
    else
      var entry := ItemEntry(env, baseUri, elements[|elements| - 1]);
      ItemListAsWritten(env, baseUri, elements[..|elements| - 1]) + (if entry.Some? then [entry.value] else [])
  }

  /** The entries of a list that are not null, in order. */
  function NonNull(items: seq<Option<SitemapItem>>): (r: seq<SitemapItem>)
    ensures |r| <= |items|
    ensures forall it :: it in r <==> Some(it) in items
    decreases |items|
  {
    if items == [] then []
    else
      var last := items[|items| - 1];
      assert forall o :: o in items <==> o in items[..|items| - 1] || o == last;
      NonNull(items[..|items| - 1]) + (if last.Some? then [last.value] else [])
  }

  /** `x => x.LastModified` over a list of items. */
  function ItemDates(items: seq<SitemapItem>): (r: seq<Option<int>>)
    ensures |r| == |items| && forall i :: 0 <= i < |r| ==> r[i] == items[i].lastModified
  {
    seq(|items|, i requires 0 <= i < |items| => items[i].lastModified)
  }

  /**
   * What `ParseSitemapItems` does as written: reading `LastModified` of a
   * null entry throws, so one unresolvable location makes the whole parse
   * fail.
   */
  function ItemsSitemapAsWritten(env: ParserEnv, root: XElement, location: Option<Uri>): (r: Result<Sitemap, ParseError>)
    ensures r.Failure? <==> None in ItemListAsWritten(env, location, ElementsAnyNs(root, URL_NAME))
    ensures r.Failure? ==> r.error == NullReference
  {
    var list := ItemListAsWritten(env, location, ElementsAnyNs(root, URL_NAME));
    if None in list then Failure(NullReference)
    else
      var items := NonNull(list);
      Success(NewItemList(Some(items), location, MaxDate(ItemDates(items))).value)
  }

  /** The `foreach` and the date scan of `ParseSitemapItems` as written. */
  method ParseSitemapItemsAsWritten(env: ParserEnv, root: XElement, location: Option<Uri>) returns (r: Result<Sitemap, ParseError>)
    ensures r == ItemsSitemapAsWritten(env, root, location)
  {
    var elements := ElementsAnyNs(root, URL_NAME);
    var list: seq<Option<SitemapItem>> := [];
    for i := 0 to |elements|
      invariant list == ItemListAsWritten(env, location, elements[..i])
    {
      var entry := ItemEntry(env, location, elements[i]);
      ListStep(env, location, elements, i, entry);
      if entry.Some? {
        list := list + [entry.value];
      }
    }
    assert elements[..|elements|] == elements;
    if None in list {
      return Failure(NullReference);
    }
    var items := NonNull(list);
    var lastModified := SafeMaxDate(ItemDates(items));
    r := Success(NewItemList(Some(items), location, lastModified).value);
  }

  lemma NonNullSnoc(items: seq<Option<SitemapItem>>, x: Option<SitemapItem>)
    ensures NonNull(items + [x]) == NonNull(items) + (if x.Some? then [x.value] else [])
  {
    assert (items + [x])[..|items|] == items;
  }

  /** The original list holds no null when every `<url>` with a non-blank `loc` resolves. */
  lemma {:induction false} NoNullWhenResolvable(env: ParserEnv, baseUri: Option<Uri>, elements: seq<XElement>)
    requires forall e :: e in elements ==> ItemEntry(env, baseUri, e) != Some(None)
    ensures None !in ItemListAsWritten(env, baseUri, elements)
    decreases |elements|
  {
    if elements != [] {
      var front := elements[..|elements| - 1];
      var last := elements[|elements| - 1];
      assert forall e :: e in front ==> e in elements;
      NoNullWhenResolvable(env, baseUri, front);
      assert ItemEntry(env, baseUri, last) != Some(None);
    }
  }

  /** One `<url>` with a non-blank `loc` that does not resolve puts a null into the original list. */
  lemma {:induction false} NullWhenUnresolvable(env: ParserEnv, baseUri: Option<Uri>, elements: seq<XElement>, k: nat)
    requires k < |elements| && ItemEntry(env, baseUri, elements[k]) == Some(None)
    ensures None in ItemListAsWritten(env, baseUri, elements)
    decreases |elements|
  {
    var front := elements[..|elements| - 1];
    var entry := ItemEntry(env, baseUri, elements[|elements| - 1]);
    assert ItemListAsWritten(env, baseUri, elements)
           == ItemListAsWritten(env, baseUri, front) + (if entry.Some? then [entry.value] else []);
    if k < |elements| - 1 {
      assert front[k] == elements[k];
      NullWhenUnresolvable(env, baseUri, front, k);
    } else {
      assert entry == Some(None);
    }
  }

  /** What `ParseSitemapItems` returns once null entries are skipped, as the index parse skips them. */
  function ItemsSitemap(env: ParserEnv, root: XElement, location: Option<Uri>): (r: Sitemap)
    ensures r.sitemapType == Items && r.sitemaps == [] && r.location == location
    ensures r.items == NonNull(ItemListAsWritten(env, location, ElementsAnyNs(root, URL_NAME)))
    ensures |r.items| <= |ElementsAnyNs(root, URL_NAME)|
    ensures r.lastModified == MaxDate(ItemDates(r.items))
  {
    var items := NonNull(ItemListAsWritten(env, location, ElementsAnyNs(root, URL_NAME)));
    NewItemList(Some(items), location, MaxDate(ItemDates(items))).value
  }

  /** Where no location fails to resolve, the original parse succeeds with the same sitemap. */
  lemma CorrectedAgreesWithoutNulls(env: ParserEnv, root: XElement, location: Option<Uri>)
    requires forall e :: e in ElementsAnyNs(root, URL_NAME) ==> ItemEntry(env, location, e) != Some(None)
    ensures ItemsSitemapAsWritten(env, root, location) == Success(ItemsSitemap(env, root, location))
  {
    NoNullWhenResolvable(env, location, ElementsAnyNs(root, URL_NAME));
  }

  /** `ParseSitemapItems`, skipping entries whose location does not parse. */
  method ParseSitemapItems(env: ParserEnv, root: XElement, location: Option<Uri>) returns (r: Sitemap)
    ensures r == ItemsSitemap(env, root, location)
  {
    var elements := ElementsAnyNs(root, URL_NAME);
    var items: seq<SitemapItem> := [];
    for i := 0 to |elements|
      invariant items == NonNull(ItemListAsWritten(env, location, elements[..i]))
    {
      var entry := ItemEntry(env, location, elements[i]);
      ItemStep(env, location, elements, i, entry);
      if entry.Some? && entry.value.Some? {
        items := items + [entry.value.value];
      }
    }
    assert elements[..|elements|] == elements;
    var lastModified := SafeMaxDate(ItemDates(items));
    r := NewItemList(Some(items), location, lastModified).value;
  }

  /** One more `<url>` element adds its item to the non-null entries exactly when it has a resolvable location. */
  lemma ItemStep(env: ParserEnv, baseUri: Option<Uri>, elements: seq<XElement>, i: nat, entry: Option<Option<SitemapItem>>)
    requires i < |elements| && entry == ItemEntry(env, baseUri, elements[i])
    ensures NonNull(ItemListAsWritten(env, baseUri, elements[..i + 1]))
            == NonNull(ItemListAsWritten(env, baseUri, elements[..i])) + (if entry.Some? && entry.value.Some? then [entry.value.value] else [])
  {
    ListStep(env, baseUri, elements, i, entry);
    var list := ItemListAsWritten(env, baseUri, elements[..i]);
    if entry.Some? {
      NonNullSnoc(list, entry.value);
    } else {
      assert list + [] == list;
    }
  }

  /** One more `<url>` element adds its entry to the list exactly when it has a non-blank `loc`. */
  lemma ListStep(env: ParserEnv, baseUri: Option<Uri>, elements: seq<XElement>, i: nat, entry: Option<Option<SitemapItem>>)
    requires i < |elements| && entry == ItemEntry(env, baseUri, elements[i])
    ensures ItemListAsWritten(env, baseUri, elements[..i + 1])
            == ItemListAsWritten(env, baseUri, elements[..i]) + (if entry.Some? then [entry.value] else [])
  {
    var prefix := elements[..i + 1];
    assert prefix[..i] == elements[..i] && prefix[i] == elements[i];
    assert ItemListAsWritten(env, baseUri, prefix) == ItemListAsWritten(env, baseUri, prefix[..i]) + (if entry.Some? then [entry.value] else []);
  }

  // ---------------------------------------------------------------------------
  // Parse

  /** `Parse`: nothing for blank content, a throw for malformed XML, and a dispatch on the root's local name. */
  function ParseSitemap(env: ParserEnv, content: Option<string>, location: Option<Uri>): (r: Result<Option<Sitemap>, ParseError>)
    ensures IsNullOrWhiteSpace(content) ==> r == Success(None)
    ensures r.Failure? ==> r.error == MalformedXml
    ensures r.Success? && r.value.Some? ==> r.value.value.IsLoaded() && r.value.value.location == location
    ensures !IsNullOrWhiteSpace(content) && env.parseXml(content.value).Some? ==>
              var root := env.parseXml(content.value).value;
              && (EqualsAnyNs(root.name, SITEMAP_INDEX_NAME) ==> r == Success(Some(IndexSitemap(env, root, location))))
              && (!EqualsAnyNs(root.name, SITEMAP_INDEX_NAME) && EqualsAnyNs(root.name, URL_SET_NAME) ==>
                    r == Success(Some(ItemsSitemap(env, root, location))))
              && (!EqualsAnyNs(root.name, SITEMAP_INDEX_NAME) && !EqualsAnyNs(root.name, URL_SET_NAME) ==> r == Success(None))
  {
    if IsNullOrWhiteSpace(content) then Success(None)
    else
      match env.parseXml(content.value)
      case None => Failure(MalformedXml)
      case Some(root) =>
        if EqualsAnyNs(root.name, SITEMAP_INDEX_NAME) then Success(Some(IndexSitemap(env, root, location)))
        else if EqualsAnyNs(root.name, URL_SET_NAME) then Success(Some(ItemsSitemap(env, root, location)))
        else Success(None)
  }

  /** `Parse` with the original item parse, which throws on an unresolvable location. */
  function ParseSitemapAsWritten(env: ParserEnv, content: Option<string>, location: Option<Uri>)
    : (r: Result<Option<Sitemap>, ParseError>)
    ensures ParseSitemap(env, content, location).Failure? ==> r == ParseSitemap(env, content, location)
    ensures r != ParseSitemap(env, content, location) ==> r == Failure(NullReference)
    ensures r == Failure(NullReference) <==>
              && !IsNullOrWhiteSpace(content) && env.parseXml(content.value).Some?
              && !EqualsAnyNs(env.parseXml(content.value).value.name, SITEMAP_INDEX_NAME)
              && EqualsAnyNs(env.parseXml(content.value).value.name, URL_SET_NAME)
              && None in ItemListAsWritten(env, location, ElementsAnyNs(env.parseXml(content.value).value, URL_NAME))
  {
    if IsNullOrWhiteSpace(content) then Success(None)
    else
      match env.parseXml(content.value)
      case None => Failure(MalformedXml)
      case Some(root) =>
        if EqualsAnyNs(root.name, SITEMAP_INDEX_NAME) then Success(Some(IndexSitemap(env, root, location)))
        else if EqualsAnyNs(root.name, URL_SET_NAME) then
          match ItemsSitemapAsWritten(env, root, location)
          case Success(s) => Success(Some(s))
          case Failure(e) => Failure(e)
        else Success(None)
  }

  method Parse(env: ParserEnv, content: Option<string>, location: Option<Uri>) returns (r: Result<Option<Sitemap>, ParseError>)
    ensures r == ParseSitemap(env, content, location)
  {
    if IsNullOrWhiteSpace(content) {
      return Success(None);
    }
    var parsed := env.parseXml(content.value);
    if parsed.None? {
      return Failure(MalformedXml);
    }
    var root := parsed.value;
    if EqualsAnyNs(root.name, SITEMAP_INDEX_NAME) {
      var index := ParseIndexSitemap(env, root, location);
      return Success(Some(index));
    }
    if EqualsAnyNs(root.name, URL_SET_NAME) {
      var items := ParseSitemapItems(env, root, location);
      return Success(Some(items));
    }
    r := Success(None);
  }

  // ---------------------------------------------------------------------------
  // The unresolvable item location

  /** A `<urlset>` with one `<url>` whose `<loc>` is `text`. */
  function OneUrlSet(text: string): XElement
  {
    XElement(URL_SET_NAME, text, [XElement(URL_NAME, text, [XElement(LOCATION_NAME, text, [])])])
  }

  /** A parser environment in which no location is a valid URI. */
  function NoUriEnv(root: XElement): ParserEnv
  {
    ParserEnv(_ => Some(root), _ => None, (_, _) => None, _ => None, _ => None, _ => None)
  }

  /**
   * As written, a sitemap with one entry whose location is not a URI makes
   * `Parse` throw; with such entries skipped it yields an empty item list.
   */
  lemma UnresolvableLocationThrows()
    ensures ParseSitemapAsWritten(NoUriEnv(OneUrlSet("not a uri")), Some("<urlset/>"), None) == Failure(NullReference)
    ensures ParseSitemap(NoUriEnv(OneUrlSet("not a uri")), Some("<urlset/>"), None).value.value.items == []
  {
    var root := OneUrlSet("not a uri");
    var env := NoUriEnv(root);
    var content := "<urlset/>";
    assert !IsWhiteSpace(content[0]);
    assert EqualsAnyNs(root.name, URL_SET_NAME);
    assert !EqualsAnyNs(root.name, SITEMAP_INDEX_NAME) by {
      assert |root.name.localName| != |SITEMAP_INDEX_NAME.localName|;
    }
    var url := root.children[0];
    assert ElementsAnyNs(root, URL_NAME) == [url];
    var loc := url.children[0];
    assert ElementsAnyNs(url, LOCATION_NAME) == [loc];
    assert ElementAnyNs(url, LOCATION_NAME) == Some(loc);
    assert !IsWhiteSpace(loc.value[0]);
    assert ItemEntry(env, None, url) == Some(None);
    assert ItemListAsWritten(env, None, [url]) == [None] by {
      assert [url][..0] == [];
    }

  }
}
