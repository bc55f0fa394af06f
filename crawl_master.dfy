/**
 * The link admission pipeline of the crawl master: seeding the frontier from
 * the settings, the filter chain a page's anchors go through before they are
 * enqueued one level deeper, and the choice of the page's text encoding.
 * The regex engine, `System.Uri` and the text encodings are collaborators
 * given as functions; the worker threads, HTTP and the queue's locking are
 * not modelled.
 */
module Crawler {
  import opened Wrappers
  import opened Text
  import opened Web
  import Settings

  /** A URL waiting in the frontier, with its distance in links from a seed (seeds have depth 1). */
  datatype UrlInfo = UrlInfo(url: string, depth: int)

  /** What an `AddUrlEvent` subscriber is shown. */
  datatype AddUrlEventArgs = AddUrlEventArgs(title: string, depth: int, url: string)

  /** One match of the anchor regex: the `href` value and the raw inner HTML. */
  datatype AnchorMatch = AnchorMatch(href: string, inner: string)

  /** The collaborators the pipeline calls but whose code is not part of this model. */
  datatype Environment = Environment(
    parseUri: string -> Option<Uri>,           // `new Uri(s)`; None when it throws
    combineUri: (Uri, string) -> Option<Uri>,  // `new Uri(baseUri, relative)`; None when it throws
    regexIsMatch: (string, string) -> Option<bool>,  // `Regex.IsMatch(input, pattern, RegexOptions.IgnoreCase)`; None when it throws
    stripTags: string -> string,                     // `Regex.Replace(text, "(?i)<.*?>", "")`
    addUrlEvent: Option<AddUrlEventArgs -> Option<bool>>)  // the subscriber, if any; None when it throws

  // ---------------------------------------------------------------------------
  // Seeds: `^(http|https)://([\w-]+\.)+[\w-]+(/[\w- ./?%&=]*)?`, case-insensitive

  /** `\w`, restricted to ASCII. */
  predicate IsWordChar(c: char)
  {
    'a' <= c <= 'z' || 'A' <= c <= 'Z' || '0' <= c <= '9' || c == '_'
  }

  /** `[\w-]` */
  predicate IsLabelChar(c: char)
  {
    IsWordChar(c) || c == '-'
  }

  /** The length of the run of label characters that starts `s`. */
  function LabelRun(s: string): (n: nat)
    ensures n <= |s|
    ensures forall j :: 0 <= j < n ==> IsLabelChar(s[j])
    ensures n < |s| ==> !IsLabelChar(s[n])
    decreases |s|
  {
    if s == [] || !IsLabelChar(s[0]) then 0 else 1 + LabelRun(s[1..])
  }

  /**
   * Some prefix of `rest` matches `([\w-]+\.)+[\w-]+`. As the pattern has no
   * end anchor, this is the case exactly when `rest` starts with a label, a
   * dot and a label character.
   */
  predicate HostPrefixMatches(rest: string)
  {
    var n := LabelRun(rest);
    1 <= n && n + 1 < |rest| && rest[n] == '.' && IsLabelChar(rest[n + 1])
  }

  /** `Regex.IsMatch(seed, WebUrlRegularExpressions, RegexOptions.IgnoreCase)` */
  predicate IsWebUrl(seed: string)
  {
    (StartsWithIgnoreCase(seed, "http://") && HostPrefixMatches(seed[7..]))
    || (StartsWithIgnoreCase(seed, "https://") && HostPrefixMatches(seed[8..]))
  }

  /**
   * The language of `([\w-]+\.)+[\w-]+`: label characters and dots, starting
   * and ending with a label character, with at least one dot and never two
   * dots in a row.
   */
  ghost predicate IsDottedHost(s: string)
  {
    |s| >= 3 && IsLabelChar(s[0]) && IsLabelChar(s[|s| - 1]) && '.' in s
    && (forall j :: 0 <= j < |s| ==> IsLabelChar(s[j]) || s[j] == '.')
    && (forall j :: 0 <= j < |s| - 1 && s[j] == '.' ==> s[j + 1] != '.')
  }

  /** A run of i label characters followed by a non-label character has length i. */
  lemma {:induction false} LabelRunStopsAt(s: string, i: nat)
    requires i < |s| && !IsLabelChar(s[i])
    requires forall j :: 0 <= j < i ==> IsLabelChar(s[j])
    ensures LabelRun(s) == i
    decreases i
  {
    if i > 0 {
      LabelRunStopsAt(s[1..], i - 1);
    }
  }

  /** The scan agrees with the regular language: some prefix of `rest` is a dotted host. */
  lemma HostPrefixMatchesIffRegex(rest: string)
    ensures HostPrefixMatches(rest) <==> exists j :: 0 <= j <= |rest| && IsDottedHost(rest[..j])
  {
    if HostPrefixMatches(rest) {
      var n := LabelRun(rest);
      var s := rest[..n + 2];
      assert s[n] == '.';
      assert IsDottedHost(s);
    }
    if exists j :: 0 <= j <= |rest| && IsDottedHost(rest[..j]) {
      var j :| 0 <= j <= |rest| && IsDottedHost(rest[..j]);
      DottedPrefixStartsLabelDot(rest, j);
    }
  }

  lemma DottedPrefixStartsLabelDot(rest: string, j: nat)
    requires j <= |rest| && IsDottedHost(rest[..j])
    ensures HostPrefixMatches(rest)
  {
    var s := rest[..j];
    var i := IndexOf(s, '.').value;
    assert forall k :: 0 <= k < i ==> s[k] != '.' by {
      assert forall k :: 0 <= k < i ==> s[k] == s[..i][k];
    }
    assert forall k :: 0 <= k < i ==> IsLabelChar(rest[k]);
    LabelRunStopsAt(rest, i);
  }

  lemma SeedExampleHttps()
    ensures IsWebUrl("https://www.example.com")
  {
    var u := "https://www.example.com";
    assert StartsWithIgnoreCase(u, "https://") by {
      assert u[..8] == "https://";
    }
    assert u[8..] == "www.example.com";
    LabelRunStopsAt("www.example.com", 3);
  }

  lemma SeedExampleUpperCase()
    ensures IsWebUrl("HTTP://x.test/p")
  {
    var u := "HTTP://x.test/p";
    assert StartsWithIgnoreCase(u, "http://") by {
      assert u[..7] == "HTTP://";
      assert forall i :: 0 <= i < 7 ==> Fold(u[..7][i]) == Fold("http://"[i]);
    }
    assert u[7..] == "x.test/p";
    LabelRunStopsAt("x.test/p", 1);
  }

  lemma SeedExampleSingleLabel()
    ensures !IsWebUrl("http://localhost/")
  {
    var u := "http://localhost/";
    assert !StartsWithIgnoreCase(u, "https://") by {
      assert Fold(u[..8][4]) != Fold("https://"[4]);
    }
    assert u[7..] == "localhost/";
    LabelRunStopsAt("localhost/", 9);
  }

  lemma SeedExampleFtp()
    ensures !IsWebUrl("ftp://x.test/")
  {
    var u := "ftp://x.test/";
    assert !StartsWithIgnoreCase(u, "http://") by {
      assert Fold(u[..7][0]) != Fold("http://"[0]);
    }
    assert !StartsWithIgnoreCase(u, "https://") by {
      assert Fold(u[..8][0]) != Fold("https://"[0]);
    }
  }

  /** The frontier items `Initialize` enqueues: the seeds that look like web URLs, at depth 1, in list order. */
  function SeedItems(seeds: seq<string>): (r: seq<UrlInfo>)
    ensures |r| <= |seeds|
    ensures forall it :: it in r ==> it.depth == 1 && it.url in seeds && IsWebUrl(it.url)
    ensures forall s :: s in seeds && IsWebUrl(s) ==> UrlInfo(s, 1) in r
    decreases |seeds|
  {
    if seeds == [] then []
    else
      var last := seeds[|seeds| - 1];
      SeedItems(seeds[..|seeds| - 1]) + (if IsWebUrl(last) then [UrlInfo(last, 1)] else [])
  }

  /** Seeding keeps list order: the seeds of a concatenation are the concatenated seeds. */
  lemma {:induction false} SeedItemsAppend(a: seq<string>, b: seq<string>)
    ensures SeedItems(a + b) == SeedItems(a) + SeedItems(b)
    decreases |b|
  {
    if b == [] {
      assert a + b == a;
    } else {
      assert (a + b)[..|a + b| - 1] == a + b[..|b| - 1];
      SeedItemsAppend(a, b[..|b| - 1]);
    }
  }

  // ---------------------------------------------------------------------------
  // The filter chain for one href

  /** The escape-suffix and keyword tests on the raw href; failing either drops it. */
  predicate PassesHrefFilters(settings: Settings.Snapshot, href: string)
  {
    var escaped := |settings.escapeLinks| > 0
      && exists suffix :: suffix in settings.escapeLinks && EndsWithIgnoreCase(href, suffix);
    var lacksKeyword := |settings.hrefKeywords| > 0
      && !(exists keyword :: keyword in settings.hrefKeywords && Contains(href, keyword));
    !escaped && !lacksKeyword
  }

  /** The literal decoding of an href: lower-case `%3f`, `%3d`, `%2f` and `&amp;`, in that order. */
  function DecodeHref(href: string): string
  {
    ReplaceAll(ReplaceAll(ReplaceAll(ReplaceAll(href, "%3f", "?"), "%3d", "="), "%2f", "/"), "&amp;", "&")
  }

  /** A prefix without `%` or `&` is not touched by the decoding. */
  lemma DecodeKeepsPrefix(x: string, y: string)
    requires '%' !in x && '&' !in x
    ensures DecodeHref(x + y) == x + DecodeHref(y)
  {
    var y1 := ReplaceAll(y, "%3f", "?");
    ReplaceKeepsPrefix(x, y, "%3f", "?");
    var y2 := ReplaceAll(y1, "%3d", "=");
    ReplaceKeepsPrefix(x, y1, "%3d", "=");
    var y3 := ReplaceAll(y2, "%2f", "/");
    ReplaceKeepsPrefix(x, y2, "%2f", "/");
    ReplaceKeepsPrefix(x, y3, "&amp;", "&");
  }

  /** An href with neither `%` nor `&` is its own decoding. */
  lemma DecodePlain(href: string)
    requires '%' !in href && '&' !in href
    ensures DecodeHref(href) == href
  {
    DecodeKeepsPrefix(href, "");
    assert href + "" == href;
  }

  /** Only the lower-case escapes are decoded. */
  lemma DecodeExamples()
    ensures DecodeHref("%3f") == "?"
    ensures DecodeHref("%3F") == "%3F"
    ensures DecodeHref("&amp;") == "&"
  {
    var upper := "%3F";
    assert upper[..3] != "%3f" by { assert upper[2] != "%3f"[2]; }
    assert upper[..3] != "%3d" by { assert upper[2] != "%3d"[2]; }
    assert upper[..3] != "%2f" by { assert upper[1] != "%2f"[1]; }
    assert ReplaceAll(upper, "%3f", "?") == upper by { assert [upper[0]] + upper[1..] == upper; }
    assert ReplaceAll(upper, "%3d", "=") == upper by { assert [upper[0]] + upper[1..] == upper; }
    assert ReplaceAll(upper, "%2f", "/") == upper by { assert [upper[0]] + upper[1..] == upper; }
    var amp := "&amp;";
    assert amp + "" == amp;
    ReplaceKeepsPrefix(amp, "", "%3f", "?");
    ReplaceKeepsPrefix(amp, "", "%3d", "=");
    ReplaceKeepsPrefix(amp, "", "%2f", "/");
    assert amp[..5] == "&amp;";
  }

  /** A decoded href that is never followed: empty, a fragment, or a mail, phone or script link. */
  predicate IsExcluded(url: string)
  {
    url == "" || StartsWith(url, "#") || StartsWithIgnoreCase(url, "mailto:")
    || StartsWithIgnoreCase(url, "tel:") || StartsWithIgnoreCase(url, "javascript:")
  }

  /** Pattern `i` is the first whose test does not answer "no": it matches, or it throws. */
  ghost predicate FirstDecisive(patterns: seq<string>, isMatch: (string, string) -> Option<bool>, url: string, i: nat)
  {
    i < |patterns| && isMatch(url, patterns[i]) != Some(false)
    && forall j :: 0 <= j < i ==> isMatch(url, patterns[j]) == Some(false)
  }

  /**
   * `Any(pattern => Regex.IsMatch(url, pattern, ...))`: the patterns are
   * tried in order, and the first that matches or throws decides.
   */
  function AnyPatternMatches(patterns: seq<string>, isMatch: (string, string) -> Option<bool>, url: string)
    : (r: Option<bool>)
    ensures r == Some(false) <==> forall j :: 0 <= j < |patterns| ==> isMatch(url, patterns[j]) == Some(false)
    ensures r != Some(false) ==> exists i: nat :: FirstDecisive(patterns, isMatch, url, i) && r == isMatch(url, patterns[i])
    decreases |patterns|
  {
    if patterns == [] then Some(false)
    else
      var first := isMatch(url, patterns[0]);
      if first != Some(false) then
        assert FirstDecisive(patterns, isMatch, url, 0);
        first
      else
        var rest := AnyPatternMatches(patterns[1..], isMatch, url);
        assert forall j :: 1 <= j < |patterns| ==> patterns[j] == patterns[1..][j - 1];
        if rest != Some(false) then
          assert exists i: nat :: FirstDecisive(patterns, isMatch, url, i) && rest == isMatch(url, patterns[i]) by {
            var i: nat :| FirstDecisive(patterns[1..], isMatch, url, i) && rest == isMatch(url, patterns[1..][i]);
            assert FirstDecisive(patterns, isMatch, url, i + 1);
          }
          rest
        else
          rest
  }

  /**
   * The allow-list: no patterns lets every URL through, otherwise one must
   * match; an invalid pattern tried before any match throws.
   */
  function IsMatchRegular(patterns: seq<string>, isMatch: (string, string) -> Option<bool>, url: string)
    : (r: Option<bool>)
    ensures patterns == [] ==> r == Some(true)
    ensures r == Some(true) ==> patterns == [] || exists p :: p in patterns && isMatch(url, p) == Some(true)
    ensures r.None? ==> exists p :: p in patterns && isMatch(url, p).None?
    ensures (forall p :: p in patterns ==> isMatch(url, p).Some?) ==>
              (r == Some(true) <==> patterns == [] || exists p :: p in patterns && isMatch(url, p) == Some(true))
  {
    if patterns == [] then Some(true)
    else
      var r := AnyPatternMatches(patterns, isMatch, url);
      assert r != Some(false) ==> exists p :: p in patterns && isMatch(url, p) == r by {
        if r != Some(false) {
          var i: nat :| FirstDecisive(patterns, isMatch, url, i) && r == isMatch(url, patterns[i]);
          assert patterns[i] in patterns;
        }
      }
      assert r == Some(false) ==> forall p :: p in patterns ==> isMatch(url, p) == Some(false) by {
        if r == Some(false) {
          forall p | p in patterns
            ensures isMatch(url, p) == Some(false)
          {
            var j :| 0 <= j < |patterns| && patterns[j] == p;
          }
        }
      }
      assert (forall p :: p in patterns ==> isMatch(url, p).Some?) && r != Some(false) ==> r == Some(true) by {
        if (forall p :: p in patterns ==> isMatch(url, p).Some?) && r != Some(false) {
          var p :| p in patterns && isMatch(url, p) == r;
          assert isMatch(url, p).Some?;
          assert r.Some? && r.value != false;
        }
      }
      r
  }

  /** Position of the first `c` in `s`. */
  function IndexOf(s: string, c: char): (r: Option<nat>)
    ensures r.Some? ==> r.value < |s| && s[r.value] == c && c !in s[..r.value]
    ensures r.None? ==> c !in s
    decreases |s|
  {
    if s == [] then None
    else if s[0] == c then Some(0)
    else
      match IndexOf(s[1..], c)
      case None => None
      case Some(i) =>
        assert s[..i + 1] == [s[0]] + s[1..][..i];
        Some(i + 1)
  }

  /** `s.Split(sep)`: the pieces between separators, at least one. */
  function Split(s: string, sep: char): (parts: seq<string>)
    ensures |parts| >= 1
    decreases |s|
  {
    match IndexOf(s, sep)
    case None => [s]
    case Some(i) => [s[..i]] + Split(s[i + 1..], sep)
  }

  /** `parts.Aggregate((a, b) => a + "." + b)`: a left fold; None where `Aggregate` throws on an empty sequence. */
  function Aggregate(parts: seq<string>): (r: Option<string>)
    ensures r.Some? <==> parts != []
    decreases |parts|
  {
    if parts == [] then None
    else if |parts| == 1 then Some(parts[0])
    else Some(Aggregate(parts[..|parts| - 1]).value + "." + parts[|parts| - 1])
  }

  /** `host.Split('.').Skip(1).Aggregate(...)`: the host without its first label. */
  function HostTail(host: string): Option<string>
  {
    Aggregate(Split(host, '.')[1..])
  }

  lemma {:induction false} AggregateCons(first: string, rest: seq<string>)
    requires |rest| >= 1
    ensures Aggregate([first] + rest) == Some(first + "." + Aggregate(rest).value)
    decreases |rest|
  {
    if |rest| > 1 {
      var init, last := rest[..|rest| - 1], rest[|rest| - 1];
      assert ([first] + rest)[..|rest|] == [first] + init;
      AggregateCons(first, init);
      var a := Aggregate(init).value;
      assert (first + "." + a) + "." + last == first + "." + (a + "." + last);
    } else {
      assert [first] + rest == [first, rest[0]];
    }
  }

  /** Joining the pieces of a split with the separator gives back the string. */
  lemma {:induction false} AggregateSplit(s: string)
    ensures Aggregate(Split(s, '.')) == Some(s)
    decreases |s|
  {
    match IndexOf(s, '.')
    case None =>
    case Some(i) =>
      AggregateSplit(s[i + 1..]);
      AggregateCons(s[..i], Split(s[i + 1..], '.'));
      assert s[..i] + "." + s[i + 1..] == s;
  }

  /**
   * Host locking compares hosts without their first label: a host with a dot
   * loses everything up to its first dot; a host without one makes
   * `Aggregate` throw.
   */
  lemma HostTailDropsFirstLabel(host: string)
    ensures HostTail(host).None? <==> '.' !in host
    ensures HostTail(host).Some? ==> IndexOf(host, '.').Some? && HostTail(host).value == host[IndexOf(host, '.').value + 1..]
  {
    match IndexOf(host, '.')
    case None =>
    case Some(i) =>
      AggregateSplit(host[i + 1..]);
  }

  /** The first occurrence, found by `IndexOf`. */
  lemma IndexOfFirst(s: string, c: char, i: nat)
    requires i < |s| && s[i] == c && c !in s[..i]
    ensures IndexOf(s, c) == Some(i)
  {
  }

  /** The host tail of a host whose first dot is at `i`. */
  lemma HostTailAt(host: string, i: nat)
    requires i < |host| && host[i] == '.' && '.' !in host[..i]
    ensures HostTail(host) == Some(host[i + 1..])
  {
    IndexOfFirst(host, '.', i);
    HostTailDropsFirstLabel(host);
  }

  lemma HostTailOfWww()
    ensures HostTail("www.example.com") == Some("example.com")
  {
    var a := "www.example.com";
    assert a[..3] == "www";
    HostTailAt(a, 3);
    assert a[4..] == "example.com";
  }

  lemma HostTailOfShop()
    ensures HostTail("shop.example.com") == Some("example.com")
  {
    var b := "shop.example.com";
    assert b[..4] == "shop";
    HostTailAt(b, 4);
    assert b[5..] == "example.com";
  }

  /** `www.example.com` and `shop.example.com` are the same site under the host lock. */
  lemma HostLockSameSite()
    ensures HostTail("www.example.com") == HostTail("shop.example.com")
  {
    HostTailOfWww();
    HostTailOfShop();
  }

  /** `other.test` is a different site; a host without a dot makes the lock throw. */
  lemma HostLockOtherSite()
    ensures HostTail("other.test") == Some("test")
    ensures HostTail("localhost").None?
  {
    var a := "other.test";
    assert a[..5] == "other";
    HostTailAt(a, 5);
    assert a[6..] == "test";
    HostTailDropsFirstLabel("localhost");
  }

  /** The fate of one candidate link. */
  datatype LinkOutcome =
    | Admitted(item: UrlInfo)  // enqueued
    | Dropped                  // skipped by a filter or vetoed
    | Threw                    // an exception ends the page's remaining links

  /** The host-lock check: None when the lock lets the link through. */
  function HostLock(baseUri: Uri, currentUri: Uri): Option<LinkOutcome>
  {
    match (HostTail(baseUri.host), HostTail(currentUri.host))
    case (None, _) => Some(Threw)
    case (_, None) => Some(Threw)
    case (Some(a), Some(b)) => if a != b then Some(Dropped) else None
  }

  /**
   * The page's own URI and the URI a decoded href stands for: `new Uri(url)`
   * for an href starting with `http` in any case, `new Uri(baseUri, url)`
   * otherwise. None when either constructor throws.
   */
  function ResolveLink(env: Environment, pageUrl: string, url: string): Option<(Uri, Uri)>
  {
    match env.parseUri(pageUrl)
    case None => None
    case Some(baseUri) =>
      var current := if StartsWithIgnoreCase(url, "http") then env.parseUri(url) else env.combineUri(baseUri, url);
      if current.None? then None else Some((baseUri, current.value))
  }

  /** Everything `ParseLinks` does with one distinct href and its anchor text, on a page at `page`. */
  function ConsiderLink(settings: Settings.Snapshot, env: Environment, page: UrlInfo, href: string, text: string)
    : (o: LinkOutcome)
    ensures o.Admitted? ==> href != "" && PassesHrefFilters(settings, href) && !IsExcluded(DecodeHref(href))
    ensures o.Admitted? ==>
              && ResolveLink(env, page.url, DecodeHref(href)).Some?
              && o.item == UrlInfo(ResolveLink(env, page.url, DecodeHref(href)).value.1.absoluteUri, page.depth + 1)
    ensures o.Admitted? && settings.lockHost ==>
              var uris := ResolveLink(env, page.url, DecodeHref(href)).value;
              HostTail(uris.0.host).Some? && HostTail(uris.0.host) == HostTail(uris.1.host)
    ensures o.Admitted? ==> IsMatchRegular(settings.regularFilterExpressions, env.regexIsMatch, o.item.url) == Some(true)
    ensures o.Admitted? && env.addUrlEvent.Some? ==>
              env.addUrlEvent.value(AddUrlEventArgs(text, page.depth + 1, o.item.url)) == Some(true)
  {
    if href == "" || !PassesHrefFilters(settings, href) then Dropped
    else
      var url := DecodeHref(href);
      if IsExcluded(url) then Dropped
      else
        match ResolveLink(env, page.url, url)
        case None => Threw
        case Some(uris) =>
          var absolute := uris.1.absoluteUri;
          var locked := if settings.lockHost then HostLock(uris.0, uris.1) else None;
          if locked.Some? then locked.value
          else
            match IsMatchRegular(settings.regularFilterExpressions, env.regexIsMatch, absolute)
            case None => Threw
            case Some(false) => Dropped
            case Some(true) =>
              var args := AddUrlEventArgs(text, page.depth + 1, absolute);
              var verdict := if env.addUrlEvent.Some? then env.addUrlEvent.value(args) else Some(true);
              match verdict
              case None => Threw
              case Some(false) => Dropped
              case Some(true) => Admitted(UrlInfo(absolute, page.depth + 1))
  }

  /** A link that passes every filter of the chain is enqueued, with the absolute URI it resolves to. */
  lemma ConsiderLinkAdmits(settings: Settings.Snapshot, env: Environment, page: UrlInfo, href: string, text: string)
    requires href != "" && PassesHrefFilters(settings, href) && !IsExcluded(DecodeHref(href))
    requires ResolveLink(env, page.url, DecodeHref(href)).Some?
    requires settings.lockHost ==>
               var uris := ResolveLink(env, page.url, DecodeHref(href)).value;
               HostTail(uris.0.host).Some? && HostTail(uris.0.host) == HostTail(uris.1.host)
    requires IsMatchRegular(settings.regularFilterExpressions, env.regexIsMatch,
                            ResolveLink(env, page.url, DecodeHref(href)).value.1.absoluteUri) == Some(true)
    requires env.addUrlEvent.Some? ==>
               env.addUrlEvent.value(AddUrlEventArgs(text, page.depth + 1,
                                                     ResolveLink(env, page.url, DecodeHref(href)).value.1.absoluteUri)) == Some(true)
    ensures ConsiderLink(settings, env, page, href, text)
            == Admitted(UrlInfo(ResolveLink(env, page.url, DecodeHref(href)).value.1.absoluteUri, page.depth + 1))
  {
  }

  /**
   * Which links throw, aborting the page: once the href filters pass and the
   * decoded URL is not excluded, exactly when a `Uri` constructor fails, the
   * host lock's `Aggregate` fails, a pattern of the allow-list throws before
   * one matches, or the subscriber throws. A link the filters stop is dropped.
   */
  lemma ConsiderLinkThrows(settings: Settings.Snapshot, env: Environment, page: UrlInfo, href: string, text: string)
    ensures href == "" || !PassesHrefFilters(settings, href) || IsExcluded(DecodeHref(href)) ==>
              ConsiderLink(settings, env, page, href, text) == Dropped
    ensures href != "" && PassesHrefFilters(settings, href) && !IsExcluded(DecodeHref(href)) ==>
              var uris := ResolveLink(env, page.url, DecodeHref(href));
              (ConsiderLink(settings, env, page, href, text) == Threw <==>
                 || uris.None?
                 || (settings.lockHost && HostLock(uris.value.0, uris.value.1) == Some(Threw))
                 || ((!settings.lockHost || HostLock(uris.value.0, uris.value.1).None?)
                     && var allowed := IsMatchRegular(settings.regularFilterExpressions, env.regexIsMatch, uris.value.1.absoluteUri);
                        || allowed.None?
                        || (allowed == Some(true) && env.addUrlEvent.Some?
                            && env.addUrlEvent.value(AddUrlEventArgs(text, page.depth + 1, uris.value.1.absoluteUri)).None?)))
  {
  }

  /** With the host lock on, a page or link host without a dot makes `Aggregate` throw for that link. */
  lemma HostLockDotlessThrows(settings: Settings.Snapshot, env: Environment, page: UrlInfo, href: string, text: string)
    requires settings.lockHost
    requires href != "" && PassesHrefFilters(settings, href) && !IsExcluded(DecodeHref(href))
    requires ResolveLink(env, page.url, DecodeHref(href)).Some?
    requires var uris := ResolveLink(env, page.url, DecodeHref(href)).value;
             '.' !in uris.0.host || '.' !in uris.1.host
    ensures ConsiderLink(settings, env, page, href, text) == Threw
  {
    var uris := ResolveLink(env, page.url, DecodeHref(href)).value;
    HostTailDropsFirstLabel(uris.0.host);
    HostTailDropsFirstLabel(uris.1.host);
  }

  /** With the host lock on, a link to a host whose tail differs from the page's is dropped. */
  lemma HostLockOtherSiteDropped(settings: Settings.Snapshot, env: Environment, page: UrlInfo, href: string, text: string)
    requires settings.lockHost
    requires href != "" && PassesHrefFilters(settings, href) && !IsExcluded(DecodeHref(href))
    requires ResolveLink(env, page.url, DecodeHref(href)).Some?
    requires var uris := ResolveLink(env, page.url, DecodeHref(href)).value;
             '.' in uris.0.host && '.' in uris.1.host && HostTail(uris.0.host) != HostTail(uris.1.host)
    ensures ConsiderLink(settings, env, page, href, text) == Dropped
  {
    var uris := ResolveLink(env, page.url, DecodeHref(href)).value;
    HostTailDropsFirstLabel(uris.0.host);
    HostTailDropsFirstLabel(uris.1.host);
  }

  /** An href ending in a configured escape suffix is never enqueued, whatever else holds. */
  lemma EscapedNeverAdmitted(settings: Settings.Snapshot, env: Environment, page: UrlInfo, href: string, text: string, suffix: string)
    requires suffix in settings.escapeLinks && EndsWithIgnoreCase(href, suffix)
    ensures ConsiderLink(settings, env, page, href, text) == Dropped
  {
  }

  lemma {:induction false} FoldedPrefixIsPlain(x: string, p: string)
    requires EqualsIgnoreCase(x, p) && '%' !in p && '&' !in p
    requires forall j :: 0 <= j < |p| ==> 'a' <= p[j] <= 'z' || p[j] == ':'
    ensures '%' !in x && '&' !in x
  {
    forall j | 0 <= j < |x|
      ensures x[j] != '%' && x[j] != '&'
    {
      assert Fold(x[j]) == Fold(p[j]);
    }
  }

  /** Decoding keeps a fragment mark or an excluded scheme at the front, so the decoded URL is still excluded. */
  lemma ExcludedAfterDecoding(href: string)
    requires StartsWith(href, "#") || StartsWithIgnoreCase(href, "mailto:")
             || StartsWithIgnoreCase(href, "tel:") || StartsWithIgnoreCase(href, "javascript:")
    ensures IsExcluded(DecodeHref(href))
  {
    var n := if StartsWith(href, "#") then 1
             else if StartsWithIgnoreCase(href, "mailto:") then 7
             else if StartsWithIgnoreCase(href, "tel:") then 4
             else 11;
    var p := if n == 1 then "#" else if n == 7 then "mailto:" else if n == 4 then "tel:" else "javascript:";
    if n > 1 {
      FoldedPrefixIsPlain(href[..n], p);
    } else {
      assert href[..1] == "#";
    }
    assert href == href[..n] + href[n..];
    DecodeKeepsPrefix(href[..n], href[n..]);
    var url := DecodeHref(href);
    assert url[..n] == href[..n];
  }

  /** Mail, phone and script links and fragments are never enqueued, in any letter case. */
  lemma ExcludedSchemesNeverAdmitted(settings: Settings.Snapshot, env: Environment, page: UrlInfo, href: string, text: string)
    requires StartsWith(href, "#") || StartsWithIgnoreCase(href, "mailto:")
             || StartsWithIgnoreCase(href, "tel:") || StartsWithIgnoreCase(href, "javascript:")
    ensures !ConsiderLink(settings, env, page, href, text).Admitted?
  {
    ExcludedAfterDecoding(href);
  }

  // ---------------------------------------------------------------------------
  // The anchors of a page, keyed by href

  /** An anchor carries `h`. */
  ghost predicate HasHref(matches: seq<AnchorMatch>, h: string)
  {
    exists i :: 0 <= i < |matches| && matches[i].href == h
  }

  lemma HasHrefSnoc(matches: seq<AnchorMatch>, h: string)
    requires |matches| > 0
    ensures HasHref(matches, h) <==> HasHref(matches[..|matches| - 1], h) || matches[|matches| - 1].href == h
  {
    var front := matches[..|matches| - 1];
    if HasHref(matches, h) && matches[|matches| - 1].href != h {
      var i :| 0 <= i < |matches| && matches[i].href == h;
      assert front[i].href == h;
    }
    if HasHref(front, h) {
      var i :| 0 <= i < |front| && front[i].href == h;
      assert matches[i].href == h;
    }
  }

  /** The distinct hrefs of `matches` in order of first appearance: the enumeration order of the dictionary. */
  function DistinctHrefs(matches: seq<AnchorMatch>): (r: seq<string>)
    ensures forall i, j :: 0 <= i < j < |r| ==> r[i] != r[j]
    ensures forall h :: h in r <==> HasHref(matches, h)
    decreases |matches|
  {
    if matches == [] then []
    else
      var front := DistinctHrefs(matches[..|matches| - 1]);
      var last := matches[|matches| - 1];
      assert forall h :: HasHref(matches, h) <==> HasHref(matches[..|matches| - 1], h) || last.href == h by {
        forall h ensures HasHref(matches, h) <==> HasHref(matches[..|matches| - 1], h) || last.href == h {
          HasHrefSnoc(matches, h);
        }
      }
      if last.href in front then front else front + [last.href]
  }

  /** The dictionary after the loop: each href mapped to the tag-stripped text of an anchor carrying it. */
  function AnchorTexts(matches: seq<AnchorMatch>, stripTags: string -> string): (texts: map<string, string>)
    ensures forall h :: h in texts <==> HasHref(matches, h)
    decreases |matches|
  {
    if matches == [] then map[]
    else
      var last := matches[|matches| - 1];
      var front := matches[..|matches| - 1];
      assert forall h :: HasHref(matches, h) <==> HasHref(front, h) || last.href == h by {
        forall h ensures HasHref(matches, h) <==> HasHref(front, h) || last.href == h {
          HasHrefSnoc(matches, h);
        }
      }
      AnchorTexts(front, stripTags)[last.href := stripTags(last.inner)]
  }

  /** When an href appears on several anchors, the text of the last one wins. */
  lemma {:induction false} AnchorTextsLastWins(matches: seq<AnchorMatch>, stripTags: string -> string, i: nat)
    requires i < |matches|
    requires forall j :: i < j < |matches| ==> matches[j].href != matches[i].href
    ensures AnchorTexts(matches, stripTags)[matches[i].href] == stripTags(matches[i].inner)
    decreases |matches|
  {
    if i < |matches| - 1 {
      var front := matches[..|matches| - 1];
      assert front[i] == matches[i];
      AnchorTextsLastWins(front, stripTags, i);
    }
  }

  /** The `while (match.Success)` loop of `ParseLinks`: fills the href-keyed dictionary. */
  method CollectAnchors(matches: seq<AnchorMatch>, stripTags: string -> string)
    returns (hrefs: seq<string>, texts: map<string, string>)
    ensures hrefs == DistinctHrefs(matches) && texts == AnchorTexts(matches, stripTags)
  {
    hrefs, texts := [], map[];
    var i := 0;
    while i < |matches|
      invariant 0 <= i <= |matches|
      invariant hrefs == DistinctHrefs(matches[..i]) && texts == AnchorTexts(matches[..i], stripTags)
    {
      var urlKey := matches[i].href;
      var urlValue := stripTags(matches[i].inner);
      assert matches[..i + 1][..i] == matches[..i];
      assert urlKey in texts <==> urlKey in hrefs;
      if urlKey !in texts {
        hrefs := hrefs + [urlKey];
      }
      texts := texts[urlKey := urlValue];
      i := i + 1;
    }
    assert matches[..i] == matches;
  }

  /** What the `foreach` over the dictionary produces: the admitted items, and whether it was cut short by an exception. */
  datatype LinkRun = LinkRun(items: seq<UrlInfo>, threw: bool)

  /** The outcome of considering `hrefs` in order. */
  function RunLinks(settings: Settings.Snapshot, env: Environment, page: UrlInfo, hrefs: seq<string>, texts: map<string, string>)
    : (r: LinkRun)
    requires forall h :: h in hrefs ==> h in texts
    ensures |r.items| <= |hrefs|
    ensures forall it :: it in r.items ==> it.depth == page.depth + 1
    decreases |hrefs|
  {
    if hrefs == [] then LinkRun([], false)
    else
      var front := RunLinks(settings, env, page, hrefs[..|hrefs| - 1], texts);
      var last := hrefs[|hrefs| - 1];
      assert forall h :: h in hrefs[..|hrefs| - 1] ==> h in hrefs;
      if front.threw then front
      else
        match ConsiderLink(settings, env, page, last, texts[last])
        case Admitted(item) => LinkRun(front.items + [item], false)
        case Dropped => front
        case Threw => LinkRun(front.items, true)
  }

  /** Every item of a run was admitted by the filter chain for one of the hrefs. */
  lemma {:induction false} RunLinksAdmitted(settings: Settings.Snapshot, env: Environment, page: UrlInfo,
                                            hrefs: seq<string>, texts: map<string, string>, it: UrlInfo)
    requires forall h :: h in hrefs ==> h in texts
    requires it in RunLinks(settings, env, page, hrefs, texts).items
    ensures exists h :: h in hrefs && ConsiderLink(settings, env, page, h, texts[h]) == Admitted(it)
    ensures IsMatchRegular(settings.regularFilterExpressions, env.regexIsMatch, it.url) == Some(true)
    decreases |hrefs|
  {
    var front := hrefs[..|hrefs| - 1];
    var last := hrefs[|hrefs| - 1];
    assert forall h :: h in front ==> h in hrefs;
    var prev := RunLinks(settings, env, page, front, texts);
    if it in prev.items {
      RunLinksAdmitted(settings, env, page, front, texts, it);
    } else {
      assert ConsiderLink(settings, env, page, last, texts[last]) == Admitted(it);
    }
  }

  /** The depth gate: a page at or beyond a non-zero `Depth` contributes no links. */
  predicate DepthGated(settings: Settings.Snapshot, page: UrlInfo)
  {
    settings.depth > 0 && page.depth >= settings.depth as int
  }

  /** The links `ParseLinks` enqueues for a page, and whether it throws. */
  function PageLinks(settings: Settings.Snapshot, env: Environment, page: UrlInfo, matches: seq<AnchorMatch>): (r: LinkRun)
    ensures DepthGated(settings, page) ==> r == LinkRun([], false)
    ensures forall it :: it in r.items ==> it.depth == page.depth + 1
    ensures settings.depth > 0 ==> forall it :: it in r.items ==> it.depth <= settings.depth as int
  {
    if DepthGated(settings, page) then LinkRun([], false)
    else RunLinks(settings, env, page, DistinctHrefs(matches), AnchorTexts(matches, env.stripTags))
  }

  // ---------------------------------------------------------------------------
  // The page's encoding

  /** The meta charset as `ParseContent` cleans it: cut at the first space, double quotes removed. */
  function CleanCharset(captured: string): (r: string)
    ensures ' ' !in r && '"' !in r
    ensures |r| <= |captured|
    decreases |captured|
  {
    if captured == [] || captured[0] == ' ' then ""
    else if captured[0] == '"' then CleanCharset(captured[1..])
    else [captured[0]] + CleanCharset(captured[1..])
  }

  /** `s` with every double quote removed, everything else kept in order. */
  function Unquoted(s: string): (r: string)
    ensures '"' !in r
    ensures '"' !in s ==> r == s
    decreases |s|
  {
    if s == [] then ""
    else (if s[0] == '"' then "" else [s[0]]) + Unquoted(s[1..])
  }

  /** Removing quotes keeps every other character as often as it occurs. */
  lemma {:induction false} UnquotedKeepsOthers(s: string, c: char)
    requires c != '"'
    ensures multiset(Unquoted(s))[c] == multiset(s)[c]
    decreases |s|
  {
    if s != [] {
      UnquotedKeepsOthers(s[1..], c);
      assert s == [s[0]] + s[1..];
    }
  }

  /** Cleaning yields the part before the first space, with its quotes removed. */
  lemma {:induction false} CleanCharsetKeeps(captured: string, pre: string, post: string)
    requires captured == pre + post && ' ' !in pre
    requires post == [] || post[0] == ' '
    ensures CleanCharset(captured) == Unquoted(pre)
    decreases |pre|
  {
    if pre != [] {
      assert captured[1..] == pre[1..] + post;
      CleanCharsetKeeps(captured[1..], pre[1..], post);
    }
  }

  /** A quote before the first space is skipped as if it were not there. */
  lemma CleanCharsetSkipsQuote(a: string, b: string)
    requires ' ' !in a
    ensures CleanCharset(a + "\"" + b) == CleanCharset(a + b)
  {
    var cut := FirstSpaceCut(b);
    var quote := "\"";
    var front, rest := b[..cut], b[cut..];
    assert b == front + rest;
    assert a + quote + b == (a + quote + front) + rest;
    assert a + b == (a + front) + rest;
    assert ' ' !in a + quote + front && ' ' !in a + front;
    CleanCharsetKeeps(a + quote + b, a + quote + front, rest);
    CleanCharsetKeeps(a + b, a + front, rest);
    UnquotedDropsQuote(a, front);
  }

  lemma UnquotedDropsQuote(a: string, b: string)
    ensures Unquoted(a + "\"" + b) == Unquoted(a + b)
  {
    var quote := "\"";
    assert quote[0] == '"' && quote[1..] == "";
    assert Unquoted(quote) == "";
    UnquotedConcat(a, quote);
    assert Unquoted(a + quote) == Unquoted(a);
    UnquotedConcat(a + quote, b);
    UnquotedConcat(a, b);
  }

  /** The length of the longest prefix of `s` without a space. */
  function FirstSpaceCut(s: string): (n: nat)
    ensures n <= |s| && ' ' !in s[..n] && (n == |s| || s[n] == ' ')
  {
    if s == [] || s[0] == ' ' then 0
    else
      var n := 1 + FirstSpaceCut(s[1..]);
      assert s[..n] == [s[0]] + s[1..][..n - 1];
      n
  }

  lemma {:induction false} UnquotedConcat(a: string, b: string)
    ensures Unquoted(a + b) == Unquoted(a) + Unquoted(b)
    decreases |a|
  {
    if a != [] {
      var ab := a + b;
      var head: string := if a[0] == '"' then "" else [a[0]];
      assert ab[0] == a[0] && ab[1..] == a[1..] + b;
      assert Unquoted(ab) == head + Unquoted(a[1..] + b);
      assert Unquoted(a) == head + Unquoted(a[1..]);
      UnquotedConcat(a[1..], b);
    } else {
      assert a + b == b;
    }
  }

  /** The `foreach` with its `break` at a space that builds the cleaned charset. */
  method CleanMetaCharset(captured: string) returns (r: string)
    ensures r == CleanCharset(captured)
  {
    r := "";
    var i := 0;
    while i < |captured|
      invariant 0 <= i <= |captured|
      invariant ' ' !in captured[..i]
      invariant r + CleanCharset(captured[i..]) == CleanCharset(captured)
    {
      var item := captured[i];
      if item == ' ' {
        break;
      }
      if item != '"' {
        r := r + [item];
      }
      assert captured[..i + 1] == captured[..i] + [item];
      i := i + 1;
    }
    if i < |captured| {
      assert CleanCharset(captured[i..]) == "";
    }
    assert r == CleanCharset(captured);
  }

  /** The encoding the page text is decoded with. */
  datatype Encoding = Ascii | Named(name: string)

  /**
   * The encoding choice of `ParseContent`: the cleaned meta charset if the
   * page declares one that is not empty after cleaning, else the HTTP header
   * charset, else the ASCII decoding stands.
   */
  function ChooseEncoding(metaCharset: Option<string>, headerCharset: Option<string>): (e: Encoding)
    ensures e.Named? ==> e.name != ""
    ensures metaCharset.Some? && CleanCharset(metaCharset.value) != "" ==> e == Named(CleanCharset(metaCharset.value))
    ensures metaCharset.None? || CleanCharset(metaCharset.value) == "" ==>
              e == if IsNullOrEmpty(headerCharset) then Ascii else Named(headerCharset.value)
  {
    var local := if metaCharset.Some? then Some(CleanCharset(metaCharset.value)) else headerCharset;
    var chosen := if IsNullOrEmpty(local) then headerCharset else local;
    if IsNullOrEmpty(chosen) then Ascii else Named(chosen.value)
  }

  // ---------------------------------------------------------------------------
  // The crawl master

  /** What the crawl master reports for a page it has fetched. */
  datatype CrawlEvent =
    | DataReceived(url: string, depth: int, html: string)
    | CrawlError(url: string)

  class CrawlMaster {
    const settings: Settings.Snapshot
    const env: Environment
    /** Everything enqueued on the shared URL queue, in order. */
    var frontier: seq<UrlInfo>
    var events: seq<CrawlEvent>

    /** With a depth limit, nothing deeper than the limit is ever enqueued. */
    ghost predicate DepthBounded()
      reads this
    {
      settings.depth > 0 ==> forall it :: it in frontier ==> it.depth <= settings.depth as int
    }

    constructor (settings: Settings.Snapshot, env: Environment)
      ensures this.settings == settings && this.env == env
      ensures frontier == [] && events == [] && DepthBounded()
    {
      this.settings := settings;
      this.env := env;
      frontier, events := [], [];
    }

    /** Enqueues the seed addresses that look like web URLs, at depth 1, in list order. */
    method Initialize()
      modifies this
      ensures frontier == old(frontier) + SeedItems(settings.seedsAddress)
      ensures events == old(events)
      ensures old(DepthBounded()) ==> DepthBounded()
    {
      var seeds := settings.seedsAddress;
      if |seeds| > 0 {
        for i := 0 to |seeds|
          invariant frontier == old(frontier) + SeedItems(seeds[..i])
          invariant events == old(events)
        {
          assert seeds[..i + 1][..i] == seeds[..i];
          if IsWebUrl(seeds[i]) {
            frontier := frontier + [UrlInfo(seeds[i], 1)];
          }
        }
        assert seeds[..|seeds|] == seeds;
      }
    }

    /**
     * Collects the page's anchors by href, runs each distinct href through the
     * filter chain and enqueues the admitted ones one level deeper. Returns
     * whether an exception cut the page short.
     */
    method ParseLinks(page: UrlInfo, matches: seq<AnchorMatch>) returns (threw: bool)
      modifies this
      ensures frontier == old(frontier) + PageLinks(settings, env, page, matches).items
      ensures threw == PageLinks(settings, env, page, matches).threw
      ensures events == old(events)
      ensures old(DepthBounded()) ==> DepthBounded()
    {
      if settings.depth > 0 && page.depth >= settings.depth as int {
        return false;
      }
      var hrefs, texts := CollectAnchors(matches, env.stripTags);
      threw := EnqueueLinks(page, hrefs, texts);
    }

    /** The `foreach` over the dictionary: each href in turn, until one throws. */
    method EnqueueLinks(page: UrlInfo, hrefs: seq<string>, texts: map<string, string>) returns (threw: bool)
      requires forall h :: h in hrefs ==> h in texts
      modifies this
      ensures frontier == old(frontier) + RunLinks(settings, env, page, hrefs, texts).items
      ensures threw == RunLinks(settings, env, page, hrefs, texts).threw
      ensures events == old(events)
    {
      var i := 0;
      while i < |hrefs|
        invariant 0 <= i <= |hrefs|
        invariant !RunLinks(settings, env, page, hrefs[..i], texts).threw
        invariant frontier == old(frontier) + RunLinks(settings, env, page, hrefs[..i], texts).items
        invariant events == old(events)
      {
        var stop := EnqueueLink(page, hrefs, texts, i, old(frontier));
        if stop {
          RunStaysThrown(settings, env, page, hrefs, texts, i + 1);
          assert hrefs[..|hrefs|] == hrefs;
          return true;
        }
        i := i + 1;
      }
      assert hrefs[..|hrefs|] == hrefs;
      threw := false;
    }

    /** One turn of the `foreach`: the `i`-th href is filtered and, when admitted, enqueued. */
    method EnqueueLink(page: UrlInfo, hrefs: seq<string>, texts: map<string, string>, i: nat, ghost base: seq<UrlInfo>)
      returns (threw: bool)
      requires forall h :: h in hrefs ==> h in texts
      requires i < |hrefs| && !RunLinks(settings, env, page, hrefs[..i], texts).threw
      requires frontier == base + RunLinks(settings, env, page, hrefs[..i], texts).items
      modifies this
      ensures frontier == base + RunLinks(settings, env, page, hrefs[..i + 1], texts).items
      ensures threw == RunLinks(settings, env, page, hrefs[..i + 1], texts).threw
      ensures events == old(events)
    {
      var href := hrefs[i];
      var outcome := ConsiderLink(settings, env, page, href, texts[href]);
      RunLinksSnoc(settings, env, page, hrefs, texts, i, outcome);
      threw := outcome.Threw?;
      if outcome.Admitted? {
        frontier := frontier + [outcome.item];
      }
    }

    /**
     * The part of a worker's loop after the page is decoded: parse its links,
     * then report the page, or report an error instead when parsing threw.
     */
    method ProcessPage(page: UrlInfo, html: string, matches: seq<AnchorMatch>)
      modifies this
      ensures frontier == old(frontier) + PageLinks(settings, env, page, matches).items
      ensures events == old(events) + [if PageLinks(settings, env, page, matches).threw
                                       then CrawlError(page.url) else DataReceived(page.url, page.depth, html)]
      ensures old(DepthBounded()) ==> DepthBounded()
    {
      var threw := ParseLinks(page, matches);
      if threw {
        events := events + [CrawlError(page.url)];
      } else {
        events := events + [DataReceived(page.url, page.depth, html)];
      }
    }
  }

  /** One more href: the run over `hrefs[..i + 1]` from the run over `hrefs[..i]` and the outcome `o` of `hrefs[i]`. */
  lemma RunLinksSnoc(settings: Settings.Snapshot, env: Environment, page: UrlInfo,
                     hrefs: seq<string>, texts: map<string, string>, i: nat, o: LinkOutcome)
    requires forall h :: h in hrefs ==> h in texts
    requires i < |hrefs| && o == ConsiderLink(settings, env, page, hrefs[i], texts[hrefs[i]])
    requires !RunLinks(settings, env, page, hrefs[..i], texts).threw
    ensures o.Admitted? ==> RunLinks(settings, env, page, hrefs[..i + 1], texts)
                            == LinkRun(RunLinks(settings, env, page, hrefs[..i], texts).items + [o.item], false)
    ensures o.Dropped? ==> RunLinks(settings, env, page, hrefs[..i + 1], texts) == RunLinks(settings, env, page, hrefs[..i], texts)
    ensures o.Threw? ==> RunLinks(settings, env, page, hrefs[..i + 1], texts).threw
                         && RunLinks(settings, env, page, hrefs[..i + 1], texts).items == RunLinks(settings, env, page, hrefs[..i], texts).items
  {
    assert hrefs[..i + 1][..i] == hrefs[..i];
  }

  /** Once the run over a prefix has thrown, the run over any longer prefix has thrown with the same items. */
  lemma {:induction false} RunStaysThrown(settings: Settings.Snapshot, env: Environment, page: UrlInfo,
                                          hrefs: seq<string>, texts: map<string, string>, i: nat)
    requires forall h :: h in hrefs ==> h in texts
    requires i <= |hrefs| && RunLinks(settings, env, page, hrefs[..i], texts).threw
    ensures RunLinks(settings, env, page, hrefs, texts) == RunLinks(settings, env, page, hrefs[..i], texts)
    decreases |hrefs| - i
  {
    if i < |hrefs| {
      assert hrefs[..i + 1][..i] == hrefs[..i];
      RunStaysThrown(settings, env, page, hrefs, texts, i + 1);
    } else {
      assert hrefs[..i] == hrefs;
    }
  }
}
