/**
 * The sitemap walk of the sitemap tool: starting from the sitemaps a
 * robots.txt names, it loads every sitemap once (by location), follows the
 * sitemaps an index lists, and offers the location of every page entry to a
 * link sink. The loader is a collaborator given as a function: an outer
 * `None` is a load that throws (the fetch fails, the content is not XML, or
 * the parser throws on it), an inner `None` is the `null` the parser returns
 * for content it does not recognise.
 */
module SitemapWalk {
  import opened Wrappers
  import opened Web
  import opened Sitemaps

  /** No location occurs twice: none occurs before itself in the list. */
  ghost predicate Distinct(uris: seq<Uri>)
    decreases |uris|
  {
    uris == [] || (uris[|uris| - 1] !in uris[..|uris| - 1] && Distinct(uris[..|uris| - 1]))
  }

  /** The locations of a list of sitemaps, those that have one. */
  ghost function Locations(sitemaps: seq<Sitemap>): set<Uri>
  {
    set s | s in sitemaps && s.location.Some? :: s.location.value
  }

  /** Every sitemap of the list has a location, and that location has been visited. */
  ghost predicate Resolved(sitemaps: seq<Sitemap>, uris: seq<Uri>)
  {
    forall s :: s in sitemaps ==> s.location.Some? && s.location.value in uris
  }

  /**
   * The visited list after the duplicate-skipping loop over `sitemaps`: each
   * location not visited yet is appended, in order.
   */
  function Enqueue(seen: seq<Uri>, sitemaps: seq<Sitemap>): (r: seq<Uri>)
    ensures |seen| <= |r| && r[..|seen|] == seen
    ensures Distinct(seen) ==> Distinct(r)
    ensures forall u :: u in r <==> u in seen || u in Locations(sitemaps)
    decreases |sitemaps|
  {
    if sitemaps == [] then seen
    else
      var front := sitemaps[..|sitemaps| - 1];
      var last := sitemaps[|sitemaps| - 1];
      assert forall s :: s in sitemaps <==> s in front || s == last;
      var s := Enqueue(seen, front);
      if last.location.None? || last.location.value in s then s
      else
        assert (s + [last.location.value])[..|s|] == s;
        s + [last.location.value]
  }

  /** The locations of a prefix of a list are among those of the list. */
  lemma LocationsPrefix(sitemaps: seq<Sitemap>, k: nat)
    requires k <= |sitemaps|
    ensures Locations(sitemaps[..k]) <= Locations(sitemaps)
  {
    forall u | u in Locations(sitemaps[..k]) ensures u in Locations(sitemaps) {
      var s :| s in sitemaps[..k] && s.location.Some? && s.location.value == u;
      assert s in sitemaps;
    }
  }

  /** Going through one more sitemap of the list: its location is appended unless missing or already visited. */
  lemma EnqueueStep(seen: seq<Uri>, sitemaps: seq<Sitemap>, k: nat)
    requires k < |sitemaps|
    ensures var s := Enqueue(seen, sitemaps[..k]);
            var l := sitemaps[k].location;
            Enqueue(seen, sitemaps[..k + 1]) == if l.None? || l.value in s then s else s + [l.value]
    ensures forall s :: s in sitemaps[..k + 1] <==> s in sitemaps[..k] || s == sitemaps[k]
  {
    assert sitemaps[..k + 1][..k] == sitemaps[..k];
  }

  /** Loading each location of `uris` returned, without throwing, the entry of `loaded` at the same place. */
  ghost predicate Loads(load: Uri -> Option<Option<Sitemap>>, uris: seq<Uri>, loaded: seq<Option<Sitemap>>)
    decreases |uris|
  {
    && |loaded| == |uris|
    && (uris == [] ||
        (load(uris[|uris| - 1]) == Some(loaded[|loaded| - 1]) && Loads(load, uris[..|uris| - 1], loaded[..|loaded| - 1])))
  }

  /** Each loaded entry is what the loader returned for the location at the same place. */
  lemma {:induction false} LoadsAt(load: Uri -> Option<Option<Sitemap>>, uris: seq<Uri>, loaded: seq<Option<Sitemap>>, k: nat)
    requires Loads(load, uris, loaded) && k < |uris|
    ensures load(uris[k]) == Some(loaded[k])
    decreases |uris|
  {
    if k < |uris| - 1 {
      var front, loadedFront := uris[..|uris| - 1], loaded[..|loaded| - 1];
      assert front[k] == uris[k] && loadedFront[k] == loaded[k];
      LoadsAt(load, front, loadedFront, k);
    }
  }

  /** A visited location was loaded without a throw. */
  lemma LoadsMember(load: Uri -> Option<Option<Sitemap>>, uris: seq<Uri>, loaded: seq<Option<Sitemap>>, u: Uri)
    requires Loads(load, uris, loaded) && u in uris
    ensures load(u).Some?
  {
    var k :| 0 <= k < |uris| && uris[k] == u;
    LoadsAt(load, uris, loaded, k);
  }

  /** Each location occurs once in `uris`, and `loaded` holds what `load` returns for each. */
  ghost predicate Tracks(load: Uri -> Option<Option<Sitemap>>, uris: seq<Uri>, loaded: seq<Option<Sitemap>>)
  {
    Distinct(uris) && Loads(load, uris, loaded)
  }

  /** Recording and loading a location not visited yet keeps the two lists in step. */
  lemma TracksSnoc(load: Uri -> Option<Option<Sitemap>>, uris: seq<Uri>, loaded: seq<Option<Sitemap>>, u: Uri)
    requires Tracks(load, uris, loaded) && u !in uris && load(u).Some?
    ensures Tracks(load, uris + [u], loaded + [load(u).value])
  {
    assert (uris + [u])[..|uris|] == uris;
    assert (loaded + [load(u).value])[..|loaded|] == loaded;
  }

  /** The URL strings of a list of page entries, in order. */
  function ItemUris(items: seq<SitemapItem>): (r: seq<string>)
    ensures |r| == |items| && forall k :: 0 <= k < |r| ==> r[k] == items[k].location.absoluteUri
  {
    seq(|items|, k requires 0 <= k < |items| => items[k].location.absoluteUri)
  }

  /** The URLs offered to the sink for a list of loaded sitemaps: the entries of the item sitemaps, in order. */
  function Offers(loaded: seq<Option<Sitemap>>): (r: seq<string>)
    ensures loaded == [] ==> r == []
    decreases |loaded|
  {
    if loaded == [] then []
    else
      var last := loaded[|loaded| - 1];
      Offers(loaded[..|loaded| - 1]) + (if last.Some? && last.value.sitemapType == Items then ItemUris(last.value.items) else [])
  }

  /** The locations the index sitemaps among `loaded` list. */
  ghost function IndexLocations(loaded: seq<Option<Sitemap>>): set<Uri>
    decreases |loaded|
  {
    if loaded == [] then {}
    else
      var last := loaded[|loaded| - 1];
      IndexLocations(loaded[..|loaded| - 1]) + (if last.Some? && last.value.sitemapType == Index then Locations(last.value.sitemaps) else {})
  }

  /** Going through one more loaded sitemap adds its entries to the offers and its children to the index locations. */
  lemma PrefixStep(loaded: seq<Option<Sitemap>>, i: nat)
    requires i < |loaded|
    ensures Offers(loaded[..i + 1]) == Offers(loaded[..i])
              + (if loaded[i].Some? && loaded[i].value.sitemapType == Items then ItemUris(loaded[i].value.items) else [])
    ensures IndexLocations(loaded[..i + 1]) == IndexLocations(loaded[..i])
              + (if loaded[i].Some? && loaded[i].value.sitemapType == Index then Locations(loaded[i].value.sitemaps) else {})
  {
    assert loaded[..i + 1][..i] == loaded[..i];
  }

  /** The index locations of a prefix are among those of the whole list. */
  lemma {:induction false} IndexLocationsGrow(loaded: seq<Option<Sitemap>>, n: nat)
    requires n <= |loaded|
    ensures IndexLocations(loaded[..n]) <= IndexLocations(loaded)
    decreases |loaded| - n
  {
    if n == |loaded| {
      assert loaded[..n] == loaded;
    } else {
      PrefixStep(loaded, n);
      IndexLocationsGrow(loaded, n + 1);
    }
  }

  /** What a list holds, any extension of it holds. */
  lemma PrefixMembers(front: seq<Uri>, uris: seq<Uri>)
    requires |front| <= |uris| && uris[..|front|] == front
    ensures forall u :: u in front ==> u in uris
  {
    forall u | u in front ensures u in uris {
      var k :| 0 <= k < |front| && front[k] == u;
      assert uris[k] == u;
    }
  }

  /** No sitemap of the list is null, and every child of an index among them has been visited. */
  ghost predicate Walked(loaded: seq<Option<Sitemap>>, uris: seq<Uri>)
  {
    forall k :: 0 <= k < |loaded| ==>
      loaded[k].Some? && (loaded[k].value.sitemapType == Index ==> Resolved(loaded[k].value.sitemaps, uris))
  }

  /** Visiting one more loaded sitemap, and only adding locations, keeps the walked prefix walked. */
  lemma WalkedStep(loaded: seq<Option<Sitemap>>, i: nat, before: seq<Uri>, after: seq<Uri>)
    requires i < |loaded| && Walked(loaded[..i], before) && loaded[i].Some?
    requires loaded[i].value.sitemapType == Index ==> Resolved(loaded[i].value.sitemaps, after)
    requires |before| <= |after| && after[..|before|] == before
    ensures Walked(loaded[..i + 1], after)
  {
    PrefixMembers(before, after);
    var prefix := loaded[..i + 1];
    forall k | 0 <= k < i + 1
      ensures prefix[k].Some?
      ensures prefix[k].value.sitemapType == Index ==> Resolved(prefix[k].value.sitemaps, after)
    {
      if k < i {
        assert loaded[..i][k] == loaded[k] == prefix[k];
      }
    }
  }

  /** Visiting more locations keeps a list of sitemaps resolved. */
  lemma ResolvedGrows(sitemaps: seq<Sitemap>, before: seq<Uri>, after: seq<Uri>)
    requires Resolved(sitemaps, before)
    requires |before| <= |after| && after[..|before|] == before
    ensures Resolved(sitemaps, after)
  {
    PrefixMembers(before, after);
  }

  /** Every location of the list lies in `universe`. */
  ghost predicate Within(uris: seq<Uri>, universe: set<Uri>)
    decreases |uris|
  {
    uris == [] || (uris[|uris| - 1] in universe && Within(uris[..|uris| - 1], universe))
  }

  /** `Within` is membership of every element, in both directions. */
  lemma {:induction false} WithinIff(uris: seq<Uri>, universe: set<Uri>)
    ensures Within(uris, universe) <==> forall k :: 0 <= k < |uris| ==> uris[k] in universe
    decreases |uris|
  {
    if uris != [] {
      var front := uris[..|uris| - 1];
      assert forall k :: 0 <= k < |front| ==> front[k] == uris[k];
      WithinIff(front, universe);
    }
  }

  /** The `k`-th location of a list within `universe` lies in it. */
  lemma {:induction false} WithinAt(uris: seq<Uri>, universe: set<Uri>, k: nat)
    requires Within(uris, universe) && k < |uris|
    ensures uris[k] in universe
    decreases |uris|
  {
    if k < |uris| - 1 {
      var front := uris[..|uris| - 1];
      assert front[k] == uris[k];
      WithinAt(front, universe, k);
    }
  }

  /** A distinct list drawn from a finite set is no longer than the set. */
  lemma {:induction false} DistinctBound(uris: seq<Uri>, universe: set<Uri>)
    requires Distinct(uris) && Within(uris, universe)
    ensures |uris| <= |universe|
    decreases |uris|
  {
    if uris != [] {
      var last := uris[|uris| - 1];
      var front := uris[..|uris| - 1];
      WithinIff(front, universe);
      forall k | 0 <= k < |front| ensures front[k] in universe - {last} {
        assert front[k] in front;
      }
      WithinIff(front, universe - {last});
      DistinctBound(front, universe - {last});
    }
  }

  /**
   * The visited list extends `uris0`, and every location added since was
   * named by robots.txt or by an index sitemap among `loaded`.
   */
  ghost predicate Sourced(robots: Sitemap, uris0: seq<Uri>, uris: seq<Uri>, loaded: seq<Option<Sitemap>>)
  {
    && |uris0| <= |uris| && uris[..|uris0|] == uris0
    && forall u :: u in uris ==> u in uris0 || u in Locations(robots.sitemaps) || u in IndexLocations(loaded)
  }

  /**
   * What holds after the first `i` loaded sitemaps have been gone through:
   * every visited location lies in `universe` and was visited before the walk
   * (`uris0`), or is named by robots.txt or by an index gone through; what
   * robots.txt names and what the walked prefix lists has been visited; and
   * the sink was offered the entries of the item sitemaps gone through.
   */
  ghost predicate WalkState(robots: Sitemap, universe: set<Uri>, uris0: seq<Uri>, offered0: seq<string>, i: nat,
                            uris: seq<Uri>, loaded: seq<Option<Sitemap>>, offered: seq<string>)
  {
    && i <= |loaded|
    && Within(uris, universe)
    && |uris0| <= |uris| && uris[..|uris0|] == uris0
    && (forall u :: u in uris ==> u in uris0 || u in Locations(robots.sitemaps) || u in IndexLocations(loaded[..i]))
    && Resolved(robots.sitemaps, uris)
    && Walked(loaded[..i], uris)
    && offered == offered0 + Offers(loaded[..i])
  }

  /** Going through the `i`-th loaded sitemap without a throw moves the walk on by one. */
  lemma WalkStateStep(robots: Sitemap, universe: set<Uri>, uris0: seq<Uri>, offered0: seq<string>, i: nat,
                      uris: seq<Uri>, loaded: seq<Option<Sitemap>>, offered: seq<string>,
                      uris': seq<Uri>, loaded': seq<Option<Sitemap>>, offered': seq<string>)
    requires WalkState(robots, universe, uris0, offered0, i, uris, loaded, offered)
    requires i < |loaded| && loaded[i].Some?
    requires |uris| <= |uris'| && uris'[..|uris|] == uris
    requires |loaded| <= |loaded'| && loaded'[..|loaded|] == loaded
    requires var s := loaded[i].value;
             && (s.sitemapType == Index ==> Resolved(s.sitemaps, uris') && Locations(s.sitemaps) <= universe)
             && (s.sitemapType != Index ==> uris' == uris)
             && (forall u :: u in uris' ==> u in uris || u in Locations(s.sitemaps))
             && offered' == offered + (if s.sitemapType == Items then ItemUris(s.items) else [])
    ensures WalkState(robots, universe, uris0, offered0, i + 1, uris', loaded', offered')
  {
    PrefixStep(loaded, i);
    assert loaded'[..i + 1] == loaded[..i + 1];
    ResolvedGrows(robots.sitemaps, uris, uris');
    WalkedStep(loaded, i, uris, uris');
    WithinIff(uris, universe);
    forall k | 0 <= k < |uris'| ensures uris'[k] in universe {
      if k < |uris| {
        assert uris'[k] == uris[k];
      } else {
        assert uris'[k] in uris' ;
      }
    }
    WithinIff(uris', universe);
    assert uris'[..|uris0|] == uris0 by {
      assert uris'[..|uris0|] == uris'[..|uris|][..|uris0|];
    }
  }

  /** The walk starts once the sitemaps robots.txt names are enqueued. */
  lemma WalkStateStart(robots: Sitemap, universe: set<Uri>, uris0: seq<Uri>, offered0: seq<string>,
                       uris: seq<Uri>, loaded: seq<Option<Sitemap>>)
    requires forall k :: 0 <= k < |uris0| ==> uris0[k] in universe
    requires Locations(robots.sitemaps) <= universe
    requires |uris0| <= |uris| && uris[..|uris0|] == uris0
    requires Resolved(robots.sitemaps, uris)
    requires forall u :: u in uris ==> u in uris0 || u in Locations(robots.sitemaps)
    ensures WalkState(robots, universe, uris0, offered0, 0, uris, loaded, offered0)
  {
    assert loaded[..0] == [];
    forall k | 0 <= k < |uris| ensures uris[k] in universe {
      if k < |uris0| {
        assert uris[k] == uris0[k];
      } else {
        assert uris[k] in uris;
      }
    }
    WithinIff(uris, universe);
  }

  /** Wherever the walk stops, the visited locations come from before the walk, robots.txt or an index. */
  lemma WalkStateSources(robots: Sitemap, universe: set<Uri>, uris0: seq<Uri>, offered0: seq<string>, i: nat,
                         uris: seq<Uri>, loaded: seq<Option<Sitemap>>, offered: seq<string>)
    requires WalkState(robots, universe, uris0, offered0, i, uris, loaded, offered)
    ensures Sourced(robots, uris0, uris, loaded)
  {
    IndexLocationsGrow(loaded, i);
  }

  /** A walk that has gone through the whole loaded list has visited everything it names and offered every entry. */
  lemma WalkStateDone(robots: Sitemap, universe: set<Uri>, uris0: seq<Uri>, offered0: seq<string>,
                      uris: seq<Uri>, loaded: seq<Option<Sitemap>>, offered: seq<string>)
    requires WalkState(robots, universe, uris0, offered0, |loaded|, uris, loaded, offered)
    ensures Resolved(robots.sitemaps, uris) && Walked(loaded, uris) && offered == offered0 + Offers(loaded)
  {
    assert loaded[..|loaded|] == loaded;
  }

  /** A list within `universe` stays within it when only locations from a subset of it are added. */
  lemma WithinGrows(uris: seq<Uri>, uris': seq<Uri>, universe: set<Uri>, added: set<Uri>)
    requires Within(uris, universe) && added <= universe
    requires forall u :: u in uris' ==> u in uris || u in added
    ensures Within(uris', universe)
  {
    WithinIff(uris, universe);
    forall k | 0 <= k < |uris'| ensures uris'[k] in universe {
      assert uris'[k] in uris';
    }
    WithinIff(uris', universe);
  }

  /**
   * Enqueuing this listed sitemap throws: it has no location (loading `null`
   * throws), or loading its location throws. A location visited before was
   * loaded without a throw, so this does not depend on what has been visited.
   */
  predicate Blocks(load: Uri -> Option<Option<Sitemap>>, sitemap: Sitemap)
  {
    sitemap.location.None? || load(sitemap.location.value).None?
  }

  /**
   * Going through this loaded entry throws: it is `null`, or it is an index
   * listing a sitemap that `Blocks`.
   */
  predicate Throws(load: Uri -> Option<Option<Sitemap>>, entry: Option<Sitemap>)
  {
    entry.None? || (entry.value.sitemapType == Index && exists c :: c in entry.value.sitemaps && Blocks(load, c))
  }

  /** Some entry of the loaded list throws when gone through. */
  ghost predicate SomeThrows(load: Uri -> Option<Option<Sitemap>>, loaded: seq<Option<Sitemap>>)
  {
    exists k :: 0 <= k < |loaded| && Throws(load, loaded[k])
  }

  /** The loader never leaves `universe`: every index it returns for a location in it lists only locations in it. */
  ghost predicate Closed(load: Uri -> Option<Option<Sitemap>>, universe: set<Uri>)
  {
    forall u :: u in universe && load(u).Some? && load(u).value.Some? && load(u).value.value.sitemapType == Index ==>
      Locations(load(u).value.value.sitemaps) <= universe
  }

  /** A walked list, whose children were all loaded without a throw, has no entry that throws. */
  lemma WalkedNoThrow(load: Uri -> Option<Option<Sitemap>>, loaded: seq<Option<Sitemap>>, uris: seq<Uri>)
    requires Walked(loaded, uris) && Loads(load, uris, loaded)
    ensures !SomeThrows(load, loaded)
  {
    forall k | 0 <= k < |loaded| ensures !Throws(load, loaded[k]) {
      assert loaded[k].Some?;
      forall c | c in loaded[k].value.sitemaps && loaded[k].value.sitemapType == Index ensures !Blocks(load, c) {
        LoadsMember(load, uris, loaded, c.location.value);
      }
    }
  }

  /** A turn that throws still only adds locations named by the index it went through. */
  lemma SourcedStep(robots: Sitemap, uris0: seq<Uri>, uris: seq<Uri>, uris': seq<Uri>,
                    loaded: seq<Option<Sitemap>>, loaded': seq<Option<Sitemap>>, i: nat)
    requires i < |loaded| && loaded[i].Some?
    requires |uris0| <= |uris| && uris[..|uris0|] == uris0
    requires forall u :: u in uris ==> u in uris0 || u in Locations(robots.sitemaps) || u in IndexLocations(loaded[..i])
    requires |uris| <= |uris'| && uris'[..|uris|] == uris
    requires |loaded| <= |loaded'| && loaded'[..|loaded|] == loaded
    requires loaded[i].value.sitemapType != Index ==> uris' == uris
    requires forall u :: u in uris' ==> u in uris || u in Locations(loaded[i].value.sitemaps)
    ensures Sourced(robots, uris0, uris', loaded')
  {
    PrefixStep(loaded, i);
    assert loaded'[..i + 1] == loaded[..i + 1];
    IndexLocationsGrow(loaded', i + 1);
    assert uris'[..|uris0|] == uris'[..|uris|][..|uris0|];
  }

  /**
   * Going through the `i`-th loaded sitemap, a non-null one: whatever the turn
   * did to the lists (as `LoewTest.Visit` promises it), the walk stays sourced
   * and within `universe`, moves on by one when the turn did not throw, and
   * throws exactly when `Throws` says so.
   */
  lemma VisitedStep(robots: Sitemap, universe: set<Uri>, uris0: seq<Uri>, offered0: seq<string>, i: nat,
                    load: Uri -> Option<Option<Sitemap>>, ok: bool,
                    uris: seq<Uri>, loaded: seq<Option<Sitemap>>, offered: seq<string>,
                    uris': seq<Uri>, loaded': seq<Option<Sitemap>>, offered': seq<string>)
    requires WalkState(robots, universe, uris0, offered0, i, uris, loaded, offered)
    requires Tracks(load, uris, loaded) && Tracks(load, uris', loaded') && Closed(load, universe)
    requires i < |loaded| && loaded[i].Some?
    requires |uris| <= |uris'| && uris'[..|uris|] == uris
    requires |loaded| <= |loaded'| && loaded'[..|loaded|] == loaded
    requires var s := loaded[i].value;
             && (ok <==> s.sitemapType != Index || forall c :: c in s.sitemaps ==> !Blocks(load, c))
             && (ok && s.sitemapType == Index ==> Resolved(s.sitemaps, uris'))
             && (s.sitemapType != Index ==> uris' == uris)
             && (forall u :: u in uris' ==> u in uris || u in Locations(s.sitemaps))
             && offered' == offered + (if s.sitemapType == Items then ItemUris(s.items) else [])
    ensures Sourced(robots, uris0, uris', loaded') && Within(uris', universe)
    ensures ok ==> WalkState(robots, universe, uris0, offered0, i + 1, uris', loaded', offered') && |uris'| <= |universe|
    ensures !ok <==> Throws(load, loaded[i])
  {
    var s := loaded[i].value;
    WithinAt(uris, universe, i);
    LoadsAt(load, uris, loaded, i);
    PrefixStep(loaded, i);
    assert loaded'[..i + 1] == loaded[..i + 1];
    if ok {
      WalkStateStep(robots, universe, uris0, offered0, i, uris, loaded, offered, uris', loaded', offered');
      DistinctBound(uris', universe);
      WalkStateSources(robots, universe, uris0, offered0, i + 1, uris', loaded', offered');
    } else {
      SourcedStep(robots, uris0, uris, uris', loaded, loaded', i);
      WithinGrows(uris, uris', universe, Locations(s.sitemaps));
    }
  }

  datatype Outcome = Completed | Threw

  class LoewTest {
    /** `SitemapLoader.LoadAsync`, awaited; `None` when it throws. */
    const load: Uri -> Option<Option<Sitemap>>
    /** `_sitemapUris`: the sitemap locations visited, in order. */
    var sitemapUris: seq<Uri>
    /** `_loadedSitemaps`: what loading each visited location returned. */
    var loadedSitemaps: seq<Option<Sitemap>>
    /** The URLs passed to the link sink's `TryAdd`, in order. */
    var offered: seq<string>

    /** Each location is visited once and loaded without a throw, and the loaded list holds the loader's result for each, in the same order. */
    ghost predicate Valid()
      reads this
    {
      Tracks(load, sitemapUris, loadedSitemaps)
    }

    constructor (load: Uri -> Option<Option<Sitemap>>)
      ensures this.load == load && sitemapUris == [] && loadedSitemaps == [] && offered == []
      ensures Valid()
    {
      this.load := load;
      sitemapUris, loadedSitemaps, offered := [], [], [];
    }

    /**
     * The loop over the sitemaps a robots.txt or an index lists: a location
     * visited before is skipped, a new one is recorded and loaded. A missing
     * location, or a location whose load throws, ends the loop with a throw.
     */
    method EnqueueSitemaps(sitemaps: seq<Sitemap>) returns (ok: bool)
      requires Valid()
      modifies this
      ensures Valid() && offered == old(offered)
      ensures |old(sitemapUris)| <= |sitemapUris| && sitemapUris[..|old(sitemapUris)|] == old(sitemapUris)
      ensures |old(loadedSitemaps)| <= |loadedSitemaps| && loadedSitemaps[..|old(loadedSitemaps)|] == old(loadedSitemaps)
      ensures ok <==> forall s :: s in sitemaps ==> !Blocks(load, s)
      ensures ok ==> sitemapUris == Enqueue(old(sitemapUris), sitemaps)
      ensures forall u :: u in sitemapUris ==> u in old(sitemapUris) || u in Locations(sitemaps)
    {
      var k, uris, loaded := EnqueuePrefix(sitemapUris, loadedSitemaps, sitemaps);
      ok := k == |sitemaps|;
      LocationsPrefix(sitemaps, k);
      if ok {
        assert sitemaps[..k] == sitemaps;
      } else {
        assert sitemaps[k] in sitemaps;
      }
      sitemapUris, loadedSitemaps := uris, loaded;
    }

    /**
     * The loop of `EnqueueSitemaps` on the two lists: it goes through the
     * sitemaps, recording and loading each new location, until one has no
     * location or its load throws; `k` is where it stopped.
     */
    method EnqueuePrefix(uris0: seq<Uri>, loaded0: seq<Option<Sitemap>>, sitemaps: seq<Sitemap>)
      returns (k: nat, uris: seq<Uri>, loaded: seq<Option<Sitemap>>)
      requires Tracks(load, uris0, loaded0)
      ensures k <= |sitemaps| && (k < |sitemaps| ==> Blocks(load, sitemaps[k]))
      ensures forall j :: 0 <= j < k ==> !Blocks(load, sitemaps[j])
      ensures Tracks(load, uris, loaded) && uris == Enqueue(uris0, sitemaps[..k])
      ensures loaded0 <= loaded
    {
      uris, loaded := uris0, loaded0;
      k := 0;
      var ok := true;
      while ok && k < |sitemaps|
        invariant k <= |sitemaps|
        invariant Tracks(load, uris, loaded) && uris == Enqueue(uris0, sitemaps[..k])
        invariant loaded0 <= loaded
        invariant forall j :: 0 <= j < k ==> !Blocks(load, sitemaps[j])
        invariant !ok ==> k < |sitemaps| && Blocks(load, sitemaps[k])
        decreases ok, |sitemaps| - k
      {
        if sitemaps[k].location.None? {
          ok := false;
        } else {
          var uris', loaded';
          ok, uris', loaded' := Record(uris, loaded, sitemaps[k].location.value);
          if ok {
            assert forall j :: 0 <= j < k + 1 ==> !Blocks(load, sitemaps[j]);
            EnqueueStep(uris0, sitemaps, k);
            uris, loaded := uris', loaded';
            k := k + 1;
          }
        }
      }
    }

    /**
     * Records and loads a location unless it has been visited: the body of
     * the `foreach` past its null check. `ok` is false when the load throws.
     */
    method Record(uris: seq<Uri>, loaded: seq<Option<Sitemap>>, uri: Uri)
      returns (ok: bool, uris': seq<Uri>, loaded': seq<Option<Sitemap>>)
      requires Tracks(load, uris, loaded)
      ensures ok <==> load(uri).Some?
      ensures uris' == if ok && uri !in uris then uris + [uri] else uris
      ensures loaded' == if ok && uri !in uris then loaded + [load(uri).value] else loaded
      ensures Tracks(load, uris', loaded')
    {
      uris', loaded' := uris, loaded;
      if uri in uris {
        LoadsMember(load, uris, loaded, uri);
        ok := true;
      } else {
        var result := load(uri);
        ok := result.Some?;
        if ok {
          TracksSnoc(load, uris, loaded, uri);
          uris', loaded' := uris + [uri], loaded + [result.value];
        }
      }
    }

    /** The loop over the entries of an item sitemap: each location is offered to the sink. */
    method OfferItems(items: seq<SitemapItem>)
      modifies this
      ensures offered == old(offered) + ItemUris(items)
      ensures sitemapUris == old(sitemapUris) && loadedSitemaps == old(loadedSitemaps)
    {
      for k := 0 to |items|
        invariant offered == old(offered) + ItemUris(items[..k])
        invariant sitemapUris == old(sitemapUris) && loadedSitemaps == old(loadedSitemaps)
      {
        assert ItemUris(items[..k + 1]) == ItemUris(items[..k]) + [items[k].location.absoluteUri];
        offered := offered + [items[k].location.absoluteUri];
      }
      assert items[..|items|] == items;
    }

    /**
     * One pass of the walk's loop, on a loaded sitemap that is not null: an
     * item sitemap's entries are offered, an index sitemap's children are
     * enqueued; other kinds are passed over.
     */
    method Visit(sitemap: Sitemap) returns (ok: bool)
      requires Valid()
      modifies this
      ensures Valid()
      ensures |old(sitemapUris)| <= |sitemapUris| && sitemapUris[..|old(sitemapUris)|] == old(sitemapUris)
      ensures |old(loadedSitemaps)| <= |loadedSitemaps| && loadedSitemaps[..|old(loadedSitemaps)|] == old(loadedSitemaps)
      ensures ok <==> sitemap.sitemapType != Index || forall c :: c in sitemap.sitemaps ==> !Blocks(load, c)
      ensures ok && sitemap.sitemapType == Index ==> Resolved(sitemap.sitemaps, sitemapUris)
      ensures sitemap.sitemapType != Index ==> sitemapUris == old(sitemapUris)
      ensures forall u :: u in sitemapUris ==> u in old(sitemapUris) || u in Locations(sitemap.sitemaps)
      ensures offered == old(offered) + (if sitemap.sitemapType == Items then ItemUris(sitemap.items) else [])
    {
      ok := true;
      if sitemap.sitemapType == Items {
        OfferItems(sitemap.items);
      }
      if sitemap.sitemapType == Index {
        ok := EnqueueSitemaps(sitemap.sitemaps);
      }
    }

    /** `WalkState` of the object's own lists. */
    ghost predicate Walking(robots: Sitemap, universe: set<Uri>, uris0: seq<Uri>, offered0: seq<string>, i: nat)
      reads this
    {
      Valid() && WalkState(robots, universe, uris0, offered0, i, sitemapUris, loadedSitemaps, offered)
    }

    /** One turn of the walk's loop; `ok` is false when it throws, as it does on a `null` sitemap or a child that `Blocks`. */
    method Step(robots: Sitemap, ghost universe: set<Uri>, ghost uris0: seq<Uri>, ghost offered0: seq<string>, i: nat)
      returns (ok: bool)
      requires Walking(robots, universe, uris0, offered0, i) && i < |loadedSitemaps|
      requires Closed(load, universe)
      modifies this
      ensures Valid() && Sourced(robots, uris0, sitemapUris, loadedSitemaps)
      ensures |old(sitemapUris)| <= |sitemapUris|
      ensures |sitemapUris| == |old(sitemapUris)| ==> |loadedSitemaps| == |old(loadedSitemaps)|
      ensures ok ==> Walking(robots, universe, uris0, offered0, i + 1) && |sitemapUris| <= |universe|
      ensures Within(sitemapUris, universe)
      ensures i < |loadedSitemaps| && loadedSitemaps[i] == old(loadedSitemaps[i])
      ensures !ok <==> Throws(load, loadedSitemaps[i])
    {
      if loadedSitemaps[i].None? {
        WalkStateSources(robots, universe, uris0, offered0, i, sitemapUris, loadedSitemaps, offered);
        ok := false;
      } else {
        ghost var before, urisBefore, offeredBefore := loadedSitemaps, sitemapUris, offered;
        ok := Visit(loadedSitemaps[i].value);
        VisitedStep(robots, universe, uris0, offered0, i, load, ok, urisBefore, before, offeredBefore,
                    sitemapUris, loadedSitemaps, offered);
      }
    }

    /**
     * The `for` loop of `LoadRobots`: goes through the loaded list in order,
     * re-reading its length after every turn, so that sitemaps enqueued
     * during the walk are gone through as well.
     */
    method Walk(robots: Sitemap, ghost universe: set<Uri>, ghost uris0: seq<Uri>, ghost offered0: seq<string>)
      returns (outcome: Outcome)
      requires Walking(robots, universe, uris0, offered0, 0)
      requires Closed(load, universe)
      modifies this
      ensures Valid() && Sourced(robots, uris0, sitemapUris, loadedSitemaps)
      ensures outcome == Completed ==>
                WalkState(robots, universe, uris0, offered0, |loadedSitemaps|, sitemapUris, loadedSitemaps, offered)
      ensures Within(sitemapUris, universe)
      ensures outcome == Threw <==> SomeThrows(load, loadedSitemaps)
    {
      var count := |loadedSitemaps|;
      var i := 0;
      var ok := true;
      while ok && i < count
        invariant count == |loadedSitemaps|
        invariant ok ==> Walking(robots, universe, uris0, offered0, i)
        invariant !ok ==> Valid() && Sourced(robots, uris0, sitemapUris, loadedSitemaps) && Within(sitemapUris, universe)
        invariant !ok ==> i < |loadedSitemaps| && Throws(load, loadedSitemaps[i])
        decreases ok, |universe| - |sitemapUris|, count - i
      {
        ok := Step(robots, universe, uris0, offered0, i);
        count := |loadedSitemaps|;
        if ok {
          i := i + 1;
        }
      }
      if ok {
        WalkStateSources(robots, universe, uris0, offered0, i, sitemapUris, loadedSitemaps, offered);
        assert loadedSitemaps[..i] == loadedSitemaps;
        WalkedNoThrow(load, loadedSitemaps, sitemapUris);
        outcome := Completed;
      } else {
        outcome := Threw;
      }
    }

    /**
     * `LoadRobots`, given what the loader returned for the site's robots.txt.
     * Only a robots.txt sitemap starts the walk. The walk then loads the
     * sitemaps robots.txt names, and goes through the loaded list while it
     * grows: an item sitemap's entries are offered to the sink, an index
     * sitemap's children are loaded in turn. A `null` sitemap, a missing
     * location or a load that throws ends the walk with a throw. The walk ends because every location comes from a
     * finite `universe` that the loader's indexes never leave.
     */
    method LoadRobots(robots: Sitemap, ghost universe: set<Uri>) returns (outcome: Outcome)
      requires Valid()
      requires forall k :: 0 <= k < |sitemapUris| ==> sitemapUris[k] in universe
      requires Locations(robots.sitemaps) <= universe
      requires Closed(load, universe)
      modifies this
      ensures Valid()
      ensures robots.sitemapType != RobotsTxt ==>
                outcome == Completed && sitemapUris == old(sitemapUris) && loadedSitemaps == old(loadedSitemaps)
                && offered == old(offered)
      ensures Sourced(robots, old(sitemapUris), sitemapUris, loadedSitemaps)
      ensures outcome == Completed && robots.sitemapType == RobotsTxt ==>
                && Resolved(robots.sitemaps, sitemapUris)
                && Walked(loadedSitemaps, sitemapUris)
                && offered == old(offered) + Offers(loadedSitemaps)
      ensures outcome == Threw <==>
                robots.sitemapType == RobotsTxt
                && ((exists c :: c in robots.sitemaps && Blocks(load, c)) || SomeThrows(load, loadedSitemaps))
      ensures && (forall c :: c in robots.sitemaps ==> !Blocks(load, c))
              && (forall u :: u in universe && load(u).Some? ==> !Throws(load, load(u).value)) ==>
                outcome == Completed
    {
      if robots.sitemapType != RobotsTxt {
        assert sitemapUris[..|sitemapUris|] == sitemapUris;
        return Completed;
      }
      var ok := EnqueueSitemaps(robots.sitemaps);
      if !ok {
        return Threw;
      }
      WalkStateStart(robots, universe, old(sitemapUris), old(offered), sitemapUris, loadedSitemaps);
      outcome := Walk(robots, universe, old(sitemapUris), old(offered));
      if outcome == Completed {
        WalkStateDone(robots, universe, old(sitemapUris), old(offered), sitemapUris, loadedSitemaps, offered);
      } else {
        ghost var k :| 0 <= k < |loadedSitemaps| && Throws(load, loadedSitemaps[k]);
        LoadsAt(load, sitemapUris, loadedSitemaps, k);
        WithinAt(sitemapUris, universe, k);
      }
    }
  }
}
