/**
 * The two link sinks of the sitemap tool. Each accepts a URL at most once,
 * as far as a shared membership filter can tell, up to a cap on the number
 * of links; the file sink appends accepted URLs to a file and reports
 * progress every hundred links, the console sink prints them and ends the
 * process when the cap is reached.
 */
module LinkStorage {
  import opened Machine

  /** The cap both sinks use when none is given. */
  const DEFAULT_MAX_LINK_COUNT: int32 := 200000

  /**
   * The Bloom filter of the crawler library the sinks use, whose code is not
   * part of this model: a set of added strings together with the filter's
   * false positives, which may depend on what has been added. It has no
   * false negatives.
   */
  class UrlFilter {
    var added: set<string>
    const falsePositive: (set<string>, string) -> bool

    constructor (falsePositive: (set<string>, string) -> bool)
      ensures added == {} && this.falsePositive == falsePositive
    {
      added := {};
      this.falsePositive := falsePositive;
    }

    predicate Contains(url: string)
      reads this
    {
      url in added || falsePositive(added, url)
    }

    method Add(url: string)
      modifies this
      ensures added == old(added) + {url}
      ensures Contains(url)
    {
      added := added + {url};
    }
  }

  /** A `static` filter field: one per sink class, replaced by every construction of that class. */
  class FilterSlot {
    var filter: UrlFilter

    constructor (filter: UrlFilter)
      ensures this.filter == filter
    {
      this.filter := filter;
    }
  }

  /** Counts that trigger a progress report: the non-zero multiples of one hundred. */
  predicate IsProgressCount(count: int)
  {
    count % 100 == 0 && count != 0
  }

  class FileLinkStorage {
    const fileName: string
    const maxLinkCount: int32
    /** The filter field shared by every file sink. */
    const slot: FilterSlot
    var linkCount: int32
    /** The lines appended to the file, each written as the URL followed by a newline. */
    var lines: seq<string>
    /** The counts reported to the background worker, in order. */
    var progress: seq<int32>

    /** The count starts at zero, can only grow by one below the cap, and so never passes it. */
    ghost predicate Valid()
      reads this
    {
      0 <= linkCount && (linkCount <= maxLinkCount || linkCount == 0)
    }

    /** Installs a fresh, empty filter in the shared slot: earlier sinks lose what they had recorded. */
    constructor (fileName: string, maxLinkCount: int32, slot: FilterSlot, falsePositive: (set<string>, string) -> bool)
      modifies slot
      ensures this.fileName == fileName && this.maxLinkCount == maxLinkCount && this.slot == slot
      ensures fresh(slot.filter) && slot.filter.added == {} && slot.filter.falsePositive == falsePositive
      ensures linkCount == 0 && lines == [] && progress == []
      ensures Valid()
    {
      this.fileName := fileName;
      this.maxLinkCount := maxLinkCount;
      this.slot := slot;
      linkCount, lines, progress := 0, [], [];
      var filter := new UrlFilter(falsePositive);
      slot.filter := filter;
    }

    /** The private `LinkCount` setter: stores the count and reports progress at every non-zero multiple of 100. */
    method SetLinkCount(value: int32)
      modifies this
      ensures linkCount == value && lines == old(lines)
      ensures progress == old(progress) + (if IsProgressCount(value as int) then [value] else [])
    {
      linkCount := value;
      if value % 100 == 0 && value != 0 {
        progress := progress + [value];
      }
    }

    /**
     * Accepts a URL the filter has not seen while below the cap: counts it,
     * records it in the filter and appends it to the file. Otherwise nothing
     * changes.
     */
    method TryAdd(url: string) returns (accepted: bool)
      requires Valid()
      modifies this, slot.filter
      ensures Valid() && slot.filter == old(slot.filter)
      ensures accepted <==> !old(slot.filter.Contains(url)) && old(linkCount) < maxLinkCount
      ensures accepted ==> linkCount as int == old(linkCount) as int + 1
                           && slot.filter.added == old(slot.filter.added) + {url}
                           && lines == old(lines) + [url]
                           && progress == old(progress) + (if IsProgressCount(linkCount as int) then [linkCount] else [])
      ensures !accepted ==> linkCount == old(linkCount) && slot.filter.added == old(slot.filter.added)
                            && lines == old(lines) && progress == old(progress)
    {
      var filter := slot.filter;
      if filter.Contains(url) {
        return false;
      }
      if linkCount >= maxLinkCount {
        return false;
      }
      SetLinkCount(linkCount + 1);
      filter.Add(url);
      lines := lines + [url];
      accepted := true;
    }
  }

  class ConsoleLinkStorage {
    const maxLinkCount: int32
    /** The filter field shared by every console sink. */
    const slot: FilterSlot
    var linkCount: int32
    /** The lines printed to the console. */
    var output: seq<string>
    /** Set once the process has exited. */
    var halted: bool

    ghost predicate Valid()
      reads this
    {
      0 <= linkCount && (linkCount <= maxLinkCount || linkCount == 0)
    }

    constructor (maxLinkCount: int32, slot: FilterSlot, falsePositive: (set<string>, string) -> bool)
      modifies slot
      ensures this.maxLinkCount == maxLinkCount && this.slot == slot
      ensures fresh(slot.filter) && slot.filter.added == {} && slot.filter.falsePositive == falsePositive
      ensures linkCount == 0 && output == [] && !halted
      ensures Valid()
    {
      this.maxLinkCount := maxLinkCount;
      this.slot := slot;
      linkCount, output, halted := 0, [], false;
      var filter := new UrlFilter(falsePositive);
      slot.filter := filter;
    }

    /**
     * Accepts and prints a URL the filter has not seen while below the cap.
     * A new URL at the cap ends the process instead, with nothing printed.
     */
    method TryAdd(url: string) returns (accepted: bool)
      requires Valid() && !halted
      modifies this, slot.filter
      ensures Valid() && slot.filter == old(slot.filter)
      ensures accepted <==> !old(slot.filter.Contains(url)) && old(linkCount) < maxLinkCount
      ensures halted <==> !old(slot.filter.Contains(url)) && old(linkCount) >= maxLinkCount
      ensures accepted ==> linkCount as int == old(linkCount) as int + 1
                           && slot.filter.added == old(slot.filter.added) + {url}
                           && output == old(output) + [url]
      ensures !accepted ==> linkCount == old(linkCount) && slot.filter.added == old(slot.filter.added)
                            && output == old(output)
    {
      var filter := slot.filter;
      if filter.Contains(url) {
        return false;
      }
      if linkCount >= maxLinkCount {
        halted := true;
        return false;
      }
      linkCount := linkCount + 1;
      filter.Add(url);
      output := output + [url];
      accepted := true;
    }
  }

  /** A URL the file sink accepted is refused the second time, as long as nothing replaced the filter in between. */
  method FileRepeatRefused(storage: FileLinkStorage, url: string) returns (first: bool, second: bool)
    requires storage.Valid()
    modifies storage, storage.slot.filter
    ensures first ==> !second
    ensures storage.lines == old(storage.lines) + (if first then [url] else [])
  {
    first := storage.TryAdd(url);
    second := storage.TryAdd(url);
  }

  /**
   * Because the filter is shared, constructing a second file sink makes the
   * first one accept, and write again, a URL it already wrote.
   */
  method NewSinkForgetsEarlierLinks(url: string) returns (first: bool, again: bool)
    ensures first && again
  {
    var noFalsePositives := (added: set<string>, x: string) => false;
    var filter := new UrlFilter(noFalsePositives);
    var slot := new FilterSlot(filter);
    var a := new FileLinkStorage("a.txt", DEFAULT_MAX_LINK_COUNT, slot, noFalsePositives);
    first := a.TryAdd(url);
    var b := new FileLinkStorage("b.txt", DEFAULT_MAX_LINK_COUNT, slot, noFalsePositives);
    again := a.TryAdd(url);
    assert a.lines == [url, url];
  }
}
