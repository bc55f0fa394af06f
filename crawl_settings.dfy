/** The crawler's settings object: plain properties with defaults, and four lists the caller fills in. */
module Settings {
  import opened Machine

  const DEFAULT_USER_AGENT: string :=
    "Mozilla/5.0 (Windows NT 6.1; WOW64) AppleWebKit/537.11 (KHTML, like Gecko) Chrome/23.0.1271.97 Safari/537.11"

  /** The values of a settings object, as the crawl reads them. */
  datatype Snapshot = Snapshot(
    autoSpeedLimit: bool,
    depth: byte,                        // 0 means unbounded
    escapeLinks: seq<string>,           // suffixes of hrefs to skip
    keepCookie: bool,
    hrefKeywords: seq<string>,          // an href must contain one of these, when any are given
    lockHost: bool,
    regularFilterExpressions: seq<string>,
    seedsAddress: seq<string>,
    threadCount: byte,
    timeout: int32,                     // milliseconds
    userAgent: string)

  /** A freshly constructed settings object. */
  const DEFAULTS: Snapshot := Snapshot(
    autoSpeedLimit := false, depth := 3, escapeLinks := [], keepCookie := true,
    hrefKeywords := [], lockHost := true, regularFilterExpressions := [], seedsAddress := [],
    threadCount := 1, timeout := 15000, userAgent := DEFAULT_USER_AGENT)

  /** The four list properties. Their setters are private, but each getter hands out the mutable list itself. */
  datatype ListName = EscapeLinks | HrefKeywords | RegularFilterExpressions | SeedsAddress

  class CrawlSettings {
    var autoSpeedLimit: bool
    var depth: byte
    var escapeLinks: seq<string>
    var keepCookie: bool
    var hrefKeywords: seq<string>
    var lockHost: bool
    var regularFilterExpressions: seq<string>
    var seedsAddress: seq<string>
    var threadCount: byte
    var timeout: int32
    var userAgent: string

    /** All properties at once. */
    function Value(): Snapshot
      reads this
    {
      Snapshot(autoSpeedLimit, depth, escapeLinks, keepCookie, hrefKeywords, lockHost,
               regularFilterExpressions, seedsAddress, threadCount, timeout, userAgent)
    }

    /** Depth 3, one thread, 15 s timeout, host locking and cookies on, rate limiting off, empty lists. */
    constructor ()
      ensures Value() == DEFAULTS
    {
      autoSpeedLimit, depth, escapeLinks, keepCookie := false, 3, [], true;
      hrefKeywords, lockHost, regularFilterExpressions, seedsAddress := [], true, [], [];
      threadCount, timeout, userAgent := 1, 15000, DEFAULT_USER_AGENT;
    }

    method SetAutoSpeedLimit(value: bool)
      modifies this
      ensures Value() == old(Value()).(autoSpeedLimit := value)
    {
      autoSpeedLimit := value;
    }

    method SetDepth(value: byte)
      modifies this
      ensures Value() == old(Value()).(depth := value)
    {
      depth := value;
    }

    method SetKeepCookie(value: bool)
      modifies this
      ensures Value() == old(Value()).(keepCookie := value)
    {
      keepCookie := value;
    }

    method SetLockHost(value: bool)
      modifies this
      ensures Value() == old(Value()).(lockHost := value)
    {
      lockHost := value;
    }

    method SetThreadCount(value: byte)
      modifies this
      ensures Value() == old(Value()).(threadCount := value)
    {
      threadCount := value;
    }

    method SetTimeout(value: int32)
      modifies this
      ensures Value() == old(Value()).(timeout := value)
    {
      timeout := value;
    }

    method SetUserAgent(value: string)
      modifies this
      ensures Value() == old(Value()).(userAgent := value)
    {
      userAgent := value;
    }

    /** A caller's `List.Add` on one of the four list properties: the list grows by the item, nothing else changes. */
    method Append(list: ListName, item: string)
      modifies this
      ensures Value() == match list
        case EscapeLinks => old(Value()).(escapeLinks := old(escapeLinks) + [item])
        case HrefKeywords => old(Value()).(hrefKeywords := old(hrefKeywords) + [item])
        case RegularFilterExpressions =>
          old(Value()).(regularFilterExpressions := old(regularFilterExpressions) + [item])
        case SeedsAddress => old(Value()).(seedsAddress := old(seedsAddress) + [item])
    {
      match list
      case EscapeLinks => escapeLinks := escapeLinks + [item];
      case HrefKeywords => hrefKeywords := hrefKeywords + [item];
      case RegularFilterExpressions => regularFilterExpressions := regularFilterExpressions + [item];
      case SeedsAddress => seedsAddress := seedsAddress + [item];
    }
  }
}
