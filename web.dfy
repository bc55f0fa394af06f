/** The parts of `System.Uri` the crawler and the sitemap code read. */
module Web {

  /** A parsed absolute URI: `AbsoluteUri`, `Host` and `LocalPath`. */
  datatype Uri = Uri(absoluteUri: string, host: string, localPath: string)
}
