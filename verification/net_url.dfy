/**
 * The parts of Go's net/url package that the playlist codec calls.
 *
 * Their percent-encoding rules (section 2.1 of RFC 3986) are not modelled:
 * each entry point is a total function handed to the codec in a `UrlLib`
 * value, and every property of the codec is proved for all such functions,
 * or under the few facts about them that a lemma states as `requires`.
 */
module NetUrl {

  datatype Option<+T> = None | Some(value: T)

  /** A parsed URL (Go's `*url.URL`); its structure is not modelled. */
  type Url

  /** The five net/url entry points the codec uses. */
  datatype UrlLib = UrlLib(
    parse: string -> Option<Url>,            // url.Parse, None where it returns an error
    urlString: Url -> string,                // (*url.URL).String
    queryEscape: string -> string,           // url.QueryEscape
    pathEscape: string -> string,            // url.PathEscape
    pathUnescape: string -> Option<string>)  // url.PathUnescape, None where it returns an error

  /** Path-escaping maps the empty string, and only it, to the empty string. */
  ghost predicate PathEscapeKeepsEmptiness(lib: UrlLib)
  {
    forall s: string :: lib.pathEscape(s) == "" <==> s == ""
  }

  /** Printing a URL gives non-empty text that url.Parse reads back as the same URL. */
  ghost predicate PrintsAndReparses(lib: UrlLib, u: Url)
  {
    lib.urlString(u) != "" && lib.parse(lib.urlString(u)) == Some(u)
  }
}
