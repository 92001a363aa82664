/** The parts of Go's net/url that the crawler relies on, as values.

    url.Parse is a library call whose internals are not modelled: every member
    that parses a URL takes the parser as a parameter of type UrlParser, so that
    all uses of one raw string inside one run see the same parsed record. */
module NetUrl {

  datatype Option<T> = None | Some(value: T)

  /** The fields of a parsed *url.URL that the crawler reads. */
  datatype Url = Url(scheme: string, host: string, path: string, rawQuery: string)
  {
    /** url.IsAbs: a URL is absolute when it has a scheme. */
    predicate IsAbs() {
      scheme != ""
    }
  }

  /** The (url, err) pair returned by url.Parse. */
  datatype Parsed = ParseOk(url: Url) | ParseFailed(err: string)

  /** url.Parse, a deterministic library function of the raw string. */
  type UrlParser = string -> Parsed
}
