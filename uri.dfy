/** The parts of a VS Code `Uri` the model reads: the scheme, authority and
    path components of section 3 of RFC 3986, and the string form used as a
    map key. */
module Uri {
  datatype Uri = Uri(scheme: string, authority: string, path: string)

  /** `uri.toString()` without percent-encoding: `scheme://authority/path`. */
  function UriToString(u: Uri): string {
    u.scheme + "://" + u.authority + u.path
  }
}
