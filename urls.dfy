/**
 * The part of URI reference resolution (section 5.2 of RFC 3986) that the client relies on:
 * a relative path, with no scheme, query, fragment or dot segment, resolved against an
 * absolute base URL.
 */
module Urls {
  import opened Text

  /** An absolute URL without query or fragment. */
  datatype Url = Url(scheme: string, authority: string, path: string)

  function ToString(u: Url): string {
    u.scheme + "://" + u.authority + u.path
  }

  /** The base path up to and including its last `/`; empty when it has none. */
  function Directory(path: string): (d: string)
    ensures StartsWith(path, d)
    ensures d == [] || d[|d| - 1] == '/'
    ensures '/' !in path[|d|..]
  {
    if path == [] then []
    else if path[|path| - 1] == '/' then path
    else
      var d := Directory(path[..|path| - 1]);
      assert path[|d|..] == path[..|path| - 1][|d|..] + [path[|path| - 1]];
      d
  }

  /** A path that already ends in `/` is its own directory. */
  lemma DirectoryOfDirectory(path: string)
    requires EndsWith(path, "/")
    ensures Directory(path) == path
  {
    assert path[|path| - 1] == "/"[0];
  }

  /** The "merge" routine of section 5.2.3 of RFC 3986. */
  function Merge(base: Url, ref: string): (p: string)
    ensures EndsWith(p, ref)
  {
    var dir := if base.authority != "" && base.path == "" then "/" else Directory(base.path);
    assert (dir + ref)[|dir + ref| - |ref|..] == ref;
    dir + ref
  }

  /**
   * A relative-path reference the client's path builders produce: non-empty, not starting
   * with `/`, no `:` in its first segment (else it would read as a scheme), and no query,
   * fragment or dot segment, so that removing dot segments leaves it unchanged.
   */
  predicate PlainRelative(ref: string) {
    && |ref| > 0
    && ref[0] != '/'
    && ':' !in Segments(ref)[0]
    && PlainSegments(ref)
  }

  /** A plain relative reference followed by `/` and a plain path is still a plain relative reference. */
  lemma PlainRelativeExtend(ref: string, rest: string)
    requires PlainRelative(ref) && PlainSegments(rest)
    ensures PlainRelative(ref + "/" + rest)
  {
    PlainSegmentsJoin(ref, rest);
    assert (ref + "/" + rest)[0] == ref[0];
  }

  /** Resolution of a plain relative reference (section 5.2.2 of RFC 3986): keep scheme and authority, merge the path. */
  function Resolve(base: Url, ref: string): (r: Url)
    requires PlainRelative(ref)
    ensures r.scheme == base.scheme && r.authority == base.authority
    ensures EndsWith(r.path, ref)
  {
    Url(base.scheme, base.authority, Merge(base, ref))
  }

  /** Against a base whose path ends in `/`, resolving a plain reference is textual concatenation. */
  lemma ResolveIsConcatenation(base: Url, ref: string)
    requires PlainRelative(ref) && EndsWith(base.path, "/")
    ensures ToString(Resolve(base, ref)) == ToString(base) + ref
  {
    DirectoryOfDirectory(base.path);
  }
}
