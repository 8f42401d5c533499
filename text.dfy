/** String helpers used by the path builders and URL resolution. */
module Text {
  import opened Wrappers

  predicate StartsWith(s: string, prefix: string) {
    |prefix| <= |s| && s[..|prefix|] == prefix
  }

  predicate EndsWith(s: string, suffix: string) {
    |suffix| <= |s| && s[|s| - |suffix|..] == suffix
  }

  /** The rest of `s` after `prefix`, when `s` starts with it. */
  function StripPrefix(s: string, prefix: string): (r: Option<string>)
    ensures r.Some? <==> StartsWith(s, prefix)
    ensures r.Some? ==> s == prefix + r.value
  {
    if StartsWith(s, prefix) then Some(s[|prefix|..]) else None
  }

  lemma StripPrefixOfConcat(prefix: string, rest: string)
    ensures StripPrefix(prefix + rest, prefix) == Some(rest)
  {
    assert (prefix + rest)[..|prefix|] == prefix;
    assert (prefix + rest)[|prefix|..] == rest;
  }

  /** The position of the first occurrence of `c` in `s`. */
  function FirstIndex(s: string, c: char): (r: Option<nat>)
    ensures r.None? <==> c !in s
    ensures r.Some? ==> r.value < |s| && s[r.value] == c && c !in s[..r.value]
  {
    if |s| == 0 then None
    else if s[0] == c then Some(0)
    else match FirstIndex(s[1..], c)
      case None => None
      case Some(i) =>
        assert s[..i + 1] == [s[0]] + s[1..][..i];
        Some(i + 1)
  }

  /** The first occurrence of `c` in `a + b` is at `|a|` when `a` lacks `c` and `b` starts with it. */
  lemma FirstIndexAfter(a: string, b: string, c: char)
    requires c !in a && |b| > 0 && b[0] == c
    ensures FirstIndex(a + b, c) == Some(|a|)
  {
    var s := a + b;
    assert s[..|a|] == a;
    assert s[|a|] == c;
  }

  /** A first occurrence inside `a` stays the first occurrence in `a + t`. */
  lemma FirstIndexPrefix(a: string, t: string, c: char)
    requires FirstIndex(a, c).Some?
    ensures FirstIndex(a + t, c) == FirstIndex(a, c)
  {
    var i := FirstIndex(a, c).value;
    var s := a + t;
    assert s[..|a|] == a;
    assert s[..i] == a[..i];
  }

  /**
   * Splits `s` at its first `/` when the separator `sep` (which starts with `/`) begins there:
   * the text before it and the text after the separator.
   */
  function SplitAtSeparator(s: string, sep: string): (r: Option<(string, string)>)
    requires |sep| > 0 && sep[0] == '/'
  {
    match FirstIndex(s, '/')
    case None => None
    case Some(i) => if StartsWith(s[i..], sep) then Some((s[..i], s[i + |sep|..])) else None
  }

  /** What SplitAtSeparator returns puts `s` back together, and the part before holds no `/`. */
  lemma SplitAtSeparatorSound(s: string, sep: string)
    requires |sep| > 0 && sep[0] == '/'
    requires SplitAtSeparator(s, sep).Some?
    ensures '/' !in SplitAtSeparator(s, sep).value.0
    ensures s == SplitAtSeparator(s, sep).value.0 + sep + SplitAtSeparator(s, sep).value.1
  {
    var i := FirstIndex(s, '/').value;
    var before, after := s[..i], s[i + |sep|..];
    assert SplitAtSeparator(s, sep) == Some((before, after));
    StartsWithSplit(s[i..], sep);
    assert s[i..][|sep|..] == after;
    assert s == before + s[i..];
  }

  lemma StartsWithSplit(t: string, prefix: string)
    requires StartsWith(t, prefix)
    ensures t == prefix + t[|prefix|..]
  {
  }

  /** A text without `/` followed by the separator is split back into its two parts. */
  lemma SplitAtSeparatorRoundTrip(a: string, sep: string, b: string)
    requires |sep| > 0 && sep[0] == '/' && '/' !in a
    ensures SplitAtSeparator(a + sep + b, sep) == Some((a, b))
  {
    var s := a + sep + b;
    assert s == a + (sep + b);
    FirstIndexAfter(a, sep + b, '/');
    assert s[..|a|] == a;
    assert s[|a|..] == sep + b;
    assert (sep + b)[..|sep|] == sep;
    assert s[|a| + |sep|..] == b;
  }

  /** The `/`-separated segments of a path, as in section 3.3 of RFC 3986. */
  function Segments(p: string): (r: seq<string>)
    ensures |r| >= 1
    ensures forall k :: 0 <= k < |r| ==> '/' !in r[k]
    decreases |p|
  {
    match FirstIndex(p, '/')
    case None => [p]
    case Some(i) => [p[..i]] + Segments(p[i + 1..])
  }

  /** Joining two paths with `/` concatenates their segment lists. */
  lemma {:induction false} SegmentsJoin(a: string, b: string)
    ensures Segments(a + "/" + b) == Segments(a) + Segments(b)
    decreases |a|
  {
    var s := a + "/" + b;
    assert s == a + ("/" + b);
    match FirstIndex(a, '/')
    case None =>
      FirstIndexAfter(a, "/" + b, '/');
      assert s[..|a|] == a;
      assert s[|a| + 1..] == b;
    case Some(i) =>
      FirstIndexPrefix(a, "/" + b, '/');
      var a' := a[i + 1..];
      assert s[..i] == a[..i];
      assert s[i + 1..] == a' + "/" + b;
      SegmentsJoin(a', b);
  }

  /** A path none of whose segments is `.` or `..` and none of whose characters starts a query or fragment. */
  predicate PlainSegments(p: string) {
    && '?' !in p && '#' !in p
    && forall seg | seg in Segments(p) :: seg != "." && seg != ".."
  }

  /** Joining two plain paths with `/` gives a plain path with the first one's first segment. */
  lemma PlainSegmentsJoin(a: string, b: string)
    requires PlainSegments(a) && PlainSegments(b)
    ensures PlainSegments(a + "/" + b)
    ensures Segments(a + "/" + b)[0] == Segments(a)[0]
  {
    SegmentsJoin(a, b);
  }

  /** A single segment other than `.` and `..`, without query or fragment characters, is plain. */
  lemma PlainWord(s: string)
    requires '/' !in s && '?' !in s && '#' !in s && s != "." && s != ".."
    ensures Segments(s) == [s] && PlainSegments(s)
  {
  }
}
