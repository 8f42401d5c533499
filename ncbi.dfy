/**
 * The accession index client: the index record and its request path, the three deployment
 * environments and their base URLs, the passport request body, and request construction.
 */
module Ncbi {
  import opened Wrappers
  import opened Text
  import opened Urls
  import Drs

  // ---------------------------------------------------------------------------
  // Index record

  /** One entry of an index lookup: the DRS id and the entry's own status code. */
  datatype AccessionResponse = AccessionResponse(drs: string, statusCode: int)

  /** The index lookup result: entries keyed by accession, and the DRS base. */
  datatype Idx = Idx(response: map<string, AccessionResponse>, drsBase: string)

  /** The stored properties of Idx. */
  datatype IdxField = ResponseField | DrsBaseField

  /** The property's name as declared. */
  function PropertyName(f: IdxField): string {
    match f
    case ResponseField => "response"
    case DrsBaseField => "drs_base"
  }

  /** The JSON key each property is read from: only `drs_base` is renamed, to `drs-base`. */
  function CodingKey(f: IdxField): (key: string)
    ensures key == PropertyName(f) <==> f == ResponseField
    ensures f == DrsBaseField ==> key == "drs-base"
  {
    match f
    case ResponseField => "response"
    case DrsBaseField => "drs-base"
  }

  /** Distinct properties read distinct keys, and the record's keys are exactly these two. */
  lemma CodingKeysInjective(f: IdxField, g: IdxField)
    ensures CodingKey(f) == CodingKey(g) <==> f == g
    ensures (set h: IdxField | true :: CodingKey(h)) == {"response", "drs-base"}
  {
    var keys := set h: IdxField | true :: CodingKey(h);
    assert CodingKey(ResponseField) in keys && CodingKey(DrsBaseField) in keys;
  }

  const IndexPrefix: string := "idx/v1/"

  /** The relative path of the index lookup for `accession`. */
  function IndexPath(accession: string): (p: string)
    ensures StripPrefix(p, IndexPrefix) == Some(accession)
  {
    StripPrefixOfConcat(IndexPrefix, accession);
    IndexPrefix + accession
  }

  /** The accession named by an index path: the inverse of IndexPath. */
  function AccessionOf(path: string): (r: Option<string>)
    ensures r.Some? <==> StartsWith(path, IndexPrefix)
    ensures r.Some? ==> IndexPath(r.value) == path
  {
    StripPrefix(path, IndexPrefix)
  }

  /** The index path is the fixed prefix followed by the accession verbatim, so it is injective. */
  lemma IndexPathRoundTrip(accession: string)
    ensures StartsWith(IndexPath(accession), IndexPrefix)
    ensures AccessionOf(IndexPath(accession)) == Some(accession)
  {
    StripPrefixOfConcat(IndexPrefix, accession);
  }

  lemma IndexPathInjective(a: string, b: string)
    requires IndexPath(a) == IndexPath(b)
    ensures a == b
  {
    IndexPathRoundTrip(a);
    IndexPathRoundTrip(b);
  }

  // ---------------------------------------------------------------------------
  // Environments

  datatype SystemType = Development | Production | Regional

  /** The client: it holds one environment, fixed at construction. */
  datatype Sraa = Sraa(systemType: SystemType)

  /** The client's initialiser; without an argument it selects the regional service. */
  function NewSraa(systemType: SystemType := Regional): (s: Sraa)
    ensures s.systemType == systemType
  {
    Sraa(systemType)
  }

  const DevUrl: Url := Url("https", "locate-dev.ncbi.nlm.nih.gov", "/")
  const PrdUrl: Url := Url("https", "locate.ncbi.nlm.nih.gov", "/")
  const RgnUrl: Url := Url("https", "locate.be-md.ncbi.nlm.nih.gov", "/")

  /** The base URL of the client's environment. */
  function LocationUrl(s: Sraa): (u: Url)
    ensures u.scheme == "https" && u.path == "/"
  {
    match s.systemType
    case Development => DevUrl
    case Production => PrdUrl
    case Regional => RgnUrl
  }

  /** The default client talks to the regional service. */
  lemma DefaultIsRegional()
    ensures NewSraa().systemType == Regional
    ensures LocationUrl(NewSraa()) == Url("https", "locate.be-md.ncbi.nlm.nih.gov", "/")
  {
  }

  /** Different environments have different base URLs, and each base URL ends in `/`. */
  lemma LocationUrlInjective(s: Sraa, t: Sraa)
    ensures LocationUrl(s) == LocationUrl(t) <==> s.systemType == t.systemType
    ensures EndsWith(ToString(LocationUrl(s)), "/")
  {
    var u := ToString(LocationUrl(s));
    assert u[|u| - 1] == '/';
  }

  // ---------------------------------------------------------------------------
  // Passport body

  const AuthPrefix: string := "{ \"ga4gh_passort\" = \""
  const AuthSuffix: string := "\"}"

  /** The body sent with a passport: the token between a fixed prefix and suffix, unescaped. */
  function MakeAuth(passport: string): (body: string)
    ensures |body| == |AuthPrefix| + |passport| + |AuthSuffix|
  {
    AuthPrefix + passport + AuthSuffix
  }

  /** The token carried by a body of MakeAuth's shape: its inverse. */
  function PassportOf(body: string): (r: Option<string>)
    ensures r.Some? ==> MakeAuth(r.value) == body
  {
    if StartsWith(body, AuthPrefix) && |body| >= |AuthPrefix| + |AuthSuffix| && EndsWith(body, AuthSuffix)
    then
      var p := body[|AuthPrefix|..|body| - |AuthSuffix|];
      assert body == body[..|AuthPrefix|] + p + body[|body| - |AuthSuffix|..];
      Some(p)
    else None
  }

  /** The token is recovered verbatim from the body, so distinct tokens give distinct bodies. */
  lemma MakeAuthRoundTrip(passport: string)
    ensures PassportOf(MakeAuth(passport)) == Some(passport)
  {
    var body := MakeAuth(passport);
    assert body[..|AuthPrefix|] == AuthPrefix;
    assert body[|body| - |AuthSuffix|..] == AuthSuffix;
    assert body[|AuthPrefix|..|body| - |AuthSuffix|] == passport;
  }

  /**
   * Nothing is escaped: the body holds exactly four quotes more than the token and
   * exactly as many backslashes, so no quote of the token gains an escape character.
   */
  lemma MakeAuthUnescaped(passport: string)
    ensures multiset(MakeAuth(passport))['"'] == multiset(passport)['"'] + 4
    ensures multiset(MakeAuth(passport))['\\'] == multiset(passport)['\\']
  {
    AuthPrefixQuotes();
    AuthSuffixQuotes();
    CountOfConcat(AuthPrefix, passport, AuthSuffix, '"');
    AuthFrameBackslashFree();
    CountOfConcat(AuthPrefix, passport, AuthSuffix, '\\');
  }

  lemma AuthFrameBackslashFree()
    ensures multiset(AuthPrefix)['\\'] == 0 && multiset(AuthSuffix)['\\'] == 0
  {
    AuthPrefixSplit();
    NotCounted(AuthPrefix, '\\');
    NotCounted(AuthSuffix, '\\');
  }

  lemma NotCounted(s: string, c: char)
    requires c !in s
    ensures multiset(s)[c] == 0
  {
  }

  lemma AuthPrefixQuotes()
    ensures multiset(AuthPrefix)['"'] == 3
  {
    AuthPrefixSplit();
    ThreeQuotes("{ ", "ga4gh_passort", " = ");
  }

  lemma AuthSuffixQuotes()
    ensures multiset(AuthSuffix)['"'] == 1
  {
    assert AuthSuffix == "\"" + "}";
  }

  lemma CountOfConcat(a: string, b: string, c: string, x: char)
    ensures multiset(a + b + c)[x] == multiset(a)[x] + multiset(b)[x] + multiset(c)[x]
  {
  }

  lemma AuthPrefixSplit()
    ensures AuthPrefix == "{ " + "\"" + "ga4gh_passort" + "\"" + " = " + "\""
  {
  }

  lemma ThreeQuotes(a: string, b: string, c: string)
    requires '"' !in a && '"' !in b && '"' !in c
    ensures multiset(a + "\"" + b + "\"" + c + "\"")['"'] == 3
  {
  }

  // ---------------------------------------------------------------------------
  // Requests

  /** The parts of a URL request the client sets. */
  datatype Request = Request(url: string, httpMethod: string, headers: map<string, string>, body: Option<string>)

  /** A fresh request: GET, no header fields, no body. */
  function NewRequest(url: string): (r: Request)
    ensures r.httpMethod == "GET" && r.headers == map[] && r.body.None?
  {
    Request(url, "GET", map[], None)
  }

  /** Adds a value to a header field: a field already present gets it appended after a comma. */
  function AddValue(headers: map<string, string>, field: string, value: string): (h: map<string, string>)
    ensures h.Keys == headers.Keys + {field}
    ensures field !in headers ==> h[field] == value
    ensures field in headers ==> h[field] == headers[field] + "," + value
    ensures forall f :: f in headers && f != field ==> h[f] == headers[f]
  {
    if field in headers then headers[field := headers[field] + "," + value]
    else headers[field := value]
  }

  /** The absolute URL of a request for `path`: the base URL followed by the path. */
  function RequestUrl(s: Sraa, path: string): (url: string)
    ensures StartsWith(url, ToString(LocationUrl(s))) && EndsWith(url, path)
  {
    var base := ToString(LocationUrl(s));
    assert (base + path)[..|base|] == base;
    assert (base + path)[|base + path| - |path|..] == path;
    base + path
  }

  /** For a plain relative path, the concatenation is what RFC 3986 resolution against the base gives. */
  lemma RequestUrlIsResolution(s: Sraa, path: string)
    requires PlainRelative(path)
    ensures RequestUrl(s, path) == ToString(Resolve(LocationUrl(s), path))
  {
    ResolveIsConcatenation(LocationUrl(s), path);
  }

  /** The request the client sends for `path`, with or without a passport. */
  function RequestFor(s: Sraa, path: string, passport: Option<string>): (r: Request)
    ensures r.url == RequestUrl(s, path)
    ensures r.httpMethod == (if passport.Some? then "POST" else "GET")
    ensures r.body.Some? <==> passport.Some?
  {
    match passport
    case None => NewRequest(RequestUrl(s, path))
    case Some(p) => Request(RequestUrl(s, path), "POST", map["Content-Type" := "application/json"], Some(MakeAuth(p)))
  }

  /** Builds the request step by step, as the client does. */
  method MakeRequest(s: Sraa, path: string, passport: Option<string>) returns (req: Request)
    ensures req == RequestFor(s, path, passport)
  {
    req := NewRequest(RequestUrl(s, path));
    if passport.Some? {
      req := req.(httpMethod := "POST");
      req := req.(headers := AddValue(req.headers, "Content-Type", "application/json"));
      req := req.(body := Some(MakeAuth(passport.value)));
    }
  }

  /** With a passport: POST, one header `Content-Type: application/json`, and the passport body. */
  lemma AuthorizedRequest(s: Sraa, path: string, passport: string)
    ensures var r := RequestFor(s, path, Some(passport));
      && r.httpMethod == "POST"
      && r.headers.Keys == {"Content-Type"} && r.headers["Content-Type"] == "application/json"
      && r.body == Some(MakeAuth(passport))
      && PassportOf(r.body.value) == Some(passport)
  {
    MakeAuthRoundTrip(passport);
  }

  /** Without a passport the fresh request is left as it is. */
  lemma AnonymousRequest(s: Sraa, path: string)
    ensures RequestFor(s, path, None) == NewRequest(RequestUrl(s, path))
    ensures RequestFor(s, path, None).httpMethod == "GET"
  {
  }

  // ---------------------------------------------------------------------------
  // The builders' paths are plain relative references
  //
  // The DRS path builders are facts about module Drs, but these lemmas live here
  // because they relate those paths to URL resolution in module Urls, which the
  // request construction of this module uses and Drs does not import.

  lemma ObjectsDirSplit()
    ensures Drs.ObjectsDir == "ga4gh" + "/" + ("drs" + "/" + ("v1" + "/" + "objects"))
  {
  }

  lemma ObjectsDirIsPlain()
    ensures PlainSegments(Drs.ObjectsDir) && Segments(Drs.ObjectsDir)[0] == "ga4gh"
    ensures |Drs.ObjectsDir| > 0 && Drs.ObjectsDir[0] == 'g'
  {
    ObjectsDirSplit();
    var a, b, c, d := "ga4gh", "drs", "v1", "objects";
    PlainWord(a); PlainWord(b); PlainWord(c); PlainWord(d);
    PlainSegmentsJoin(c, d);
    PlainSegmentsJoin(b, c + "/" + d);
    PlainSegmentsJoin(a, b + "/" + (c + "/" + d));
  }

  /** For an id with no query, fragment or dot segment, the object path is a plain relative reference. */
  lemma ObjectPathIsPlain(drsId: string)
    requires PlainSegments(drsId)
    ensures PlainRelative(Drs.ObjectPath(drsId))
  {
    ObjectsDirIsPlain();
    var dir := Drs.ObjectsDir;
    PlainSegmentsJoin(dir, drsId);
    assert Drs.ObjectPath(drsId) == dir + "/" + drsId;
    assert (dir + "/" + drsId)[0] == dir[0];
    assert ':' !in "ga4gh";
  }

  /** Likewise for the access path of two such ids. */
  lemma AccessPathIsPlain(drsId: string, accessId: string)
    requires PlainSegments(drsId) && PlainSegments(accessId)
    ensures PlainRelative(Drs.AccessPath(drsId, accessId))
  {
    ObjectPathIsPlain(drsId);
    AccessTailIsPlain(accessId);
    var objectPath := Drs.ObjectPath(drsId);
    Urls.PlainRelativeExtend(objectPath, "access" + "/" + accessId);
    assert Drs.AccessPath(drsId, accessId) == objectPath + "/" + ("access" + "/" + accessId);
  }

  lemma AccessTailIsPlain(accessId: string)
    requires PlainSegments(accessId)
    ensures PlainSegments("access" + "/" + accessId)
  {
    PlainWord("access");
    PlainSegmentsJoin("access", accessId);
  }

  /** Likewise for the index path of such an accession. */
  lemma IndexPathIsPlain(accession: string)
    requires PlainSegments(accession)
    ensures PlainRelative(IndexPath(accession))
  {
    IndexPrefixSplit();
    PlainWord("idx"); PlainWord("v1");
    PlainSegmentsJoin("idx", "v1");
    PlainSegmentsJoin("idx" + "/" + "v1", accession);
    assert IndexPath(accession) == "idx" + "/" + "v1" + "/" + accession;
  }

  lemma IndexPrefixSplit()
    ensures IndexPrefix == "idx" + "/" + "v1" + "/"
  {
  }
}
