/**
 * The GA4GH Data Repository Service (DRS v1) records the client decodes, and the two
 * request paths it builds for the DRS endpoints (GetObject and GetAccessURL).
 */
module Drs {
  import opened Wrappers
  import opened Text

  /** A signed location for an object's bytes; `headers` may be absent. */
  datatype AccessUrl = AccessUrl(url: string, headers: Option<string>)

  /** One way to fetch an object's bytes; only `type` is mandatory. */
  datatype AccessMethod = AccessMethod(
    accessType: string,
    accessId: Option<string>,
    accessUrl: Option<AccessUrl>,
    region: Option<string>)

  datatype Checksum = Checksum(checksum: string, checksumType: string)

  /** A node of a bundle tree: always named, everything else optional, nesting to any depth. */
  datatype Content = Content(
    name: string,
    id: Option<string>,
    contents: ContentList,
    drsUri: Option<string>)

  /** An optional list of content nodes (Swift's `[Content]?`), spelt out so that recursion into it terminates. */
  datatype ContentList = Absent | Present(items: seq<Content>)

  /** A DRS object: five mandatory fields, the rest optional. */
  datatype Object = Object(
    id: string,
    createdTime: string,
    selfUrl: string,
    size: int,
    checksums: seq<Checksum>,
    name: Option<string>,
    description: Option<string>,
    mimeType: Option<string>,
    updatedTime: Option<string>,
    version: Option<string>,
    contents: ContentList,
    accessMethods: Option<seq<AccessMethod>>,
    aliases: Option<string>)

  /** The DRS error payload: both fields optional. */
  datatype Error = Error(statusCode: Option<int>, msg: Option<string>)

  // ---------------------------------------------------------------------------
  // Which JSON keys a record carries (the encoder writes an optional field only when present)

  function KeyIf<T>(key: string, v: Option<T>): set<string> {
    if v.Some? then {key} else {}
  }

  function KeyIfList(key: string, v: ContentList): set<string> {
    if v.Present? then {key} else {}
  }

  const RequiredObjectKeys: set<string> := {"id", "created_time", "self_url", "size", "checksums"}
  const OptionalObjectKeys: set<string> :=
    {"name", "description", "mime_type", "updated_time", "version", "contents", "access_methods", "aliases"}

  /** The descriptive optional keys an object carries: each exactly when its field is set. */
  function DescriptiveKeys(o: Object): (keys: set<string>)
    ensures keys <= {"name", "description", "mime_type", "updated_time", "version", "aliases"}
    ensures "name" in keys <==> o.name.Some?
    ensures "description" in keys <==> o.description.Some?
    ensures "mime_type" in keys <==> o.mimeType.Some?
    ensures "updated_time" in keys <==> o.updatedTime.Some?
    ensures "version" in keys <==> o.version.Some?
    ensures "aliases" in keys <==> o.aliases.Some?
  {
    KeyIf("name", o.name) + KeyIf("description", o.description)
      + KeyIf("mime_type", o.mimeType) + KeyIf("updated_time", o.updatedTime)
      + KeyIf("version", o.version) + KeyIf("aliases", o.aliases)
  }

  /** The keys present in an object's JSON form: every mandatory key, and an optional key exactly when its field is set. */
  function ObjectKeys(o: Object): (keys: set<string>)
    ensures RequiredObjectKeys <= keys <= RequiredObjectKeys + OptionalObjectKeys
    ensures "name" in keys <==> o.name.Some?
    ensures "description" in keys <==> o.description.Some?
    ensures "mime_type" in keys <==> o.mimeType.Some?
    ensures "updated_time" in keys <==> o.updatedTime.Some?
    ensures "version" in keys <==> o.version.Some?
    ensures "contents" in keys <==> o.contents.Present?
    ensures "access_methods" in keys <==> o.accessMethods.Some?
    ensures "aliases" in keys <==> o.aliases.Some?
  {
    RequiredObjectKeys + DescriptiveKeys(o)
      + KeyIfList("contents", o.contents) + KeyIf("access_methods", o.accessMethods)
  }

  /** Every optional object field may be absent together: an object can carry only the mandatory keys. */
  lemma ObjectMayCarryOnlyRequiredKeys(id: string, created: string, selfUrl: string, size: int, sums: seq<Checksum>)
    ensures ObjectKeys(Object(id, created, selfUrl, size, sums, None, None, None, None, None, Absent, None, None))
            == RequiredObjectKeys
  {
  }

  /** The keys present in a content node's JSON form: `name` always, the others independently. */
  function ContentKeys(c: Content): (keys: set<string>)
    ensures "name" in keys
    ensures "id" in keys <==> c.id.Some?
    ensures "contents" in keys <==> c.contents.Present?
    ensures "drs_uri" in keys <==> c.drsUri.Some?
    ensures keys <= {"name", "id", "contents", "drs_uri"}
  {
    {"name"} + KeyIf("id", c.id) + KeyIfList("contents", c.contents) + KeyIf("drs_uri", c.drsUri)
  }

  /** The keys present in an error payload's JSON form: none is mandatory. */
  function ErrorKeys(e: Error): (keys: set<string>)
    ensures keys == {} <==> e.statusCode.None? && e.msg.None?
    ensures keys <= {"status_code", "msg"}
  {
    KeyIf("status_code", e.statusCode) + KeyIf("msg", e.msg)
  }

  // ---------------------------------------------------------------------------
  // Nesting depth of a bundle tree

  /** The greatest element of a sequence of depths; 0 for none. */
  function MaxOf(ds: seq<nat>): (m: nat)
    ensures forall k :: 0 <= k < |ds| ==> ds[k] <= m
    ensures ds == [] ==> m == 0
    ensures ds != [] ==> m in ds
  {
    if ds == [] then 0
    else
      var rest := MaxOf(ds[1..]);
      if ds[0] < rest then rest else ds[0]
  }

  /** The number of levels of a content tree; a node without children has depth 1. */
  function Depth(c: Content): (d: nat)
    ensures d >= 1
  {
    match c.contents
    case Absent => 1
    case Present(cs) => 1 + MaxOf(seq(|cs|, k requires 0 <= k < |cs| => Depth(cs[k])))
  }

  /** A chain of single-child bundles ending in a blob: for every n a tree of depth n + 1 exists. */
  function Nested(n: nat, leafId: string): (c: Content)
    ensures Depth(c) == n + 1
    ensures c.name != "" && (n == 0 <==> c.id == Some(leafId))
  {
    if n == 0 then Content("blob", Some(leafId), Absent, None)
    else
      var child := Nested(n - 1, leafId);
      assert seq(1, k requires 0 <= k < 1 => Depth([child][k])) == [Depth(child)];
      Content("bundle", None, Present([child]), None)
  }

  // ---------------------------------------------------------------------------
  // Request paths of the DRS endpoints

  /** The collection every object path lies under. */
  const ObjectsDir: string := "ga4gh/drs/v1/objects"
  const ObjectsPrefix: string := ObjectsDir + "/"
  const AccessInfix: string := "/access/"

  /** The relative path of GetObject for `drsId`. */
  function ObjectPath(drsId: string): (p: string)
    ensures StripPrefix(p, ObjectsPrefix) == Some(drsId)
  {
    StripPrefixOfConcat(ObjectsPrefix, drsId);
    ObjectsPrefix + drsId
  }

  /** The relative path of GetAccessURL for `drsId` and access method `accessId`. */
  function AccessPath(drsId: string, accessId: string): (p: string)
    ensures StripPrefix(p, ObjectPath(drsId)) == Some(AccessInfix + accessId)
  {
    StripPrefixOfConcat(ObjectPath(drsId), AccessInfix + accessId);
    assert ObjectPath(drsId) + AccessInfix + accessId == ObjectPath(drsId) + (AccessInfix + accessId);
    ObjectPath(drsId) + AccessInfix + accessId
  }

  /** The DRS id named by an object path: the inverse of ObjectPath. */
  function ObjectIdOf(path: string): (r: Option<string>)
    ensures r.Some? <==> StartsWith(path, ObjectsPrefix)
  {
    StripPrefix(path, ObjectsPrefix)
  }

  /** The object path is the fixed prefix followed by the id, verbatim. */
  lemma ObjectPathRoundTrip(drsId: string)
    ensures StartsWith(ObjectPath(drsId), ObjectsPrefix)
    ensures ObjectIdOf(ObjectPath(drsId)) == Some(drsId)
  {
    StripPrefixOfConcat(ObjectsPrefix, drsId);
  }

  /** Every path ObjectIdOf accepts is the object path of the id it returns. */
  lemma ObjectIdOfSound(path: string)
    requires ObjectIdOf(path).Some?
    ensures ObjectPath(ObjectIdOf(path).value) == path
  {
  }

  /** Distinct DRS ids give distinct object paths. */
  lemma ObjectPathInjective(a: string, b: string)
    requires ObjectPath(a) == ObjectPath(b)
    ensures a == b
  {
    ObjectPathRoundTrip(a);
    ObjectPathRoundTrip(b);
  }

  /** The access path extends the object path of the same id, strictly, and ends in `/access/` + id. */
  lemma AccessPathExtendsObjectPath(drsId: string, accessId: string)
    ensures StartsWith(AccessPath(drsId, accessId), ObjectPath(drsId))
    ensures |ObjectPath(drsId)| < |AccessPath(drsId, accessId)|
    ensures EndsWith(AccessPath(drsId, accessId), AccessInfix + accessId)
  {
    var p := AccessPath(drsId, accessId);
    assert p == ObjectPath(drsId) + (AccessInfix + accessId);
    assert p[..|ObjectPath(drsId)|] == ObjectPath(drsId);
    assert p[|p| - |AccessInfix + accessId|..] == AccessInfix + accessId;
  }

  /** Splits an access path at the first `/` after the objects prefix. */
  function SplitAccessPath(path: string): (r: Option<(string, string)>)
  {
    match ObjectIdOf(path)
    case None => None
    case Some(rest) => SplitAtSeparator(rest, AccessInfix)
  }

  /** When the DRS id holds no `/`, the pair (id, access id) is recovered from the access path. */
  lemma AccessPathRoundTrip(drsId: string, accessId: string)
    requires '/' !in drsId
    ensures SplitAccessPath(AccessPath(drsId, accessId)) == Some((drsId, accessId))
  {
    var rest := drsId + AccessInfix + accessId;
    assert AccessPath(drsId, accessId) == ObjectsPrefix + rest;
    StripPrefixOfConcat(ObjectsPrefix, rest);
    SplitAtSeparatorRoundTrip(drsId, AccessInfix, accessId);
  }

  /** Every path SplitAccessPath accepts is the access path of the pair it returns. */
  lemma SplitAccessPathSound(path: string)
    requires SplitAccessPath(path).Some?
    ensures '/' !in SplitAccessPath(path).value.0
    ensures AccessPath(SplitAccessPath(path).value.0, SplitAccessPath(path).value.1) == path
  {
    SplitAtSeparatorSound(ObjectIdOf(path).value, AccessInfix);
  }

  /** Without a restriction on the DRS id the pair is not recoverable: an id ending in `/access` collides. */
  lemma AccessPathAmbiguous()
    ensures AccessPath("a/access", "b") == AccessPath("a", "access/b")
    ensures SplitAccessPath(AccessPath("a/access", "b")) != Some(("a/access", "b"))
  {
    assert AccessPath("a/access", "b") == "ga4gh/drs/v1/objects/a/access/access/b";
    assert AccessPath("a", "access/b") == "ga4gh/drs/v1/objects/a/access/access/b";
    assert '/' !in "a";
    AccessPathRoundTrip("a", "access/b");
  }
}
