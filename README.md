# drs-test in Dafny

A model of the request-shaping and response-gating core of `drs-test`, a small Swift
client for the GA4GH Data Repository Service (DRS v1) that sits behind NCBI's accession
index ("locate" service). The client:

- looks an accession up in the index (`idx/v1/{accession}`);
- fetches the DRS object named by the index entry (`ga4gh/drs/v1/objects/{id}`);
- takes the id of the object's first content node;
- asks for access URL `"1"` of that node (`…/objects/{id}/access/1`), sending a passport.

Every hop passes the same gate: status 200 first, then a `Content-Type` of exactly
`application/json`, then JSON decoding.

Files and modules (one module per source file, plus helpers):

- `drs.dfy`, module `Drs` (`DRS.swift`): the DRS records as datatypes, the keys each record
  carries, the depth of a bundle tree, the two DRS path builders and their inverses.
- `ncbi.dfy`, module `Ncbi` (`NCBI.swift`): the index record and its `drs-base` key mapping,
  the index path, the three environments and their base URLs, the passport body `makeAuth`,
  and request construction `makeRequest`. `makeRequest` is a method that updates a local
  request value step by step, as the Swift code does. It is proved equal to the
  specification function `RequestFor`.
- `chain.dfy`, module `Chain` (`main.swift`): the response gate `Classify`, one hop `Test`,
  and the driver `Run`. `Run` binds each hop's result in order and stops at the first
  failure. It is proved equal to the specification function `RunSpec`, and the lemmas about
  `RunSpec` state the ordering and failure properties.
- `urls.dfy`, module `Urls`: the "merge" step of URI resolution (section 5.2.3 of RFC 3986)
  for plain relative paths, used to show that the client's base-plus-path URLs are what
  `URL(string:relativeTo:)` resolves to.
- `text.dfy`, module `Text`, and `wrappers.dfy`, module `Wrappers`: string helpers
  (prefixes, first index of a character, `/`-segments) and `Option`/`Result`.

Swift's `[Content]?` is written as its own datatype `Drs.ContentList` (`Absent` or
`Present(items)`) rather than `Option<seq<Content>>`. This lets recursion into a node's
children terminate; the two types hold the same values.

The network is a function parameter `Server: Request -> Option<Response>`, where `None`
means the transfer threw. JSON decoding is a parameter `string -> Option<T>` per record
type, where `None` means decoding failed. Every way the Swift driver stops is one value of
`Chain.Error`: `exit(1)`, a trapping forced unwrap or index, and a thrown error caught by
the driver.

Points where the code differs from what a reader might expect of a DRS client:

- The passport body is `{ "ga4gh_passort" = "<token>"}`. The key is misspelt, `=` stands
  where JSON has `:`, and the token is not escaped. It is not `{"ga4gh_passport": token}`.
- No cache-bypass directive is set on authorised requests.
- There is no `expand` query flag, no region filtering of access methods and no nested
  second object fetch.
- The access URL is requested for the first content node's id with access id `"1"`.
- Chain failures are not distinct resolution errors. An accession missing from the index
  traps on a forced unwrap. Empty `contents` traps on `[0]`. Missing contents or a missing
  id exits.
- An index entry's own `status_code` is never consulted.

`AccessPath` is not injective on (id, access id) pairs. `AccessPath("a/access", "b")` equals
`AccessPath("a", "access/b")`, so an id that merely avoids the text `/access/` is not enough
to recover the pair. The model recovers the pair when the DRS id contains no `/`
(`Drs.AccessPathRoundTrip`) and proves the collision (`Drs.AccessPathAmbiguous`).

## Model

| member | source | states |
|---|---|---|
| Drs.ObjectKeys | Sources/drs-test/DRS.swift:31-48 | an object always carries `id`, `created_time`, `self_url`, `size`, `checksums`; every other key is present exactly when its field is set |
| Drs.DescriptiveKeys | Sources/drs-test/DRS.swift:39-47 | of the six optional descriptive keys (`name`, `description`, `mime_type`, `updated_time`, `version`, `aliases`), each is present exactly when its field is set, and no other key is |
| Drs.ObjectMayCarryOnlyRequiredKeys | Sources/drs-test/DRS.swift:39-47 | all optional object fields can be absent at once, leaving exactly the five mandatory keys |
| Drs.ContentKeys | Sources/drs-test/DRS.swift:25-30 | a content node always carries `name`; `id`, `contents` and `drs_uri` are each present exactly when set, independently |
| Drs.ErrorKeys | Sources/drs-test/DRS.swift:49-52 | both fields of the DRS error payload are optional: it can carry no key at all |
| Drs.Nested | Sources/drs-test/DRS.swift:25-30 | content nests to any finite depth: for every n there is a tree of depth n + 1 |
| Drs.ObjectPath | Sources/drs-test/DRS.swift:53-55 | the object path begins with `ga4gh/drs/v1/objects/`, and removing that prefix leaves exactly the DRS id |
| Drs.AccessPath | Sources/drs-test/DRS.swift:56-58 | the access path begins with the object path of the same id, and what follows is exactly `/access/` + access id |
| Drs.ObjectPathRoundTrip | Sources/drs-test/DRS.swift:53-55 | the object path is `ga4gh/drs/v1/objects/` followed by the DRS id verbatim; stripping the prefix gives the id back |
| Drs.ObjectIdOfSound | Sources/drs-test/DRS.swift:53-55 | every path carrying the objects prefix is the object path of the id after it |
| Drs.ObjectPathInjective | Sources/drs-test/DRS.swift:53-55 | distinct DRS ids give distinct object paths |
| Drs.AccessPathExtendsObjectPath | Sources/drs-test/DRS.swift:56-58 | the access path starts with the object path of the same id, is strictly longer, and ends in `/access/` + access id |
| Drs.AccessPathRoundTrip | Sources/drs-test/DRS.swift:56-58 | for a DRS id without `/`, splitting the access path gives back (id, access id) |
| Drs.SplitAccessPathSound | Sources/drs-test/DRS.swift:56-58 | every split the parser returns rebuilds the path it came from, with a `/`-free id |
| Drs.AccessPathAmbiguous | Sources/drs-test/DRS.swift:56-58 | two different (id, access id) pairs give the same access path when the id ends in `/access` |
| Ncbi.CodingKey | Sources/drs-test/NCBI.swift:22-25 | `drs_base` is read from key `drs-base`; `response` keeps its own name; no other property is renamed |
| Ncbi.CodingKeysInjective | Sources/drs-test/NCBI.swift:19-25 | the index record's two properties read two distinct keys, exactly `response` and `drs-base` |
| Ncbi.AccessionOf | Sources/drs-test/NCBI.swift:27-29 | a path is accepted exactly when it has the `idx/v1/` prefix, and then it is the index path of what follows |
| Ncbi.IndexPath | Sources/drs-test/NCBI.swift:27-29 | the index path begins with `idx/v1/`, and removing that prefix leaves exactly the accession |
| Ncbi.IndexPathRoundTrip | Sources/drs-test/NCBI.swift:27-29 | the index path is `idx/v1/` followed by the accession verbatim |
| Ncbi.IndexPathInjective | Sources/drs-test/NCBI.swift:27-29 | distinct accessions give distinct index paths |
| Ncbi.IndexPathIsPlain | Sources/drs-test/NCBI.swift:27-29 | for an accession without query, fragment or dot segment, the index path is a plain relative reference |
| Ncbi.NewSraa | Sources/drs-test/NCBI.swift:36-39 | the client is built for the environment it is given, the regional one when none is given |
| Ncbi.DefaultIsRegional | Sources/drs-test/NCBI.swift:37-39 | the initialiser without an argument selects the regional environment and its base URL |
| Ncbi.LocationUrl | Sources/drs-test/NCBI.swift:47-56 | every environment's base URL is an https URL whose path is `/` |
| Ncbi.LocationUrlInjective | Sources/drs-test/NCBI.swift:43-56 | the three base URLs are pairwise distinct, one per environment, and each ends in `/` |
| Ncbi.MakeAuth | Sources/drs-test/NCBI.swift:57-59 | the body is exactly as long as the token plus the fixed frame: nothing is inserted into the token |
| Ncbi.PassportOf | Sources/drs-test/NCBI.swift:57-59 | any body the inverse accepts is exactly the passport body of the token it returns |
| Ncbi.MakeAuthRoundTrip | Sources/drs-test/NCBI.swift:57-59 | the token is inserted verbatim between the fixed prefix `{ "ga4gh_passort" = "` and suffix `"}` and can be read back |
| Ncbi.MakeAuthUnescaped | Sources/drs-test/NCBI.swift:57-59 | nothing is escaped: the body holds exactly four quote characters more than the token and exactly as many backslashes, so no quote of the token gains an escape |
| Ncbi.AddValue | Sources/drs-test/NCBI.swift:64 | adding a header value sets a new field or appends after a comma, and leaves other fields alone |
| Ncbi.RequestUrl | Sources/drs-test/NCBI.swift:61 | the request URL starts with the environment's base URL and ends with the relative path |
| Ncbi.RequestUrlIsResolution | Sources/drs-test/NCBI.swift:61 | for a plain relative path, base + path is the path resolved against the base URL |
| Ncbi.MakeRequest | Sources/drs-test/NCBI.swift:60-68 | the request built step by step is the one `RequestFor` specifies |
| Ncbi.RequestFor | Sources/drs-test/NCBI.swift:60-68 | the request goes to the environment's base URL + path; it is a POST with a body exactly when a passport is given, and a GET without a body otherwise |
| Ncbi.AuthorizedRequest | Sources/drs-test/NCBI.swift:62-66 | with a passport: method POST, the single header `Content-Type: application/json`, and the passport body |
| Ncbi.AnonymousRequest | Sources/drs-test/NCBI.swift:60-67 | without a passport the fresh request is unchanged: GET, no header, no body |
| Ncbi.ObjectPathIsPlain | Sources/drs-test/DRS.swift:53-55 | for an id without query, fragment or dot segment, the object path is a plain relative reference |
| Ncbi.AccessPathIsPlain | Sources/drs-test/DRS.swift:56-58 | likewise for the access path of two such ids |
| Urls.Directory | Sources/drs-test/NCBI.swift:61 | the base path up to its last `/`: a prefix of the path, ending in `/` or empty, with no `/` after it |
| Urls.Merge | Sources/drs-test/NCBI.swift:61 | the merged path ends with the reference |
| Urls.Resolve | Sources/drs-test/NCBI.swift:61 | resolving a plain relative reference keeps the base's scheme and authority and ends with the reference |
| Urls.ResolveIsConcatenation | Sources/drs-test/NCBI.swift:61 | against a base whose path ends in `/`, resolution is textual concatenation |
| Chain.Classify | Sources/drs-test/main.swift:42-57 | only a 200 response with a Content-Type header is accepted; a decode failure means the decoder refused the body |
| Chain.ClassifySuccessIff | Sources/drs-test/main.swift:42-57 | a response is accepted with value v exactly when status is 200, Content-Type is exactly `application/json`, and the body decodes to v |
| Chain.StatusCheckedFirst | Sources/drs-test/main.swift:42-49 | any status other than 200 fails as a status failure, whatever the headers (a JSON content type included), body or decoder |
| Chain.MissingContentTypeFails | Sources/drs-test/main.swift:46-49 | a 200 response without Content-Type fails before decoding |
| Chain.ParameterisedContentTypeRefused | Sources/drs-test/main.swift:46 | `application/json; charset=utf-8` is refused: the comparison is whole-string equality |
| Chain.DecodeReachedOnlyWhenAccepted | Sources/drs-test/main.swift:50-57 | the decoder can change the result only for a 200 response whose content type is exactly JSON |
| Chain.Received | Sources/drs-test/main.swift:38 | a transfer that throws is a transport failure, and only that |
| Chain.Test | Sources/drs-test/main.swift:36-58 | one hop sends the request `RequestFor` specifies and gates the server's answer |
| Chain.DrsIdOf | Sources/drs-test/main.swift:20 | the DRS id is the `drs` field of the entry keyed by the accession; an absent key fails; the entry's status code is ignored |
| Chain.FirstContentId | Sources/drs-test/main.swift:24-27 | the file id is `contents[0].id`; absent contents or a missing id fail, and empty contents fail as a trap |
| Chain.RunSpec | Sources/drs-test/main.swift:17-31 | a run sends one to three requests, and a request is an authorised POST exactly when it is the third, the access request |
| Chain.Run | Sources/drs-test/main.swift:17-31 | the driver's outcome and the requests it sends are those `RunSpec` specifies |
| Chain.ChainStartsWithIndexLookup | Sources/drs-test/main.swift:18-19 | a run sends one to three requests, the first a GET of the index path for the accession |
| Chain.ChainStopsAtFirstFailure | Sources/drs-test/main.swift:17-31 | a run that sent fewer than three requests failed; a successful run sent all three |
| Chain.IndexFailureStopsRun | Sources/drs-test/main.swift:19 | a failing index hop ends the run with its own error after one request |
| Chain.AbsentAccessionFails | Sources/drs-test/main.swift:19-20 | an accession missing from the decoded index fails the run before any DRS request |
| Chain.ObjectFetchUsesIndexedId | Sources/drs-test/main.swift:20-23 | the second request is a GET of the object path of the indexed `drs` id |
| Chain.ObjectFailureStopsRun | Sources/drs-test/main.swift:23-29 | a failing object fetch (transfer, status, content type or decoding) ends the run with its own error after two requests; no access request is sent |
| Chain.AccessFetchUsesFirstContent | Sources/drs-test/main.swift:23-29 | the third request is a POST for access id `1` of the first content id, with passport `Foo.bar.baz`, and its decoded answer is the outcome |
| Chain.ContentFailureStopsRun | Sources/drs-test/main.swift:24-27 | absent, empty or id-less contents end the run after two requests |
| Chain.AccessUrlIsResolved | Sources/drs-test/main.swift:29 | for plain ids, the access request's URL is the access path resolved against the base URL |
| Chain.AccessIdIsPlain | Sources/drs-test/main.swift:29 | the fixed access id `1` is a plain segment |
| Chain.DriverFirstRequest | Sources/drs-test/main.swift:12-19 | the driver's default client first sends a GET to the regional base URL + `idx/v1/` + its accession |

## Left out

- `SRAA.get` (Sources/drs-test/NCBI.swift:69-84) is not modelled. It does URLSession I/O and waits on a semaphore for the callback. The model takes the network as the `Server` function parameter, so it captures no timeouts or concurrency.
- JSONDecoder and the synthesised Codable conformances are a library outside the model, so decoding is a function parameter per record type. The `*Keys` functions capture only which keys a record carries, and no JSON round trip is claimed.
- Ncbi.RequestUrl: gives base + path for every path. Foundation's `URL(string:relativeTo:)` gives the same only for plain relative paths (`Ncbi.RequestUrlIsResolution`). For ids holding `?`, `#`, `.`/`..` segments or characters `URL(string:)` rejects, the real URL differs, or the forced unwrap traps. Ids come from server data and Foundation's parser is not part of this model.
- Ncbi.AddValue: compares header field names exactly. Foundation treats them case-insensitively. The client only ever adds one field to an empty request, so this makes no difference here.
- `Data` and UTF-8 encoding are not modelled: bodies are strings. Swift's 64-bit `Int` (the object `size`, status codes) is an unbounded `int`, since range checks belong to the decoder.
- Logging (bootstrap, metadata updates, log calls), `HTTPURLResponse.localizedString`, process exit and the driver's `catch` are not modelled as side effects. Each way of stopping is a `Chain.Error` value.
- The forced unwrap of `response.url` in the logging line (Sources/drs-test/main.swift:39) is assumed to succeed.
- Region filtering, cache bypass and the `expand` flag are not modelled because the code has none of them.
