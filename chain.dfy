/**
 * The command-line driver: the response gate every hop goes through, and the three-hop
 * resolution accession -> DRS id -> first content id -> access URL, stopping at the first
 * failure. The network and the JSON decoder are parameters.
 */
module Chain {
  import opened Wrappers
  import opened Ncbi
  import Drs
  import Text
  import Urls

  /** What the transport hands back: status code, header fields and body. */
  datatype Response = Response(statusCode: int, headers: map<string, string>, body: string)

  /** The network: the response to each request, or None when the transfer itself fails. */
  type Server = Request -> Option<Response>

  /** The JSON decoder for each record the driver reads; None when the body does not decode. */
  datatype Decoders = Decoders(
    idx: string -> Option<Idx>,
    drsObject: string -> Option<Drs.Object>,
    access: string -> Option<Drs.AccessUrl>)

  /** Why a run stops: the process exits, traps, or the thrown error reaches the driver's catch. */
  datatype Error =
    | Transport            // the transfer threw
    | Status(code: int)    // a status other than 200
    | ContentType          // Content-Type missing or not exactly application/json
    | Decode               // the body did not decode
    | AccessionNotIndexed  // the forced unwrap of the index entry fails
    | MissingContents      // no contents, or the first node has no id
    | EmptyContents        // contents present but empty: indexing element 0 traps

  const OkStatus: int := 200
  const JsonType: string := "application/json"

  /** The gate on a received response: status first, then the content type, then decoding. */
  function Classify<T>(resp: Response, decode: string -> Option<T>): (r: Result<T, Error>)
    ensures r.Success? ==> resp.statusCode == OkStatus && "Content-Type" in resp.headers
    ensures r == Failure(Decode) ==> decode(resp.body).None?
  {
    if resp.statusCode != OkStatus then Failure(Status(resp.statusCode))
    else if "Content-Type" !in resp.headers || resp.headers["Content-Type"] != JsonType then Failure(ContentType)
    else match decode(resp.body)
      case None => Failure(Decode)
      case Some(v) => Success(v)
  }

  /** A response is accepted exactly when the status is 200, the content type is exactly JSON, and the body decodes. */
  lemma ClassifySuccessIff<T>(resp: Response, decode: string -> Option<T>, v: T)
    ensures Classify(resp, decode) == Success(v) <==>
      && resp.statusCode == 200
      && "Content-Type" in resp.headers && resp.headers["Content-Type"] == "application/json"
      && decode(resp.body) == Some(v)
  {
  }

  /** Any status other than 200 fails as a status failure, whatever the headers, body or decoder. */
  lemma StatusCheckedFirst<T>(resp: Response, decode: string -> Option<T>)
    requires resp.statusCode != 200
    ensures Classify(resp, decode) == Failure(Status(resp.statusCode))
  {
  }

  /** A 200 response without a Content-Type header fails before decoding. */
  lemma MissingContentTypeFails<T>(code: int, headers: map<string, string>, body: string, decode: string -> Option<T>)
    requires code == 200 && "Content-Type" !in headers
    ensures Classify(Response(code, headers, body), decode) == Failure(ContentType)
  {
  }

  /** The content type is compared as a whole string: a media type with parameters is refused. */
  lemma ParameterisedContentTypeRefused<T>(body: string, decode: string -> Option<T>)
    ensures Classify(Response(200, map["Content-Type" := "application/json; charset=utf-8"], body), decode)
            == Failure(ContentType)
  {
    assert "application/json; charset=utf-8" != JsonType by {
      assert |"application/json; charset=utf-8"| != |JsonType|;
    }
  }

  /** The decoder matters only for a 200 JSON response: otherwise any two decoders give the same result. */
  lemma DecodeReachedOnlyWhenAccepted<T>(resp: Response, d1: string -> Option<T>, d2: string -> Option<T>)
    requires Classify(resp, d1) != Classify(resp, d2)
    ensures resp.statusCode == 200 && "Content-Type" in resp.headers && resp.headers["Content-Type"] == JsonType
  {
  }

  /** What one hop yields from the transport's answer. */
  function Received<T>(reply: Option<Response>, decode: string -> Option<T>): (r: Result<T, Error>)
    ensures reply.None? <==> r == Failure(Transport)
  {
    match reply
    case None => Failure(Transport)
    case Some(resp) => Classify(resp, decode)
  }

  /** One hop: build the request, send it, gate and decode the response. */
  method Test<T>(s: Sraa, server: Server, path: string, auth: Option<string>, decode: string -> Option<T>)
    returns (r: Result<T, Error>, sent: Request)
    ensures sent == RequestFor(s, path, auth)
    ensures r == Received(server(sent), decode)
  {
    sent := MakeRequest(s, path, auth);
    var reply := server(sent);
    if reply.None? {
      return Failure(Transport), sent;
    }
    var resp := reply.value;
    if resp.statusCode != OkStatus {
      return Failure(Status(resp.statusCode)), sent;
    }
    if "Content-Type" !in resp.headers || resp.headers["Content-Type"] != JsonType {
      return Failure(ContentType), sent;
    }
    var decoded := decode(resp.body);
    if decoded.None? {
      return Failure(Decode), sent;
    }
    r := Success(decoded.value);
  }

  // ---------------------------------------------------------------------------
  // The hops' own steps

  /** The DRS id for an accession is the `drs` field of its index entry; the entry's status code is not consulted. */
  function DrsIdOf(idx: Idx, accession: string): (r: Result<string, Error>)
    ensures r.Success? <==> accession in idx.response
    ensures r.Success? ==> r.value == idx.response[accession].drs
    ensures r.Failure? ==> r.error == AccessionNotIndexed
  {
    if accession in idx.response then Success(idx.response[accession].drs) else Failure(AccessionNotIndexed)
  }

  /** The id of the first content node of an object. */
  function FirstContentId(obj: Drs.Object): (r: Result<string, Error>)
    ensures r.Success? <==>
      obj.contents.Present? && |obj.contents.items| > 0 && obj.contents.items[0].id.Some?
    ensures r.Success? ==> Some(r.value) == obj.contents.items[0].id
    ensures r == Failure(EmptyContents) <==> obj.contents == Drs.Present([])
  {
    match obj.contents
    case Absent => Failure(MissingContents)
    case Present(cs) =>
      if |cs| == 0 then Failure(EmptyContents)
      else match cs[0].id
        case None => Failure(MissingContents)
        case Some(id) => Success(id)
  }

  // ---------------------------------------------------------------------------
  // The run

  const Accession: string := "SRR287671"
  const AccessId: string := "1"
  const Passport: string := "Foo.bar.baz"

  /**
   * The outcome of a run and the requests it sent, in order. Only the last of at most
   * three requests, the access request, is an authorised POST.
   */
  function RunSpec(s: Sraa, accession: string, server: Server, dec: Decoders): (run: (Result<Drs.AccessUrl, Error>, seq<Request>))
    ensures 1 <= |run.1| <= 3
    ensures forall i :: 0 <= i < |run.1| ==> (run.1[i].httpMethod == "POST" <==> i == 2)
  {
    var r1 := RequestFor(s, IndexPath(accession), None);
    match Received(server(r1), dec.idx)
    case Failure(e) => (Failure(e), [r1])
    case Success(idx) =>
      match DrsIdOf(idx, accession)
      case Failure(e) => (Failure(e), [r1])
      case Success(drsId) =>
        var r2 := RequestFor(s, Drs.ObjectPath(drsId), None);
        match Received(server(r2), dec.drsObject)
        case Failure(e) => (Failure(e), [r1, r2])
        case Success(obj) =>
          match FirstContentId(obj)
          case Failure(e) => (Failure(e), [r1, r2])
          case Success(fileId) =>
            var r3 := RequestFor(s, Drs.AccessPath(fileId, AccessId), Some(Passport));
            (Received(server(r3), dec.access), [r1, r2, r3])
  }

  /** The driver: each hop's result is bound in order and the first failure ends the run. */
  method Run(s: Sraa, accession: string, server: Server, dec: Decoders)
    returns (outcome: Result<Drs.AccessUrl, Error>, sent: seq<Request>)
    ensures (outcome, sent) == RunSpec(s, accession, server, dec)
  {
    var idx, r1 := Test(s, server, IndexPath(accession), None, dec.idx);
    sent := [r1];
    if idx.Failure? {
      return Failure(idx.error), sent;
    }
    if accession !in idx.value.response {
      return Failure(AccessionNotIndexed), sent;
    }
    var drsId := idx.value.response[accession].drs;

    var obj, r2 := Test(s, server, Drs.ObjectPath(drsId), None, dec.drsObject);
    sent := [r1, r2];
    if obj.Failure? {
      return Failure(obj.error), sent;
    }
    var contents := obj.value.contents;
    if contents.Absent? {
      return Failure(MissingContents), sent;
    }
    if |contents.items| == 0 {
      return Failure(EmptyContents), sent;
    }
    var fileId := contents.items[0].id;
    if fileId.None? {
      return Failure(MissingContents), sent;
    }

    var access, r3 := Test(s, server, Drs.AccessPath(fileId.value, AccessId), Some(Passport), dec.access);
    sent := [r1, r2, r3];
    outcome := access;
  }

  // ---------------------------------------------------------------------------
  // Properties of a run

  /** A run sends one to three requests; the first is a GET of the index path for the accession. */
  lemma ChainStartsWithIndexLookup(s: Sraa, accession: string, server: Server, dec: Decoders)
    ensures var (_, sent) := RunSpec(s, accession, server, dec);
      && 1 <= |sent| <= 3
      && sent[0] == NewRequest(RequestUrl(s, IndexPath(accession)))
  {
  }

  /** A run that sends fewer than three requests failed, and a successful run sent all three. */
  lemma ChainStopsAtFirstFailure(s: Sraa, accession: string, server: Server, dec: Decoders)
    ensures var (outcome, sent) := RunSpec(s, accession, server, dec);
      (|sent| < 3 ==> outcome.Failure?) && (outcome.Success? ==> |sent| == 3)
  {
  }

  /** A failing first hop ends the run with its own error, after one request. */
  lemma IndexFailureStopsRun(s: Sraa, accession: string, server: Server, dec: Decoders, e: Error)
    requires Received(server(RequestFor(s, IndexPath(accession), None)), dec.idx) == Failure(e)
    ensures RunSpec(s, accession, server, dec).0 == Failure(e)
    ensures |RunSpec(s, accession, server, dec).1| == 1
  {
  }

  /** An accession absent from the decoded index fails the run before any DRS request. */
  lemma AbsentAccessionFails(s: Sraa, accession: string, server: Server, dec: Decoders, idx: Idx)
    requires Received(server(RequestFor(s, IndexPath(accession), None)), dec.idx) == Success(idx)
    requires accession !in idx.response
    ensures RunSpec(s, accession, server, dec) == (Failure(AccessionNotIndexed), [RequestFor(s, IndexPath(accession), None)])
  {
  }

  /** With the accession indexed, the second request fetches the object named by its entry's `drs` field. */
  lemma ObjectFetchUsesIndexedId(s: Sraa, accession: string, server: Server, dec: Decoders, idx: Idx)
    requires Received(server(RequestFor(s, IndexPath(accession), None)), dec.idx) == Success(idx)
    requires accession in idx.response
    ensures var sent := RunSpec(s, accession, server, dec).1;
      |sent| >= 2 && sent[1] == NewRequest(RequestUrl(s, Drs.ObjectPath(idx.response[accession].drs)))
  {
  }

  /**
   * With the object fetched and its first content node carrying an id, the last request is a POST
   * for access id "1" of that node carrying the fixed passport, and its decoded answer is the outcome.
   */
  lemma AccessFetchUsesFirstContent(s: Sraa, accession: string, server: Server, dec: Decoders, idx: Idx, obj: Drs.Object, fileId: string)
    requires Received(server(RequestFor(s, IndexPath(accession), None)), dec.idx) == Success(idx)
    requires accession in idx.response
    requires Received(server(RequestFor(s, Drs.ObjectPath(idx.response[accession].drs), None)), dec.drsObject) == Success(obj)
    requires FirstContentId(obj) == Success(fileId)
    ensures var (outcome, sent) := RunSpec(s, accession, server, dec);
      && |sent| == 3
      && sent[2].url == RequestUrl(s, Drs.AccessPath(fileId, "1"))
      && sent[2].httpMethod == "POST"
      && sent[2].body == Some(MakeAuth("Foo.bar.baz"))
      && outcome == Received(server(sent[2]), dec.access)
  {
  }

  /** A failing object fetch ends the run with its own error, after two requests: the access request is never sent. */
  lemma ObjectFailureStopsRun(s: Sraa, accession: string, server: Server, dec: Decoders, idx: Idx, e: Error)
    requires Received(server(RequestFor(s, IndexPath(accession), None)), dec.idx) == Success(idx)
    requires accession in idx.response
    requires Received(server(RequestFor(s, Drs.ObjectPath(idx.response[accession].drs), None)), dec.drsObject) == Failure(e)
    ensures RunSpec(s, accession, server, dec)
            == (Failure(e), [RequestFor(s, IndexPath(accession), None),
                             RequestFor(s, Drs.ObjectPath(idx.response[accession].drs), None)])
  {
  }

  /** An object whose contents are absent, empty, or whose first node lacks an id ends the run after two requests. */
  lemma ContentFailureStopsRun(s: Sraa, accession: string, server: Server, dec: Decoders, idx: Idx, obj: Drs.Object)
    requires Received(server(RequestFor(s, IndexPath(accession), None)), dec.idx) == Success(idx)
    requires accession in idx.response
    requires Received(server(RequestFor(s, Drs.ObjectPath(idx.response[accession].drs), None)), dec.drsObject) == Success(obj)
    requires obj.contents.Absent? || obj.contents.items == [] || obj.contents.items[0].id.None?
    ensures var (outcome, sent) := RunSpec(s, accession, server, dec);
      |sent| == 2 && (outcome == Failure(MissingContents) || outcome == Failure(EmptyContents))
  {
  }

  /** For ids with no query, fragment or dot segment, the last request's URL is the access path resolved against the base URL. */
  lemma AccessUrlIsResolved(s: Sraa, fileId: string, accessId: string, passport: string)
    requires Text.PlainSegments(fileId) && Text.PlainSegments(accessId)
    ensures Urls.PlainRelative(Drs.AccessPath(fileId, accessId))
    ensures RequestFor(s, Drs.AccessPath(fileId, accessId), Some(passport)).url
            == Urls.ToString(Urls.Resolve(LocationUrl(s), Drs.AccessPath(fileId, accessId)))
  {
    AccessPathIsPlain(fileId, accessId);
    RequestUrlIsResolution(s, Drs.AccessPath(fileId, accessId));
  }

  /** The driver's access id is a plain segment, so the lemma above applies to its last request. */
  lemma AccessIdIsPlain()
    ensures Text.PlainSegments(AccessId)
  {
    Text.PlainWord(AccessId);
  }

  /** The driver's own run starts with a GET to the regional index for its accession. */
  lemma DriverFirstRequest(server: Server, dec: Decoders)
    ensures RunSpec(NewSraa(), Accession, server, dec).1[0]
            == NewRequest(Urls.ToString(RgnUrl) + IndexPath(Accession))
  {
    ChainStartsWithIndexLookup(NewSraa(), Accession, server, dec);
  }
}
