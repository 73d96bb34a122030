/** Loading fixtures into the search service and cleaning them out again:
    the bulk payload, the endpoints, the request sequence of Load (bulk
    request, single-document fallback) and of Clean, and the Loader. */
module Loading {
  import opened Types
  import opened Text
  import opened Json
  import opened Http
  import opened Fixtures

  // ---------------------------------------------------------------------
  // Bulk payload
  // ---------------------------------------------------------------------

  /** The action line that precedes every document of a bulk request. */
  const BulkActionLine: bytes := AsciiBytes("{\"index\": {}}\n")

  const Newline: bytes := AsciiBytes("\n")

  /** One document's part of a bulk payload. */
  function BulkEntry(doc: bytes): bytes {
    BulkActionLine + doc + Newline
  }

  /** The bulk payload: every document's entry, in document order. */
  function BulkPayload(docs: seq<bytes>): bytes
    decreases |docs|
  {
    if docs == [] then []
    else BulkPayload(docs[..|docs| - 1]) + BulkEntry(docs[|docs| - 1])
  }

  /** The number of bytes of all documents together. */
  function TotalLength(docs: seq<bytes>): nat
    decreases |docs|
  {
    if docs == [] then 0 else TotalLength(docs[..|docs| - 1]) + |docs[|docs| - 1]|
  }

  /** Each document adds its own length and 15 bytes: the 14 of the action
      line and the newline after it. No documents, no payload. */
  lemma {:induction false} BulkPayloadLength(docs: seq<bytes>)
    ensures |BulkPayload(docs)| == 15 * |docs| + TotalLength(docs)
    decreases |docs|
  {
    if docs != [] {
      BulkPayloadLength(docs[..|docs| - 1]);
      assert |BulkActionLine| == 14;
    }
  }

  /** The payload of two runs of documents is the two payloads in a row. */
  lemma {:induction false} BulkPayloadConcat(a: seq<bytes>, b: seq<bytes>)
    ensures BulkPayload(a + b) == BulkPayload(a) + BulkPayload(b)
    decreases |b|
  {
    if b == [] {
      assert a + b == a;
    } else {
      var b' := b[..|b| - 1];
      var e := BulkEntry(b[|b| - 1]);
      assert BulkPayload(a + b) == BulkPayload(a + b') + e by {
        assert (a + b)[..|a + b| - 1] == a + b';
        assert (a + b)[|a + b| - 1] == b[|b| - 1];
      }
      BulkPayloadConcat(a, b');
      AppendAssoc(BulkPayload(a), BulkPayload(b'), e);
    }
  }

  lemma AppendAssoc(x: bytes, y: bytes, z: bytes)
    ensures (x + y) + z == x + (y + z)
  {
  }

  /** Splitting the documents anywhere splits the payload there. */
  lemma BulkPayloadSplit(docs: seq<bytes>, k: nat)
    requires k <= |docs|
    ensures BulkPayload(docs) == BulkPayload(docs[..k]) + BulkPayload(docs[k..])
  {
    assert docs == docs[..k] + docs[k..];
    BulkPayloadConcat(docs[..k], docs[k..]);
  }

  /** Document `k`'s entry follows the entries of the documents before it
      and precedes those of the documents after it. */
  lemma BulkPayloadAt(docs: seq<bytes>, k: nat)
    requires k < |docs|
    ensures BulkPayload(docs) == BulkPayload(docs[..k]) + BulkEntry(docs[k]) + BulkPayload(docs[k + 1..])
  {
    BulkPayloadSplit(docs, k + 1);
    assert docs[..k + 1][..k] == docs[..k];
  }

  /** Builds the bulk payload by appending, for each document in order, the
      action line, the document and a newline. */
  method BuildBulkPayload(jsonObjects: seq<bytes>) returns (reqBodyPayloadBulk: bytes)
    ensures reqBodyPayloadBulk == BulkPayload(jsonObjects)
  {
    reqBodyPayloadBulk := [];
    for j := 0 to |jsonObjects|
      invariant reqBodyPayloadBulk == BulkPayload(jsonObjects[..j])
    {
      assert jsonObjects[..j + 1][..j] == jsonObjects[..j];
      reqBodyPayloadBulk := reqBodyPayloadBulk + BulkActionLine;
      reqBodyPayloadBulk := reqBodyPayloadBulk + jsonObjects[j];
      reqBodyPayloadBulk := reqBodyPayloadBulk + Newline;
    }
    assert jsonObjects[..|jsonObjects|] == jsonObjects;
  }

  // ---------------------------------------------------------------------
  // Endpoints
  // ---------------------------------------------------------------------

  const IndexSuffix := "_index"
  const NdJsonType := "application/x-ndjson"
  const JsonType := "application/json"

  /** The body of a delete-by-query request: a match-all query, byte for
      byte as the loader writes it. */
  const MatchAllQuery: bytes :=
    AsciiBytes("{\n") + Indent + AsciiBytes("\"query\": {\n") +
    Indent + AsciiBytes("\"match_all\": {}\n") +
    Indent + AsciiBytes("}\n") +
    Indent + AsciiBytes("}")

  /** The seven tabs that start each continuation line of `MatchAllQuery`. */
  const Indent: bytes := AsciiBytes("\t\t\t\t\t\t\t")

  /** The inner type of an index: its name before the first "_index", or the
      whole name when "_index" does not occur. */
  function InnerType(esIndex: string): (innerIndex: string)
    ensures innerIndex <= esIndex && !Contains(innerIndex, IndexSuffix)
    ensures innerIndex == esIndex <==> !Contains(esIndex, IndexSuffix)
    ensures innerIndex != esIndex ==> OccursAt(esIndex, IndexSuffix, |innerIndex|)
    ensures innerIndex == "" <==> esIndex == "" || OccursAt(esIndex, IndexSuffix, 0)
  {
    FirstSegment(esIndex, IndexSuffix)
  }

  function BulkUrl(esUrl: string, esIndex: string): string {
    esUrl + "/" + esIndex + "/_bulk?refresh=true"
  }

  function TypedDocumentUrl(esUrl: string, esIndex: string, innerIndex: string): string {
    esUrl + "/" + esIndex + "/" + innerIndex + "?refresh=true"
  }

  function UntypedDocumentUrl(esUrl: string, esIndex: string): string {
    esUrl + "/" + esIndex + "?refresh=true"
  }

  /** Where a single document is posted: under the index's inner type, or
      straight into the index when the inner type is empty. */
  function DocumentUrl(esUrl: string, esIndex: string): string {
    var innerIndex := InnerType(esIndex);
    if |innerIndex| != 0 then TypedDocumentUrl(esUrl, esIndex, innerIndex)
    else UntypedDocumentUrl(esUrl, esIndex)
  }

  function DeleteByQueryUrl(esUrl: string, esIndex: string): string {
    esUrl + "/" + esIndex + "/_delete_by_query?conflicts=proceed"
  }

  /** An index named `<type>_index` gets its documents under `<type>`. */
  lemma DocumentUrlOfTypedIndex(esUrl: string, t: string)
    requires t != "" && !Contains(t, IndexSuffix)
    ensures DocumentUrl(esUrl, t + IndexSuffix) ==
      esUrl + "/" + t + IndexSuffix + "/" + t + "?refresh=true"
  {
    var name := t + IndexSuffix;
    // No occurrence of "_index" starts inside t: one that lay wholly in t
    // would be an occurrence in t, and one that ran past the end of t would
    // need a '_' of "_index" other than its first at position |t|.
    forall j | 0 <= j < |t|
      ensures !OccursAt(name, IndexSuffix, j)
    {
      if j + |IndexSuffix| <= |t| {
        assert name[j..j + |IndexSuffix|] == t[j..j + |IndexSuffix|];
        assert !OccursAt(t, IndexSuffix, j);
      } else {
        assert name[|t|] == '_';
        assert name[j..j + |IndexSuffix|][|t| - j] == name[|t|];
        assert IndexSuffix[|t| - j] != '_';
      }
    }
    assert name[|t|..] == IndexSuffix;
    IndexOfFirst(name, IndexSuffix, |t|);
    assert InnerType(name) == name[..|t|] == t;
  }

  /** An index whose name lacks "_index" gets its documents under a type of
      the same name: `items` posts to `base/items/items?refresh=true`. */
  lemma DocumentUrlOfPlainIndex(esUrl: string, esIndex: string)
    requires esIndex != "" && !Contains(esIndex, IndexSuffix)
    ensures DocumentUrl(esUrl, esIndex) == esUrl + "/" + esIndex + "/" + esIndex + "?refresh=true"
  {
  }

  /** An index whose name is empty or starts with "_index" gets its
      documents without a type segment. */
  lemma DocumentUrlWithoutType(esUrl: string, esIndex: string)
    requires esIndex == "" || OccursAt(esIndex, IndexSuffix, 0)
    ensures DocumentUrl(esUrl, esIndex) == esUrl + "/" + esIndex + "?refresh=true"
  {
  }

  // ---------------------------------------------------------------------
  // Requests
  // ---------------------------------------------------------------------

  /** The bulk request of an index: all its documents in one payload. */
  function BulkRequest(esUrl: string, esIndex: string, docs: seq<bytes>): Request {
    Request(BulkUrl(esUrl, esIndex), NdJsonType, BulkPayload(docs))
  }

  /** The fallback's requests: one per document, in document order, each
      carrying the document alone. */
  function DocumentRequests(esUrl: string, esIndex: string, docs: seq<bytes>): (reqs: seq<Request>)
    ensures |reqs| == |docs|
  {
    seq(|docs|, i requires 0 <= i < |docs| => Request(DocumentUrl(esUrl, esIndex), JsonType, docs[i]))
  }

  function DeleteRequest(esUrl: string, esIndex: string): Request {
    Request(DeleteByQueryUrl(esUrl, esIndex), JsonType, MatchAllQuery)
  }

  /** Clean's requests: one per fixture, in fixture order. */
  function DeleteRequests(esUrl: string, fs: seq<FixtureFile>): (reqs: seq<Request>)
    ensures |reqs| == |fs|
  {
    seq(|fs|, i requires 0 <= i < |fs| => DeleteRequest(esUrl, fs[i].FileNameWithoutExtension()))
  }

  /** The bulk requests of a log, in order. */
  function Bulks(log: seq<Request>): seq<Request>
    decreases |log|
  {
    if log == [] then []
    else Bulks(log[..|log| - 1]) + (if log[|log| - 1].contentType == NdJsonType then [log[|log| - 1]] else [])
  }

  // ---------------------------------------------------------------------
  // The request sequences of Load and Clean
  // ---------------------------------------------------------------------

  /** The requests sent, and the error returned (if any). */
  datatype Run = Run(log: seq<Request>, err: Option<Error>)

  predicate IsTransport(err: Option<Error>) {
    err.Some? && err.value.TransportError?
  }

  /** Clean's loop: the requests posted in order; a transport failure
      returns at once, and no status is looked at. */
  function PostEach(reqs: seq<Request>, server: Server, log: seq<Request>): Run
    decreases |reqs|
  {
    if reqs == [] then Run(log, None)
    else
      match server(log, reqs[0])
      case TransportFailure(reason) => Run(log + [reqs[0]], Some(TransportError(reason)))
      case Status(_) => PostEach(reqs[1..], server, log + [reqs[0]])
  }

  /** The fallback: the single-document requests posted in order. A
      transport failure returns at once. Every POST reassigns the error: nil,
      or a rejection of the fixture when the status is neither 200 nor 201. */
  function Fallback(reqs: seq<Request>, fileName: string, server: Server,
                    log: seq<Request>, err: Option<Error>): Run
    decreases |reqs|
  {
    if reqs == [] then Run(log, err)
    else
      match server(log, reqs[0])
      case TransportFailure(reason) => Run(log + [reqs[0]], Some(TransportError(reason)))
      case Status(code) =>
        Fallback(reqs[1..], fileName, server, log + [reqs[0]],
                 if Accepted(code) then None else Some(FixtureRejected(fileName)))
  }

  /** One fixture once its content has parsed: the bulk request, and the
      fallback when it is answered with neither 200 nor 201. */
  function PostFixture(bulk: Request, reqs: seq<Request>, fileName: string, server: Server,
                       log: seq<Request>): Run
  {
    match server(log, bulk)
    case TransportFailure(reason) => Run(log + [bulk], Some(TransportError(reason)))
    case Status(code) =>
      if Accepted(code) then Run(log + [bulk], None)
      else Fallback(reqs, fileName, server, log + [bulk], None)
  }

  /** One fixture of Load: parse, then post. */
  function LoadFixture(esUrl: string, f: FixtureFile, json: Codec, server: Server,
                       log: seq<Request>): Run
  {
    match Collection(json, f.content)
    case Err(e) => Run(log, Some(InvalidFixtureData(f.fileName, e)))
    case Ok(docs) =>
      var esIndex := f.FileNameWithoutExtension();
      PostFixture(BulkRequest(esUrl, esIndex, docs), DocumentRequests(esUrl, esIndex, docs),
                  f.fileName, server, log)
  }

  /** Load: the fixtures in order, stopping at the first that ends in an error. */
  function LoadRun(esUrl: string, fs: seq<FixtureFile>, json: Codec, server: Server,
                   log: seq<Request>): Run
    decreases |fs|
  {
    if fs == [] then Run(log, None)
    else
      var r := LoadFixture(esUrl, fs[0], json, server, log);
      if r.err.Some? then r else LoadRun(esUrl, fs[1..], json, server, r.log)
  }

  // ---------------------------------------------------------------------
  // Transport failures
  // ---------------------------------------------------------------------

  /** `r` extends `log`; a transport failure on any request it adds is on the
      last of them and is the error returned, unchanged; a transport error
      returned comes from such a failure. */
  ghost predicate TransportAborts(server: Server, log: seq<Request>, r: Run) {
    && log <= r.log
    && (forall k :: |log| <= k < |r.log| && ResponseAt(server, r.log, k).TransportFailure? ==>
          k == |r.log| - 1 && r.err == Some(TransportError(ResponseAt(server, r.log, k).reason)))
    && (IsTransport(r.err) ==>
          |log| < |r.log| && ResponseAt(server, r.log, |r.log| - 1) == TransportFailure(r.err.value.reason))
  }

  /** A request answered with a status, followed by a run that aborts on
      transport failures, gives a run that aborts on transport failures. */
  lemma AbortsAfterStatus(server: Server, log: seq<Request>, req: Request, r: Run)
    requires server(log, req).Status?
    requires TransportAborts(server, log + [req], r)
    ensures TransportAborts(server, log, r)
  {
    assert r.log[..|log|] == log && r.log[|log|] == req by {
      assert (log + [req])[..|log|] == log;
    }
    assert ResponseAt(server, r.log, |log|) == server(log, req);
  }

  /** Two runs that abort on transport failures, the first without error,
      chain into one. */
  lemma AbortsChain(server: Server, log: seq<Request>, r1: Run, r2: Run)
    requires r1.err == None && TransportAborts(server, log, r1)
    requires TransportAborts(server, r1.log, r2)
    ensures TransportAborts(server, log, r2)
  {
    forall k | |log| <= k < |r1.log|
      ensures ResponseAt(server, r2.log, k) == ResponseAt(server, r1.log, k)
    {
      assert r2.log[..k] == r1.log[..k];
    }
  }

  /** A request answered by a transport failure ends the run with it. */
  lemma AbortsOnFailure(server: Server, log: seq<Request>, req: Request)
    requires server(log, req).TransportFailure?
    ensures TransportAborts(server, log, Run(log + [req], Some(TransportError(server(log, req).reason))))
  {
    assert (log + [req])[..|log|] == log;
  }

  /** Dropping the first of the requests still to send. */
  lemma TakeAfterFirst(reqs: seq<Request>, n: nat)
    requires 0 < n <= |reqs|
    ensures [reqs[0]] + reqs[1..][..n - 1] == reqs[..n]
  {
  }

  // ---------------------------------------------------------------------
  // Clean
  // ---------------------------------------------------------------------

  /** Clean's loop aborts on the first transport failure and returns it
      unchanged. */
  lemma {:induction false} PostEachAborts(reqs: seq<Request>, server: Server, log: seq<Request>)
    ensures TransportAborts(server, log, PostEach(reqs, server, log))
    decreases |reqs|
  {
    if reqs != [] {
      match server(log, reqs[0])
      case TransportFailure(_) =>
        AbortsOnFailure(server, log, reqs[0]);
      case Status(_) =>
        PostEachAborts(reqs[1..], server, log + [reqs[0]]);
        AbortsAfterStatus(server, log, reqs[0], PostEach(reqs, server, log));
    }
  }

  /** Clean's loop posts its requests in order, up to the first transport
      failure, all of them without one; it returns no error but a transport
      error. */
  lemma {:induction false} PostEachRequests(reqs: seq<Request>, server: Server, log: seq<Request>)
    ensures var r := PostEach(reqs, server, log);
      && |log| <= |r.log| <= |log| + |reqs|
      && r.log == log + reqs[..|r.log| - |log|]
      && (r.err.None? || IsTransport(r.err))
      && (r.err.None? ==> |r.log| == |log| + |reqs|)
    decreases |reqs|
  {
    if reqs == [] {
      assert reqs[..0] == [];
    } else {
      match server(log, reqs[0])
      case TransportFailure(_) =>
        assert reqs[..1] == [reqs[0]];
      case Status(_) =>
        var r := PostEach(reqs[1..], server, log + [reqs[0]]);
        PostEachRequests(reqs[1..], server, log + [reqs[0]]);
        TakeAfterFirst(reqs, |r.log| - |log|);
    }
  }

  /** Clean posts one delete-by-query request per fixture, in fixture order,
      until a transport failure, which it returns unchanged; it returns no
      other error, whatever the statuses, and without one every fixture's
      index is cleaned. */
  lemma CleanOutcome(esUrl: string, fs: seq<FixtureFile>, server: Server, log: seq<Request>)
    ensures var r := PostEach(DeleteRequests(esUrl, fs), server, log);
      && TransportAborts(server, log, r)
      && |log| <= |r.log| <= |log| + |fs|
      && r.log == log + DeleteRequests(esUrl, fs)[..|r.log| - |log|]
      && (r.err.None? || IsTransport(r.err))
      && (r.err.None? ==> |r.log| == |log| + |fs|)
  {
    PostEachOutcome(DeleteRequests(esUrl, fs), server, log);
  }

  /** The two lemmas above, for any requests. */
  lemma PostEachOutcome(reqs: seq<Request>, server: Server, log: seq<Request>)
    ensures var r := PostEach(reqs, server, log);
      && TransportAborts(server, log, r)
      && |log| <= |r.log| <= |log| + |reqs|
      && r.log == log + reqs[..|r.log| - |log|]
      && (r.err.None? || IsTransport(r.err))
      && (r.err.None? ==> |r.log| == |log| + |reqs|)
  {
    PostEachAborts(reqs, server, log);
    PostEachRequests(reqs, server, log);
  }

  /** Clean never looks at a status: two services that agree on transport
      failures give the same run. */
  lemma {:induction false} PostEachIgnoresStatus(reqs: seq<Request>, s1: Server, s2: Server,
                                                 log: seq<Request>)
    requires forall l, q :: s1(l, q).TransportFailure? == s2(l, q).TransportFailure?
    requires forall l, q :: s1(l, q).TransportFailure? ==> s1(l, q) == s2(l, q)
    ensures PostEach(reqs, s1, log) == PostEach(reqs, s2, log)
    decreases |reqs|
  {
    if reqs != [] && s1(log, reqs[0]).Status? {
      PostEachIgnoresStatus(reqs[1..], s1, s2, log + [reqs[0]]);
    }
  }

  // ---------------------------------------------------------------------
  // The fallback
  // ---------------------------------------------------------------------

  /** The fallback aborts on the first transport failure and returns it unchanged. */
  lemma {:induction false} FallbackAborts(reqs: seq<Request>, fileName: string, server: Server,
                                          log: seq<Request>, err: Option<Error>)
    requires !IsTransport(err)
    ensures TransportAborts(server, log, Fallback(reqs, fileName, server, log, err))
    decreases |reqs|
  {
    if reqs != [] {
      match server(log, reqs[0])
      case TransportFailure(_) =>
        AbortsOnFailure(server, log, reqs[0]);
      case Status(code) =>
        var err' := if Accepted(code) then None else Some(FixtureRejected(fileName));
        FallbackAborts(reqs[1..], fileName, server, log + [reqs[0]], err');
        AbortsAfterStatus(server, log, reqs[0], Fallback(reqs, fileName, server, log, err));
    }
  }

  /** The fallback posts its requests in order, up to the first transport
      failure, all of them without one. */
  lemma {:induction false} FallbackRequests(reqs: seq<Request>, fileName: string, server: Server,
                                            log: seq<Request>, err: Option<Error>)
    ensures var r := Fallback(reqs, fileName, server, log, err);
      && |log| <= |r.log| <= |log| + |reqs|
      && r.log == log + reqs[..|r.log| - |log|]
      && (!IsTransport(r.err) ==> |r.log| == |log| + |reqs|)
    decreases |reqs|
  {
    if reqs == [] {
      assert reqs[..0] == [];
    } else {
      match server(log, reqs[0])
      case TransportFailure(_) =>
        assert reqs[..1] == [reqs[0]];
      case Status(code) =>
        var err' := if Accepted(code) then None else Some(FixtureRejected(fileName));
        var r := Fallback(reqs[1..], fileName, server, log + [reqs[0]], err');
        FallbackRequests(reqs[1..], fileName, server, log + [reqs[0]], err');
        TakeAfterFirst(reqs, |r.log| - |log|);
    }
  }

  /** Without a transport failure the fallback's error is decided by the
      response to its last request alone, whatever came before. */
  lemma {:induction false} FallbackLastDecides(reqs: seq<Request>, fileName: string, server: Server,
                                               log: seq<Request>, err: Option<Error>)
    requires reqs != []
    requires !IsTransport(Fallback(reqs, fileName, server, log, err).err)
    ensures var last := server(log + reqs[..|reqs| - 1], reqs[|reqs| - 1]);
      && last.Status?
      && Fallback(reqs, fileName, server, log, err).err ==
           if Accepted(last.code) then None else Some(FixtureRejected(fileName))
    decreases |reqs|
  {
    assert log + reqs[..0] == log;
    if |reqs| == 1 {
      assert reqs[1..] == [];
    } else {
      var code := server(log, reqs[0]).code;
      var err' := if Accepted(code) then None else Some(FixtureRejected(fileName));
      var rest := reqs[1..];
      FallbackLastDecides(rest, fileName, server, log + [reqs[0]], err');
      assert log + [reqs[0]] + rest[..|rest| - 1] == log + reqs[..|reqs| - 1] by {
        TakeAfterFirst(reqs, |reqs| - 1);
      }
    }
  }

  /** The fallback posts its requests in order, one per document, until a
      transport failure, and returns that failure unchanged; without one, it
      posts them all and its outcome is decided by the last document alone:
      an earlier rejection is cleared by a later success. */
  lemma FallbackOutcome(reqs: seq<Request>, fileName: string, server: Server,
                        log: seq<Request>, err: Option<Error>)
    requires !IsTransport(err)
    ensures var r := Fallback(reqs, fileName, server, log, err);
      && TransportAborts(server, log, r)
      && |log| <= |r.log| <= |log| + |reqs|
      && r.log == log + reqs[..|r.log| - |log|]
      && (!IsTransport(r.err) ==>
            && |r.log| == |log| + |reqs|
            && r.err == (if reqs == [] then err
                         else if Accepted(ResponseAt(server, r.log, |r.log| - 1).code) then None
                         else Some(FixtureRejected(fileName))))
  {
    var r := Fallback(reqs, fileName, server, log, err);
    FallbackAborts(reqs, fileName, server, log, err);
    FallbackRequests(reqs, fileName, server, log, err);
    if !IsTransport(r.err) && reqs != [] {
      FallbackLastDecides(reqs, fileName, server, log, err);
      assert reqs[..|reqs|] == reqs;
      assert r.log[..|r.log| - 1] == log + reqs[..|reqs| - 1];
    }
  }

  /** Only transport failures and whether a status is 200 or 201 matter to
      the fallback. */
  lemma {:induction false} FallbackSeesOnlyAcceptance(reqs: seq<Request>, fileName: string,
                                                     s1: Server, s2: Server, log: seq<Request>,
                                                     err: Option<Error>)
    requires forall l, q :: s1(l, q).TransportFailure? == s2(l, q).TransportFailure?
    requires forall l, q :: s1(l, q).TransportFailure? ==> s1(l, q) == s2(l, q)
    requires forall l, q :: s1(l, q).Status? ==> Accepted(s1(l, q).code) == Accepted(s2(l, q).code)
    ensures Fallback(reqs, fileName, s1, log, err) == Fallback(reqs, fileName, s2, log, err)
    decreases |reqs|
  {
    if reqs != [] && s1(log, reqs[0]).Status? {
      var err' := if Accepted(s1(log, reqs[0]).code) then None else Some(FixtureRejected(fileName));
      FallbackSeesOnlyAcceptance(reqs[1..], fileName, s1, s2, log + [reqs[0]], err');
    }
  }

  // ---------------------------------------------------------------------
  // One fixture
  // ---------------------------------------------------------------------

  /** The requests and result `r` of a fixture whose content parsed, posted
      from `log`: first exactly one bulk request, then single-document
      requests in document order, and these only when the bulk request was
      answered with neither 200 nor 201; without a transport failure there is
      one per document; the error is a transport error or a rejection, and a
      rejection exactly when the last document was rejected. */
  ghost predicate PostedFixture(bulk: Request, reqs: seq<Request>, fileName: string, server: Server,
                                log: seq<Request>, r: Run)
  {
    var n := |r.log| - |log|;
    && 1 <= n <= 1 + |reqs|
    && r.log == log + [bulk] + reqs[..n - 1]
    && var rsp := ResponseAt(server, r.log, |log|);
    && (n > 1 <==> rsp.Status? && !Accepted(rsp.code) && reqs != [])
    && (rsp.Status? && !Accepted(rsp.code) && !IsTransport(r.err) ==> n == 1 + |reqs|)
    && (r.err.Some? ==> IsTransport(r.err) || r.err == Some(FixtureRejected(fileName)))
    && (r.err == Some(FixtureRejected(fileName)) <==>
          n > 1 && ResponseAt(server, r.log, |r.log| - 1).Status? &&
          !Accepted(ResponseAt(server, r.log, |r.log| - 1).code))
  }

  /** One fixture of Load. Content that does not parse: no request, and the
      error names the file. Otherwise the fixture's bulk request and its
      single-document requests go out as `PostedFixture` states. */
  lemma LoadFixtureOutcome(esUrl: string, f: FixtureFile, json: Codec, server: Server,
                           log: seq<Request>)
    ensures TransportAborts(server, log, LoadFixture(esUrl, f, json, server, log))
    ensures Collection(json, f.content).Err? ==>
      LoadFixture(esUrl, f, json, server, log) ==
        Run(log, Some(InvalidFixtureData(f.fileName, Collection(json, f.content).error)))
    ensures Collection(json, f.content).Ok? ==>
      var docs := Collection(json, f.content).value;
      var esIndex := f.FileNameWithoutExtension();
      PostedFixture(BulkRequest(esUrl, esIndex, docs), DocumentRequests(esUrl, esIndex, docs),
                    f.fileName, server, log, LoadFixture(esUrl, f, json, server, log))
  {
    match Collection(json, f.content)
    case Err(e) =>
    case Ok(docs) =>
      var esIndex := f.FileNameWithoutExtension();
      var bulk := BulkRequest(esUrl, esIndex, docs);
      var reqs := DocumentRequests(esUrl, esIndex, docs);
      FixtureOutcome(bulk, reqs, f.fileName, server, log);
  }

  /** The outcome of `PostFixture`: it stops at a transport failure and
      posts as `PostedFixture` states. */
  lemma FixtureOutcome(bulk: Request, reqs: seq<Request>, fileName: string, server: Server,
                       log: seq<Request>)
    ensures var r := PostFixture(bulk, reqs, fileName, server, log);
      TransportAborts(server, log, r) && PostedFixture(bulk, reqs, fileName, server, log, r)
  {
    var r := PostFixture(bulk, reqs, fileName, server, log);
    var log1 := log + [bulk];
    assert log1[..|log|] == log && log1[|log|] == bulk;
    assert reqs[..0] == [];
    match server(log, bulk)
    case TransportFailure(reason) =>
      AbortsOnFailure(server, log, bulk);
    case Status(code) =>
      if !Accepted(code) {
        FallbackOutcome(reqs, fileName, server, log1, None);
        AbortsAfterStatus(server, log, bulk, r);
        assert r.log[..|log|] == log && r.log[|log|] == bulk by {
          assert log1 <= r.log;
        }
        assert ResponseAt(server, r.log, |log|) == server(log, bulk);
      }
  }

  // ---------------------------------------------------------------------
  // Load
  // ---------------------------------------------------------------------

  /** Load aborts on the first transport failure and returns it unchanged. */
  lemma {:induction false} LoadRunAborts(esUrl: string, fs: seq<FixtureFile>, json: Codec,
                                         server: Server, log: seq<Request>)
    ensures TransportAborts(server, log, LoadRun(esUrl, fs, json, server, log))
    decreases |fs|
  {
    if fs != [] {
      var r1 := LoadFixture(esUrl, fs[0], json, server, log);
      LoadFixtureOutcome(esUrl, fs[0], json, server, log);
      if r1.err.None? {
        LoadRunAborts(esUrl, fs[1..], json, server, r1.log);
        AbortsChain(server, log, r1, LoadRun(esUrl, fs[1..], json, server, r1.log));
      }
    }
  }

  /** A fixture that ends in an error stops Load: the fixtures after it send
      nothing. Fixtures before it have sent their requests already. */
  lemma {:induction false} LoadRunConcat(esUrl: string, fs: seq<FixtureFile>, gs: seq<FixtureFile>,
                                         json: Codec, server: Server, log: seq<Request>)
    ensures var r := LoadRun(esUrl, fs, json, server, log);
      LoadRun(esUrl, fs + gs, json, server, log) ==
        if r.err.Some? then r else LoadRun(esUrl, gs, json, server, r.log)
    decreases |fs|
  {
    if fs == [] {
      assert fs + gs == gs;
    } else {
      assert (fs + gs)[0] == fs[0];
      assert (fs + gs)[1..] == fs[1..] + gs;
      var r1 := LoadFixture(esUrl, fs[0], json, server, log);
      if r1.err.None? {
        LoadRunConcat(esUrl, fs[1..], gs, json, server, r1.log);
      }
    }
  }

  /** The bulk requests of two logs in a row. */
  lemma {:induction false} BulksConcat(a: seq<Request>, b: seq<Request>)
    ensures Bulks(a + b) == Bulks(a) + Bulks(b)
    decreases |b|
  {
    if b == [] {
      assert a + b == a;
    } else {
      assert (a + b)[..|a + b| - 1] == a + b[..|b| - 1];
      BulksConcat(a, b[..|b| - 1]);
    }
  }

  /** Requests with the JSON content type are not bulk requests. */
  lemma {:induction false} BulksOfJson(reqs: seq<Request>)
    requires forall i :: 0 <= i < |reqs| ==> reqs[i].contentType == JsonType
    ensures Bulks(reqs) == []
    decreases |reqs|
  {
    if reqs != [] {
      BulksOfJson(reqs[..|reqs| - 1]);
    }
  }

  /** The requests of one fixture once its content has parsed: the bulk
      request, then some of the single-document requests, in order. */
  lemma PostFixtureLog(bulk: Request, reqs: seq<Request>, fileName: string, server: Server,
                       log: seq<Request>)
    ensures var r := PostFixture(bulk, reqs, fileName, server, log);
      && |log| + 1 <= |r.log| <= |log| + 1 + |reqs|
      && r.log == log + [bulk] + reqs[..|r.log| - |log| - 1]
  {
    assert reqs[..0] == [];
    if server(log, bulk).Status? && !Accepted(server(log, bulk).code) {
      FallbackRequests(reqs, fileName, server, log + [bulk], None);
    }
  }

  /** A fixture's only bulk request is its first. */
  lemma PostFixtureBulks(bulk: Request, reqs: seq<Request>, fileName: string, server: Server,
                         log: seq<Request>)
    requires bulk.contentType == NdJsonType
    requires forall i :: 0 <= i < |reqs| ==> reqs[i].contentType == JsonType
    ensures Bulks(PostFixture(bulk, reqs, fileName, server, log).log) == Bulks(log) + [bulk]
  {
    var r := PostFixture(bulk, reqs, fileName, server, log);
    PostFixtureLog(bulk, reqs, fileName, server, log);
    var sent := reqs[..|r.log| - |log| - 1];
    assert r.log == (log + [bulk]) + sent;
    assert forall i :: 0 <= i < |sent| ==> sent[i] == reqs[i];
    BulksOfJson(sent);
    BulksConcat(log + [bulk], sent);
    BulksConcat(log, [bulk]);
    assert Bulks([bulk]) == [bulk] by {
      assert [bulk][..0] == [];
    }
  }

  /** The bulk requests of one fixture that ends without error: its own. */
  lemma FixtureBulks(esUrl: string, f: FixtureFile, json: Codec, server: Server, log: seq<Request>)
    requires LoadFixture(esUrl, f, json, server, log).err.None?
    ensures Collection(json, f.content).Ok?
    ensures Bulks(LoadFixture(esUrl, f, json, server, log).log) ==
      Bulks(log) + [BulkRequest(esUrl, f.FileNameWithoutExtension(), Collection(json, f.content).value)]
  {
    var docs := Collection(json, f.content).value;
    var esIndex := f.FileNameWithoutExtension();
    PostFixtureBulks(BulkRequest(esUrl, esIndex, docs), DocumentRequests(esUrl, esIndex, docs),
                     f.fileName, server, log);
  }

  /** Load without error has parsed every fixture's content. */
  lemma {:induction false} LoadRunParsesAll(esUrl: string, fs: seq<FixtureFile>, json: Codec,
                                            server: Server, log: seq<Request>)
    requires LoadRun(esUrl, fs, json, server, log).err.None?
    ensures forall i :: 0 <= i < |fs| ==> Collection(json, fs[i].content).Ok?
    decreases |fs|
  {
    if fs != [] {
      var r1 := LoadFixture(esUrl, fs[0], json, server, log);
      assert Collection(json, fs[0].content).Ok?;
      LoadRunParsesAll(esUrl, fs[1..], json, server, r1.log);
      forall i | 1 <= i < |fs|
        ensures Collection(json, fs[i].content).Ok?
      {
        assert fs[i] == fs[1..][i - 1];
      }
    }
  }

  /** The bulk request of every fixture, in fixture order, when every
      fixture's content parses. */
  function FixtureBulkRequests(esUrl: string, fs: seq<FixtureFile>, json: Codec): seq<Request>
    requires forall i :: 0 <= i < |fs| ==> Collection(json, fs[i].content).Ok?
    decreases |fs|
  {
    if fs == [] then []
    else
      [BulkRequest(esUrl, fs[0].FileNameWithoutExtension(), Collection(json, fs[0].content).value)] +
      FixtureBulkRequests(esUrl, fs[1..], json)
  }

  /** The bulk requests of Load without error: one per fixture, in fixture
      order, each to the fixture's `_bulk` endpoint with its payload. */
  lemma {:induction false} LoadRunBulks(esUrl: string, fs: seq<FixtureFile>, json: Codec,
                                        server: Server, log: seq<Request>)
    requires LoadRun(esUrl, fs, json, server, log).err.None?
    ensures forall i :: 0 <= i < |fs| ==> Collection(json, fs[i].content).Ok?
    ensures Bulks(LoadRun(esUrl, fs, json, server, log).log) ==
      Bulks(log) + FixtureBulkRequests(esUrl, fs, json)
    decreases |fs|
  {
    LoadRunParsesAll(esUrl, fs, json, server, log);
    if fs == [] {
      assert Bulks(log) + [] == Bulks(log);
    } else {
      var r1 := LoadFixture(esUrl, fs[0], json, server, log);
      FixtureBulks(esUrl, fs[0], json, server, log);
      LoadRunBulks(esUrl, fs[1..], json, server, r1.log);
    }
  }

  /** Only transport failures and whether a status is 200 or 201 matter to
      Load: two services that agree on those give the same run. */
  lemma {:induction false} LoadRunSeesOnlyAcceptance(esUrl: string, fs: seq<FixtureFile>, json: Codec,
                                                    s1: Server, s2: Server, log: seq<Request>)
    requires forall l, q :: s1(l, q).TransportFailure? == s2(l, q).TransportFailure?
    requires forall l, q :: s1(l, q).TransportFailure? ==> s1(l, q) == s2(l, q)
    requires forall l, q :: s1(l, q).Status? ==> Accepted(s1(l, q).code) == Accepted(s2(l, q).code)
    ensures LoadRun(esUrl, fs, json, s1, log) == LoadRun(esUrl, fs, json, s2, log)
    decreases |fs|
  {
    if fs != [] {
      var f := fs[0];
      match Collection(json, f.content)
      case Err(_) =>
      case Ok(docs) =>
        var esIndex := f.FileNameWithoutExtension();
        var bulk := BulkRequest(esUrl, esIndex, docs);
        FallbackSeesOnlyAcceptance(DocumentRequests(esUrl, esIndex, docs), f.fileName, s1, s2,
                                   log + [bulk], None);
      var r1 := LoadFixture(esUrl, f, json, s1, log);
      assert r1 == LoadFixture(esUrl, f, json, s2, log);
      if r1.err.None? {
        LoadRunSeesOnlyAcceptance(esUrl, fs[1..], json, s1, s2, r1.log);
      }
    }
  }

  // ---------------------------------------------------------------------
  // The loader
  // ---------------------------------------------------------------------

  /** The service's base URL and the fixture files, both fixed once the
      loader is made. */
  class Loader {
    const esUrl: string
    const fixtureFiles: seq<FixtureFile>

    constructor (esUrl: string, fixtureFiles: seq<FixtureFile>)
      ensures this.esUrl == esUrl && this.fixtureFiles == fixtureFiles
    {
      this.esUrl := esUrl;
      this.fixtureFiles := fixtureFiles;
    }

    /** Load: the request sequence and result of `LoadRun`. */
    method Load(cl: Client, json: Codec) returns (err: Option<Error>)
      modifies cl
      ensures Run(cl.log, err) == LoadRun(esUrl, fixtureFiles, json, cl.server, old(cl.log))
    {
      ghost var goal := LoadRun(esUrl, fixtureFiles, json, cl.server, cl.log);
      for i := 0 to |fixtureFiles|
        invariant LoadRun(esUrl, fixtureFiles[i..], json, cl.server, cl.log) == goal
      {
        assert fixtureFiles[i..][0] == fixtureFiles[i] && fixtureFiles[i..][1..] == fixtureFiles[i + 1..];
        // The loop body's own error variable: it shadows the result.
        var fixtureErr := LoadFile(cl, fixtureFiles[i], json);
        if fixtureErr.Some? {
          return fixtureErr;
        }
      }
      assert fixtureFiles[|fixtureFiles|..] == [];
      return None;
    }

    /** The body of Load's loop for one fixture: the requests and result of
        `LoadFixture`. */
    method LoadFile(cl: Client, f: FixtureFile, json: Codec) returns (err: Option<Error>)
      modifies cl
      ensures Run(cl.log, err) == LoadFixture(esUrl, f, json, cl.server, old(cl.log))
    {
      var collection := SplitJSONIntoJSONCollection(json, f.content);
      if collection.Err? {
        return Some(InvalidFixtureData(f.fileName, collection.error));
      }
      var jsonObjects := collection.value;
      var reqBodyPayloadBulk := BuildBulkPayload(jsonObjects);
      var esIndex := f.FileNameWithoutExtension();
      var reqUrl := BulkUrl(esUrl, esIndex);
      var loadRspBulk := cl.Post(reqUrl, NdJsonType, reqBodyPayloadBulk);
      if loadRspBulk.TransportFailure? {
        return Some(TransportError(loadRspBulk.reason));
      }
      err := None;
      if !Accepted(loadRspBulk.code) {
        err := PostDocuments(cl, esIndex, jsonObjects, f.fileName);
      }
    }

    /** The fallback of Load's loop body: each document posted on its own,
        the requests and result of `Fallback`. */
    method PostDocuments(cl: Client, esIndex: string, jsonObjects: seq<bytes>, fileName: string)
      returns (err: Option<Error>)
      modifies cl
      ensures Run(cl.log, err) ==
        Fallback(DocumentRequests(esUrl, esIndex, jsonObjects), fileName, cl.server, old(cl.log), None)
    {
      ghost var reqs := DocumentRequests(esUrl, esIndex, jsonObjects);
      ghost var goal := Fallback(reqs, fileName, cl.server, cl.log, None);
      ghost var docUrl := DocumentUrl(esUrl, esIndex);
      err := None;
      for k := 0 to |jsonObjects|
        invariant !IsTransport(err)
        invariant Fallback(reqs[k..], fileName, cl.server, cl.log, err) == goal
      {
        assert reqs[k..][0] == reqs[k] && reqs[k..][1..] == reqs[k + 1..];
        var reqBodyPayloadSingle := jsonObjects[k];
        assert reqs[k] == Request(docUrl, JsonType, reqBodyPayloadSingle);
        var innerIndex := InnerType(esIndex);
        var reqUrl: string;
        var loadRspSingle: Response;
        if |innerIndex| != 0 {
          reqUrl := TypedDocumentUrl(esUrl, esIndex, innerIndex);
          assert reqUrl == docUrl;
          loadRspSingle := cl.Post(reqUrl, JsonType, reqBodyPayloadSingle);
          if loadRspSingle.TransportFailure? {
            return Some(TransportError(loadRspSingle.reason));
          }
        } else {
          reqUrl := UntypedDocumentUrl(esUrl, esIndex);
          assert reqUrl == docUrl;
          loadRspSingle := cl.Post(reqUrl, JsonType, reqBodyPayloadSingle);
          if loadRspSingle.TransportFailure? {
            return Some(TransportError(loadRspSingle.reason));
          }
        }
        err := None;
        if !Accepted(loadRspSingle.code) {
          err := Some(FixtureRejected(fileName));
        }
      }
      assert reqs[|jsonObjects|..] == [];
    }

    /** Clean: one delete-by-query request per fixture, posted as `PostEach`
        posts them. */
    method Clean(cl: Client) returns (err: Option<Error>)
      modifies cl
      ensures Run(cl.log, err) == PostEach(DeleteRequests(esUrl, fixtureFiles), cl.server, old(cl.log))
    {
      ghost var reqs := DeleteRequests(esUrl, fixtureFiles);
      ghost var goal := PostEach(reqs, cl.server, cl.log);
      for i := 0 to |fixtureFiles|
        invariant PostEach(reqs[i..], cl.server, cl.log) == goal
      {
        assert reqs[i..][0] == reqs[i] && reqs[i..][1..] == reqs[i + 1..];
        var esIndex := fixtureFiles[i].FileNameWithoutExtension();
        assert reqs[i] == DeleteRequest(esUrl, esIndex);
        var reqUrl := DeleteByQueryUrl(esUrl, esIndex);
        var delRsp := cl.Post(reqUrl, JsonType, MatchAllQuery);
        if delRsp.TransportFailure? {
          return Some(TransportError(delRsp.reason));
        }
      }
      assert reqs[|fixtureFiles|..] == [];
      return None;
    }
  }

  /** New: a loader for the service at `serviceUrl` holding the named files,
      read in order; on a read error, the files read before it and the error. */
  method New(serviceUrl: string, fileNames: seq<string>, readFile: string -> Result<bytes, string>)
    returns (fixtureLoader: Loader, err: Option<Error>)
    ensures fresh(fixtureLoader) && fixtureLoader.esUrl == serviceUrl
    ensures ReadInOrder(fileNames, readFile, fixtureLoader.fixtureFiles, err)
  {
    var parsed;
    parsed, err := ParseFilesContent(fileNames, readFile);
    fixtureLoader := new Loader(serviceUrl, parsed);
  }
}
