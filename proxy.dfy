/**
 * The forwarding half of both gateway drafts: the `//` collapse of the target
 * path, the buffering of the inbound body, the outbound request that is sent,
 * and the relay of the backend's answer (`proxy_request`).
 */
module Proxy {
  import opened Wrappers
  import opened Net
  import opened Registry
  import opened Lifecycle

  type Byte = x: int | 0 <= x < 256

  // ---------------------------------------------------------------- paths

  predicate StartsWith(s: string, prefix: string)
  {
    |prefix| <= |s| && s[..|prefix|] == prefix
  }

  /** `s` contains `pattern` as a contiguous substring. */
  predicate Contains(s: string, pattern: string)
    decreases |s|
  {
    StartsWith(s, pattern) || (|s| > 0 && Contains(s[1..], pattern))
  }

  /** `s.replace("//", "/")`: one left-to-right pass over non-overlapping `//`. */
  function CollapseSlashes(s: string): (r: string)
    ensures |r| <= |s|
    ensures |r| == 0 <==> |s| == 0
    decreases |s|
  {
    if |s| >= 2 && s[0] == '/' && s[1] == '/' then "/" + CollapseSlashes(s[2..])
    else if s == [] then []
    else [s[0]] + CollapseSlashes(s[1..])
  }

  /** The characters of `s` other than '/', in order. */
  function WithoutSlashes(s: string): string
    decreases |s|
  {
    if s == [] then [] else (if s[0] == '/' then [] else [s[0]]) + WithoutSlashes(s[1..])
  }

  lemma StartsWithDoubleSlash(s: string)
    ensures StartsWith(s, "//") <==> |s| >= 2 && s[0] == '/' && s[1] == '/'
  {
    if |s| >= 2 && s[0] == '/' && s[1] == '/' { assert s[..2] == "//"; }
  }

  lemma StartsWithTripleSlash(s: string)
    ensures StartsWith(s, "///") <==> |s| >= 3 && s[0] == '/' && s[1] == '/' && s[2] == '/'
  {
    if |s| >= 3 && s[0] == '/' && s[1] == '/' && s[2] == '/' { assert s[..3] == "///"; }
  }

  /** The collapse keeps the first character of a non-empty path. */
  lemma CollapseKeepsHead(s: string)
    requires |s| > 0
    ensures |CollapseSlashes(s)| > 0 && CollapseSlashes(s)[0] == s[0]
  {
  }

  /**
   * The collapse never lengthens the path, and shortens it exactly when the
   * path contains `//`.
   */
  lemma {:induction false} CollapseLength(s: string)
    ensures |CollapseSlashes(s)| <= |s|
    ensures |CollapseSlashes(s)| < |s| <==> Contains(s, "//")
    decreases |s|
  {
    StartsWithDoubleSlash(s);
    if |s| >= 2 && s[0] == '/' && s[1] == '/' {
      CollapseLength(s[2..]);
    } else if s != [] {
      CollapseLength(s[1..]);
    }
  }

  /** A path without `//` is left exactly as it was. */
  lemma {:induction false} CollapseKeepsCleanPath(s: string)
    requires !Contains(s, "//")
    ensures CollapseSlashes(s) == s
    decreases |s|
  {
    StartsWithDoubleSlash(s);
    if s != [] {
      CollapseKeepsCleanPath(s[1..]);
    }
  }

  /**
   * A single pass: the result still contains `//` only when the path had a
   * run of three or more slashes.
   */
  lemma {:induction false} CollapseLeavesDoubleOnlyFromTriple(s: string)
    requires !Contains(s, "///")
    ensures !Contains(CollapseSlashes(s), "//")
    decreases |s|
  {
    StartsWithDoubleSlash(s);
    StartsWithTripleSlash(s);
    var r := CollapseSlashes(s);
    if |s| >= 2 && s[0] == '/' && s[1] == '/' {
      var t := s[2..];
      CollapseLeavesDoubleOnlyFromTriple(t);
      var rt := CollapseSlashes(t);
      assert r == "/" + rt;
      assert r[1..] == rt;
      if |t| > 0 { CollapseKeepsHead(t); }
      StartsWithDoubleSlash(r);
    } else if s != [] {
      var t := s[1..];
      StartsWithTripleSlash(t);
      CollapseLeavesDoubleOnlyFromTriple(t);
      var rt := CollapseSlashes(t);
      assert r == [s[0]] + rt;
      assert r[1..] == rt;
      if |t| > 0 { CollapseKeepsHead(t); }
      StartsWithDoubleSlash(r);
    }
  }

  /** Only slashes are removed: every other character survives, in order. */
  lemma {:induction false} CollapseRemovesOnlySlashes(s: string)
    ensures WithoutSlashes(CollapseSlashes(s)) == WithoutSlashes(s)
    decreases |s|
  {
    if |s| >= 2 && s[0] == '/' && s[1] == '/' {
      CollapseRemovesOnlySlashes(s[2..]);
      assert s[1..][1..] == s[2..];
      assert ("/" + CollapseSlashes(s[2..]))[1..] == CollapseSlashes(s[2..]);
    } else if s != [] {
      CollapseRemovesOnlySlashes(s[1..]);
      assert ([s[0]] + CollapseSlashes(s[1..]))[1..] == CollapseSlashes(s[1..]);
    }
  }

  /** The pass is not repeated: a run of three slashes still leaves two. */
  lemma CollapseIsSinglePass()
    ensures CollapseSlashes("///") == "//"
    ensures CollapseSlashes("/a//b") == "/a/b"
  {
    assert "///"[2..] == "/";
    assert "/a//b"[1..] == "a//b";
    assert "a//b"[1..] == "//b";
    assert "//b"[2..] == "b";
  }

  /** Where a request is sent: backend address, port and collapsed path. */
  datatype Target = Target(address: IpAddr, port: Port, path: string)

  /**
   * `format!("http://{}:{}{}", address, port, rest_path)` parsed as a URL and
   * path-collapsed (gateway/src/main.rs always uses 0.0.0.0): an empty rest
   * path becomes the root path.
   */
  function TargetFor(e: Endpoint, restPath: string): (t: Target)
    ensures t.port == e.port
    ensures |t.path| <= if restPath == [] then 1 else |restPath|
  {
    var path := if restPath == [] then "/" else restPath;
    CollapseLength(path);
    match e
    case PortOnly(port) => Target(Unspecified, port, CollapseSlashes(path))
    case Socket(address, port) => Target(address, port, CollapseSlashes(path))
  }

  // ---------------------------------------------------------------- bodies

  /** One item of the inbound payload stream: bytes, or the stream's error. */
  datatype Chunk = Data(bytes: seq<Byte>) | Broken(error: string)

  predicate AllData(payload: seq<Chunk>)
  {
    forall i :: 0 <= i < |payload| ==> payload[i].Data?
  }

  /** The in-order concatenation of the chunks' bytes. */
  function Concat(payload: seq<Chunk>): seq<Byte>
    requires AllData(payload)
    decreases |payload|
  {
    if payload == [] then [] else Concat(payload[..|payload| - 1]) + payload[|payload| - 1].bytes
  }

  /** Concatenation distributes over splitting the stream. */
  lemma {:induction false} ConcatAppend(a: seq<Chunk>, b: seq<Chunk>)
    requires AllData(a) && AllData(b)
    ensures AllData(a + b) && Concat(a + b) == Concat(a) + Concat(b)
    decreases |b|
  {
    assert AllData(a + b) by {
      forall i | 0 <= i < |a + b| ensures (a + b)[i].Data? {
        if i < |a| { assert (a + b)[i] == a[i]; } else { assert (a + b)[i] == b[i - |a|]; }
      }
    }
    if b != [] {
      var b' := b[..|b| - 1];
      assert AllData(b');
      ConcatAppend(a, b');
      assert (a + b)[..|a + b| - 1] == a + b';
    } else {
      assert a + b == a;
    }
  }

  /** Chunk `k` is the first error of the stream. */
  predicate FirstBrokenAt(payload: seq<Chunk>, k: int)
  {
    0 <= k < |payload| && payload[k].Broken? && AllData(payload[..k])
  }

  /**
   * The `while let Some(chunk) = payload.next()` loop with `chunk?`: the body
   * is the concatenation of all chunks, or the first error of the stream.
   */
  method BufferBody(payload: seq<Chunk>) returns (r: Result<seq<Byte>, string>)
    ensures r.Ok? <==> AllData(payload)
    ensures r.Ok? ==> r.value == Concat(payload)
    ensures r.Err? ==> exists k :: FirstBrokenAt(payload, k) && r.error == payload[k].error
  {
    var body: seq<Byte> := [];
    var i := 0;
    while i < |payload|
      invariant 0 <= i <= |payload|
      invariant AllData(payload[..i])
      invariant body == Concat(payload[..i])
    {
      match payload[i]
      case Broken(e) =>
        assert FirstBrokenAt(payload, i);
        return Err(e);
      case Data(bytes) =>
        assert payload[..i + 1][..i] == payload[..i];
        body := body + bytes;
      i := i + 1;
    }
    assert payload[..i] == payload;
    return Ok(body);
  }

  // ---------------------------------------------------------------- headers

  datatype Header = Header(name: string, value: string)

  /** Header names are modelled in their normalised (lower-case) spelling. */
  const ContentType: string := "content-type"

  /** `HeaderMap::get(name)`: the first value given for the name. */
  function GetHeader(headers: seq<Header>, name: string): (r: Option<string>)
    ensures r.Some? ==>
      exists i :: (0 <= i < |headers| && headers[i] == Header(name, r.value)
                   && forall j :: 0 <= j < i ==> headers[j].name != name)
    ensures r.None? ==> forall i :: 0 <= i < |headers| ==> headers[i].name != name
    decreases |headers|
  {
    if headers == [] then None
    else if headers[0].name == name then Some(headers[0].value)
    else GetHeader(headers[1..], name)
  }

  /** The value a name ends with when the headers are inserted in order. */
  function LastValue(headers: seq<Header>, name: string): Option<string>
    decreases |headers|
  {
    if headers == [] then None
    else if headers[|headers| - 1].name == name then Some(headers[|headers| - 1].value)
    else LastValue(headers[..|headers| - 1], name)
  }

  /**
   * `LastValue` names a header present in the list, and it is the last
   * occurrence of that name; it is absent exactly when the name never occurs.
   */
  lemma {:induction false} LastValueIsLastOccurrence(headers: seq<Header>, name: string)
    ensures LastValue(headers, name).None? <==> forall i :: 0 <= i < |headers| ==> headers[i].name != name
    ensures LastValue(headers, name).Some? ==>
      exists k :: 0 <= k < |headers| && headers[k] == Header(name, LastValue(headers, name).value)
        && forall j :: k < j < |headers| ==> headers[j].name != name
    decreases |headers|
  {
    if headers != [] {
      var n := |headers| - 1;
      var init := headers[..n];
      LastValueIsLastOccurrence(init, name);
      if headers[n].name != name {
        forall i | 0 <= i < n ensures headers[i] == init[i] { }
        if LastValue(init, name).Some? {
          var k :| 0 <= k < |init| && init[k] == Header(name, LastValue(init, name).value)
            && forall j :: k < j < |init| ==> init[j].name != name;
          assert headers[k] == init[k];
        }
      }
    }
  }

  /**
   * The `for (name, value) in resp.headers()` loop of `insert_header` calls:
   * an insert replaces the name's earlier value, so each name keeps its last one.
   */
  method CopyHeaders(headers: seq<Header>) returns (out: map<string, string>)
    ensures forall n :: Lookup(out, n) == LastValue(headers, n)
  {
    out := map[];
    for i := 0 to |headers|
      invariant forall n :: Lookup(out, n) == LastValue(headers[..i], n)
    {
      assert headers[..i + 1][..i] == headers[..i];
      out := out[headers[i].name := headers[i].value];
    }
    assert headers[..|headers|] == headers;
  }

  /**
   * The headers of the outbound request: every inbound header; main.rs then
   * sets the inbound `Content-Type` once more after buffering the body.
   */
  function OutboundHeaders(d: Draft, inbound: seq<Header>): (out: seq<Header>)
    ensures |inbound| <= |out| && out[..|inbound|] == inbound
    ensures d == ReverseProxyDraft ==> out == inbound
    ensures d == MainDraft && GetHeader(inbound, ContentType).Some? ==>
      out == inbound + [Header(ContentType, GetHeader(inbound, ContentType).value)]
    ensures GetHeader(inbound, ContentType).None? ==> out == inbound
  {
    match d
    case ReverseProxyDraft => inbound
    case MainDraft =>
      match GetHeader(inbound, ContentType)
      case Some(contentType) => inbound + [Header(ContentType, contentType)]
      case None => inbound
  }

  // ---------------------------------------------------------------- exchange

  datatype InboundRequest = InboundRequest(verb: string, headers: seq<Header>, payload: seq<Chunk>)

  datatype OutboundRequest = OutboundRequest(verb: string, target: Target, headers: seq<Header>, body: seq<Byte>)

  datatype BackendResponse = BackendResponse(status: int, headers: seq<Header>, body: seq<Byte>)

  /** What `send()` brings back: the backend's response, or reqwest's error text. */
  datatype SendOutcome = Delivered(response: BackendResponse) | SendFailed(text: string)

  datatype Body = Bytes(data: seq<Byte>) | Text(text: string)

  datatype HttpResponse = HttpResponse(status: int, headers: map<string, string>, body: Body)

  const InternalServerError: int := 500
  const BadGateway: int := 502

  /**
   * The answer relayed for a send outcome: a 502 carrying the error text, or
   * the backend's status and body with each header name at its last value.
   */
  ghost predicate Relays(resp: HttpResponse, send: SendOutcome)
  {
    match send
    case SendFailed(text) => resp == HttpResponse(BadGateway, map[], Text(text))
    case Delivered(b) =>
      resp.status == b.status && resp.body == Bytes(b.body)
      && forall n :: Lookup(resp.headers, n) == LastValue(b.headers, n)
  }

  /**
   * `proxy_request`: buffer the body (its first error aborts before anything
   * is sent), send method, headers and body to the target, relay the answer.
   */
  method ProxyRequest(d: Draft, target: Target, req: InboundRequest, send: SendOutcome)
    returns (r: Result<HttpResponse, string>, sent: Option<OutboundRequest>)
    ensures !AllData(req.payload) ==>
      (sent.None? && r.Err? && exists k :: FirstBrokenAt(req.payload, k) && r.error == req.payload[k].error)
    ensures AllData(req.payload) ==>
      (sent == Some(OutboundRequest(req.verb, target, OutboundHeaders(d, req.headers), Concat(req.payload)))
       && r.Ok? && Relays(r.value, send))
  {
    var body := BufferBody(req.payload);
    if body.Err? {
      return Err(body.error), None;
    }
    var headers := OutboundHeaders(d, req.headers);
    sent := Some(OutboundRequest(req.verb, target, headers, body.value));
    match send
    case SendFailed(text) =>
      r := Ok(HttpResponse(BadGateway, map[], Text(text)));
    case Delivered(b) =>
      var copied := CopyHeaders(b.headers);
      r := Ok(HttpResponse(b.status, copied, Bytes(b.body)));
  }
}
