/**
 * `handle_request` of both drafts: resolve the service, then forward, and
 * map each failure to its status code (500 for a resolution error or a broken
 * inbound body, 502 from the proxy for a failed send).
 */
module Server {
  import opened Wrappers
  import opened Launcher
  import opened Lifecycle
  import opened Proxy

  /** A response with a plain-text body and no headers. */
  function TextResponse(status: int, text: string): HttpResponse
  {
    HttpResponse(status, map[], Text(text))
  }

  /** One request for `/{name}{restPath}`, from resolution to the response. */
  method HandleRequest(g: Gateway, host: Host, name: string, restPath: string,
                       req: InboundRequest, env: Environment, send: SendOutcome)
    returns (resp: HttpResponse, sent: Option<OutboundRequest>)
    modifies g, g.registry, host
    ensures var o := Resolve(g.draft, g.config, old(g.Snapshot(host)), name, env);
      g.Snapshot(host) == o.world
      && (o.result.Err? ==>
            sent.None? && resp == TextResponse(InternalServerError, Message(o.result.error)))
      && (o.result.Ok? && !AllData(req.payload) ==>
            sent.None?
            && (exists k :: FirstBrokenAt(req.payload, k)
                 && resp == TextResponse(InternalServerError, req.payload[k].error)))
      && (o.result.Ok? && AllData(req.payload) ==>
            sent == Some(OutboundRequest(req.verb, TargetFor(o.result.value, restPath),
                                         OutboundHeaders(g.draft, req.headers), Concat(req.payload)))
            && Relays(resp, send))
  {
    var endpoint := g.GetOrStartService(name, host, env);
    if endpoint.Err? {
      return TextResponse(InternalServerError, Message(endpoint.error)), None;
    }
    var target := TargetFor(endpoint.value, restPath);
    var r;
    r, sent := ProxyRequest(g.draft, target, req, send);
    if r.Err? {
      return TextResponse(InternalServerError, r.error), sent;
    }
    resp := r.value;
  }
}
