/** The resource handler in front of everything, and the proxy that rewrites requests for a cluster. */
module GatewayHandler {
  import opened Wrappers
  import opened Paths
  import opened ClusterPaths
  import opened Resources
  import opened DiscoveryModel
  import opened Http
  import opened Routing
  import opened Handlers
  import opened Controller

  /** Rewrites the request and forwards it; without a token it changes and answers nothing. */
  method Proxy(client: ProxyClient, cluster: string, uri: string, w: ResponseWriter, req: Request)
    returns (r: Result<(), string>)
    modifies w, req
    ensures client.token(cluster).Err? ==>
              r == Err(client.token(cluster).error) && unchanged(w) && unchanged(req)
    ensures client.token(cluster).Ok? ==>
              && r == Ok(())
              && req.host == req.urlHost == client.host
              && req.urlPath == cluster + uri
              && req.header == old(req.header)["Authorization" := "Bearer " + client.token(cluster).value]
              && w.written == old(w.written) +
                   [Proxied(client.host, cluster + uri, req.rawQuery, "Bearer " + client.token(cluster).value)]
  {
    var token := client.token(cluster);
    if token.Err? {
      return Err(token.error);
    }
    req.host := client.host;
    req.urlHost := client.host;
    req.urlPath := cluster + uri;
    req.header := req.header["Authorization" := "Bearer " + token.value];
    w.Write(Proxied(req.urlHost, req.urlPath, req.rawQuery, req.header["Authorization"]));
    return Ok(());
  }

  /** The handler installed for `key` in `lookup`, with the variable it captured among `lists`. */
  ghost predicate IsHandlerFor(
    handler: Option<APIVersionHandler>, lookup: State, lists: seq<ResourceList>, key: Option<GroupVersion>)
  {
    if key.Some? && key.value in lookup.versions then
      && lookup.versions[key.value] < |lists|
      && handler == Some(APIVersionHandler(key.value, lists[lookup.versions[key.value]]))
    else handler == None
  }

  lemma HandlerKeepsVariable(
      handler: Option<APIVersionHandler>, lookup: State, lists: seq<ResourceList>, longer: seq<ResourceList>,
      key: Option<GroupVersion>)
    requires IsHandlerFor(handler, lookup, lists, key) && lists <= longer
    ensures IsHandlerFor(handler, lookup, longer, key)
  {
  }

  class ResourceHandler {
    const versionDiscoveryHandler: VersionDiscoveryHandler
    const groupDiscoveryHandler: GroupDiscoveryHandler
    const proxyClient: ProxyClient

    constructor (versions: VersionDiscoveryHandler, groups: GroupDiscoveryHandler, proxyClient: ProxyClient)
      ensures versionDiscoveryHandler == versions && groupDiscoveryHandler == groups && this.proxyClient == proxyClient
    {
      versionDiscoveryHandler, groupDiscoveryHandler, this.proxyClient := versions, groups, proxyClient;
    }

    /** The controller `c` is the one that writes this handler's maps. */
    ghost predicate ServedBy(c: DiscoveryController) {
      c.versionHandler == versionDiscoveryHandler && c.groupHandler == groupDiscoveryHandler
    }

    /**
     * Exactly one response is written, whatever goes wrong on the way, and whatever the controller `c`
     * writes between the lookup of a handler and its answer.
     */
    method ServeHTTP(c: DiscoveryController, w: ResponseWriter, req: Request)
      requires c.Valid() && ServedBy(c)
      modifies w, req, c, c.Stores(), c.lists
      ensures c.Valid() && old(c.run) <= c.run
      ensures w.written == old(w.written) +
                [Decide(ViewAcross(old(c.state), c.state), proxyClient, old(req.urlPath), req.rawQuery, req.info)]
      ensures ClusterPathFromAndStrip(old(req.urlPath)).cluster == "" ==> unchanged(req)
    {
      var address := ClusterPathFromAndStrip(req.urlPath);
      if |address.cluster| > 0 {
        ServeCluster(address.cluster, address.rest, w, req);
        return;
      }
      ServeLocal(c, w, req);
    }

    /** The first part of `ServeHTTP`: proxying, or the proxy's error. */
    method ServeCluster(cluster: string, uri: string, w: ResponseWriter, req: Request)
      modifies w, req
      ensures w.written == old(w.written) + [ProxyAnswer(proxyClient, cluster, uri, req.rawQuery)]
    {
      var proxied := Proxy(proxyClient, cluster, uri, w, req);
      if proxied.Err? {
        w.Write(BadRequest(proxied.error));
      }
    }

    /** The rest of `ServeHTTP`, for a request that names no cluster. */
    method ServeLocal(c: DiscoveryController, w: ResponseWriter, req: Request)
      requires c.Valid() && ServedBy(c)
      modifies w, c, c.Stores(), c.lists
      ensures c.Valid() && old(c.run) <= c.run
      ensures w.written == old(w.written) + [LocalAnswer(ViewAcross(old(c.state), c.state), old(req.urlPath), req.info)]
    {
      if req.info.None? {
        w.Write(InternalError("no RequestInfo found in the context"));
        return;
      }
      var requestInfo := req.info.value;
      if !requestInfo.isResourceRequest {
        ServeNonResource(c, requestInfo.path, w, req);
        return;
      }
      if requestInfo.resource == "" {
        w.Write(InternalError("error resolving resource"));
        return;
      }
      var handlerFunc: Option<Response> := None;
      if |requestInfo.subresource| == 0 {
        handlerFunc := ServeResource(requestInfo, w);
      } else {
        w.Write(NotFound(requestInfo.group, requestInfo.resource, requestInfo.name));
      }
      if handlerFunc.Some? {
        w.Write(handlerFunc.value);
      }
    }

    /** Dispatch by the number of segments to the two discovery handlers. */
    method ServeNonResource(c: DiscoveryController, infoPath: string, w: ResponseWriter, req: Request)
      requires c.Valid() && ServedBy(c)
      modifies w, c, c.Stores(), c.lists
      ensures c.Valid() && old(c.run) <= c.run
      ensures w.written == old(w.written) + [NonResource(ViewAcross(old(c.state), c.state), infoPath, old(req.urlPath))]
    {
      var pathParts := SplitPath(infoPath);
      if |pathParts| == 3 {
        ServeVersion(c, w, req);
        return;
      }
      if |pathParts| == 2 {
        if pathParts[0] == "apis" {
          ServeGroup(c, w, req);
        } else {
          ServeVersion(c, w, req);
        }
        return;
      }
      if |pathParts| == 1 {
        ServeGroup(c, w, req);
        return;
      }
      w.Write(Delegated);
    }

    /** The group handler's documents do not change once they are looked up: one moment will do. */
    method ServeGroup(c: DiscoveryController, w: ResponseWriter, req: Request)
      requires c.Valid() && ServedBy(c)
      modifies w
      ensures c.Valid()
      ensures w.written == old(w.written) + [GroupAnswerFor(c.state.groups, SplitPath(req.urlPath))]
    {
      groupDiscoveryHandler.ServeHTTP(w, req);
    }

    /** The version handler's `ServeHTTP`: the lock is released between the lookup and the answer. */
    method ServeVersion(c: DiscoveryController, w: ResponseWriter, req: Request)
      requires c.Valid() && ServedBy(c)
      modifies w, c, c.Stores(), c.lists
      ensures c.Valid() && old(c.run) <= c.run
      ensures w.written == old(w.written) +
                [KeyAnswer(ViewAcross(old(c.state), c.state).versions, old(VersionKey(req.urlPath)))]
    {
      ghost var key := VersionKey(req.urlPath);
      var handler := LookUp(c, req, key);
      AnswerLater(c, key, handler, w);
    }

    /** The handler behind the request's path, as the variable of the machine that it captured. */
    method LookUp(c: DiscoveryController, req: Request, ghost key: Option<GroupVersion>)
      returns (handler: Option<APIVersionHandler>)
      requires c.Valid() && ServedBy(c) && key == VersionKey(req.urlPath)
      ensures IsHandlerFor(handler, c.state, c.lists, key)
    {
      handler := versionDiscoveryHandler.Find(req);
    }

    /** The handler's answer after some writes: the list of this moment, the variable of the earlier lookup. */
    method AnswerLater(
        c: DiscoveryController, ghost key: Option<GroupVersion>, handler: Option<APIVersionHandler>, w: ResponseWriter)
      requires c.Valid() && IsHandlerFor(handler, c.state, c.lists, key)
      modifies w, c, c.Stores(), c.lists
      ensures c.Valid() && old(c.run) <= c.run
      ensures w.written == old(w.written) + [KeyAnswer(ViewAcross(old(c.state), c.state).versions, key)]
    {
      ghost var lookup := c.state;
      Wait(c, lookup, key, handler, w);
      Answer(c, lookup, key, handler, w);
    }

    /** Between a lookup and its answer the controller may write; the handler keeps its variable. */
    method Wait(
        c: DiscoveryController, ghost lookup: State, ghost key: Option<GroupVersion>,
        handler: Option<APIVersionHandler>, ghost w: ResponseWriter)
      requires c.Valid() && IsHandlerFor(handler, lookup, c.lists, key)
      modifies c, c.Stores(), c.lists
      ensures w.written == old(w.written)
      ensures c.Valid() && old(c.run) <= c.run
      ensures IsHandlerFor(handler, lookup, c.lists, key)
    {
      ghost var lists := c.lists;
      c.Interfere();
      HandlerKeepsVariable(handler, lookup, lists, c.lists, key);
    }

    /** The handler's answer at this moment is that of the machine, for a lookup at an earlier one. */
    method Answer(
        c: DiscoveryController, ghost lookup: State, ghost key: Option<GroupVersion>,
        handler: Option<APIVersionHandler>, w: ResponseWriter)
      requires c.Valid() && IsHandlerFor(handler, lookup, c.lists, key)
      modifies w
      ensures c.Valid()
      ensures w.written == old(w.written) + [KeyAnswer(ViewAcross(lookup, c.state).versions, key)]
    {
      versionDiscoveryHandler.Respond(handler, w);
    }

    /** The list handler for the verb "list"; any other verb is answered here and yields no handler. */
    method ServeResource(requestInfo: RequestInfo, w: ResponseWriter) returns (handlerFunc: Option<Response>)
      modifies w
      ensures requestInfo.verb == "list" ==>
                && handlerFunc == Some(ListAnswer(
                     GroupVersionResource(requestInfo.group, requestInfo.version, requestInfo.resource)))
                && w.written == old(w.written)
      ensures requestInfo.verb != "list" ==>
                && handlerFunc == None
                && w.written == old(w.written) +
                     [MethodNotSupported(requestInfo.group, requestInfo.resource, requestInfo.verb)]
    {
      if requestInfo.verb == "list" {
        return Some(ListAnswer(GroupVersionResource(requestInfo.group, requestInfo.version, requestInfo.resource)));
      }
      w.Write(MethodNotSupported(requestInfo.group, requestInfo.resource, requestInfo.verb));
      return None;
    }
  }
}
