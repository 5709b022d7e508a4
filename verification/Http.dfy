/** Requests, and the responses a request can end in. */
module Http {
  import opened Wrappers
  import opened Paths
  import opened Resources
  import opened DiscoveryModel

  /** What the request-info filter in front of the gateway has read off the request. */
  datatype RequestInfo = RequestInfo(
    path: string, isResourceRequest: bool, verb: string, group: string, version: string,
    resource: string, subresource: string, name: string)

  /** The terminal responders; each answers the request once. */
  datatype Response =
    | Proxied(host: string, path: string, rawQuery: string, authorization: string)
    | APIVersionsDocument(versions: seq<string>)
    | VersionDocument(gv: GroupVersion, resources: seq<APIResource>)
    | GroupAnswer(document: APIGroup)
    | ListAnswer(gvr: GroupVersionResource)
    | Delegated
    | BadRequest(message: string)
    | InternalError(message: string)
    | NotFound(group: string, resource: string, name: string)
    | MethodNotSupported(group: string, resource: string, verb: string)

  class Request {
    var host: string
    var urlHost: string
    var urlPath: string
    var header: map<string, string>
    const rawQuery: string
    const info: Option<RequestInfo>

    constructor (path: string, rawQuery: string, info: Option<RequestInfo>)
      ensures urlPath == path && this.rawQuery == rawQuery && this.info == info && header == map[]
    {
      host, urlHost, urlPath, header := "", "", path, map[];
      this.rawQuery, this.info := rawQuery, info;
    }
  }

  class ResponseWriter {
    var written: seq<Response>

    constructor ()
      ensures written == []
    {
      written := [];
    }

    method Write(r: Response)
      modifies this
      ensures written == old(written) + [r]
    {
      written := written + [r];
    }
  }

  /** Resource requests have a resource behind the version: /api/v/r or /apis/g/v/r. */
  predicate IsResourcePath(path: string) {
    var parts := SplitPath(path);
    (|parts| >= 3 && parts[0] == "api") || (|parts| >= 4 && parts[0] == "apis")
  }

  /** The filter saw this very path. */
  predicate InfoFor(path: string, info: Option<RequestInfo>) {
    info.Some? && info.value.path == path && info.value.isResourceRequest == IsResourcePath(path)
  }
}
