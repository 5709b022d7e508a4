/** The discovery handlers: maps updated by the controller and read by requests. */
module Handlers {
  import opened Wrappers
  import opened Paths
  import opened Resources
  import opened DiscoveryModel
  import opened Http
  import opened Routing

  /** A slice variable, as a closure captures it: whoever holds it sees it grow. */
  class ResourceList {
    var resources: seq<APIResource>

    constructor ()
      ensures resources == []
    {
      resources := [];
    }
  }

  /** Answers with the current content of the captured variable. */
  datatype APIVersionHandler = APIVersionHandler(gv: GroupVersion, list: ResourceList)

  class VersionDiscoveryHandler {
    var discovery: map<GroupVersion, APIVersionHandler>

    constructor ()
      ensures discovery == map[]
    {
      discovery := map[];
    }

    ghost function Lists(): set<object>
      reads this
    {
      set gv | gv in discovery :: discovery[gv].list
    }

    /** The documents that would be served at this moment. */
    ghost function Documents(): map<GroupVersion, seq<APIResource>>
      reads this, Lists()
    {
      map gv | gv in discovery :: discovery[gv].list.resources
    }

    method GetDiscovery(gv: GroupVersion) returns (handler: Option<APIVersionHandler>)
      ensures handler == if gv in discovery then Some(discovery[gv]) else None
    {
      if gv in discovery {
        return Some(discovery[gv]);
      }
      return None;
    }

    method SetDiscovery(gv: GroupVersion, handler: APIVersionHandler)
      modifies this
      ensures discovery == old(discovery)[gv := handler]
    {
      discovery := discovery[gv := handler];
    }

    method UnsetDiscovery(gv: GroupVersion)
      modifies this
      ensures discovery == old(discovery) - {gv}
    {
      discovery := discovery - {gv};
    }

    /** The first half of `ServeHTTP`: the handler the request is for, looked up under the lock. */
    method Find(req: Request) returns (handler: Option<APIVersionHandler>)
      ensures handler ==
              match VersionKey(req.urlPath)
              case None => None
              case Some(gv) => if gv in discovery then Some(discovery[gv]) else None
    {
      var pathParts := SplitPath(req.urlPath);
      if |pathParts| == 2 && pathParts[0] == "api" {
        handler := GetDiscovery(GroupVersion("", pathParts[1]));
        return;
      }
      if |pathParts| != 3 || pathParts[0] != "apis" {
        return None;
      }
      handler := GetDiscovery(GroupVersion(pathParts[1], pathParts[2]));
    }

    /** The second half: the handler reads its list when it answers; without one the delegate answers. */
    method Respond(handler: Option<APIVersionHandler>, w: ResponseWriter)
      modifies w
      ensures handler == None ==> w.written == old(w.written) + [Delegated]
      ensures handler.Some? ==>
                w.written == old(w.written) + [VersionDocument(handler.value.gv, handler.value.list.resources)]
    {
      if handler.None? {
        w.Write(Delegated);
        return;
      }
      w.Write(VersionDocument(handler.value.gv, handler.value.list.resources));
    }
  }

  class GroupDiscoveryHandler {
    var discovery: map<string, APIGroup>

    constructor ()
      ensures discovery == map[]
    {
      discovery := map[];
    }

    method GetDiscovery(group: string) returns (document: Option<APIGroup>)
      ensures document == if group in discovery then Some(discovery[group]) else None
    {
      if group in discovery {
        return Some(discovery[group]);
      }
      return None;
    }

    method SetDiscovery(group: string, document: APIGroup)
      modifies this
      ensures discovery == old(discovery)[group := document]
    {
      discovery := discovery[group := document];
    }

    method UnsetDiscovery(group: string)
      modifies this
      ensures discovery == old(discovery) - {group}
    {
      discovery := discovery - {group};
    }

    method ServeHTTP(w: ResponseWriter, req: Request)
      modifies w
      ensures w.written == old(w.written) + [GroupLayer(discovery, req.urlPath)]
    {
      var pathParts := SplitPath(req.urlPath);
      if |pathParts| == 1 && pathParts[0] == "api" {
        w.Write(APIVersionsDocument(["v1"]));
        return;
      }
      if |pathParts| != 2 || pathParts[0] != "apis" {
        w.Write(Delegated);
        return;
      }
      var document := GetDiscovery(pathParts[1]);
      if document.None? {
        w.Write(Delegated);
        return;
      }
      w.Write(GroupAnswer(document.value));
    }
  }

  /** The aggregated store: adding a group version replaces what it held for it. */
  class ResourceManager {
    var groupVersions: map<GroupVersion, seq<AggregatedResource>>

    constructor ()
      ensures groupVersions == map[]
    {
      groupVersions := map[];
    }

    method AddGroupVersion(group: string, version: string, resources: seq<AggregatedResource>)
      modifies this
      ensures groupVersions == old(groupVersions)[GroupVersion(group, version) := resources]
    {
      groupVersions := groupVersions[GroupVersion(group, version) := resources];
    }
  }
}
