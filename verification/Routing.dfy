/** Which responder a request ends in, as a function of the request and of what discovery has installed. */
module Routing {
  import opened Wrappers
  import opened Paths
  import opened ClusterPaths
  import opened Resources
  import opened DiscoveryModel
  import opened DiscoveryRuns
  import opened Http
  import KubeVersions

  /** The documents that the two discovery handlers hold at one moment. */
  datatype View = View(versions: map<GroupVersion, seq<APIResource>>, groups: map<string, APIGroup>)

  /** What a request is served that looks its handler up in `lookup` and reads the list in `read`. */
  function ViewAcross(lookup: State, read: State): View {
    View(
      map gv | gv in lookup.versions && lookup.versions[gv] < |read.cells| :: read.cells[lookup.versions[gv]],
      lookup.groups)
  }

  // ---- the layers as the code has them

  function VersionAnswer(versions: map<GroupVersion, seq<APIResource>>, gv: GroupVersion): (r: Response)
    ensures r.VersionDocument? || r.Delegated?
  {
    if gv in versions then VersionDocument(gv, versions[gv]) else Delegated
  }

  /** The group version whose handler the segments ask for, if they are the path of one. */
  function KeyOf(parts: seq<string>): Option<GroupVersion> {
    if |parts| == 2 && parts[0] == "api" then Some(GroupVersion("", parts[1]))
    else if |parts| != 3 || parts[0] != "apis" then None
    else Some(GroupVersion(parts[1], parts[2]))
  }

  function VersionKey(path: string): Option<GroupVersion> {
    KeyOf(SplitPath(path))
  }

  function KeyAnswer(versions: map<GroupVersion, seq<APIResource>>, key: Option<GroupVersion>): (r: Response)
    ensures r.VersionDocument? || r.Delegated?
  {
    match key
    case None => Delegated
    case Some(gv) => VersionAnswer(versions, gv)
  }

  function GroupAnswerFor(groups: map<string, APIGroup>, parts: seq<string>): (r: Response)
    ensures r.APIVersionsDocument? || r.GroupAnswer? || r.Delegated?
  {
    if |parts| == 1 && parts[0] == "api" then APIVersionsDocument(["v1"])
    else if |parts| != 2 || parts[0] != "apis" then Delegated
    else if parts[1] in groups then GroupAnswer(groups[parts[1]])
    else Delegated
  }

  function GroupLayer(groups: map<string, APIGroup>, path: string): Response {
    GroupAnswerFor(groups, SplitPath(path))
  }

  /** The outer layer looks at the filter's path, the inner one at the request's own. */
  function Layered(view: View, infoParts: seq<string>, parts: seq<string>): (r: Response)
    ensures r.APIVersionsDocument? || r.VersionDocument? || r.GroupAnswer? || r.Delegated?
  {
    if |infoParts| == 3 then KeyAnswer(view.versions, KeyOf(parts))
    else if |infoParts| == 2 then
      if infoParts[0] == "apis" then GroupAnswerFor(view.groups, parts) else KeyAnswer(view.versions, KeyOf(parts))
    else if |infoParts| == 1 then GroupAnswerFor(view.groups, parts)
    else Delegated
  }

  function NonResource(view: View, infoPath: string, path: string): (r: Response)
    ensures r.APIVersionsDocument? || r.VersionDocument? || r.GroupAnswer? || r.Delegated?
  {
    Layered(view, SplitPath(infoPath), SplitPath(path))
  }

  // ---- one flat table over the segments

  function Flat(view: View, parts: seq<string>): Response {
    if parts == ["api"] then APIVersionsDocument(["v1"])
    else if |parts| == 2 && parts[0] == "api" then VersionAnswer(view.versions, GroupVersion("", parts[1]))
    else if |parts| == 2 && parts[0] == "apis" && parts[1] in view.groups then GroupAnswer(view.groups[parts[1]])
    else if |parts| == 3 && parts[0] == "apis" then VersionAnswer(view.versions, GroupVersion(parts[1], parts[2]))
    else Delegated
  }

  /** The two layers, which split and check the path again, are that table. */
  lemma TwoLayersAreFlat(view: View, path: string)
    ensures NonResource(view, path, path) == Flat(view, SplitPath(path))
  {
    LayersAreFlat(view, SplitPath(path));
  }

  lemma LayersAreFlat(view: View, parts: seq<string>)
    ensures Layered(view, parts, parts) == Flat(view, parts)
  {
  }

  // ---- exactly the paths that reach each document

  ghost predicate ReachesVersion(view: View, path: string, gv: GroupVersion) {
    && gv in view.versions
    && Segment(gv.version) && SlashFree(gv.group)
    && (|| Trim(path) == "apis" + "/" + gv.group + "/" + gv.version
        || (gv.group == "" && Trim(path) == "api" + "/" + gv.version))
  }

  ghost predicate ReachesGroup(view: View, path: string, n: string) {
    n in view.groups && Segment(n) && Trim(path) == "apis" + "/" + n
  }

  lemma JoinOf2(a: string, b: string)
    ensures Join([a, b]) == a + "/" + b
  {
  }

  lemma JoinOf3(a: string, b: string, c: string)
    ensures Join([a, b, c]) == a + "/" + b + "/" + c
  {
    assert [a, b, c][1..] == [b, c];
    JoinOf2(b, c);
    assert a + "/" + (b + "/" + c) == a + "/" + b + "/" + c;
  }

  lemma SplitIs2(path: string, a: string, b: string)
    requires Segment(a)
    ensures SplitPath(path) == [a, b] <==> Segment(b) && Trim(path) == a + "/" + b
  {
    SplitPathExactly(path, [a, b]);
    JoinOf2(a, b);
    assert Normalised([a, b]) ==> SlashFree([a, b][1]) && [a, b][|[a, b]| - 1] == b;
  }

  lemma SplitIs3(path: string, a: string, b: string, c: string)
    requires Segment(a)
    ensures SplitPath(path) == [a, b, c] <==> SlashFree(b) && Segment(c) && Trim(path) == a + "/" + b + "/" + c
  {
    SplitPathExactly(path, [a, b, c]);
    JoinOf3(a, b, c);
    assert Normalised([a, b, c]) ==>
        SlashFree([a, b, c][1]) && SlashFree([a, b, c][2]) && [a, b, c][|[a, b, c]| - 1] == c;
  }

  /** The segments that reach a version document. */
  ghost predicate VersionParts(parts: seq<string>, gv: GroupVersion) {
    parts == ["apis", gv.group, gv.version] || (gv.group == "" && parts == ["api", gv.version])
  }

  predicate IsDocumentFor(r: Response, gv: GroupVersion) {
    r.VersionDocument? && r.gv == gv
  }

  lemma FlatVersion(view: View, parts: seq<string>, gv: GroupVersion)
    ensures IsDocumentFor(Flat(view, parts), gv) <==> gv in view.versions && VersionParts(parts, gv)
    ensures gv in view.versions && VersionParts(parts, gv) ==>
              Flat(view, parts) == VersionDocument(gv, view.versions[gv])
  {
  }

  lemma FlatGroup(view: View, parts: seq<string>, document: APIGroup)
    ensures Flat(view, parts) == GroupAnswer(document) <==>
            exists n :: parts == ["apis", n] && n in view.groups && view.groups[n] == document
  {
  }

  lemma PathReachesVersion(path: string, gv: GroupVersion)
    ensures VersionParts(SplitPath(path), gv) <==>
            && Segment(gv.version) && SlashFree(gv.group)
            && (|| Trim(path) == "apis" + "/" + gv.group + "/" + gv.version
                || (gv.group == "" && Trim(path) == "api" + "/" + gv.version))
  {
    SplitIs2(path, "api", gv.version);
    SplitIs3(path, "apis", gv.group, gv.version);
  }

  /** A version document is served at its own path, and the empty group's also below "/apis//". */
  lemma VersionServedExactly(view: View, path: string, gv: GroupVersion)
    ensures IsDocumentFor(NonResource(view, path, path), gv) <==> ReachesVersion(view, path, gv)
    ensures ReachesVersion(view, path, gv) ==> NonResource(view, path, path) == VersionDocument(gv, view.versions[gv])
  {
    var parts := SplitPath(path);
    PathReachesVersion(path, gv);
    FlatVersion(view, parts, gv);
    assert NonResource(view, path, path) == Flat(view, parts) by {
      TwoLayersAreFlat(view, path);
    }
  }

  /** A group document is served at one path only; the entry of the empty group is served nowhere. */
  lemma GroupServedExactly(view: View, path: string, document: APIGroup)
    ensures NonResource(view, path, path) == GroupAnswer(document) <==>
            exists n :: ReachesGroup(view, path, n) && view.groups[n] == document
  {
    TwoLayersAreFlat(view, path);
    FlatGroup(view, SplitPath(path), document);
    forall n ensures SplitPath(path) == ["apis", n] <==> Segment(n) && Trim(path) == "apis" + "/" + n {
      SplitIs2(path, "apis", n);
    }
    if NonResource(view, path, path) == GroupAnswer(document) {
      var n :| SplitPath(path) == ["apis", n] && n in view.groups && view.groups[n] == document;
      assert ReachesGroup(view, path, n);
    }
  }

  // ---- every request

  /** The way to a cluster's proxy: its address and, for each cluster, a token or the reason there is none. */
  datatype ProxyClient = ProxyClient(host: string, token: string -> Result<string, string>)

  /** The answer to a request that names no cluster. */
  function LocalAnswer(view: View, path: string, info: Option<RequestInfo>): (r: Response)
    ensures !r.Proxied? && !r.BadRequest?
  {
    match info
    case None => InternalError("no RequestInfo found in the context")
    case Some(i) =>
      if !i.isResourceRequest then NonResource(view, i.path, path)
      else if i.resource == "" then InternalError("error resolving resource")
      else if i.subresource != "" then NotFound(i.group, i.resource, i.name)
      else if i.verb != "list" then MethodNotSupported(i.group, i.resource, i.verb)
      else ListAnswer(GroupVersionResource(i.group, i.version, i.resource))
  }

  /** What a request for a cluster is answered: what the proxy forwards, or why there is no token. */
  function ProxyAnswer(client: ProxyClient, cluster: string, uri: string, rawQuery: string): (r: Response)
    ensures r.Proxied? || r.BadRequest?
  {
    match client.token(cluster)
    case Err(message) => BadRequest(message)
    case Ok(token) => Proxied(client.host, cluster + uri, rawQuery, "Bearer " + token)
  }

  /** The one answer to a request. */
  function Decide(view: View, client: ProxyClient, path: string, rawQuery: string, info: Option<RequestInfo>)
    : Response
  {
    var address := ClusterPathFromAndStrip(path);
    if address.cluster != "" then ProxyAnswer(client, address.cluster, address.rest, rawQuery)
    else LocalAnswer(view, path, info)
  }

  // ---- exactly the requests that each responder answers

  /** Something other than a slash follows the prefix. */
  predicate NamesCluster(path: string) {
    PREFIX < path && path[|PREFIX|] != '/'
  }

  lemma ClusterNamed(path: string)
    ensures ClusterPathFromAndStrip(path).cluster != "" <==> NamesCluster(path)
  {
    NamedExactly(path);
  }

  /** A request for a resource of this gateway. */
  predicate AsksForResource(path: string, info: Option<RequestInfo>) {
    !NamesCluster(path) && info.Some? && info.value.isResourceRequest && info.value.resource != ""
  }

  lemma ListedExactly(
      view: View, client: ProxyClient, path: string, rawQuery: string, info: Option<RequestInfo>,
      gvr: GroupVersionResource)
    ensures Decide(view, client, path, rawQuery, info) == ListAnswer(gvr) <==>
            && AsksForResource(path, info)
            && info.value.subresource == "" && info.value.verb == "list"
            && info.value.group == gvr.group && info.value.version == gvr.version
            && info.value.resource == gvr.resource
  {
    ClusterNamed(path);
  }

  lemma NotFoundExactly(
      view: View, client: ProxyClient, path: string, rawQuery: string, info: Option<RequestInfo>,
      group: string, resource: string, name: string)
    ensures Decide(view, client, path, rawQuery, info) == NotFound(group, resource, name) <==>
            && AsksForResource(path, info)
            && info.value.subresource != ""
            && info.value.group == group && info.value.resource == resource && info.value.name == name
  {
    ClusterNamed(path);
  }

  lemma NotSupportedExactly(
      view: View, client: ProxyClient, path: string, rawQuery: string, info: Option<RequestInfo>,
      group: string, resource: string, verb: string)
    ensures Decide(view, client, path, rawQuery, info) == MethodNotSupported(group, resource, verb) <==>
            && AsksForResource(path, info)
            && info.value.subresource == "" && info.value.verb == verb != "list"
            && info.value.group == group && info.value.resource == resource
  {
    ClusterNamed(path);
  }

  lemma InternalErrorExactly(
      view: View, client: ProxyClient, path: string, rawQuery: string, info: Option<RequestInfo>, message: string)
    ensures Decide(view, client, path, rawQuery, info) == InternalError(message) <==>
            && !NamesCluster(path)
            && match info
               case None => message == "no RequestInfo found in the context"
               case Some(i) => i.isResourceRequest && i.resource == "" && message == "error resolving resource"
  {
    ClusterNamed(path);
  }

  /** A request that is for none of this gateway's resources. */
  predicate AsksForNoResource(path: string, info: Option<RequestInfo>) {
    !NamesCluster(path) && info.Some? && !info.value.isResourceRequest
  }

  /** The flat table's answer, if the layer that gives it is the one that these segments select. */
  function IfSelected(infoParts: seq<string>, flat: Response): Response {
    var versions := |infoParts| == 3 || (|infoParts| == 2 && infoParts[0] != "apis");
    var groups := |infoParts| == 1 || (|infoParts| == 2 && infoParts[0] == "apis");
    if (versions && flat.VersionDocument?) || (groups && !flat.VersionDocument?) then flat else Delegated
  }

  /** Discovery is asked exactly for what is neither proxied nor a resource. */
  lemma DiscoveryAskedExactly(
      view: View, client: ProxyClient, path: string, rawQuery: string, info: Option<RequestInfo>)
    ensures
      var r := Decide(view, client, path, rawQuery, info);
      && (AsksForNoResource(path, info) <==>
            r.VersionDocument? || r.GroupAnswer? || r.APIVersionsDocument? || r.Delegated?)
      && (AsksForNoResource(path, info) ==> r == NonResource(view, info.value.path, path))
  {
    ClusterNamed(path);
  }

  /** The layer that the filter's path selects answers for the request's own path, or nobody does. */
  lemma SelectedLayerAnswers(view: View, infoPath: string, path: string)
    ensures NonResource(view, infoPath, path) == IfSelected(SplitPath(infoPath), Flat(view, SplitPath(path)))
  {
    SelectedLayer(view, SplitPath(infoPath), SplitPath(path));
  }

  lemma SelectedLayer(view: View, infoParts: seq<string>, parts: seq<string>)
    ensures Layered(view, infoParts, parts) == IfSelected(infoParts, Flat(view, parts))
  {
  }

  // ---- advertised links

  /** The group versions of a table can be written into paths. */
  ghost predicate Printable(table: ResourceTable) {
    forall gv | gv in table :: SlashFree(gv.group) && Segment(gv.version)
  }

  /** The path of an advertised group version. */
  function LinkOf(groupVersion: string): string {
    "/apis/" + groupVersion
  }

  lemma PathOfLink(gv: GroupVersion)
    requires Segment(gv.group) && Segment(gv.version)
    ensures SplitPath(LinkOf(GroupVersionString(gv))) == ["apis", gv.group, gv.version]
  {
    var parts := ["apis", gv.group, gv.version];
    JoinOf3("apis", gv.group, gv.version);
    assert "/" + Join(parts) == LinkOf(GroupVersionString(gv));
    SplitPathOfPrinted(parts);
  }

  lemma LinkIsNoClusterPath(groupVersion: string)
    ensures ClusterPathFromAndStrip(LinkOf(groupVersion)) == ClusterPath("", LinkOf(groupVersion))
  {
    assert LinkOf(groupVersion)[1] == 'a' && PREFIX[1] == 'c';
  }

  /**
   * Every link of a group document resolves: the document is read after any run, the handler behind each
   * link is looked up after any continuation of it, its list is read after any continuation of that, in
   * the middle of whatever sync, and a version document answers.
   */
  lemma {:induction false} LinksResolve(
      g: Gateway, run: seq<Action>, n: nat, m: nat, name: string, entry: KubeVersions.GroupVersionForDiscovery,
      client: ProxyClient, rawQuery: string, info: Option<RequestInfo>)
    requires ValidRun(g, run) && n <= m <= |run| && ValidRun(g, run[..n]) && ValidRun(g, run[..m])
    requires Printable(g.table)
    requires Segment(name) && name in Exec(g, run[..n]).groups
    requires
      var document := Exec(g, run[..n]).groups[name];
      entry in document.versions || entry == document.preferredVersion
    ensures
      var gv := GroupVersion(name, entry.version);
      var link := LinkOf(entry.groupVersion);
      var lookup, read := Exec(g, run[..m]), Exec(g, run);
      var list := ServedAcross(lookup, read, gv);
      && gv in g.table
      && list.Some?
      && NonEmptyPrefix(list.value, Listing(g.table[gv]))
      && (InfoFor(link, info) ==>
            Decide(ViewAcross(lookup, read), client, link, rawQuery, info) == VersionDocument(gv, list.value))
  {
    var gv := GroupVersion(name, entry.version);
    LinkIsInstalled(g, run[..n], name, entry);
    assert run[..m][..n] == run[..n];
    InstalledStaysInstalled(g, run[..m], n);
    HeldHandlerServes(g, run, m, gv);
    LinkFollowed(Exec(g, run[..m]), Exec(g, run), gv, client, rawQuery, info);
  }

  /** The entries of a group document are those of an installed version of the group. */
  lemma LinkIsInstalled(g: Gateway, run: seq<Action>, name: string, entry: KubeVersions.GroupVersionForDiscovery)
    requires ValidRun(g, run) && name in Exec(g, run).groups
    requires
      var document := Exec(g, run).groups[name];
      entry in document.versions || entry == document.preferredVersion
    ensures
      var gv := GroupVersion(name, entry.version);
      gv in g.table && gv in Exec(g, run).versions && entry == VersionEntry(gv)
  {
    InvReachable(g, run);
    var gv :| IsDocumentOf(g, Exec(g, run), name, gv);
    assert entry == VersionEntry(gv);
  }

  /** The link of an installed group version reaches its document. */
  lemma LinkFollowed(
      lookup: State, read: State, gv: GroupVersion, client: ProxyClient, rawQuery: string, info: Option<RequestInfo>)
    requires ServedAcross(lookup, read, gv).Some? && Segment(gv.group) && Segment(gv.version)
    ensures
      var link := LinkOf(GroupVersionString(gv));
      InfoFor(link, info) ==>
        Decide(ViewAcross(lookup, read), client, link, rawQuery, info) ==
        VersionDocument(gv, ServedAcross(lookup, read, gv).value)
  {
    var link, view := LinkOf(GroupVersionString(gv)), ViewAcross(lookup, read);
    PathOfLink(gv);
    LinkIsNoClusterPath(GroupVersionString(gv));
    TwoLayersAreFlat(view, link);
    FlatVersion(view, SplitPath(link), gv);
  }

  /**
   * Once a sync has completed, a core version's link resolves exactly when the table has that version, its
   * handler looked up in the middle of any later sync and its list read after any continuation of that.
   */
  lemma CoreLinkResolvesExactly(
      g: Gateway, run: seq<Action>, n: nat, v: string, client: ProxyClient, rawQuery: string,
      info: Option<RequestInfo>)
    requires ValidRun(g, run) && n <= |run| && ValidRun(g, run[..n]) && Exec(g, run[..n]).synced
    requires Segment(v)
    ensures InfoFor("/api/" + v, info) ==>
              var r := Decide(ViewAcross(Exec(g, run[..n]), Exec(g, run)), client, "/api/" + v, rawQuery, info);
              && (r.VersionDocument? <==> GroupVersion("", v) in g.table)
              && (r.VersionDocument? ==>
                    r.gv == GroupVersion("", v) && NonEmptyPrefix(r.resources, Listing(g.table[r.gv])))
  {
    var lookup, read, core := Exec(g, run[..n]), Exec(g, run), GroupVersion("", v);
    InvReachable(g, run[..n]);
    if core in g.table {
      HeldHandlerServes(g, run, n, core);
    }
    CoreLinkFollowed(ViewAcross(lookup, read), v, client, rawQuery, info);
  }

  lemma CoreLinkFollowed(view: View, v: string, client: ProxyClient, rawQuery: string, info: Option<RequestInfo>)
    requires Segment(v)
    ensures InfoFor("/api/" + v, info) ==>
              Decide(view, client, "/api/" + v, rawQuery, info) == VersionAnswer(view.versions, GroupVersion("", v))
  {
    CoreSegments(v);
    CoreIsNoClusterPath(v);
    TwoLayersAreFlat(view, "/api/" + v);
    CoreFlat(view, v);
  }

  lemma CoreFlat(view: View, v: string)
    ensures Flat(view, ["api", v]) == VersionAnswer(view.versions, GroupVersion("", v))
  {
  }

  lemma CoreIsNoClusterPath(v: string)
    ensures ClusterPathFromAndStrip("/api/" + v) == ClusterPath("", "/api/" + v)
  {
    var path := "/api/" + v;
    assert path[1] == 'a' && PREFIX[1] == 'c';
  }

  lemma CoreSegments(v: string)
    requires Segment(v)
    ensures SplitPath("/api/" + v) == ["api", v]
  {
    var parts := ["api", v];
    JoinOf2("api", v);
    assert "/" + Join(parts) == "/api/" + v;
    SplitPathOfPrinted(parts);
  }

  /** "/api" itself always advertises exactly v1, whatever is installed. */
  lemma CoreVersionsAreFixed(view: View, path: string)
    ensures NonResource(view, path, path).APIVersionsDocument? <==> Trim(path) == "api"
    ensures Trim(path) == "api" ==> NonResource(view, path, path) == APIVersionsDocument(["v1"])
  {
    TwoLayersAreFlat(view, path);
    FlatCoreVersions(view, SplitPath(path));
    SplitPathExactly(path, ["api"]);
  }

  lemma FlatCoreVersions(view: View, parts: seq<string>)
    ensures Flat(view, parts).APIVersionsDocument? <==> parts == ["api"]
    ensures parts == ["api"] ==> Flat(view, parts) == APIVersionsDocument(["v1"])
  {
  }
}
