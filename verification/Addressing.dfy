/** From a kubeconfig the tool has written to the request that reaches the cluster's proxy. */
module Addressing {
  import opened Wrappers
  import opened Paths
  import opened ClusterPaths
  import opened Resources
  import opened Kubeconfig
  import opened Http
  import opened Routing
  import opened CleanPaths
  import opened ServerURLs
  import opened WrittenURLs

  const CLUSTERS := "clusters"

  /** The path a client requests for API path `p` on a server: the server's own path, then `p`. */
  function ClientPath(server: string, p: string): Option<string> {
    Joined(URLPath(server), Some(p))
  }

  /** The same for a client that joins the two with `path.Join`. */
  function CleanClientPath(server: string, p: string): Option<string> {
    var own := URLPath(server);
    if own.Some? then Some(Printed(Cleaned(own.value + ("/" + p)))) else None
  }

  /** The gateway reads a request for such a path as API path `p` of `name`. */
  predicate ReadAs(path: Option<string>, name: string, p: string) {
    name != "" && path.Some? && ClusterPathFromAndStrip(path.value) == ClusterPath(name, p)
  }

  /**
   * The gateway reads back the cluster and the path exactly when the name is a literal segment and the
   * root URL has no path. Should the root URL have a query or a fragment, the name is cut off with it, and
   * only a root that is itself the address of this cluster will do.
   */
  lemma {:induction false} AddressReadsBackExactly(root: string, name: string, p: string)
    requires StartsWithSlash(p)
    ensures ReadAs(ClientPath(ClusterServer(root, name), p), name, p) <==>
            && Segment(name)
            && if Uncut(root) then Literal(name) && URLPath(root) == Some("") else URLPath(root) == Some(PREFIX + name)
  {
    ReadVerbatim(URLPath(ClusterServer(root, name)), name, p);
    WrittenServer(root, name);
  }

  lemma WrittenServer(root: string, name: string)
    ensures SlashFree(name) ==>
              (URLPath(ClusterServer(root, name)) == Some(PREFIX + name) <==>
               if Uncut(root) then Literal(name) && URLPath(root) == Some("") else URLPath(root) == Some(PREFIX + name))
  {
    if SlashFree(name) {
      assert root + (PREFIX + name) == ClusterServer(root, name);
      WrittenPathExactly(root, PREFIX, name);
    }
  }

  lemma ReadVerbatim(own: Option<string>, name: string, p: string)
    requires StartsWithSlash(p)
    ensures ReadAs(Joined(own, Some(p)), name, p) <==> Segment(name) && own == Some(PREFIX + name)
  {
    if own.Some? && name != "" {
      var path := own.value;
      AddressedExactly(path + p, name, p);
      if path + p == PREFIX + name + p {
        assert path == (path + p)[..|path|] == (PREFIX + name + p)[..|PREFIX + name|];
      }
      if p == "/" && path + p == PREFIX + name {
        assert name[|name| - 1] == (PREFIX + name)[|PREFIX| + |name| - 1] == '/';
      }
    }
  }

  /**
   * For a client that cleans paths, the gateway reads back the cluster and the path exactly when the name is
   * a literal segment other than "." and ".." and the root URL's path cleans to nothing. A root that is the
   * address of this cluster, or below it, will do if all that is written is cut off or climbs back up.
   */
  lemma {:induction false} CleanAddressReadsBackExactly(root: string, name: string, p: string)
    requires IsClean(p)
    ensures ReadAs(CleanClientPath(ClusterServer(root, name), p), name, p) <==>
            if !Uncut(root) then CleanPath(URLPath(root)) == Some([CLUSTERS, name])
            else if Literal(name) then Normal(name) && CleanPath(URLPath(root)) == Some([])
            else ClimbsBack(URLPath(root), CLUSTERS, name)
  {
    var own := URLPath(ClusterServer(root, name));
    if own.Some? {
      ReadClean(own.value, name, p);
    }
    CleanServer(root, name);
  }

  lemma CleanServer(root: string, name: string)
    ensures CleanPath(URLPath(ClusterServer(root, name))) == Some([CLUSTERS, name]) <==>
            if !Uncut(root) then CleanPath(URLPath(root)) == Some([CLUSTERS, name])
            else if Literal(name) then Normal(name) && CleanPath(URLPath(root)) == Some([])
            else ClimbsBack(URLPath(root), CLUSTERS, name)
  {
    assert root + ("/" + CLUSTERS + "/" + name) == ClusterServer(root, name);
    WrittenCleanExactly(root, CLUSTERS, name);
  }

  lemma ReadClean(own: string, name: string, p: string)
    requires IsClean(p)
    ensures ReadAs(Some(Printed(Cleaned(own + ("/" + p)))), name, p) <==> Cleaned(own) == [CLUSTERS, name]
  {
    CleanedBehind(own, p);
    CleanedIsNormal(own);
    CleanedIsNormal(p);
    ReadPrinted(Cleaned(own), name, Cleaned(p));
  }

  /** Printed segments are read as a cluster and a path exactly when those are the first two. */
  lemma ReadPrinted(stack: seq<string>, name: string, rest: seq<string>)
    requires AllNormal(stack) && AllNormal(rest)
    ensures ReadAs(Some(Printed(stack + rest)), name, Printed(rest)) <==> stack == [CLUSTERS, name]
  {
    if stack == [CLUSTERS, name] {
      assert Normal(stack[1]);
    }
    if name != "" {
      AddressedExactly(Printed(stack + rest), name, Printed(rest));
    }
    if Segment(name) {
      PrintedAddress(stack, name, rest);
    }
  }

  lemma PrintedAddress(stack: seq<string>, name: string, rest: seq<string>)
    requires AllNormal(stack) && AllNormal(rest) && Segment(name)
    ensures || Printed(stack + rest) == PREFIX + name + Printed(rest)
            || (Printed(rest) == "/" && Printed(stack + rest) == PREFIX + name)
            <==> stack == [CLUSTERS, name]
  {
    var parts, address := stack + rest, [CLUSTERS, name];
    if rest == [] {
      AddressPrinted(name, [""]);
      assert parts == stack && Printed(rest) == "/";
      if stack != [] {
        PrintedInjective(stack, address);
        PrintedInjective(stack, address + [""]);
        assert !Normal((address + [""])[2]);
      }
    } else {
      AddressPrinted(name, rest);
      PrintedInjective(parts, address + rest);
      assert parts == address + rest ==> stack == parts[..|parts| - |rest|] == address;
      RestPrinted(rest);
    }
  }

  lemma RestPrinted(rest: seq<string>)
    requires AllNormal(rest) && rest != []
    ensures Printed(rest) != "/"
  {
    assert Printed(rest)[1..] == Join(rest);
    JoinEnds(rest);
  }

  lemma AddressPrinted(name: string, rest: seq<string>)
    requires rest != []
    ensures Printed([CLUSTERS, name]) == PREFIX + name
    ensures Printed([CLUSTERS, name] + rest) == PREFIX + name + Printed(rest)
  {
    JoinOfPair(CLUSTERS, name, rest);
    assert Join([CLUSTERS, name]) == CLUSTERS + "/" + name;
    assert PREFIX == "/" + CLUSTERS + "/";
  }

  /**
   * Exactly the paths with a name behind the prefix are for the proxy; what is forwarded is the rest of
   * the path, unchanged but for a slash closing a bare name.
   */
  lemma ProxiedExactly(view: View, client: ProxyClient, path: string, rawQuery: string, info: Option<RequestInfo>)
    ensures
      var r := Decide(view, client, path, rawQuery, info);
      && (r.Proxied? || r.BadRequest? <==> NamesCluster(path))
      && (r.Proxied? ==>
            && PREFIX + r.path == (if SlashFree(path[|PREFIX|..]) then path + "/" else path)
            && r.host == client.host && r.rawQuery == rawQuery)
  {
    NamedExactly(path);
  }

  /** A request for such a path is forwarded as `p` of `name`, or told why there is no token. */
  ghost predicate Reaches(
    path: Option<string>, name: string, p: string,
    view: View, client: ProxyClient, rawQuery: string, info: Option<RequestInfo>)
  {
    && ReadAs(path, name, p)
    && Decide(view, client, path.value, rawQuery, info) ==
       match client.token(name)
       case Err(message) => BadRequest(message)
       case Ok(token) => Proxied(client.host, name + p, rawQuery, "Bearer " + token)
  }

  /**
   * After any commands whose last effective one used `name`, and used it before any other command overwrote
   * the root's cluster, a client of the current context that asks for `p` reaches the cluster `name` at `p`,
   * with that cluster's token, or is told why there is none.
   */
  lemma CommandReachesCluster(
      config: Config, commands: seq<Command>, name: string, p: string,
      view: View, client: ProxyClient, rawQuery: string, info: Option<RequestInfo>)
    requires RootResolves(config) && Uncut(RootCluster(config).server)
    requires Names(commands) != {} && Last(commands, config.currentContext) == name && name !in config.contexts
    requires name in Names(Early(config, commands))
    requires Segment(name) && Literal(name) && StartsWithSlash(p)
    ensures
      var after := RunAll(config, commands);
      && after.currentContext == name
      && Resolve(after, name).Some?
      && var own, server := URLPath(RootCluster(config).server), Resolve(after, name).value;
         && (own == Some("") ==> Reaches(ClientPath(server, p), name, p, view, client, rawQuery, info))
         && (CleanPath(own) == Some([]) && Normal(name) && IsClean(p) ==>
               Reaches(CleanClientPath(server, p), name, p, view, client, rawQuery, info))
  {
    CurrentContextExists(config, commands);
    LastIsAName(commands, config.currentContext);
    NewContextAddressed(config, commands, name);
    AddressReadsBackExactly(RootCluster(config).server, name, p);
    if IsClean(p) {
      CleanAddressReadsBackExactly(RootCluster(config).server, name, p);
    }
  }
}
