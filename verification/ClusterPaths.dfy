/** The `/clusters/<name>` prefix: how the gateway parses it and what a server URL makes of it. */
module ClusterPaths {
  import opened Paths

  const PREFIX := "/clusters/"

  datatype ClusterPath = ClusterPath(cluster: string, rest: string)

  function ClusterPathFromAndStrip(path: string): ClusterPath {
    if PREFIX <= path then
      var tail := path[|PREFIX|..];
      var i := IndexSlash(tail);
      if i == -1 then
        var closed := tail + "/";
        ClusterPath(closed[..|closed| - 1], closed[|closed| - 1..])
      else
        ClusterPath(tail[..i], tail[i..])
    else
      ClusterPath("", path)
  }

  predicate StartsWithSlash(s: string) {
    s != "" && s[0] == '/'
  }

  /** No information is lost, except whether a slash followed a bare cluster name. */
  lemma {:induction false} Lossless(path: string)
    requires PREFIX <= path
    ensures
      var parsed := ClusterPathFromAndStrip(path);
      && SlashFree(parsed.cluster)
      && StartsWithSlash(parsed.rest)
      && PREFIX + parsed.cluster + parsed.rest == (if SlashFree(path[|PREFIX|..]) then path + "/" else path)
  {
    var tail := path[|PREFIX|..];
    assert path == PREFIX + tail;
    var i := IndexSlash(tail);
    if i == -1 {
      BareName(path, tail);
    } else {
      assert PREFIX + tail[..i] + tail[i..] == path;
    }
  }

  /** A bare cluster name addresses the cluster's root path. */
  lemma {:induction false} BareName(path: string, name: string)
    requires path == PREFIX + name && SlashFree(name)
    ensures ClusterPathFromAndStrip(path) == ClusterPath(name, "/")
    ensures PREFIX + name + "/" == path + "/"
  {
    assert path[|PREFIX|..] == name;
    assert (name + "/")[..|name|] == name && (name + "/")[|name|..] == "/";
  }

  lemma {:induction false} IndexOfFirstSlash(name: string, rest: string)
    requires SlashFree(name) && StartsWithSlash(rest)
    ensures IndexSlash(name + rest) == |name|
  {
    if name == "" {
      assert name + rest == rest;
    } else {
      assert (name + rest)[1..] == name[1..] + rest;
      IndexOfFirstSlash(name[1..], rest);
    }
  }

  /** Exactly these paths address API path `rest` of the cluster `name`. */
  lemma AddressedExactly(path: string, name: string, rest: string)
    requires name != ""
    ensures ClusterPathFromAndStrip(path) == ClusterPath(name, rest)
       <==> && SlashFree(name) && StartsWithSlash(rest)
            && (path == PREFIX + name + rest || (rest == "/" && path == PREFIX + name))
  {
    if ClusterPathFromAndStrip(path) == ClusterPath(name, rest) {
      Lossless(path);
      if SlashFree(path[|PREFIX|..]) {
        assert path == (path + "/")[..|path|];
        assert path == PREFIX + name;
      }
    }
    if SlashFree(name) && StartsWithSlash(rest)
       && (path == PREFIX + name + rest || (rest == "/" && path == PREFIX + name))
    {
      PrintedIsAddressed(path, name, rest);
    }
  }

  lemma PrintedIsAddressed(path: string, name: string, rest: string)
    requires SlashFree(name) && StartsWithSlash(rest)
    requires path == PREFIX + name + rest || (rest == "/" && path == PREFIX + name)
    ensures ClusterPathFromAndStrip(path) == ClusterPath(name, rest)
  {
    if path == PREFIX + name {
      BareName(path, name);
    } else {
      assert path[|PREFIX|..] == name + rest;
      IndexOfFirstSlash(name, rest);
    }
  }

  /** A cluster is named exactly when something other than a slash follows the prefix; printing restores the path. */
  lemma {:induction false} NamedExactly(path: string)
    ensures
      var parsed := ClusterPathFromAndStrip(path);
      && (parsed.cluster != "" <==> PREFIX < path && path[|PREFIX|] != '/')
      && (parsed.cluster != "" ==>
            PREFIX + (parsed.cluster + parsed.rest) == (if SlashFree(path[|PREFIX|..]) then path + "/" else path))
  {
    if PREFIX <= path {
      NamedByTail(path, path[|PREFIX|..]);
      Lossless(path);
      var parsed := ClusterPathFromAndStrip(path);
      Regrouped(PREFIX, parsed.cluster, parsed.rest);
    }
  }

  lemma Regrouped(a: string, b: string, c: string)
    ensures a + b + c == a + (b + c)
  {
  }

  lemma NamedByTail(path: string, tail: string)
    requires PREFIX <= path && tail == path[|PREFIX|..]
    ensures ClusterPathFromAndStrip(path).cluster != "" <==> PREFIX < path && path[|PREFIX|] != '/'
  {
    if tail == "" {
      BareName(path, tail);
    } else if IndexSlash(tail) == -1 {
      assert path == PREFIX + tail;
      BareName(path, tail);
    } else {
      assert tail[0] == path[|PREFIX|];
    }
  }

  /** Two paths under the prefix are taken for each other only by that missing slash. */
  lemma Collisions(a: string, b: string)
    requires PREFIX <= a && PREFIX <= b
    ensures ClusterPathFromAndStrip(a) == ClusterPathFromAndStrip(b)
       <==> || a == b
            || (a == b + "/" && SlashFree(b[|PREFIX|..]))
            || (b == a + "/" && SlashFree(a[|PREFIX|..]))
  {
    Lossless(a);
    Lossless(b);
    if ClusterPathFromAndStrip(a) == ClusterPathFromAndStrip(b) {
      assert a == (a + "/")[..|a|] && b == (b + "/")[..|b|];
    }
    if a == b + "/" && SlashFree(b[|PREFIX|..]) {
      BareNameGetsSlash(b);
    }
    if b == a + "/" && SlashFree(a[|PREFIX|..]) {
      BareNameGetsSlash(a);
    }
  }

  lemma BareNameGetsSlash(path: string)
    requires PREFIX <= path && SlashFree(path[|PREFIX|..])
    ensures ClusterPathFromAndStrip(path + "/") == ClusterPathFromAndStrip(path)
  {
    var tail := path[|PREFIX|..];
    assert (path + "/")[|PREFIX|..] == tail + "/";
    IndexOfFirstSlash(tail, "/");
  }
}
