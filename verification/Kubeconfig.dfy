/** `gw cluster <name>`: a kubeconfig file edited by any sequence of commands. */
module Kubeconfig {
  import opened Wrappers
  import opened ClusterPaths

  /** `settings` stands for every field that is copied but never looked at. */
  datatype Cluster = Cluster(server: string, settings: string)
  datatype Context = Context(cluster: string, settings: string)

  datatype Config = Config(
    clusters: map<string, Cluster>,
    contexts: map<string, Context>,
    currentContext: string)

  datatype CommandError =
    | LoadFailed
    | RootContextNotFound
    | ClusterNotFound(cluster: string)
    | PersistFailed
    | PrintFailed

  /** One invocation; `persists` and `prints` say whether writing the file and the message succeed. */
  datatype Command = Command(name: string, persists: bool, prints: bool)

  const ROOT := "root"
  const EMPTY := Config(map[], map[], "")

  function ClusterServer(root: string, name: string): string {
    root + PREFIX + name
  }

  // ---- one command, as a function of the file's content

  function Switched(config: Config, name: string): Config {
    config.(currentContext := name)
  }

  function Added(config: Config, name: string): Config
    requires RootResolves(config)
  {
    var cluster := RootCluster(config);
    Config(
      config.clusters[name := cluster.(server := ClusterServer(cluster.server, name))],
      config.contexts[name := config.contexts[ROOT].(cluster := name)],
      name)
  }

  predicate RootResolves(config: Config) {
    ROOT in config.contexts && config.contexts[ROOT].cluster in config.clusters
  }

  function RootCluster(config: Config): Cluster
    requires RootResolves(config)
  {
    config.clusters[config.contexts[ROOT].cluster]
  }

  function Execute(config: Config, command: Command): Config {
    if !command.persists then config
    else if command.name in config.contexts then Switched(config, command.name)
    else if RootResolves(config) then Added(config, command.name)
    else config
  }

  function Outcome(config: Config, command: Command): Result<(), CommandError> {
    if command.name !in config.contexts && ROOT !in config.contexts then
      Err(RootContextNotFound)
    else if command.name !in config.contexts && !RootResolves(config) then
      Err(ClusterNotFound(config.contexts[ROOT].cluster))
    else if !command.persists then
      Err(PersistFailed)
    else if !command.prints then
      Err(PrintFailed)
    else
      Ok(())
  }

  /** Each error under its own condition, and success under all the others. */
  lemma OutcomeExactly(config: Config, command: Command)
    ensures
      var r, used := Outcome(config, command), command.name in config.contexts;
      && (r == Err(RootContextNotFound) <==> !used && ROOT !in config.contexts)
      && (forall k :: r == Err(ClusterNotFound(k)) <==>
            && !used && ROOT in config.contexts
            && config.contexts[ROOT].cluster == k && k !in config.clusters)
      && (r == Err(PersistFailed) <==> (used || RootResolves(config)) && !command.persists)
      && (r == Err(PrintFailed) <==> (used || RootResolves(config)) && command.persists && !command.prints)
      && (r == Ok(()) <==> (used || RootResolves(config)) && command.persists && command.prints)
  {
  }

  /** The file is rewritten exactly when nothing but the message can have failed. */
  lemma WrittenExactly(config: Config, command: Command)
    ensures
      var r, after := Outcome(config, command), Execute(config, command);
      if r == Ok(()) || r == Err(PrintFailed)
      then after.currentContext == command.name && command.name in after.contexts
      else after == config
  {
  }

  // ---- the command itself

  /** The kubeconfig on disk. */
  class ConfigFile {
    var content: Config

    constructor (content: Config)
      ensures this.content == content
    {
      this.content := content;
    }

    /** `ModifyConfig`: replaces the content, or fails and leaves it alone. */
    method Modify(newContent: Config, persists: bool) returns (ok: bool)
      modifies this
      ensures ok == persists
      ensures content == if ok then newContent else old(content)
    {
      ok := persists;
      if ok {
        content := newContent;
      }
    }
  }

  class Options {
    var name: string
    var startingConfig: Config

    constructor ()
      ensures name == ""
    {
      name := "";
      startingConfig := EMPTY;
    }

    /** Takes the name from the arguments and reads the file, if it loads. */
    method Complete(args: seq<string>, file: ConfigFile, loads: bool) returns (r: Result<(), CommandError>)
      modifies this
      ensures name == if old(name) == "" && args != [] then args[0] else old(name)
      ensures loads ==> r == Ok(()) && startingConfig == file.content
      ensures !loads ==> r == Err(LoadFailed) && startingConfig == EMPTY
    {
      if name == "" && |args| > 0 {
        name := args[0];
      }
      if !loads {
        startingConfig := EMPTY;
        return Err(LoadFailed);
      }
      startingConfig := file.content;
      return Ok(());
    }

    method Run(file: ConfigFile, persists: bool, prints: bool) returns (r: Result<(), CommandError>)
      modifies file
      ensures r == Outcome(startingConfig, Command(name, persists, prints))
      ensures file.content ==
              if r.Ok? || r.error == PrintFailed then Execute(startingConfig, Command(name, persists, prints))
              else old(file.content)
      ensures startingConfig == old(file.content) ==>
                file.content == Execute(old(file.content), Command(name, persists, prints))
      ensures r.Ok? ==> file.content.currentContext == name && name in file.content.contexts
    {
      var newKubeConfig := startingConfig;
      if name in startingConfig.contexts {
        newKubeConfig := newKubeConfig.(currentContext := name);
        var ok := file.Modify(newKubeConfig, persists);
        if !ok {
          return Err(PersistFailed);
        }
        return if prints then Ok(()) else Err(PrintFailed);
      }
      if ROOT !in startingConfig.contexts {
        return Err(RootContextNotFound);
      }
      var rootContext := startingConfig.contexts[ROOT];
      if rootContext.cluster !in startingConfig.clusters {
        return Err(ClusterNotFound(rootContext.cluster));
      }
      var rootCluster := startingConfig.clusters[rootContext.cluster];
      var newCluster := rootCluster.(server := rootCluster.server + "/clusters/" + name);
      newKubeConfig := newKubeConfig.(clusters := newKubeConfig.clusters[name := newCluster]);
      var newContext := rootContext.(cluster := name);
      newKubeConfig := newKubeConfig.(contexts := newKubeConfig.contexts[name := newContext]);
      newKubeConfig := newKubeConfig.(currentContext := name);
      var ok := file.Modify(newKubeConfig, persists);
      if !ok {
        return Err(PersistFailed);
      }
      return if prints then Ok(()) else Err(PrintFailed);
    }
  }

  /**
   * The command line: one argument, read the file, run; anything else only prints the help text. `loads`
   * says whether reading the file succeeds.
   */
  method ClusterCommand(args: seq<string>, file: ConfigFile, loads: bool, persists: bool, prints: bool)
    returns (r: Option<Result<(), CommandError>>)
    modifies file
    ensures |args| != 1 ==> r == None && file.content == old(file.content)
    ensures |args| == 1 && !loads ==> r == Some(Err(LoadFailed)) && file.content == old(file.content)
    ensures |args| == 1 && loads ==>
              && r == Some(Outcome(old(file.content), Command(args[0], persists, prints)))
              && file.content == Execute(old(file.content), Command(args[0], persists, prints))
  {
    if |args| != 1 {
      return None;
    }
    var o := new Options();
    var completed := o.Complete(args, file, loads);
    if completed.Err? {
      return Some(completed);
    }
    var ran := o.Run(file, persists, prints);
    return Some(ran);
  }

  // ---- sequences of commands

  function RunAll(config: Config, commands: seq<Command>): Config {
    if commands == [] then config
    else Execute(RunAll(config, commands[..|commands| - 1]), commands[|commands| - 1])
  }

  lemma RunOne(config: Config, command: Command)
    ensures RunAll(config, [command]) == Execute(config, command)
  {
  }

  /** The names of the commands that reached the file. */
  function Names(commands: seq<Command>): set<string> {
    set i | 0 <= i < |commands| && commands[i].persists :: commands[i].name
  }

  /** The name of the last command that reached the file. */
  function Last(commands: seq<Command>, initial: string): string {
    if commands == [] then initial
    else if commands[|commands| - 1].persists then commands[|commands| - 1].name
    else Last(commands[..|commands| - 1], initial)
  }

  /** The root cluster is used under a name that no command can overwrite. */
  predicate RootProtected(config: Config) {
    RootResolves(config) && config.contexts[ROOT].cluster in config.contexts
  }

  /** The names that are not contexts of the configuration, as clusters and as contexts. */
  function NewClusters(config: Config, names: set<string>): map<string, Cluster>
    requires RootResolves(config)
  {
    var root := RootCluster(config);
    map n | n in names - config.contexts.Keys :: root.(server := ClusterServer(root.server, n))
  }

  function NewContexts(config: Config, names: set<string>): map<string, Context>
    requires RootResolves(config)
  {
    map n | n in names - config.contexts.Keys :: config.contexts[ROOT].(cluster := n)
  }

  /** The content after any commands that used exactly `names`, computed without running them. */
  function Direct(config: Config, names: set<string>, current: string): Config
    requires RootResolves(config)
  {
    Config(config.clusters + NewClusters(config, names), config.contexts + NewContexts(config, names), current)
  }

  lemma NamesOfLonger(commands: seq<Command>)
    requires commands != []
    ensures
      var last := commands[|commands| - 1];
      Names(commands) == Names(commands[..|commands| - 1]) + (if last.persists then {last.name} else {})
  {
  }

  /** None of these names overwrites the root's cluster. */
  predicate RootUntouched(config: Config, names: set<string>) {
    && RootResolves(config)
    && (config.contexts[ROOT].cluster in config.contexts || config.contexts[ROOT].cluster !in names)
  }

  /** The root's cluster is not overwritten before the last command. */
  predicate DirectRun(config: Config, commands: seq<Command>) {
    RootResolves(config) && (commands == [] || RootUntouched(config, Names(commands[..|commands| - 1])))
  }

  /** Such a command sequence ends in the directly computed configuration. */
  lemma {:induction false} RunIsDirect(config: Config, commands: seq<Command>)
    requires DirectRun(config, commands)
    ensures RunAll(config, commands) == Direct(config, Names(commands), Last(commands, config.currentContext))
  {
    if commands == [] {
      assert Direct(config, {}, config.currentContext) == config;
    } else {
      var init, last := commands[..|commands| - 1], commands[|commands| - 1];
      if init != [] {
        NamesOfLonger(init);
      }
      RunIsDirect(config, init);
      NamesOfLonger(commands);
      DirectStep(config, Names(init), Last(init, config.currentContext), last);
      if last.persists {
        assert Names(commands) == Names(init) + {last.name};
      } else {
        assert Names(commands) == Names(init);
      }
    }
  }

  lemma DirectStep(config: Config, names: set<string>, current: string, command: Command)
    requires RootUntouched(config, names)
    ensures Execute(Direct(config, names, current), command) ==
            if command.persists then Direct(config, names + {command.name}, command.name)
            else Direct(config, names, current)
  {
    var before := Direct(config, names, current);
    if command.name in before.contexts {
      assert (names + {command.name}) - config.contexts.Keys == names - config.contexts.Keys;
    } else {
      DirectAdd(config, names, current, command.name);
    }
  }

  /** Adding a new name to a directly computed configuration. */
  lemma DirectAdd(config: Config, names: set<string>, current: string, n: string)
    requires RootUntouched(config, names) && n !in Direct(config, names, current).contexts
    ensures RootResolves(Direct(config, names, current))
    ensures Added(Direct(config, names, current), n) == Direct(config, names + {n}, n)
  {
    NewNamesAdd(config, names, n);
    DirectKeepsRoot(config, names, current);
    var root := RootCluster(config);
    UnionAdd(config.clusters, NewClusters(config, names), n, root.(server := ClusterServer(root.server, n)));
    UnionAdd(config.contexts, NewContexts(config, names), n, config.contexts[ROOT].(cluster := n));
  }

  lemma UnionAdd<T>(m: map<string, T>, more: map<string, T>, key: string, value: T)
    ensures (m + more)[key := value] == m + more[key := value]
  {
  }

  lemma DirectKeepsRoot(config: Config, names: set<string>, current: string)
    requires RootUntouched(config, names)
    ensures
      var direct := Direct(config, names, current);
      && RootResolves(direct)
      && direct.contexts[ROOT] == config.contexts[ROOT]
      && RootCluster(direct) == RootCluster(config)
  {
    assert config.contexts[ROOT].cluster !in NewClusters(config, names);
  }

  lemma NewNamesAdd(config: Config, names: set<string>, n: string)
    requires RootResolves(config) && n !in config.contexts
    ensures
      var root := RootCluster(config);
      NewClusters(config, names + {n}) ==
      NewClusters(config, names)[n := root.(server := ClusterServer(root.server, n))]
    ensures NewContexts(config, names + {n}) == NewContexts(config, names)[n := config.contexts[ROOT].(cluster := n)]
  {
  }

  /** The root context is never rewritten, and no cluster is removed. */
  lemma {:induction false} RootStaysResolvable(config: Config, commands: seq<Command>)
    requires RootResolves(config)
    ensures RootResolves(RunAll(config, commands))
    ensures RunAll(config, commands).contexts[ROOT] == config.contexts[ROOT]
  {
    if commands != [] {
      RootStaysResolvable(config, commands[..|commands| - 1]);
    }
  }

  /** No command ever reports a missing root or cluster. */
  lemma CommandsSucceed(config: Config, commands: seq<Command>, next: Command)
    requires RootResolves(config)
    ensures Outcome(RunAll(config, commands), next) ==
            if !next.persists then Err(PersistFailed) else if !next.prints then Err(PrintFailed) else Ok(())
  {
    RootStaysResolvable(config, commands);
  }

  // ---- order and repetition

  ghost predicate OrderIndependent(config: Config) {
    forall xs, ys | Names(xs) == Names(ys) ::
      && RunAll(config, xs).clusters == RunAll(config, ys).clusters
      && RunAll(config, xs).contexts == RunAll(config, ys).contexts
  }

  lemma {:induction false} UnresolvedRootIsFrozen(config: Config, commands: seq<Command>)
    requires !RootResolves(config)
    ensures RunAll(config, commands).clusters == config.clusters
    ensures RunAll(config, commands).contexts == config.contexts
  {
    if commands != [] {
      UnresolvedRootIsFrozen(config, commands[..|commands| - 1]);
    }
  }

  /** Order and repetition are irrelevant exactly when no command can overwrite the root cluster. */
  lemma OrderIndependentExactly(config: Config)
    ensures OrderIndependent(config) <==> (RootResolves(config) ==> RootProtected(config))
  {
    if !RootResolves(config) {
      forall xs { UnresolvedRootIsFrozen(config, xs); }
    } else if RootProtected(config) {
      forall xs { RunIsDirect(config, xs); }
    } else {
      var r, server := config.contexts[ROOT].cluster, RootCluster(config).server;
      var other := FreshName(config.contexts.Keys + {r});
      var xs := OverwriteThenAdd(config, other);
      var ys := [xs[1], xs[0]];
      assert ys[..1] == [xs[1]];
      RunOne(config, xs[1]);
      NamesOfLonger(ys);
      NamesOfLonger([xs[1]]);
      assert Names(ys) == {r, other};
      assert RunAll(config, ys) == Added(Added(config, other), r);
      assert RunAll(config, ys).clusters[other].server == ClusterServer(server, other);
    }
  }

  /** A name outside a finite set: one longer than all its members. */
  lemma FreshName(names: set<string>) returns (other: string)
    ensures other !in names
  {
    var n := LengthBound(names);
    other := seq(n + 1, _ => 'a');
  }

  lemma {:induction false} LengthBound(names: set<string>) returns (n: nat)
    ensures forall s | s in names :: |s| <= n
  {
    if names == {} {
      n := 0;
    } else {
      var s :| s in names;
      n := LengthBound(names - {s});
      n := if |s| > n then |s| else n;
    }
  }

  // ---- what the contexts resolve to

  function Resolve(config: Config, context: string): Option<string> {
    if context in config.contexts && config.contexts[context].cluster in config.clusters
    then Some(config.clusters[config.contexts[context].cluster].server)
    else None
  }

  ghost predicate ContextsKept(config: Config) {
    forall commands: seq<Command>, n | n in config.contexts ::
      Resolve(RunAll(config, commands), n) == Resolve(config, n)
  }

  /** A cluster that a context uses is either named like a context or already what the tool would write. */
  predicate ClusterNamesClosed(config: Config)
    requires RootResolves(config)
  {
    forall n | n in config.contexts ::
      var k := config.contexts[n].cluster;
      || k in config.contexts
      || (k in config.clusters && config.clusters[k].server == ClusterServer(RootCluster(config).server, k))
  }

  /** No run ever changes what an existing context resolves to, exactly when the cluster names are closed. */
  lemma ContextsKeptExactly(config: Config)
    ensures ContextsKept(config) <==> (RootResolves(config) ==> ClusterNamesClosed(config))
  {
    if !RootResolves(config) {
      forall commands { UnresolvedRootIsFrozen(config, commands); }
    } else if ClusterNamesClosed(config) {
      forall commands: seq<Command>, n | n in config.contexts
        ensures Resolve(RunAll(config, commands), n) == Resolve(config, n)
      {
        ClosedIsKept(config, commands, n);
      }
    } else {
      var n :| n in config.contexts && !(
        var k := config.contexts[n].cluster;
        || k in config.contexts
        || (k in config.clusters && config.clusters[k].server == ClusterServer(RootCluster(config).server, k)));
      var k := config.contexts[n].cluster;
      var commands := [Command(k, true, true)];
      RunOne(config, commands[0]);
      assert RunAll(config, commands) == Added(config, k);
      assert Resolve(Added(config, k), n) == Some(ClusterServer(RootCluster(config).server, k));
    }
  }

  lemma ClosedIsKept(config: Config, commands: seq<Command>, n: string)
    requires RootResolves(config) && ClusterNamesClosed(config) && n in config.contexts
    ensures Resolve(RunAll(config, commands), n) == Resolve(config, n)
  {
    ClosedProtectsRoot(config);
    RunIsDirect(config, commands);
    assert RunAll(config, commands).contexts[n] == config.contexts[n];
  }

  lemma ClosedProtectsRoot(config: Config)
    requires RootResolves(config) && ClusterNamesClosed(config)
    ensures RootProtected(config)
  {
  }

  /** The contexts a run creates address the original root server, if none but the last command overwrites it. */
  lemma CreatedContextsAddressRoot(config: Config, commands: seq<Command>, n: string)
    requires DirectRun(config, commands)
    requires n !in config.contexts
    ensures n in RunAll(config, commands).contexts <==> n in Names(commands)
    ensures n in Names(commands) ==>
              Resolve(RunAll(config, commands), n) == Some(ClusterServer(RootCluster(config).server, n))
  {
    RunIsDirect(config, commands);
  }

  // ---- runs that overwrite the root's cluster

  lemma {:induction false} RunOfLonger(config: Config, commands: seq<Command>, more: seq<Command>)
    ensures RunAll(config, commands + more) == RunAll(RunAll(config, commands), more)
  {
    if more == [] {
      assert commands + more == commands;
    } else {
      var all := commands + more;
      assert all[..|all| - 1] == commands + more[..|more| - 1];
      RunOfLonger(config, commands, more[..|more| - 1]);
    }
  }

  /** The number of commands up to the first that wrote this name, or of all. */
  function FirstUse(commands: seq<Command>, name: string): (n: nat)
    ensures n <= |commands|
    ensures n < |commands| ==> n > 0 && commands[n - 1].persists && commands[n - 1].name == name
    ensures forall i | 0 <= i < n - 1 :: commands[i].persists ==> commands[i].name != name
  {
    if commands == [] then 0
    else if commands[0].persists && commands[0].name == name then 1
    else 1 + FirstUse(commands[1..], name)
  }

  /** The commands that still find the original root server. */
  function Early(config: Config, commands: seq<Command>): seq<Command>
    requires RootResolves(config)
  {
    if RootProtected(config) then commands else commands[..FirstUse(commands, config.contexts[ROOT].cluster)]
  }

  /** The server that a new context gets, read off the whole sequence. */
  function AddressOf(config: Config, commands: seq<Command>, n: string): string
    requires RootResolves(config)
  {
    var server := RootCluster(config).server;
    if n in Names(Early(config, commands)) then ClusterServer(server, n)
    else ClusterServer(ClusterServer(server, config.contexts[ROOT].cluster), n)
  }

  /** In any run, the server of a new context has one suffix, or two if its first use comes too late. */
  lemma NewContextAddressed(config: Config, commands: seq<Command>, n: string)
    requires RootResolves(config) && n !in config.contexts && n in Names(commands)
    ensures Resolve(RunAll(config, commands), n) == Some(AddressOf(config, commands, n))
  {
    var early := Early(config, commands);
    EarlyIsDirect(config, commands);
    if early == commands {
      CreatedContextsAddressRoot(config, commands, n);
    } else {
      var rest := commands[|early|..];
      assert commands == early + rest;
      Overwritten(config, commands);
      NamesOfBoth(early, rest);
      RunOfLonger(config, early, rest);
      CreatedContextsAddressRoot(config, early, n);
      if n in Names(early) {
        NewStaysNew(config, early, rest, n);
      } else {
        CreatedContextsAddressRoot(RunAll(config, early), rest, n);
      }
    }
  }

  lemma NamesOfBoth(commands: seq<Command>, more: seq<Command>)
    ensures Names(commands + more) == Names(commands) + Names(more)
  {
    var all := commands + more;
    forall n | n in Names(more) ensures n in Names(all) {
      var i :| 0 <= i < |more| && more[i].persists && more[i].name == n;
      assert all[|commands| + i] == more[i];
    }
    forall n | n in Names(commands) ensures n in Names(all) {
      var i :| 0 <= i < |commands| && commands[i].persists && commands[i].name == n;
      assert all[i] == commands[i];
    }
  }

  lemma EarlyIsDirect(config: Config, commands: seq<Command>)
    requires RootResolves(config)
    ensures DirectRun(config, Early(config, commands))
  {
  }

  /** The first command that overwrites the root's cluster makes a context of that name, so it is the last to do so. */
  lemma Overwritten(config: Config, commands: seq<Command>)
    requires RootResolves(config) && Early(config, commands) != commands
    ensures
      var middle := RunAll(config, Early(config, commands));
      && RootProtected(middle)
      && RootCluster(middle).server == ClusterServer(RootCluster(config).server, config.contexts[ROOT].cluster)
  {
    var early, r := Early(config, commands), config.contexts[ROOT].cluster;
    EarlyIsDirect(config, commands);
    RunIsDirect(config, early);
    assert early[|early| - 1] == commands[|early| - 1];
    NamesOfLonger(early);
    assert r in Names(early);
  }

  /** A context that a run has created keeps its server once the root is protected. */
  lemma NewStaysNew(config: Config, early: seq<Command>, rest: seq<Command>, n: string)
    requires DirectRun(config, early) && RootProtected(RunAll(config, early))
    requires n in Names(early) && n !in config.contexts
    ensures Resolve(RunAll(RunAll(config, early), rest), n) == Resolve(RunAll(config, early), n)
  {
    RunIsDirect(config, early);
    OwnClusterKept(RunAll(config, early), rest, n);
  }

  lemma OwnClusterKept(config: Config, commands: seq<Command>, n: string)
    requires RootProtected(config) && n in config.contexts && config.contexts[n].cluster == n
    ensures Resolve(RunAll(config, commands), n) == Resolve(config, n)
  {
    RunIsDirect(config, commands);
  }

  /** Apart from servers, the configuration differs by what `added` names, and all of that is copied from the root. */
  ghost predicate Extends(config: Config, after: Config, added: set<string>)
    requires RootResolves(config)
  {
    && after.contexts.Keys == config.contexts.Keys + added
    && after.clusters.Keys == config.clusters.Keys + added
    && (forall n | n in config.contexts :: after.contexts[n] == config.contexts[n])
    && (forall k | k in config.clusters && k !in added :: after.clusters[k] == config.clusters[k])
    && (forall n | n in added ::
          && after.contexts[n] == Context(n, config.contexts[ROOT].settings)
          && after.clusters[n].settings == RootCluster(config).settings)
  }

  /** No run touches anything but the contexts and clusters of the names that are new in it. */
  lemma {:induction false} NothingElseChanges(config: Config, commands: seq<Command>)
    requires RootResolves(config)
    ensures Extends(config, RunAll(config, commands), Names(commands) - config.contexts.Keys)
  {
    if commands != [] {
      var init := commands[..|commands| - 1];
      NothingElseChanges(config, init);
      NamesOfLonger(commands);
      ExtendsStep(config, RunAll(config, init), Names(init), commands[|commands| - 1]);
    }
  }

  lemma ExtendsStep(config: Config, before: Config, names: set<string>, command: Command)
    requires RootResolves(config) && Extends(config, before, names - config.contexts.Keys)
    ensures
      var more := names + (if command.persists then {command.name} else {});
      Extends(config, Execute(before, command), more - config.contexts.Keys)
  {
  }

  /** Whatever the commands, no new context addresses anything but the original root server with one suffix. */
  ghost predicate NeverNested(config: Config)
    requires RootResolves(config)
  {
    forall commands, n | n in Names(commands) && n !in config.contexts ::
      Resolve(RunAll(config, commands), n) == Some(ClusterServer(RootCluster(config).server, n))
  }

  /** That is so exactly when no command can overwrite the root cluster. */
  lemma NeverNestedExactly(config: Config)
    requires RootResolves(config)
    ensures NeverNested(config) <==> RootProtected(config)
  {
    if RootProtected(config) {
      forall commands, n | n in Names(commands) && n !in config.contexts
        ensures Resolve(RunAll(config, commands), n) == Some(ClusterServer(RootCluster(config).server, n))
      {
        CreatedContextsAddressRoot(config, commands, n);
      }
    } else {
      var other := FreshName(config.contexts.Keys + {config.contexts[ROOT].cluster});
      var commands := OverwriteThenAdd(config, other);
      assert other in Names(commands);
    }
  }

  /** Using the unprotected root cluster's own name nests the servers of all names that follow. */
  lemma OverwriteThenAdd(config: Config, other: string) returns (commands: seq<Command>)
    requires RootResolves(config) && !RootProtected(config)
    requires other !in config.contexts && other != config.contexts[ROOT].cluster
    ensures commands == [Command(config.contexts[ROOT].cluster, true, true), Command(other, true, true)]
    ensures
      var r, server := config.contexts[ROOT].cluster, RootCluster(config).server;
      && Names(commands) == {r, other}
      && Resolve(RunAll(config, commands), other) == Some(ClusterServer(ClusterServer(server, r), other))
      && ClusterServer(ClusterServer(server, r), other) != ClusterServer(server, other)
  {
    var r, server := config.contexts[ROOT].cluster, RootCluster(config).server;
    var first := Command(r, true, true);
    commands := [first, Command(other, true, true)];
    assert commands[..1] == [first];
    RunOne(config, first);
    NamesOfLonger(commands);
    NamesOfLonger([first]);
    assert RunAll(config, commands) == Added(Added(config, r), other);
    assert |ClusterServer(ClusterServer(server, r), other)| != |ClusterServer(server, other)|;
  }

  /** After a run that changed the file, the current context is the last name used, and it exists. */
  lemma {:induction false} CurrentContextExists(config: Config, commands: seq<Command>)
    requires RootResolves(config)
    ensures RunAll(config, commands).currentContext == Last(commands, config.currentContext)
    ensures Names(commands) != {} ==>
              RunAll(config, commands).currentContext in RunAll(config, commands).contexts
  {
    if commands != [] {
      var init := commands[..|commands| - 1];
      CurrentContextExists(config, init);
      RootStaysResolvable(config, init);
      NamesOfLonger(commands);
    }
  }

  lemma {:induction false} LastIsAName(commands: seq<Command>, initial: string)
    ensures Names(commands) != {} ==> Last(commands, initial) in Names(commands)
  {
    if commands != [] {
      NamesOfLonger(commands);
      LastIsAName(commands[..|commands| - 1], initial);
    }
  }
}
