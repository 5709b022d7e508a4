/** The discovery controller: `sync` on the heap, refining the state machine write by write. */
module Controller {
  import opened Wrappers
  import opened Resources
  import opened KubeVersions
  import opened DiscoveryModel
  import opened DiscoveryRuns
  import opened Handlers

  /** Each handler is installed with the variable that the machine's map gives it. */
  ghost predicate HandlersMatch(
    discovery: map<GroupVersion, APIVersionHandler>, versions: map<GroupVersion, nat>, lists: seq<ResourceList>)
  {
    && discovery.Keys == versions.Keys
    && (forall gv | gv in discovery ::
          versions[gv] < |lists| && discovery[gv] == APIVersionHandler(gv, lists[versions[gv]]))
  }

  lemma InstallKeepsHandlers(
      discovery: map<GroupVersion, APIVersionHandler>, versions: map<GroupVersion, nat>, lists: seq<ResourceList>,
      gv: GroupVersion)
    requires HandlersMatch(discovery, versions, lists) && lists != []
    ensures
      var newest := |lists| - 1;
      HandlersMatch(
        discovery[gv := APIVersionHandler(gv, lists[newest])], versions[gv := newest], lists)
  {
  }

  lemma AggregatedGrows(gv: GroupVersion, resources: seq<ResourceInfo>, i: nat)
    requires i < |resources|
    ensures Aggregated(gv, resources)[..i + 1] == Aggregated(gv, resources)[..i] + [AggregatedEntry(gv, resources[i])]
  {
  }

  class DiscoveryController {
    const versionHandler: VersionDiscoveryHandler
    const groupHandler: GroupDiscoveryHandler
    const resourceManager: ResourceManager?
    /** What the search client's `Resources` returns every time. */
    const table: ResourceTable

    /** The writes made so far, the state they lead to, and the slice variables created so far. */
    ghost var run: seq<Action>
    ghost var state: State
    ghost var lists: seq<ResourceList>

    constructor (
        versionHandler: VersionDiscoveryHandler, groupHandler: GroupDiscoveryHandler,
        resourceManager: ResourceManager?, table: ResourceTable)
      requires versionHandler.discovery == map[] && groupHandler.discovery == map[]
      requires resourceManager != null ==> resourceManager.groupVersions == map[]
      ensures this.versionHandler == versionHandler && this.groupHandler == groupHandler
      ensures this.resourceManager == resourceManager && this.table == table
      ensures Valid() && state == INITIAL
    {
      this.versionHandler, this.groupHandler := versionHandler, groupHandler;
      this.resourceManager, this.table := resourceManager, table;
      run, state, lists := [], INITIAL, [];
    }

    ghost function Gw(): Gateway {
      Gateway(table, resourceManager != null)
    }

    ghost function Stores(): set<object> {
      {versionHandler, groupHandler} + (if resourceManager == null then {} else {resourceManager})
    }

    /** The heap holds exactly the shared part of the state. */
    ghost predicate Matches(s: State)
      reads this`lists, Stores(), lists
    {
      && |lists| == |s.cells|
      && (forall i | 0 <= i < |lists| :: lists[i].resources == s.cells[i])
      && (forall i, j | 0 <= i < j < |lists| :: lists[i] != lists[j])
      && HandlersMatch(versionHandler.discovery, s.versions, lists)
      && groupHandler.discovery == s.groups
      && s.aggregated == (if resourceManager == null then map[] else resourceManager.groupVersions)
    }

    ghost predicate Valid()
      reads this, Stores(), lists
    {
      ValidRun(Gw(), run) && state == Exec(Gw(), run) && Matches(state)
    }

    /** Notes that the write just made is the machine's action `a`. */
    ghost method Record(a: Action)
      requires ValidRun(Gw(), run) && state == Exec(Gw(), run)
      requires Enabled(Gw(), state, a) && Matches(Apply(Gw(), state, a))
      modifies this`run, this`state
      ensures run == old(run) + [a]
      ensures Valid() && state == Apply(Gw(), old(state), a)
    {
      Push(Gw(), run, a);
      run := run + [a];
      state := Apply(Gw(), state, a);
    }

    // ---- the writes of sync, one atomic step each

    /** A fresh slice variable for `gv`. */
    method Begin(gv: GroupVersion) returns (list: ResourceList)
      requires Valid() && CanPick(state, gv)
      modifies this
      ensures fresh(list) && list.resources == []
      ensures lists == old(lists) + [list]
      ensures run == old(run) + [Pick(gv)] && Valid() && state == Picked(old(state), gv)
    {
      list := new ResourceList();
      lists := lists + [list];
      Record(Pick(gv));
    }

    method Append(list: ResourceList, entry: APIResource)
      requires Valid() && CanAppend(Gw(), state)
      requires lists != [] && lists[|lists| - 1] == list
      requires entry == Advertised(table[state.control.gv][state.control.next])
      modifies this`run, this`state, list
      ensures list.resources == old(list.resources) + [entry]
      ensures run == old(run) + [AppendResource] && Valid() && state == Appended(Gw(), old(state))
    {
      list.resources := list.resources + [entry];
      Record(AppendResource);
    }

    method Install(gv: GroupVersion, list: ResourceList)
      requires Valid() && CanInstall(state) && state.control.gv == gv
      requires lists != [] && lists[|lists| - 1] == list
      modifies this`run, this`state, versionHandler
      ensures run == old(run) + [InstallVersion] && Valid() && state == VersionInstalled(old(state))
    {
      InstallHandler(gv, list);
      Record(InstallVersion);
    }

    method InstallHandler(gv: GroupVersion, list: ResourceList)
      requires Matches(state) && CanInstall(state) && state.control.gv == gv
      requires lists != [] && lists[|lists| - 1] == list
      modifies versionHandler
      ensures Matches(VersionInstalled(state))
    {
      InstallKeepsHandlers(versionHandler.discovery, state.versions, lists, gv);
      versionHandler.SetDiscovery(gv, APIVersionHandler(gv, list));
    }

    method SetGroup(document: APIGroup)
      requires Valid() && CanInstallGroup(Gw(), state)
      requires document == GroupDocument(state.control.gv, table[state.control.gv])
      modifies this`run, this`state, groupHandler
      ensures run == old(run) + [InstallGroup] && Valid() && state == GroupInstalled(Gw(), old(state))
    {
      groupHandler.SetDiscovery(document.name, document);
      Record(InstallGroup);
    }

    method Aggregate(gv: GroupVersion, resources: seq<AggregatedResource>)
      requires Valid() && CanAggregate(Gw(), state) && state.control.gv == gv
      requires gv.group != "" ==> resources == Aggregated(gv, table[gv])
      modifies this`run, this`state, Stores()
      ensures run == old(run) + [AddAggregated] && Valid() && state == EntryAggregated(Gw(), old(state))
    {
      if resourceManager != null {
        if gv.group != "" {
          resourceManager.AddGroupVersion(gv.group, gv.version, resources);
        }
      }
      Record(AddAggregated);
    }

    ghost method Crash()
      requires Valid() && CanPanic(Gw(), state)
      modifies this`run, this`state
      ensures run == old(run) + [Panic] && Valid() && state == old(state).(control := Crashed)
    {
      Record(Panic);
    }

    /** The body of the inner loop, for resource `i`. */
    method SyncResource(
        gv: GroupVersion, i: nat, apiResources: ResourceList,
        apiVersions: seq<GroupVersionForDiscovery>, aggregated: seq<AggregatedResource>)
      returns (newApiVersions: seq<GroupVersionForDiscovery>, newAggregated: seq<AggregatedResource>)
      requires Valid() && gv in table && i < |table[gv]|
      requires state.control.Appending? && state.control.gv == gv && state.control.next == i && state.cells != []
      requires lists != [] && lists[|lists| - 1] == apiResources
      requires apiVersions == Repeated(VersionEntry(gv), i)
      requires gv.group != "" ==> aggregated == Aggregated(gv, table[gv])[..i]
      modifies this`run, this`state, apiResources, versionHandler
      ensures Valid() && old(run) <= run && state.synced == old(state).synced && state.cells != []
      ensures state.control == Appending(old(state).control.todo, gv, i + 1)
      ensures newApiVersions == Repeated(VersionEntry(gv), i + 1)
      ensures gv.group != "" ==> newAggregated == Aggregated(gv, table[gv])[..i + 1]
    {
      newApiVersions, newAggregated := apiVersions, aggregated;
      var resource := table[gv][i];
      var groupVersion := gv.group + "/" + gv.version;
      if |gv.group| == 0 {
        groupVersion := gv.version;
      }
      newApiVersions := newApiVersions + [GroupVersionForDiscovery(groupVersion, gv.version)];

      Append(apiResources, APIResource(
        resource.name, resource.singular, resource.scope == NAMESPACE_SCOPED, resource.kind, VERBS));
      Install(gv, apiResources);

      if gv.group != "" {
        var scope := if resource.scope == NAMESPACE_SCOPED then "Namespaced" else "Cluster";
        AggregatedGrows(gv, table[gv], i);
        newAggregated := newAggregated + [AggregatedResource(
          resource.name, resource.singular, scope, gv.group, gv.version, resource.kind, VERBS)];
      }
    }

    /** The body of the outer loop, for one group version. */
    method SyncGroupVersion(gv: GroupVersion) returns (panicked: bool)
      requires Valid() && state.control.Choosing? && gv in state.control.todo && gv in table
      modifies this, Stores()
      ensures Valid() && old(run) <= run && old(lists) <= lists
      ensures panicked <==> table[gv] == []
      ensures panicked ==> state.control.Crashed?
      ensures !panicked ==> state.control == Choosing(old(state).control.todo - {gv})
      ensures state.synced == old(state).synced
    {
      var apiResources := Begin(gv);
      panicked := SyncRow(gv, apiResources);
    }

    /** The rest of the outer loop's body, with its fresh slice variable. */
    method SyncRow(gv: GroupVersion, apiResources: ResourceList) returns (panicked: bool)
      requires Valid() && gv in table && state.cells != []
      requires state.control.Appending? && state.control.gv == gv && state.control.next == 0
      requires lists != [] && lists[|lists| - 1] == apiResources
      modifies this`run, this`state, apiResources, Stores()
      ensures Valid() && old(run) <= run && state.synced == old(state).synced
      ensures panicked <==> table[gv] == []
      ensures state.control == if panicked then Crashed else Choosing(old(state).control.todo)
    {
      var apiVersions, aggregated := SyncResources(gv, apiResources);
      panicked := Publish(gv, apiVersions, aggregated);
    }

    /** The inner loop, over the resources of one group version. */
    method SyncResources(gv: GroupVersion, apiResources: ResourceList)
      returns (apiVersions: seq<GroupVersionForDiscovery>, aggregated: seq<AggregatedResource>)
      requires Valid() && gv in table && state.cells != []
      requires state.control.Appending? && state.control.gv == gv && state.control.next == 0
      requires lists != [] && lists[|lists| - 1] == apiResources
      modifies this`run, this`state, apiResources, versionHandler
      ensures Valid() && old(run) <= run && state.synced == old(state).synced
      ensures state.control == Appending(old(state).control.todo, gv, |table[gv]|)
      ensures apiVersions == Repeated(VersionEntry(gv), |table[gv]|)
      ensures gv.group != "" ==> aggregated == Aggregated(gv, table[gv])[..|table[gv]|]
    {
      ghost var todo, synced := state.control.todo, state.synced;
      apiVersions, aggregated := [], [];
      for i := 0 to |table[gv]|
        invariant Valid() && old(run) <= run
        invariant state.control == Appending(todo, gv, i) && state.synced == synced && state.cells != []
        invariant apiVersions == Repeated(VersionEntry(gv), i)
        invariant gv.group != "" ==> aggregated == Aggregated(gv, table[gv])[..i]
      {
        apiVersions, aggregated := SyncResource(gv, i, apiResources, apiVersions, aggregated);
      }
    }

    /** The rest of the outer loop's body: sort, then write the group document and the aggregated entry. */
    method Publish(gv: GroupVersion, entries: seq<GroupVersionForDiscovery>, aggregated: seq<AggregatedResource>)
      returns (panicked: bool)
      requires Valid() && gv in table
      requires state.control.Appending? && state.control.gv == gv && state.control.next == |table[gv]|
      requires entries == Repeated(VersionEntry(gv), |table[gv]|)
      requires gv.group != "" ==> aggregated == Aggregated(gv, table[gv])[..|table[gv]|]
      modifies this`run, this`state, Stores()
      ensures Valid() && old(run) <= run && state.synced == old(state).synced
      ensures panicked <==> table[gv] == []
      ensures state.control == if panicked then Crashed else Choosing(old(state).control.todo)
    {
      var apiVersions := SortedVersions(entries, VersionEntry(gv));
      if |apiVersions| == 0 {
        Crash();
        return true;
      }
      SetGroup(APIGroup(gv.group, apiVersions, apiVersions[0]));
      assert Aggregated(gv, table[gv])[..|table[gv]|] == Aggregated(gv, table[gv]);
      Aggregate(gv, aggregated);
      return false;
    }

    /** Sorts a slice in place; one whose entries are all the same stays as it is. */
    method SortedVersions(s: seq<GroupVersionForDiscovery>, ghost entry: GroupVersionForDiscovery)
      returns (sorted: seq<GroupVersionForDiscovery>)
      ensures Permutation(sorted, s) && NonIncreasing(sorted)
      ensures s == Repeated(entry, |s|) ==> sorted == s
    {
      var a := new GroupVersionForDiscovery[|s|](i requires 0 <= i < |s| => s[i]);
      assert a[..] == s;
      SortGroupDiscoveryByKubeAwareVersion(a);
      sorted := a[..];
      if s == Repeated(entry, |s|) {
        PermutationOfEqual(sorted, s, entry);
      }
    }

    /** What a reader finds after a complete sync: the table itself. */
    ghost predicate ServesTable()
      reads this, Stores(), versionHandler.Lists()
    {
      && versionHandler.Documents() == (map gv | gv in table :: Listing(table[gv]))
      && groupHandler.discovery.Keys == (set gv | gv in table :: gv.group)
      && (OneVersionPerGroup(table) ==>
            forall gv | gv in table :: groupHandler.discovery[gv.group] == GroupDocument(gv, table[gv]))
      && (resourceManager != null ==>
            resourceManager.groupVersions == (map gv | gv in table && gv.group != "" :: Aggregated(gv, table[gv])))
    }

    lemma BoundaryServesTable()
      requires Valid() && Boundary(Gw(), run)
      ensures ServesTable()
    {
      BoundaryIsDirect(Gw(), run);
      DirectServesTable();
    }

    lemma DirectServesTable()
      requires Matches(state) && IsDirect(Gw(), state)
      requires OneVersionPerGroup(table) ==> GroupsDirect(Gw(), state)
      ensures ServesTable()
    {
      DirectDocuments();
    }

    lemma DirectDocuments()
      requires Matches(state) && IsDirect(Gw(), state)
      ensures versionHandler.Documents() == (map gv | gv in table :: Listing(table[gv]))
    {
      forall gv | gv in table ensures DocumentOf(gv) == Some(Listing(table[gv])) {
        DirectDocument(gv);
      }
      SameDocuments();
    }

    ghost function DocumentOf(gv: GroupVersion): Option<seq<APIResource>>
      reads versionHandler, versionHandler.Lists()
    {
      if gv in versionHandler.discovery then Some(versionHandler.discovery[gv].list.resources) else None
    }

    lemma DirectDocument(gv: GroupVersion)
      requires Matches(state)
      ensures DocumentOf(gv) == Served(state, gv)
    {
    }

    lemma SameDocuments()
      requires versionHandler.discovery.Keys == table.Keys
      requires forall gv | gv in table :: DocumentOf(gv) == Some(Listing(table[gv]))
      ensures versionHandler.Documents() == (map gv | gv in table :: Listing(table[gv]))
    {
      forall gv | gv in table ensures versionHandler.Documents()[gv] == Listing(table[gv]) {
        assert DocumentOf(gv) == Some(Listing(table[gv]));
      }
    }

    /** One sync, walking the table in an arbitrary order. */
    method Sync() returns (panicked: bool)
      requires Valid() && state.control.Idle?
      modifies this, Stores()
      ensures Valid() && old(run) <= run && old(lists) <= lists
      ensures panicked <==> !RowsNonEmpty(table)
      ensures panicked ==> state.control.Crashed?
      ensures !panicked ==> state.control.Idle? && Boundary(Gw(), run) && ServesTable()
    {
      var todo := table.Keys;
      Record(StartSync);
      while todo != {}
        invariant Valid() && old(run) <= run && old(lists) <= lists
        invariant state.control == Choosing(todo) && todo <= table.Keys
        invariant forall gv | gv in table && gv !in todo :: table[gv] != []
        decreases |todo|
      {
        var gv :| gv in todo;
        panicked := SyncGroupVersion(gv);
        if panicked {
          return true;
        }
        todo := todo - {gv};
      }
      Record(EndSync);
      BoundaryServesTable();
      return false;
    }

    /**
     * Any writes of `sync` that happen while a request is under way. The caller may rely on nothing but
     * this contract, which each of the atomic steps above keeps.
     */
    method Interfere()
      requires Valid()
      modifies this, Stores(), lists
      ensures Valid() && old(run) <= run && old(lists) <= lists
    {
    }

    /** `Run`: syncs one after the other until stopped, or until one panics. */
    method Run(rounds: nat) returns (panicked: bool)
      requires Valid() && state.control.Idle?
      modifies this, Stores()
      ensures Valid() && old(run) <= run && old(lists) <= lists
      ensures panicked <==> rounds > 0 && !RowsNonEmpty(table)
      ensures !panicked && rounds > 0 ==> Boundary(Gw(), run) && ServesTable()
    {
      panicked := false;
      for n := 0 to rounds
        invariant Valid() && old(run) <= run && old(lists) <= lists && state.control.Idle?
        invariant n > 0 ==> RowsNonEmpty(table) && Boundary(Gw(), run) && ServesTable()
      {
        panicked := Sync();
        if panicked {
          return;
        }
      }
    }
  }
}
