/** What readers can rely on, in every reachable state and at the end of every complete sync. */
module DiscoveryRuns {
  import opened Wrappers
  import opened Paths
  import opened Resources
  import opened Search
  import opened KubeVersions
  import opened DiscoveryModel

  /** Prefixes of runs are runs, and what is installed stays installed. */
  lemma {:induction false} InstalledStaysInstalled(g: Gateway, run: seq<Action>, n: nat)
    requires ValidRun(g, run) && n <= |run|
    ensures ValidRun(g, run[..n]) && Exec(g, run[..n]).versions.Keys <= Exec(g, run).versions.Keys
  {
    if n == |run| {
      assert run[..n] == run;
    } else {
      var init := run[..|run| - 1];
      InstalledStaysInstalled(g, init, n);
      assert init[..n] == run[..n];
      StepKeepsInstalled(g, Exec(g, init), run[|run| - 1]);
    }
  }

  lemma StepKeepsInstalled(g: Gateway, s: State, a: Action)
    requires Enabled(g, s, a)
    ensures s.versions.Keys <= Apply(g, s, a).versions.Keys
  {
  }

  /** Whoever holds a variable made for `gv` finds a prefix in it, and a complete one unless `gv` is being filled. */
  lemma CellServes(g: Gateway, run: seq<Action>, gv: GroupVersion, cell: nat)
    requires ValidRun(g, run) && CellInv(g, Exec(g, run), gv, cell)
    ensures NonEmptyPrefix(Exec(g, run).cells[cell], Listing(g.table[gv]))
    ensures !Working(Exec(g, run).control, gv) ==> Exec(g, run).cells[cell] == Listing(g.table[gv])
  {
    InvReachable(g, run);
    NewestIsPrefix(g, Exec(g, run), gv, cell);
  }

  lemma NewestIsPrefix(g: Gateway, s: State, gv: GroupVersion, cell: nat)
    requires ControlInv(g, s) && CellInv(g, s, gv, cell)
    ensures NonEmptyPrefix(s.cells[cell], Listing(g.table[gv]))
    ensures !Working(s.control, gv) ==> s.cells[cell] == Listing(g.table[gv])
  {
  }

  /** In every reachable state an installed handler serves a non-empty prefix of the table's list. */
  lemma ServedIsPrefix(g: Gateway, run: seq<Action>, gv: GroupVersion)
    requires ValidRun(g, run) && gv in Exec(g, run).versions
    ensures gv in g.table && Served(Exec(g, run), gv).Some?
    ensures NonEmptyPrefix(Served(Exec(g, run), gv).value, Listing(g.table[gv]))
  {
    InvReachable(g, run);
  }

  /**
   * A handler that a request has looked up after any run serves, however many writes and syncs later it is
   * asked, a non-empty prefix of the table's list, at least as long as at the lookup. The prefix is complete
   * unless `sync` is filling that group version again.
   */
  lemma HeldHandlerServes(g: Gateway, run: seq<Action>, n: nat, gv: GroupVersion)
    requires ValidRun(g, run) && n <= |run| && ValidRun(g, run[..n]) && gv in Exec(g, run[..n]).versions
    ensures gv in g.table
    ensures Served(Exec(g, run[..n]), gv).Some? && ServedAcross(Exec(g, run[..n]), Exec(g, run), gv).Some?
    ensures
      var list := ServedAcross(Exec(g, run[..n]), Exec(g, run), gv).value;
      && Served(Exec(g, run[..n]), gv).value <= list
      && NonEmptyPrefix(list, Listing(g.table[gv]))
      && (!Working(Exec(g, run).control, gv) ==> list == Listing(g.table[gv]))
  {
    HeldCellInv(g, run, n, gv);
    CellServes(g, run, gv, Exec(g, run[..n]).versions[gv]);
  }

  /** Only the group version that the running sync is filling can serve less than its complete list. */
  lemma ServedIsCompleteElsewhere(g: Gateway, run: seq<Action>, gv: GroupVersion)
    requires ValidRun(g, run) && gv in Exec(g, run).versions && !Working(Exec(g, run).control, gv)
    ensures gv in g.table && Served(Exec(g, run), gv) == Some(Listing(g.table[gv]))
  {
    assert run[..|run|] == run;
    HeldHandlerServes(g, run, |run|, gv);
  }

  /** Each entry of a list that is served, by a handler looked up at any time, is the table's, field by field. */
  lemma ListedFields(g: Gateway, run: seq<Action>, n: nat, gv: GroupVersion, k: nat)
    requires ValidRun(g, run) && n <= |run| && ValidRun(g, run[..n]) && gv in Exec(g, run[..n]).versions
    requires ServedAcross(Exec(g, run[..n]), Exec(g, run), gv).Some?
    requires k < |ServedAcross(Exec(g, run[..n]), Exec(g, run), gv).value|
    ensures gv in g.table && k < |g.table[gv]|
    ensures
      var entry, resource := ServedAcross(Exec(g, run[..n]), Exec(g, run), gv).value[k], g.table[gv][k];
      && entry.name == resource.name && entry.singularName == resource.singular && entry.kind == resource.kind
      && entry.verbs == ["list"]
      && (entry.namespaced <==> resource.scope == "Namespaced")
  {
    HeldHandlerServes(g, run, n, gv);
    var list := ServedAcross(Exec(g, run[..n]), Exec(g, run), gv).value;
    assert list[k] == Listing(g.table[gv])[k];
  }

  /** The aggregated entries of a group version are complete whenever there are any, and the table's. */
  lemma AggregatedFields(g: Gateway, run: seq<Action>, gv: GroupVersion)
    requires ValidRun(g, run) && gv in Exec(g, run).aggregated
    ensures gv in g.table && gv.group != "" && |Exec(g, run).aggregated[gv]| == |g.table[gv]|
    ensures forall k | 0 <= k < |g.table[gv]| :: AggregatedTells(gv, g.table[gv][k], Exec(g, run).aggregated[gv][k])
  {
    InvReachable(g, run);
  }

  ghost predicate AggregatedTells(gv: GroupVersion, resource: ResourceInfo, entry: AggregatedResource) {
    && entry.resource == resource.name && entry.singularResource == resource.singular
    && entry.responseGroup == gv.group && entry.responseVersion == gv.version && entry.responseKind == resource.kind
    && entry.verbs == ["list"]
    && entry.scope == (if resource.scope == "Namespaced" then "Namespaced" else "Cluster")
  }

  // ---- complete syncs

  /** Between syncs, after at least one has completed. */
  predicate Boundary(g: Gateway, run: seq<Action>) {
    ValidRun(g, run) && Exec(g, run).control.Idle? && Exec(g, run).synced
  }

  /** Everything served is a direct function of the table, but for the choice among a group's versions. */
  ghost predicate IsDirect(g: Gateway, s: State) {
    && s.versions.Keys == g.table.Keys
    && (forall gv | gv in g.table :: Served(s, gv) == Some(Listing(g.table[gv])))
    && s.aggregated == (map gv | gv in g.table && g.hasManager && gv.group != "" :: Aggregated(gv, g.table[gv]))
    && s.groups.Keys == (set gv | gv in g.table :: gv.group)
    && (forall n | n in s.groups :: exists gv :: IsDocumentOf(g, s, n, gv))
  }

  ghost predicate GroupsDirect(g: Gateway, s: State) {
    forall gv | gv in g.table :: gv.group in s.groups && s.groups[gv.group] == GroupDocument(gv, g.table[gv])
  }

  /** What is served then is read off the table, whatever orders the walks took. */
  lemma {:induction false} BoundaryIsDirect(g: Gateway, run: seq<Action>)
    requires Boundary(g, run)
    ensures IsDirect(g, Exec(g, run))
    ensures OneVersionPerGroup(g.table) ==> GroupsDirect(g, Exec(g, run))
  {
    InvReachable(g, run);
    DirectAtBoundary(g, Exec(g, run));
  }

  lemma DirectAtBoundary(g: Gateway, s: State)
    requires Inv(g, s) && s.control.Idle? && s.synced
    ensures IsDirect(g, s)
    ensures OneVersionPerGroup(g.table) ==> GroupsDirect(g, s)
  {
    VersionsAtBoundary(g, s);
    AggregatedAtBoundary(g, s);
    GroupsAtBoundary(g, s);
  }

  lemma VersionsAtBoundary(g: Gateway, s: State)
    requires Inv(g, s) && s.control.Idle? && s.synced
    ensures s.versions.Keys == g.table.Keys
    ensures forall gv | gv in g.table :: Served(s, gv) == Some(Listing(g.table[gv]))
  {
  }

  lemma AggregatedAtBoundary(g: Gateway, s: State)
    requires Inv(g, s) && s.control.Idle? && s.synced
    ensures s.aggregated == map gv | gv in g.table && g.hasManager && gv.group != "" :: Aggregated(gv, g.table[gv])
  {
  }

  lemma GroupsAtBoundary(g: Gateway, s: State)
    requires Inv(g, s) && s.control.Idle? && s.synced
    ensures s.groups.Keys == set gv | gv in g.table :: gv.group
    ensures forall n | n in s.groups :: exists gv :: IsDocumentOf(g, s, n, gv)
    ensures OneVersionPerGroup(g.table) ==>
              forall gv | gv in g.table :: s.groups[gv.group] == GroupDocument(gv, g.table[gv])
  {
  }

  /** Further complete syncs, in other orders, leave what is served unchanged. */
  lemma {:induction false} BoundariesAgree(g: Gateway, a: seq<Action>, b: seq<Action>)
    requires Boundary(g, a) && Boundary(g, b)
    ensures SameServed(Exec(g, a), Exec(g, b))
    ensures OneVersionPerGroup(g.table) ==> Exec(g, a).groups == Exec(g, b).groups
  {
    BoundaryIsDirect(g, a);
    BoundaryIsDirect(g, b);
    DirectStatesAgree(g, Exec(g, a), Exec(g, b));
  }

  /** The same version documents, aggregated entries and names of group documents. */
  ghost predicate SameServed(s: State, t: State) {
    && (forall gv :: Served(s, gv) == Served(t, gv))
    && s.aggregated == t.aggregated
    && s.groups.Keys == t.groups.Keys
  }

  lemma DirectStatesAgree(g: Gateway, s: State, t: State)
    requires IsDirect(g, s) && IsDirect(g, t)
    ensures SameServed(s, t)
    ensures GroupsDirect(g, s) && GroupsDirect(g, t) ==> s.groups == t.groups
  {
    forall gv ensures Served(s, gv) == Served(t, gv) {
      assert gv in s.versions <==> gv in g.table;
    }
    if GroupsDirect(g, s) && GroupsDirect(g, t) {
      DirectGroupsAgree(g, s, t);
    }
  }

  lemma DirectGroupsAgree(g: Gateway, s: State, t: State)
    requires s.groups.Keys == t.groups.Keys && GroupsDirect(g, s) && GroupsDirect(g, t)
    requires forall n | n in s.groups :: exists gv :: IsDocumentOf(g, s, n, gv)
    ensures s.groups == t.groups
  {
  }

  // ---- runs that exist

  lemma {:induction false} Fill(g: Gateway, run: seq<Action>) returns (longer: seq<Action>)
    requires ValidRun(g, run) && Exec(g, run).control.Appending?
    requires Exec(g, run).control.gv in g.table
    ensures ValidRun(g, longer)
    ensures
      var s, t := Exec(g, run), Exec(g, longer);
      && t.control == Appending(s.control.todo, s.control.gv, |g.table[s.control.gv]|)
      && t.groups == s.groups && t.synced == s.synced
    decreases |g.table[Exec(g, run).control.gv]| - Exec(g, run).control.next
  {
    InvReachable(g, run);
    var s := Exec(g, run);
    if s.control.next == |g.table[s.control.gv]| {
      longer := run;
    } else {
      Push(g, run, AppendResource);
      Push(g, run + [AppendResource], InstallVersion);
      longer := Fill(g, run + [AppendResource] + [InstallVersion]);
    }
  }

  /** One round of the outer loop. */
  lemma Round(g: Gateway, run: seq<Action>, gv: GroupVersion) returns (longer: seq<Action>)
    requires ValidRun(g, run) && Exec(g, run).control.Choosing? && gv in Exec(g, run).control.todo
    requires gv in g.table && g.table[gv] != []
    ensures ValidRun(g, longer)
    ensures Exec(g, longer).control == Choosing(Exec(g, run).control.todo - {gv})
    ensures Exec(g, longer).groups == Exec(g, run).groups[gv.group := GroupDocument(gv, g.table[gv])]
    ensures Exec(g, longer).synced == Exec(g, run).synced
  {
    Push(g, run, Pick(gv));
    longer := Fill(g, run + [Pick(gv)]);
    Push(g, longer, InstallGroup);
    longer := longer + [InstallGroup];
    Push(g, longer, AddAggregated);
    longer := longer + [AddAggregated];
  }

  /** All rounds but that of `last`. */
  lemma {:induction false} RoundsBefore(g: Gateway, run: seq<Action>, todo: set<GroupVersion>, last: GroupVersion)
    returns (longer: seq<Action>)
    requires RowsNonEmpty(g.table) && todo <= g.table.Keys && last in todo
    requires ValidRun(g, run) && Exec(g, run).control == Choosing(todo)
    ensures ValidRun(g, longer) && Exec(g, longer).control == Choosing({last})
    ensures Exec(g, longer).synced == Exec(g, run).synced
    decreases |todo|
  {
    if todo == {last} {
      longer := run;
    } else {
      assert todo - {last} != {} by {
        assert todo == (todo - {last}) + {last};
      }
      var gv :| gv in todo - {last};
      longer := Round(g, run, gv);
      longer := RoundsBefore(g, longer, todo - {gv}, last);
    }
  }

  /** A complete sync whose walk ends on `last`, after which the group of `last` has its document. */
  lemma SyncEndingOn(g: Gateway, last: GroupVersion) returns (run: seq<Action>)
    requires RowsNonEmpty(g.table) && last in g.table
    ensures Boundary(g, run)
    ensures last.group in Exec(g, run).groups && Exec(g, run).groups[last.group] == GroupDocument(last, g.table[last])
  {
    Push(g, [], StartSync);
    run := RoundsBefore(g, [] + [StartSync], g.table.Keys, last);
    run := Round(g, run, last);
    Push(g, run, EndSync);
    run := run + [EndSync];
  }

  /** A sync can complete exactly when no row of the table is empty; otherwise it panics. */
  lemma BoundaryReachableExactly(g: Gateway)
    ensures (exists run :: Boundary(g, run)) <==> RowsNonEmpty(g.table)
  {
    forall run | Boundary(g, run) ensures RowsNonEmpty(g.table) {
      InvReachable(g, run);
    }
    if RowsNonEmpty(g.table) {
      if g.table == map[] {
        Push(g, [], StartSync);
        assert g.table.Keys == {};
        Push(g, [] + [StartSync], EndSync);
        assert Boundary(g, [] + [StartSync] + [EndSync]);
      } else {
        var last :| last in g.table;
        var run := SyncEndingOn(g, last);
      }
    }
  }

  lemma CrashReachableExactly(g: Gateway)
    ensures (exists run :: ValidRun(g, run) && Exec(g, run).control == Crashed) <==> !RowsNonEmpty(g.table)
  {
    if RowsNonEmpty(g.table) {
      forall run | ValidRun(g, run) ensures Exec(g, run).control != Crashed {
        NoCrash(g, run);
      }
    } else {
      var gv :| gv in g.table && g.table[gv] == [];
      Push(g, [], StartSync);
      Push(g, [] + [StartSync], Pick(gv));
      Push(g, [] + [StartSync] + [Pick(gv)], Panic);
      assert ValidRun(g, [] + [StartSync] + [Pick(gv)] + [Panic]);
    }
  }

  lemma {:induction false} NoCrash(g: Gateway, run: seq<Action>)
    requires RowsNonEmpty(g.table) && ValidRun(g, run)
    ensures Exec(g, run).control != Crashed
  {
  }

  // ---- exactly when the order of the walk can be seen

  ghost predicate GroupsOrderIndependent(g: Gateway) {
    forall a, b | Boundary(g, a) && Boundary(g, b) :: Exec(g, a).groups == Exec(g, b).groups
  }

  /** The group documents do not depend on the walk exactly when each group has one version. */
  lemma GroupsOrderIndependentExactly(g: Gateway)
    requires RowsNonEmpty(g.table)
    ensures GroupsOrderIndependent(g) <==> OneVersionPerGroup(g.table)
  {
    if OneVersionPerGroup(g.table) {
      forall a, b | Boundary(g, a) && Boundary(g, b) ensures Exec(g, a).groups == Exec(g, b).groups {
        BoundariesAgree(g, a, b);
      }
    } else {
      var x, y :| x in g.table && y in g.table && x.group == y.group && x != y;
      var a := SyncEndingOn(g, x);
      var b := SyncEndingOn(g, y);
      assert GroupDocument(x, g.table[x]).preferredVersion.version
          != GroupDocument(y, g.table[y]).preferredVersion.version;
    }
  }

  // ---- exactly when a list, once complete, stays complete

  ghost predicate StaysComplete(g: Gateway, gv: GroupVersion)
    requires gv in g.table
  {
    forall run | ValidRun(g, run) && Exec(g, run).synced :: Served(Exec(g, run), gv) == Some(Listing(g.table[gv]))
  }

  /**
   * Each new sync first serves a shortened list of every group version with several resources: after
   * a complete sync, a list is complete in all later states exactly when it has a single entry.
   */
  lemma StaysCompleteExactly(g: Gateway, gv: GroupVersion)
    requires RowsNonEmpty(g.table) && gv in g.table
    ensures StaysComplete(g, gv) <==> |g.table[gv]| == 1
  {
    var whole := Listing(g.table[gv]);
    if |g.table[gv]| == 1 {
      forall run | ValidRun(g, run) && Exec(g, run).synced ensures Served(Exec(g, run), gv) == Some(whole) {
        InvReachable(g, run);
        ServedIsPrefix(g, run, gv);
        assert whole[..1] == whole;
      }
    } else {
      var run := SyncEndingOn(g, gv);
      run := FirstInstallOfNextSync(g, run, gv);
      assert |Served(Exec(g, run), gv).value| < |whole|;
    }
  }

  /** The next sync starts on `gv` and installs it with one resource. */
  lemma FirstInstallOfNextSync(g: Gateway, run: seq<Action>, gv: GroupVersion) returns (longer: seq<Action>)
    requires Boundary(g, run) && gv in g.table && g.table[gv] != []
    ensures ValidRun(g, longer) && Exec(g, longer).synced
    ensures Served(Exec(g, longer), gv) == Some([Advertised(g.table[gv][0])])
  {
    Push(g, run, StartSync);
    longer := run + [StartSync];
    Push(g, longer, Pick(gv));
    longer := longer + [Pick(gv)];
    assert [] + [Advertised(g.table[gv][0])] == [Advertised(g.table[gv][0])];
    Push(g, longer, AppendResource);
    longer := longer + [AppendResource];
    Push(g, longer, InstallVersion);
    longer := longer + [InstallVersion];
  }

  // ---- group documents

  /** A group document names its own group version only, and its strings parse back to it. */
  lemma GroupDocumentNamesItself(g: Gateway, run: seq<Action>, n: string)
    requires ValidRun(g, run) && n in Exec(g, run).groups
    requires forall gv | gv in g.table :: SlashFree(gv.group) && SlashFree(gv.version)
    ensures
      var document := Exec(g, run).groups[n];
      && document.name == n
      && document.preferredVersion in document.versions
      && NonIncreasing(document.versions)
      && exists gv :: gv in g.table && gv.group == n && |document.versions| == |g.table[gv]|
           && forall e | e in document.versions ::
                 ParseGroupVersion(e.groupVersion) == Some(gv) && e.version == gv.version
  {
    InvReachable(g, run);
    var s := Exec(g, run);
    var gv :| IsDocumentOf(g, s, n, gv);
    GroupVersionParsesBackExactly(gv);
    CompareAntisymmetric(gv.version, gv.version);
    assert s.groups[n].versions[0] == VersionEntry(gv);
  }

  // ---- discovery and printing agree

  ghost predicate Lists(list: Option<seq<APIResource>>, name: string) {
    list.Some? && exists k :: 0 <= k < |list.value| && list.value[k].name == name
  }

  /** A name that discovery lists, by a handler looked up earlier and in the middle of a sync, has its own printer. */
  lemma ListedHasPrinter(g: Gateway, run: seq<Action>, n: nat, gv: GroupVersion, name: string)
    requires ValidRun(g, run) && n <= |run| && ValidRun(g, run[..n])
    requires Lists(ServedAcross(Exec(g, run[..n]), Exec(g, run), gv), name)
    ensures PrinterOf(g.table, GroupVersionResource(gv.group, gv.version, name)).OwnPrinter?
  {
    HeldHandlerServes(g, run, n, gv);
    var list := ServedAcross(Exec(g, run[..n]), Exec(g, run), gv).value;
    var k :| 0 <= k < |list| && list[k].name == name;
    assert list[k] == Listing(g.table[gv])[k] == Advertised(g.table[gv][k]);
  }

  /** Between syncs exactly the listed names have one, and with unique names it is their own. */
  lemma ListedExactlyWhenPrinted(g: Gateway, run: seq<Action>, gv: GroupVersion, name: string)
    requires Boundary(g, run)
    ensures Lists(Served(Exec(g, run), gv), name) <==>
            PrinterOf(g.table, GroupVersionResource(gv.group, gv.version, name)).OwnPrinter?
    ensures gv in g.table && NamesUnique(g.table[gv]) ==>
              forall k | 0 <= k < |g.table[gv]| && g.table[gv][k].name == name ::
                PrinterOf(g.table, GroupVersionResource(gv.group, gv.version, name))
                 == OwnPrinter(g.table[gv][k].converter)
  {
    BoundaryIsDirect(g, run);
    if Lists(Served(Exec(g, run), gv), name) {
      assert run[..|run|] == run;
      ListedHasPrinter(g, run, |run|, gv, name);
    }
    if gv in g.table {
      var k := FirstNamed(g.table[gv], name);
      if k != -1 {
        assert Served(Exec(g, run), gv).value[k].name == name;
      }
      if NamesUnique(g.table[gv]) {
        EachFindsItselfExactly(g.table[gv]);
      }
    }
  }
}
