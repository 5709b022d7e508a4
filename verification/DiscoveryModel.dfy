/**
 * Discovery as a state machine: the atomic writes of `sync`, over any number of syncs that walk the
 * resource table in any order. A reader changes nothing, but it reads twice: it looks a handler up under
 * the lock, and later reads the variable that the handler captured. Any writes may come between the two.
 */
module DiscoveryModel {
  import opened Wrappers
  import opened Resources
  import opened KubeVersions

  // ---- what is advertised

  datatype APIResource = APIResource(
    name: string, singularName: string, namespaced: bool, kind: string, verbs: seq<string>)

  datatype APIGroup = APIGroup(
    name: string, versions: seq<GroupVersionForDiscovery>, preferredVersion: GroupVersionForDiscovery)

  datatype AggregatedResource = AggregatedResource(
    resource: string, singularResource: string, scope: string, responseGroup: string, responseVersion: string,
    responseKind: string, verbs: seq<string>)

  const VERBS := ["list"]

  function Advertised(r: ResourceInfo): APIResource {
    APIResource(r.name, r.singular, r.scope == NAMESPACE_SCOPED, r.kind, VERBS)
  }

  function AggregatedEntry(gv: GroupVersion, r: ResourceInfo): AggregatedResource {
    AggregatedResource(r.name, r.singular, if r.scope == NAMESPACE_SCOPED then "Namespaced" else "Cluster",
                       gv.group, gv.version, r.kind, VERBS)
  }

  /** The complete list of a group version, in the order of the table. */
  function Listing(resources: seq<ResourceInfo>): (list: seq<APIResource>)
    ensures |list| == |resources|
    ensures forall i | 0 <= i < |list| :: list[i] == Advertised(resources[i])
  {
    seq(|resources|, i requires 0 <= i < |resources| => Advertised(resources[i]))
  }

  function Aggregated(gv: GroupVersion, resources: seq<ResourceInfo>): (list: seq<AggregatedResource>)
    ensures |list| == |resources|
    ensures forall i | 0 <= i < |list| :: list[i] == AggregatedEntry(gv, resources[i])
  {
    seq(|resources|, i requires 0 <= i < |resources| => AggregatedEntry(gv, resources[i]))
  }

  function VersionEntry(gv: GroupVersion): GroupVersionForDiscovery {
    GroupVersionForDiscovery(GroupVersionString(gv), gv.version)
  }

  function Repeated<T>(x: T, n: nat): (s: seq<T>)
    ensures |s| == n
    ensures forall i | 0 <= i < n :: s[i] == x
  {
    seq(n, _ => x)
  }

  /** The document of a group: its one version, repeated once for each resource. */
  function GroupDocument(gv: GroupVersion, resources: seq<ResourceInfo>): APIGroup {
    APIGroup(gv.group, Repeated(VersionEntry(gv), |resources|), VersionEntry(gv))
  }

  // ---- the machine

  datatype Gateway = Gateway(table: ResourceTable, hasManager: bool)

  /** Where `sync` is. `todo` holds the group versions its walk over the table has not met yet. */
  datatype Control =
    | Idle
    | Choosing(todo: set<GroupVersion>)
    | Appending(todo: set<GroupVersion>, gv: GroupVersion, next: nat)
    | Installing(todo: set<GroupVersion>, gv: GroupVersion, next: nat)
    | Aggregating(todo: set<GroupVersion>, gv: GroupVersion)
    | Crashed

  /**
   * `cells` are the slice variables captured by the listers, in the order of their creation; a version
   * handler is the index of the variable it reads. Only the newest variable ever grows.
   */
  datatype State = State(
    cells: seq<seq<APIResource>>,
    versions: map<GroupVersion, nat>,
    groups: map<string, APIGroup>,
    aggregated: map<GroupVersion, seq<AggregatedResource>>,
    control: Control,
    synced: bool)

  datatype Action =
    | StartSync
    | Pick(gv: GroupVersion)
    | AppendResource
    | InstallVersion
    | InstallGroup
    | Panic
    | AddAggregated
    | EndSync

  const INITIAL := State([], map[], map[], map[], Idle, false)

  // Each action has a guard and an effect.

  predicate CanPick(s: State, gv: GroupVersion) {
    s.control.Choosing? && gv in s.control.todo
  }

  function Picked(s: State, gv: GroupVersion): State
    requires CanPick(s, gv)
  {
    s.(cells := s.cells + [[]], control := Appending(s.control.todo - {gv}, gv, 0))
  }

  predicate CanAppend(g: Gateway, s: State) {
    s.control.Appending? && s.control.gv in g.table && s.control.next < |g.table[s.control.gv]| && s.cells != []
  }

  function Appended(g: Gateway, s: State): State
    requires CanAppend(g, s)
  {
    var last, gv, i := |s.cells| - 1, s.control.gv, s.control.next;
    s.(cells := s.cells[last := s.cells[last] + [Advertised(g.table[gv][i])]],
       control := Installing(s.control.todo, gv, i + 1))
  }

  predicate CanInstall(s: State) {
    s.control.Installing? && s.cells != []
  }

  function VersionInstalled(s: State): State
    requires CanInstall(s)
  {
    s.(versions := s.versions[s.control.gv := |s.cells| - 1],
       control := Appending(s.control.todo, s.control.gv, s.control.next))
  }

  predicate CanInstallGroup(g: Gateway, s: State) {
    s.control.Appending? && s.control.gv in g.table && s.control.next == |g.table[s.control.gv]| > 0
  }

  function GroupInstalled(g: Gateway, s: State): State
    requires CanInstallGroup(g, s)
  {
    var gv := s.control.gv;
    s.(groups := s.groups[gv.group := GroupDocument(gv, g.table[gv])], control := Aggregating(s.control.todo, gv))
  }

  predicate CanPanic(g: Gateway, s: State) {
    s.control.Appending? && s.control.gv in g.table && g.table[s.control.gv] == []
  }

  predicate CanAggregate(g: Gateway, s: State) {
    s.control.Aggregating? && s.control.gv in g.table
  }

  function EntryAggregated(g: Gateway, s: State): State
    requires CanAggregate(g, s)
  {
    var gv := s.control.gv;
    var added := s.aggregated[gv := Aggregated(gv, g.table[gv])];
    s.(aggregated := if g.hasManager && gv.group != "" then added else s.aggregated,
       control := Choosing(s.control.todo))
  }

  predicate Enabled(g: Gateway, s: State, a: Action) {
    match a
    case StartSync => s.control.Idle?
    case Pick(gv) => CanPick(s, gv)
    case AppendResource => CanAppend(g, s)
    case InstallVersion => CanInstall(s)
    case InstallGroup => CanInstallGroup(g, s)
    case Panic => CanPanic(g, s)
    case AddAggregated => CanAggregate(g, s)
    case EndSync => s.control == Choosing({})
  }

  function Apply(g: Gateway, s: State, a: Action): State
    requires Enabled(g, s, a)
  {
    match a
    case StartSync => s.(control := Choosing(g.table.Keys))
    case Pick(gv) => Picked(s, gv)
    case AppendResource => Appended(g, s)
    case InstallVersion => VersionInstalled(s)
    case InstallGroup => GroupInstalled(g, s)
    case Panic => s.(control := Crashed)
    case AddAggregated => EntryAggregated(g, s)
    case EndSync => s.(control := Idle, synced := true)
  }

  /** The state after a run from the start, if every action was enabled. */
  function Outcome(g: Gateway, run: seq<Action>): Option<State> {
    if run == [] then Some(INITIAL)
    else
      var before, a := Outcome(g, run[..|run| - 1]), run[|run| - 1];
      if before.Some? && Enabled(g, before.value, a) then Some(Apply(g, before.value, a)) else None
  }

  predicate ValidRun(g: Gateway, run: seq<Action>) {
    Outcome(g, run).Some?
  }

  function Exec(g: Gateway, run: seq<Action>): State
    requires ValidRun(g, run)
  {
    Outcome(g, run).value
  }

  lemma Push(g: Gateway, run: seq<Action>, a: Action)
    requires ValidRun(g, run) && Enabled(g, Exec(g, run), a)
    ensures ValidRun(g, run + [a]) && Exec(g, run + [a]) == Apply(g, Exec(g, run), a)
  {
  }

  // ---- what a reader is served

  /**
   * The document of a version handler that was looked up in `lookup` and asked for its list in `read`: by
   * then the variable it captured may have grown, and another handler may have taken its place.
   */
  function ServedAcross(lookup: State, read: State, gv: GroupVersion): Option<seq<APIResource>> {
    if gv in lookup.versions && lookup.versions[gv] < |read.cells| then Some(read.cells[lookup.versions[gv]]) else None
  }

  /** The document when no write comes between the two. */
  function Served(s: State, gv: GroupVersion): Option<seq<APIResource>> {
    ServedAcross(s, s, gv)
  }

  ghost predicate NonEmptyPrefix(part: seq<APIResource>, whole: seq<APIResource>) {
    part != [] && part <= whole
  }

  // ---- the invariant

  /** The group version that `sync` is working on, with the length its variable has reached. */
  ghost predicate Working(c: Control, gv: GroupVersion) {
    (c.Appending? || c.Installing?) && c.gv == gv
  }

  ghost function Todo(g: Gateway, c: Control): set<GroupVersion> {
    match c
    case Choosing(todo) => todo
    case Appending(todo, gv, _) => todo + {gv}
    case Installing(todo, gv, _) => todo + {gv}
    case Aggregating(todo, _) => todo
    case _ => g.table.Keys
  }

  ghost predicate ControlInv(g: Gateway, s: State) {
    && Todo(g, s.control) <= g.table.Keys
    && (s.control.Appending? || s.control.Installing? ==>
          && s.control.gv !in s.control.todo
          && s.control.next <= |g.table[s.control.gv]|
          && s.cells != []
          && s.cells[|s.cells| - 1] == Listing(g.table[s.control.gv])[..s.control.next])
    && (s.control.Installing? ==> s.control.next > 0)
    && (s.control.Appending? && s.control.next > 0 ==>
          s.control.gv in s.versions && s.versions[s.control.gv] == |s.cells| - 1)
    && (s.control.Aggregating? ==>
          && s.control.gv in g.table && s.control.gv !in s.control.todo
          && s.control.gv.group in s.groups)
  }

  /** A variable made for `gv` is complete, unless `sync` is filling that very variable. */
  ghost predicate CellInv(g: Gateway, s: State, gv: GroupVersion, cell: nat) {
    var newest := |s.cells| - 1;
    && gv in g.table && g.table[gv] != []
    && cell <= newest
    && (s.cells[cell] == Listing(g.table[gv]) || (Working(s.control, gv) && cell == newest))
    && (s.control.Appending? && s.control.next == 0 ==> cell < newest)
    && (s.control.Appending? || s.control.Installing? ==> gv == s.control.gv || cell < newest)
  }

  ghost predicate VersionsInv(g: Gateway, s: State) {
    forall gv | gv in s.versions :: CellInv(g, s, gv, s.versions[gv])
  }

  /** Every group document is that of an installed version of the group. */
  ghost predicate GroupsInv(g: Gateway, s: State) {
    forall n | n in s.groups :: exists gv :: IsDocumentOf(g, s, n, gv)
  }

  ghost predicate AggregatedInv(g: Gateway, s: State) {
    forall gv | gv in s.aggregated ::
      g.hasManager && gv.group != "" && gv in g.table && s.aggregated[gv] == Aggregated(gv, g.table[gv])
  }

  /** Installed everywhere, but for the aggregated entry that is just about to be added. */
  ghost predicate Installed(g: Gateway, s: State, gv: GroupVersion) {
    && gv in s.versions
    && gv.group in s.groups
    && (g.hasManager && gv.group != "" && !(s.control.Aggregating? && s.control.gv == gv && !s.synced) ==>
          gv in s.aggregated)
  }

  /** What this sync has already met, or any earlier sync has met, is installed. */
  ghost predicate DoneInv(g: Gateway, s: State) {
    forall gv | gv in g.table && (s.synced || gv !in Todo(g, s.control)) :: Installed(g, s, gv)
  }

  ghost predicate Inv(g: Gateway, s: State) {
    ControlInv(g, s) && VersionsInv(g, s) && GroupsInv(g, s) && AggregatedInv(g, s) && DoneInv(g, s)
  }

  /**
   * Whoever holds a variable sees it grow only, and it stays a variable of its group version, whether or
   * not a handler that captured it is still installed.
   */
  lemma CellStep(g: Gateway, s: State, a: Action, gv: GroupVersion, cell: nat)
    requires ControlInv(g, s) && CellInv(g, s, gv, cell) && Enabled(g, s, a)
    ensures CellInv(g, Apply(g, s, a), gv, cell)
    ensures s.cells[cell] <= Apply(g, s, a).cells[cell]
  {
    if a.InstallGroup? {
      var list := Listing(g.table[s.control.gv]);
      assert list[..|list|] == list;
    }
  }

  lemma VersionsStep(g: Gateway, s: State, a: Action)
    requires ControlInv(g, s) && VersionsInv(g, s) && Enabled(g, s, a)
    ensures VersionsInv(g, Apply(g, s, a))
  {
    var t := Apply(g, s, a);
    forall gv | gv in t.versions ensures CellInv(g, t, gv, t.versions[gv]) {
      if gv in s.versions && t.versions[gv] == s.versions[gv] {
        CellStep(g, s, a, gv, s.versions[gv]);
      }
    }
  }

  lemma InvStep(g: Gateway, s: State, a: Action)
    requires Inv(g, s) && Enabled(g, s, a)
    ensures Inv(g, Apply(g, s, a))
  {
    VersionsStep(g, s, a);
    match a {
      case AppendResource => InvAppend(g, s);
      case InstallVersion => InvInstallVersion(g, s);
      case InstallGroup => InvInstallGroup(g, s);
      case AddAggregated => InvAggregate(g, s);
      case Pick(gv) => InvPick(g, s, gv);
      case StartSync => InvControl(g, s, Choosing(g.table.Keys), s.synced);
      case EndSync => InvControl(g, s, Idle, true);
      case Panic => InvPanic(g, s);
    }
  }

  lemma InvAppend(g: Gateway, s: State)
    requires Inv(g, s) && CanAppend(g, s)
    requires VersionsInv(g, Appended(g, s))
    ensures Inv(g, Appended(g, s))
  {
    var t := Appended(g, s);
    AppendControl(g, s);
    GroupsSurvive(g, s, t);
    DoneSurvives(g, s, t);
  }

  lemma AppendControl(g: Gateway, s: State)
    requires ControlInv(g, s) && CanAppend(g, s)
    ensures ControlInv(g, Appended(g, s))
  {
  }

  lemma InvInstallVersion(g: Gateway, s: State)
    requires Inv(g, s) && CanInstall(s)
    requires VersionsInv(g, VersionInstalled(s))
    ensures Inv(g, VersionInstalled(s))
  {
    var t := VersionInstalled(s);
    GroupsSurvive(g, s, t);
    DoneSurvives(g, s, t);
  }

  lemma InvInstallGroup(g: Gateway, s: State)
    requires Inv(g, s) && CanInstallGroup(g, s)
    requires VersionsInv(g, GroupInstalled(g, s))
    ensures Inv(g, GroupInstalled(g, s))
  {
    var t := GroupInstalled(g, s);
    InstallGroupControl(g, s);
    GroupsAfterInstall(g, s, t);
    DoneAfterInstall(g, s, t);
  }

  lemma InstallGroupControl(g: Gateway, s: State)
    requires ControlInv(g, s) && CanInstallGroup(g, s)
    ensures ControlInv(g, GroupInstalled(g, s))
  {
  }

  lemma DoneAfterInstall(g: Gateway, s: State, t: State)
    requires ControlInv(g, s) && DoneInv(g, s) && CanInstallGroup(g, s) && t == GroupInstalled(g, s)
    ensures DoneInv(g, t)
  {
  }

  lemma InvAggregate(g: Gateway, s: State)
    requires Inv(g, s) && CanAggregate(g, s)
    requires VersionsInv(g, EntryAggregated(g, s))
    ensures Inv(g, EntryAggregated(g, s))
  {
    var t := EntryAggregated(g, s);
    AggregateControl(g, s);
    GroupsSurvive(g, s, t);
    AggregatedAfterAdd(g, s, t);
    DoneAfterAggregate(g, s, t);
  }

  lemma AggregateControl(g: Gateway, s: State)
    requires ControlInv(g, s) && CanAggregate(g, s)
    ensures ControlInv(g, EntryAggregated(g, s))
  {
  }

  lemma AggregatedAfterAdd(g: Gateway, s: State, t: State)
    requires AggregatedInv(g, s) && CanAggregate(g, s) && t == EntryAggregated(g, s)
    ensures AggregatedInv(g, t)
  {
  }

  lemma DoneAfterAggregate(g: Gateway, s: State, t: State)
    requires DoneInv(g, s) && CanAggregate(g, s) && t == EntryAggregated(g, s)
    ensures DoneInv(g, t)
  {
  }

  lemma InvPick(g: Gateway, s: State, gv: GroupVersion)
    requires Inv(g, s) && CanPick(s, gv)
    requires VersionsInv(g, Picked(s, gv))
    ensures Inv(g, Picked(s, gv))
  {
    var t := Picked(s, gv);
    PickControl(g, s, gv);
    GroupsSurvive(g, s, t);
    DoneSurvives(g, s, t);
  }

  lemma PickControl(g: Gateway, s: State, gv: GroupVersion)
    requires ControlInv(g, s) && CanPick(s, gv)
    ensures ControlInv(g, Picked(s, gv))
    ensures Todo(g, Picked(s, gv).control) == Todo(g, s.control)
  {
  }

  /** Starting and ending a sync touch the control only. */
  lemma InvControl(g: Gateway, s: State, c: Control, synced: bool)
    requires Inv(g, s)
    requires || (s.control.Idle? && c == Choosing(g.table.Keys) && synced == s.synced)
             || (s.control == Choosing({}) && c.Idle? && synced)
    requires VersionsInv(g, s.(control := c, synced := synced))
    ensures Inv(g, s.(control := c, synced := synced))
  {
    var t := s.(control := c, synced := synced);
    GroupsSurvive(g, s, t);
    forall gv | gv in g.table && (t.synced || gv !in Todo(g, t.control)) ensures Installed(g, t, gv) {
      assert Installed(g, s, gv);
    }
  }

  lemma InvPanic(g: Gateway, s: State)
    requires Inv(g, s) && CanPanic(g, s)
    requires VersionsInv(g, s.(control := Crashed))
    ensures Inv(g, s.(control := Crashed))
  {
    var t := s.(control := Crashed);
    GroupsSurvive(g, s, t);
    DoneSurvives(g, s, t);
  }

  /** What is done stays done while nothing is taken away and no row is finished. */
  lemma DoneSurvives(g: Gateway, s: State, t: State)
    requires DoneInv(g, s) && !s.control.Aggregating?
    requires s.versions.Keys <= t.versions.Keys && s.groups == t.groups && s.aggregated == t.aggregated
    requires s.synced == t.synced && Todo(g, s.control) <= Todo(g, t.control)
    ensures DoneInv(g, t)
  {
  }

  ghost predicate IsDocumentOf(g: Gateway, s: State, n: string, gv: GroupVersion) {
    gv in s.versions && gv in g.table && gv.group == n && n in s.groups && s.groups[n] == GroupDocument(gv, g.table[gv])
  }

  lemma GroupsSurvive(g: Gateway, s: State, t: State)
    requires GroupsInv(g, s) && t.groups == s.groups && s.versions.Keys <= t.versions.Keys
    ensures GroupsInv(g, t)
  {
    forall n | n in t.groups ensures exists gv :: IsDocumentOf(g, t, n, gv) {
      var gv :| IsDocumentOf(g, s, n, gv);
      assert IsDocumentOf(g, t, n, gv);
    }
  }

  lemma GroupsAfterInstall(g: Gateway, s: State, t: State)
    requires Inv(g, s) && CanInstallGroup(g, s) && t == GroupInstalled(g, s)
    ensures GroupsInv(g, t)
  {
    forall n | n in t.groups ensures exists gv :: IsDocumentOf(g, t, n, gv) {
      if n == s.control.gv.group {
        assert IsDocumentOf(g, t, n, s.control.gv);
      } else {
        var gv :| IsDocumentOf(g, s, n, gv);
        assert IsDocumentOf(g, t, n, gv);
      }
    }
  }

  /** The invariant holds in every reachable state. */
  lemma {:induction false} InvReachable(g: Gateway, run: seq<Action>)
    requires ValidRun(g, run)
    ensures Inv(g, Exec(g, run))
  {
    if run != [] {
      InvReachable(g, run[..|run| - 1]);
      InvStep(g, Exec(g, run[..|run| - 1]), run[|run| - 1]);
    }
  }

  /** A variable that a handler captured at some moment grows only, and keeps its part of the invariant. */
  lemma {:induction false} HeldCellInv(g: Gateway, run: seq<Action>, n: nat, gv: GroupVersion)
    requires ValidRun(g, run) && n <= |run| && ValidRun(g, run[..n]) && gv in Exec(g, run[..n]).versions
    ensures
      var cell := Exec(g, run[..n]).versions[gv];
      && CellInv(g, Exec(g, run[..n]), gv, cell)
      && CellInv(g, Exec(g, run), gv, cell)
      && Exec(g, run[..n]).cells[cell] <= Exec(g, run).cells[cell]
  {
    InvReachable(g, run[..n]);
    if n == |run| {
      assert run[..n] == run;
    } else {
      var init := run[..|run| - 1];
      assert init[..n] == run[..n];
      HeldCellInv(g, init, n, gv);
      InvReachable(g, init);
      CellStep(g, Exec(g, init), run[|run| - 1], gv, Exec(g, run[..n]).versions[gv]);
    }
  }
}
