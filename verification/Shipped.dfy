/** The resource table the gateway ships with meets the conditions of the general properties. */
module Shipped {
  import opened Wrappers
  import opened Tables
  import opened Resources
  import opened Search
  import opened Pipeline
  import opened DiscoveryModel
  import opened DiscoveryRuns
  import opened Routing
  import opened KubeVersions

  const APPS := GroupVersion("apps", "v1")
  const CORE := GroupVersion("", "v1")

  const PODS := GroupVersionResource("", "v1", "pods")

  const AGE := ResourceColumns("Age", "date", "", 0, ".created")

  const STATUS := ResourceColumns("Status", "string", "", 0, ".status")

  const DEPLOYMENT_COLUMNS := [
    ResourceColumns("Ready", "string", "", 0, ".ready"),
    ResourceColumns("UP-TO-DATE", "string", "", 0, ".current"),
    ResourceColumns("Available", "string", "", 0, ".available"),
    AGE]

  const POD_COLUMNS := [
    STATUS,
    ResourceColumns("Restarts", "string", "", 0, ".restarts"),
    AGE]

  const AGE_COLUMNS := [AGE]

  function ShippedTable(lib: Library): ResourceTable {
    map[
      APPS := [
        ResourceInfo("deployments", "deployment", "DeploymentList", "Deployment", NAMESPACE_SCOPED,
                     ConverterOf(lib, DEPLOYMENT_COLUMNS))],
      CORE := [
        ResourceInfo("pods", "pod", "PodList", "Pod", NAMESPACE_SCOPED, ConverterOf(lib, POD_COLUMNS)),
        ResourceInfo("namespaces", "namespace", "NamespaceList", "Namespace", CLUSTER_SCOPED,
                     ConverterOf(lib, AGE_COLUMNS)),
        ResourceInfo("secrets", "secret", "SecretList", "Secret", NAMESPACE_SCOPED, ConverterOf(lib, AGE_COLUMNS)),
        ResourceInfo("configmaps", "configmap", "ConfigMapList", "ConfigMap", NAMESPACE_SCOPED,
                     ConverterOf(lib, AGE_COLUMNS))]]
  }

  lemma MeetsConditions(lib: Library)
    ensures RowsNonEmpty(ShippedTable(lib)) && OneVersionPerGroup(ShippedTable(lib))
    ensures ConvertersAligned(ShippedTable(lib)) && Printable(ShippedTable(lib))
    ensures forall gv | gv in ShippedTable(lib) :: NamesUnique(ShippedTable(lib)[gv])
  {
    TwoRows(lib);
    GroupVersionsPrintable(lib);
    RowsAligned(lib);
    CoreNamesUnique(lib);
  }

  lemma GroupVersionsPrintable(lib: Library)
    ensures Printable(ShippedTable(lib)) && OneVersionPerGroup(ShippedTable(lib))
  {
    TwoRows(lib);
  }

  lemma TwoRows(lib: Library)
    ensures ShippedTable(lib).Keys == {APPS, CORE}
    ensures |ShippedTable(lib)[APPS]| == 1 && |ShippedTable(lib)[CORE]| == 4
  {
  }

  lemma RowsAligned(lib: Library)
    ensures ConvertersAligned(ShippedTable(lib))
  {
    TwoRows(lib);
  }

  lemma CoreNamesUnique(lib: Library)
    ensures NamesUnique(ShippedTable(lib)[CORE])
  {
    var core := ShippedTable(lib)[CORE];
    assert core[0].name[0] == 'p' && core[1].name[0] == 'n' && core[2].name[0] == 's' && core[3].name[0] == 'c';
  }

  /**
   * Syncs never panic and always end serving the same; of the two lists only that of apps/v1, which has
   * a single resource, is never shortened again by the next sync.
   */
  lemma Discovery(lib: Library, hasManager: bool)
    ensures
      var g := Gateway(ShippedTable(lib), hasManager);
      && (forall run | ValidRun(g, run) :: Exec(g, run).control != Crashed)
      && GroupsOrderIndependent(g)
      && StaysComplete(g, APPS)
      && !StaysComplete(g, CORE)
  {
    var g := Gateway(ShippedTable(lib), hasManager);
    MeetsConditions(lib);
    forall run | ValidRun(g, run) ensures Exec(g, run).control != Crashed {
      NoCrash(g, run);
    }
    GroupsOrderIndependentExactly(g);
    StaysCompleteExactly(g, APPS);
    StaysCompleteExactly(g, CORE);
  }

  /** What `/api/v1` serves after any number of complete syncs. */
  lemma CoreDocument(lib: Library, hasManager: bool, run: seq<Action>)
    requires Boundary(Gateway(ShippedTable(lib), hasManager), run)
    ensures Served(Exec(Gateway(ShippedTable(lib), hasManager), run), CORE) == Some([
              APIResource("pods", "pod", true, "Pod", ["list"]),
              APIResource("namespaces", "namespace", false, "Namespace", ["list"]),
              APIResource("secrets", "secret", true, "Secret", ["list"]),
              APIResource("configmaps", "configmap", true, "ConfigMap", ["list"])])
  {
    BoundaryIsDirect(Gateway(ShippedTable(lib), hasManager), run);
    CoreListing(lib);
  }

  lemma CoreListing(lib: Library)
    ensures CORE in ShippedTable(lib)
    ensures Listing(ShippedTable(lib)[CORE]) == [
              APIResource("pods", "pod", true, "Pod", ["list"]),
              APIResource("namespaces", "namespace", false, "Namespace", ["list"]),
              APIResource("secrets", "secret", true, "Secret", ["list"]),
              APIResource("configmaps", "configmap", true, "ConfigMap", ["list"])]
  {
    TwoRows(lib);
    assert NAMESPACE_SCOPED[0] == 'N' && CLUSTER_SCOPED[0] == 'C';
  }

  /** What `/apis/apps/v1`, `/apis/apps` and the aggregated document for apps/v1 then serve. */
  lemma AppsDocuments(lib: Library, hasManager: bool, run: seq<Action>)
    requires Boundary(Gateway(ShippedTable(lib), hasManager), run)
    ensures
      var s, v1 := Exec(Gateway(ShippedTable(lib), hasManager), run), GroupVersionForDiscovery("apps/v1", "v1");
      && Served(s, APPS) == Some([APIResource("deployments", "deployment", true, "Deployment", ["list"])])
      && "apps" in s.groups && s.groups["apps"] == APIGroup("apps", [v1], v1)
      && (hasManager ==>
            s.aggregated == map[APPS := [AggregatedResource(
              "deployments", "deployment", "Namespaced", "apps", "v1", "Deployment", ["list"])]])
  {
    var g := Gateway(ShippedTable(lib), hasManager);
    BoundaryIsDirect(g, run);
    MeetsConditions(lib);
    AppsListing(lib);
    DirectGroup(g, Exec(g, run), APPS);
    if hasManager {
      AppsAggregated(lib, Exec(g, run));
    }
  }

  lemma DirectGroup(g: Gateway, s: State, gv: GroupVersion)
    requires GroupsDirect(g, s) && gv in g.table
    ensures gv.group in s.groups && s.groups[gv.group] == GroupDocument(gv, g.table[gv])
  {
  }

  lemma AppsAggregated(lib: Library, s: State)
    requires IsDirect(Gateway(ShippedTable(lib), true), s)
    ensures s.aggregated == map[APPS := Aggregated(APPS, ShippedTable(lib)[APPS])]
  {
    TwoRows(lib);
  }

  lemma AppsListing(lib: Library)
    ensures APPS in ShippedTable(lib)
    ensures
      var row, v1 := ShippedTable(lib)[APPS], GroupVersionForDiscovery("apps/v1", "v1");
      && Listing(row) == [APIResource("deployments", "deployment", true, "Deployment", ["list"])]
      && GroupDocument(APPS, row) == APIGroup("apps", [v1], v1)
      && Aggregated(APPS, row) == [AggregatedResource(
           "deployments", "deployment", "Namespaced", "apps", "v1", "Deployment", ["list"])]
  {
    TwoRows(lib);
    assert GroupVersionString(APPS) == "apps/v1";
  }

  /** The pods' status under the header Status. */
  lemma PodStatus(lib: Library, items: seq<Item>, i: nat, render: GoValue -> Option<string>)
    requires AllWellFormed(items) && i < |Kept(lib, items)| && AllParse(lib, POD_COLUMNS)
    requires lib.parsePath(PathOf(STATUS)) == Some(FieldColumn("status", render))
    ensures PrinterOf(ShippedTable(lib), PODS) == OwnPrinter(ConverterOf(lib, POD_COLUMNS))
    ensures PrintsField(lib, ConverterOf(lib, POD_COLUMNS), items, i, 0, "Status", "status", render)
  {
    PodPrinter(lib);
    FieldTells(lib, POD_COLUMNS, items, i, 0, "status", render);
  }

  lemma PodPrinter(lib: Library)
    ensures PrinterOf(ShippedTable(lib), PODS) == OwnPrinter(ConverterOf(lib, POD_COLUMNS))
  {
    CoreNamesUnique(lib);
    EachFindsItselfExactly(ShippedTable(lib)[CORE]);
    assert FirstNamed(ShippedTable(lib)[CORE], ShippedTable(lib)[CORE][0].name) == 0;
  }

  /** The Age column that every shipped list of columns ends in agrees with the default printer. */
  lemma AgeColumns(
      lib: Library, columns: seq<ResourceColumns>, items: seq<Item>, i: nat, render: GoValue -> Option<string>)
    requires columns != [] && columns[|columns| - 1] == AGE && AllParse(lib, columns)
    requires lib.parsePath(PathOf(AGE)) == Some(FieldColumn("created", render))
    requires AllWellFormed(items) && i < |Kept(lib, items)|
    ensures
      DirectRows(lib, OwnPrinter(ConverterOf(lib, columns)), items)[i].cells[|columns| + 1] ==
      DirectRows(lib, DefaultPrinter, items)[i].cells[2]
  {
    var c, last := ConverterOf(lib, columns), |columns| - 1;
    HeaderAt(lib, columns, last);
    AgeColumnAgreesWithDefault(lib, c, items, i, last, render);
  }

  lemma HeaderAt(lib: Library, columns: seq<ResourceColumns>, k: nat)
    requires AllParse(lib, columns) && k < |columns|
    ensures ConverterOf(lib, columns).headers[k + 2] == HeaderOf(columns[k])
    ensures lib.parsePath(PathOf(columns[k])) == Some(ConverterOf(lib, columns).additionalColumns[k])
  {
  }
}
