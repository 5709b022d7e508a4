/** The search client: building the query, converting its reply, choosing a printer. */
module Search {
  import opened Wrappers
  import opened Tables
  import opened Resources
  import opened Paths

  // ---- the query

  datatype Filter = Filter(property: string, values: seq<string>)

  function FiltersFor(gvr: GroupVersionResource, namespace: Option<string>): seq<Filter> {
    [Filter("kind_plural", [gvr.resource]), Filter("apiversion", [gvr.version])]
    + (if EffectiveNamespace(namespace) == "" then [] else [Filter("namespace", [namespace.value])])
    + (if gvr.group == "" then [] else [Filter("apigroup", [gvr.group])])
  }

  /** A missing namespace and the empty one both mean all namespaces. */
  function EffectiveNamespace(namespace: Option<string>): string {
    if namespace.Some? then namespace.value else ""
  }

  method BuildFilters(gvr: GroupVersionResource, namespace: Option<string>) returns (filters: seq<Filter>)
    ensures filters == FiltersFor(gvr, namespace)
  {
    filters := [Filter("kind_plural", [gvr.resource]), Filter("apiversion", [gvr.version])];
    if namespace.Some? && namespace.value != "" {
      filters := filters + [Filter("namespace", [namespace.value])];
    }
    if gvr.group != "" {
      filters := filters + [Filter("apigroup", [gvr.group])];
    }
  }

  /** The filters say exactly what was asked for: different requests never share a query. */
  lemma FiltersIdentifyRequest(a: GroupVersionResource, m: Option<string>, b: GroupVersionResource, n: Option<string>)
    ensures FiltersFor(a, m) == FiltersFor(b, n) <==> a == b && EffectiveNamespace(m) == EffectiveNamespace(n)
  {
    var f, g := FiltersFor(a, m), FiltersFor(b, n);
    if f == g {
      assert f[0].values[0] == a.resource && g[0].values[0] == b.resource;
      assert f[1].values[0] == a.version && g[1].values[0] == b.version;
      assert |f| >= 3 ==> f[2].property == g[2].property && f[2].values[0] == g[2].values[0];
      assert |f| >= 4 ==> f[3].values[0] == g[3].values[0];
    }
  }

  /** The search service keeps an item if the item's property is among the values. */
  predicate Passes(properties: map<string, string>, filter: Filter) {
    filter.property in properties && properties[filter.property] in filter.values
  }

  predicate HasProperty(properties: map<string, string>, name: string, value: string) {
    name in properties && properties[name] == value
  }

  /** An item passes all filters exactly when it is what was asked for. */
  lemma FiltersSelectExactly(gvr: GroupVersionResource, namespace: Option<string>, properties: map<string, string>)
    ensures (forall f | f in FiltersFor(gvr, namespace) :: Passes(properties, f)) <==>
            && HasProperty(properties, "kind_plural", gvr.resource)
            && HasProperty(properties, "apiversion", gvr.version)
            && (namespace.Some? && namespace.value != "" ==> HasProperty(properties, "namespace", namespace.value))
            && (gvr.group != "" ==> HasProperty(properties, "apigroup", gvr.group))
  {
    var filters := FiltersFor(gvr, namespace);
    var kind, version := Filter("kind_plural", [gvr.resource]), Filter("apiversion", [gvr.version]);
    var scope := if EffectiveNamespace(namespace) == "" then [] else [Filter("namespace", [namespace.value])];
    var group := if gvr.group == "" then [] else [Filter("apigroup", [gvr.group])];
    assert filters == [kind, version] + scope + group;
    if forall f | f in filters :: Passes(properties, f) {
      assert kind in filters && version in filters;
      assert scope != [] ==> scope[0] in filters;
      assert group != [] ==> group[0] in filters;
      assert Passes(properties, kind) && Passes(properties, version);
    }
    OneValue(properties, "kind_plural", gvr.resource);
    OneValue(properties, "apiversion", gvr.version);
    OneValue(properties, "namespace", EffectiveNamespace(namespace));
    OneValue(properties, "apigroup", gvr.group);
  }

  lemma OneValue(properties: map<string, string>, property: string, value: string)
    ensures Passes(properties, Filter(property, [value])) <==> HasProperty(properties, property, value)
  {
  }


  // ---- the reply

  predicate HasString(item: Item, field: string) {
    field in item && item[field].Str?
  }

  /** Every type assertion made on the item holds. */
  predicate WellFormed(item: Item) {
    && ("apigroup" !in item || item["apigroup"] == Nil || item["apigroup"].Str?)
    && HasString(item, "apiversion")
    && HasString(item, "kind")
    && HasString(item, "name")
    && HasString(item, "namespace")
    && HasString(item, "cluster")
    && HasString(item, "created")
  }

  /** The fields that are asserted to be strings. */
  const REQUIRED: set<string> := {"apiversion", "kind", "name", "namespace", "cluster", "created"}

  /** All of these must be strings; only the group may be missing or null. */
  lemma WellFormedExactly(item: Item)
    ensures WellFormed(item) <==>
            && (forall field | field in REQUIRED :: field in item && item[field].Str?)
            && ("apigroup" in item ==> item["apigroup"].Nil? || item["apigroup"].Str?)
  {
    assert REQUIRED == {"apiversion", "kind", "name", "namespace", "cluster", "created"};
  }

  function ItemGroupVersion(item: Item): GroupVersion
    requires WellFormed(item)
  {
    GroupVersion(if "apigroup" in item && item["apigroup"].Str? then item["apigroup"].s else "", item["apiversion"].s)
  }

  function CreatedOf(lib: Library, item: Item): Option<Time>
    requires WellFormed(item)
  {
    lib.parseTime(item["created"].s)
  }

  function ObjectOf(lib: Library, item: Item): PartialObject
    requires WellFormed(item) && CreatedOf(lib, item).Some?
  {
    PartialObject(
      item["kind"].s, GroupVersionString(ItemGroupVersion(item)), item["name"].s, item["namespace"].s,
      map[RAW_DATA_KEY := lib.encode(item)], map[CLUSTER_LABEL_KEY := item["cluster"].s],
      CreatedOf(lib, item).value)
  }

  /** All items of all results, in order. */
  function Flatten(results: seq<seq<Item>>): seq<Item> {
    if results == [] then [] else Flatten(results[..|results| - 1]) + results[|results| - 1]
  }

  ghost predicate AllWellFormed(items: seq<Item>) {
    forall i | 0 <= i < |items| :: WellFormed(items[i])
  }

  /** The items whose creation time parses, in order. */
  ghost function Kept(lib: Library, items: seq<Item>): (kept: seq<Item>)
    requires AllWellFormed(items)
    ensures AllWellFormed(kept)
    ensures forall i | 0 <= i < |kept| :: CreatedOf(lib, kept[i]).Some?
  {
    if items == [] then []
    else
      var last := items[|items| - 1];
      Kept(lib, items[..|items| - 1]) + (if CreatedOf(lib, last).Some? then [last] else [])
  }

  ghost function ObjectsOf(lib: Library, items: seq<Item>): (objects: seq<PartialObject>)
    requires AllWellFormed(items)
    ensures |objects| == |Kept(lib, items)|
    ensures forall i | 0 <= i < |objects| :: objects[i] == ObjectOf(lib, Kept(lib, items)[i])
  {
    var kept := Kept(lib, items);
    seq(|kept|, i requires 0 <= i < |kept| => ObjectOf(lib, kept[i]))
  }

  /** How many of the first `n` items have a creation time that parses. */
  function Before(lib: Library, items: seq<Item>, n: nat): nat
    requires n <= |items|
  {
    if n == 0 then 0
    else Before(lib, items, n - 1) + (if CreationParses(lib, items[n - 1]) then 1 else 0)
  }

  predicate CreationParses(lib: Library, item: Item) {
    "created" in item && item["created"].Str? && lib.parseTime(item["created"].s).Some?
  }

  /** Exactly the items whose creation time parses are kept, each at the place their order gives it. */
  lemma {:induction false} KeptExactly(lib: Library, items: seq<Item>)
    requires AllWellFormed(items)
    ensures |Kept(lib, items)| == Before(lib, items, |items|)
    ensures forall j | 0 <= j < |items| && CreationParses(lib, items[j]) ::
              Before(lib, items, j) < |Kept(lib, items)| && Kept(lib, items)[Before(lib, items, j)] == items[j]
  {
    if items != [] {
      var init := items[..|items| - 1];
      KeptExactly(lib, init);
      forall j | 0 <= j <= |init| ensures Before(lib, items, j) == Before(lib, init, j) {
        BeforeOfPrefix(lib, items, |init|, j);
      }
      forall j | 0 <= j < |init| && CreationParses(lib, items[j])
        ensures Before(lib, items, j) < |Kept(lib, init)| && Kept(lib, items)[Before(lib, items, j)] == items[j]
      {
        assert init[j] == items[j];
      }
    }
  }

  lemma {:induction false} BeforeOfPrefix(lib: Library, items: seq<Item>, m: nat, n: nat)
    requires n <= m <= |items|
    ensures Before(lib, items, n) == Before(lib, items[..m], n)
  {
    if n > 0 {
      BeforeOfPrefix(lib, items, m, n - 1);
    }
  }

  /** Every field of a listed object is that of its item. */
  lemma ObjectFields(lib: Library, items: seq<Item>, i: nat)
    requires AllWellFormed(items) && i < |ObjectsOf(lib, items)|
    ensures
      var obj, item := ObjectsOf(lib, items)[i], Kept(lib, items)[i];
      && item["kind"] == Str(obj.kind) && item["name"] == Str(obj.name) && item["namespace"] == Str(obj.namespace)
      && obj.labels == map["open-cluster-management/cluster" := item["cluster"].s]
      && obj.annotations == map["rawdata" := lib.encode(item)]
      && lib.parseTime(item["created"].s) == Some(obj.created)
  {
  }

  /** The object's API version reads as the item's group and version, if those have no slash. */
  lemma ObjectGroupVersion(lib: Library, items: seq<Item>, i: nat)
    requires AllWellFormed(items) && i < |ObjectsOf(lib, items)|
    ensures
      var obj, item := ObjectsOf(lib, items)[i], Kept(lib, items)[i];
      var group := if "apigroup" in item && item["apigroup"] != Nil then item["apigroup"].s else "";
      ParseGroupVersion(obj.apiVersion) == Some(GroupVersion(group, item["apiversion"].s)) <==>
      SlashFree(group) && SlashFree(item["apiversion"].s)
  {
    GroupVersionParsesBackExactly(ItemGroupVersion(Kept(lib, items)[i]));
  }

  datatype ListOutcome = Listed(list: RuntimeObject) | QueryFailed(message: string) | Panicked

  const NO_META := ListMeta("", "", None)

  lemma FlattenOfPrefix(results: seq<seq<Item>>, n: nat)
    requires n < |results|
    ensures Flatten(results[..n + 1]) == Flatten(results[..n]) + results[n]
  {
    assert results[..n + 1][..n] == results[..n];
  }

  lemma {:induction false} FlattenKeepsIllFormed(results: seq<seq<Item>>, n: nat)
    requires n < |results| && !AllWellFormed(results[n])
    ensures !AllWellFormed(Flatten(results))
  {
    var init, last := results[..|results| - 1], results[|results| - 1];
    if n < |results| - 1 {
      FlattenKeepsIllFormed(init, n);
      var k :| 0 <= k < |Flatten(init)| && !WellFormed(Flatten(init)[k]);
      assert (Flatten(init) + last)[k] == Flatten(init)[k];
    } else {
      var k :| 0 <= k < |last| && !WellFormed(last[k]);
      assert (Flatten(init) + last)[|Flatten(init)| + k] == last[k];
    }
  }

  /** Panics exactly when some item lacks a string that the conversion asserts. */
  method List(lib: Library, reply: Result<seq<seq<Item>>, string>) returns (outcome: ListOutcome)
    ensures reply.Err? ==> outcome == QueryFailed(reply.error)
    ensures reply.Ok? ==> (outcome == Panicked <==> !AllWellFormed(Flatten(reply.value)))
    ensures reply.Ok? && AllWellFormed(Flatten(reply.value)) ==>
              outcome == Listed(ObjectList(NO_META, ObjectsOf(lib, Flatten(reply.value))))
  {
    if reply.Err? {
      return QueryFailed(reply.error);
    }
    var results := reply.value;
    var objects: seq<PartialObject> := [];
    for n := 0 to |results|
      invariant AllWellFormed(Flatten(results[..n])) && objects == ObjectsOf(lib, Flatten(results[..n]))
    {
      var ok;
      ok, objects := ConvertResult(lib, results[n], objects, Flatten(results[..n]));
      if !ok {
        FlattenKeepsIllFormed(results, n);
        return Panicked;
      }
      FlattenOfPrefix(results, n);
    }
    assert results[..|results|] == results;
    return Listed(ObjectList(NO_META, objects));
  }

  /** The inner loop: the objects of one result behind those of the items seen before. */
  method ConvertResult(lib: Library, items: seq<Item>, objects: seq<PartialObject>, ghost seen: seq<Item>)
    returns (ok: bool, longer: seq<PartialObject>)
    requires AllWellFormed(seen) && objects == ObjectsOf(lib, seen)
    ensures ok <==> AllWellFormed(items)
    ensures ok ==> AllWellFormed(seen + items) && longer == ObjectsOf(lib, seen + items)
  {
    longer := objects;
    assert seen + items[..0] == seen;
    for k := 0 to |items|
      invariant AllWellFormed(items[..k]) && AllWellFormed(seen + items[..k])
      invariant longer == ObjectsOf(lib, seen + items[..k])
    {
      var item := items[k];
      var wellFormed, converted := ConvertItem(lib, item);
      if !wellFormed {
        return false, longer;
      }
      AppendKept(lib, seen + items[..k], item);
      assert seen + items[..k + 1] == seen + items[..k] + [item];
      longer := longer + converted;
    }
    assert items[..|items|] == items;
    return true, longer;
  }

  /** The body of the inner loop: no object for an item whose creation time does not parse. */
  method ConvertItem(lib: Library, item: Item) returns (ok: bool, converted: seq<PartialObject>)
    ensures ok <==> WellFormed(item)
    ensures ok ==> converted == if CreatedOf(lib, item).Some? then [ObjectOf(lib, item)] else []
  {
    var apiGroup := "";
    if "apigroup" in item && item["apigroup"] != Nil {
      if !item["apigroup"].Str? {
        return false, [];
      }
      apiGroup := item["apigroup"].s;
    }
    if !HasString(item, "apiversion") {
      return false, [];
    }
    var version := item["apiversion"].s;
    var apiVersion := apiGroup + "/" + version;
    if apiGroup == "" {
      apiVersion := version;
    }
    var rawData := lib.encode(item);
    if !HasString(item, "kind") || !HasString(item, "name") || !HasString(item, "namespace")
       || !HasString(item, "cluster")
    {
      return false, [];
    }
    var annotations := map["rawdata" := rawData];
    var labels := map[CLUSTER_LABEL_KEY := item["cluster"].s];
    if !HasString(item, "created") {
      return false, [];
    }
    var timestamp := lib.parseTime(item["created"].s);
    if timestamp.None? {
      return true, [];
    }
    return true, [PartialObject(item["kind"].s, apiVersion, item["name"].s, item["namespace"].s,
                                annotations, labels, timestamp.value)];
  }

  lemma AppendKept(lib: Library, items: seq<Item>, item: Item)
    requires AllWellFormed(items) && WellFormed(item)
    ensures ObjectsOf(lib, items + [item]) ==
            ObjectsOf(lib, items) + (if CreatedOf(lib, item).Some? then [ObjectOf(lib, item)] else [])
  {
  }

  // ---- the printer

  datatype Printer = DefaultPrinter | OwnPrinter(converter: Converter)

  /** The first resource of that name, or -1. */
  function FirstNamed(resources: seq<ResourceInfo>, name: string): (i: int)
    ensures -1 <= i < |resources|
    ensures i >= 0 ==> resources[i].name == name && forall k | 0 <= k < i :: resources[k].name != name
    ensures i == -1 ==> forall k | 0 <= k < |resources| :: resources[k].name != name
  {
    if resources == [] then -1
    else
      var i := FirstNamed(resources[..|resources| - 1], name);
      if i >= 0 then i
      else if resources[|resources| - 1].name == name then |resources| - 1
      else -1
  }

  function PrinterOf(table: ResourceTable, gvr: GroupVersionResource): Printer {
    var gv := GroupVersion(gvr.group, gvr.version);
    if gv !in table then DefaultPrinter
    else
      var i := FirstNamed(table[gv], gvr.resource);
      if i == -1 then DefaultPrinter else OwnPrinter(table[gv][i].converter)
  }

  method PrinterfFor(table: ResourceTable, gvr: GroupVersionResource) returns (printer: Printer)
    ensures printer == PrinterOf(table, gvr)
  {
    var gv := GroupVersion(gvr.group, gvr.version);
    if gv !in table {
      return DefaultPrinter;
    }
    var resources := table[gv];
    for i := 0 to |resources|
      invariant forall k | 0 <= k < i :: resources[k].name != gvr.resource
    {
      if resources[i].name == gvr.resource {
        return OwnPrinter(resources[i].converter);
      }
    }
    return DefaultPrinter;
  }

  /** Each resource is printed by its own entry, not an earlier one, exactly when the names are unique. */
  lemma EachFindsItselfExactly(resources: seq<ResourceInfo>)
    ensures (forall i | 0 <= i < |resources| :: FirstNamed(resources, resources[i].name) == i)
       <==> NamesUnique(resources)
  {
  }

  // ---- the default printer

  const DEFAULT_HEADERS: seq<ColumnDefinition> := [
    ColumnDefinition("Cluster", "string", "name", "Cluster is the cluster of the resource.", 0),
    ColumnDefinition("Name", "string", "name", "Name is the name of the resource.", 0),
    ColumnDefinition("Age", "date", "", "Age represents the age of the manifestworks until created.", 0)]

  function DefaultCells(lib: Library, obj: PartialObject, cluster: string): seq<Cell> {
    [StrCell(cluster), StrCell(obj.name), StrCell(lib.humanAge(obj.created))]
  }

  /** One row for each object when all carry the cluster label; otherwise no table at all. */
  method DefaultConverter(lib: Library, obj: RuntimeObject, noHeaders: bool)
    returns (r: Result<Table, TableError>)
    ensures
      var objects := obj.Visited();
      if exists i :: 0 <= i < |objects| && GetClusterFromMeta(objects[i]).Err? then r == Err(ClusterLabelMissing)
      else
        && r.Ok?
        && r.value.columnDefinitions == (if noHeaders then [] else DEFAULT_HEADERS)
        && r.value.meta == (if obj.ObjectList? then obj.meta else ListMeta(obj.resourceVersion, "", None))
        && |r.value.rows| == |objects|
        && forall i | 0 <= i < |objects| ::
             r.value.rows[i] == Row(DefaultCells(lib, objects[i], objects[i].labels[CLUSTER_LABEL_KEY]), objects[i])
  {
    var objects := obj.Visited();
    var meta := if obj.ObjectList? then obj.meta else ListMeta(obj.resourceVersion, "", None);
    var table := Table(if noHeaders then [] else DEFAULT_HEADERS, meta, []);
    var rows: seq<Row> := [];
    for n := 0 to |objects|
      invariant |rows| == n
      invariant forall i | 0 <= i < n :: GetClusterFromMeta(objects[i]).Ok?
      invariant forall i | 0 <= i < n ::
                  rows[i] == Row(DefaultCells(lib, objects[i], objects[i].labels[CLUSTER_LABEL_KEY]), objects[i])
    {
      var age := lib.humanAge(objects[n].created);
      var clusterName := GetClusterFromMeta(objects[n]);
      if clusterName.Err? {
        return Err(clusterName.error);
      }
      rows := rows + [Row([StrCell(clusterName.value), StrCell(objects[n].name), StrCell(age)], objects[n])];
    }
    return Ok(table.(rows := rows));
  }
}
