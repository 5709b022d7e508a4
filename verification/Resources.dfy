/** The resource table that discovery advertises and the search client lists from. */
module Resources {
  import opened Wrappers
  import opened Paths
  import opened Tables

  datatype GroupVersion = GroupVersion(group: string, version: string)

  datatype GroupVersionResource = GroupVersionResource(group: string, version: string, resource: string)

  datatype ResourceInfo = ResourceInfo(
    name: string, singular: string, listKind: string, kind: string, scope: string, converter: Converter)

  type ResourceTable = map<GroupVersion, seq<ResourceInfo>>

  const NAMESPACE_SCOPED := "Namespaced"
  const CLUSTER_SCOPED := "Cluster"

  /** The string naming a group version: the bare version for the empty group. */
  function GroupVersionString(gv: GroupVersion): string {
    if gv.group == "" then gv.version else gv.group + "/" + gv.version
  }

  /** Kubernetes' reading of such a string: at most one slash. */
  function ParseGroupVersion(s: string): Option<GroupVersion> {
    if s == "" || s == "/" then Some(GroupVersion("", ""))
    else
      var i := IndexSlash(s);
      if i == -1 then Some(GroupVersion("", s))
      else if SlashFree(s[i + 1..]) then Some(GroupVersion(s[..i], s[i + 1..]))
      else None
  }

  /** The string parses back exactly when neither part has a slash. */
  lemma GroupVersionParsesBackExactly(gv: GroupVersion)
    ensures ParseGroupVersion(GroupVersionString(gv)) == Some(gv) <==> SlashFree(gv.group) && SlashFree(gv.version)
  {
    var s := GroupVersionString(gv);
    var i := IndexSlash(s);
    if gv.group != "" {
      assert s[|gv.group|] == '/';
      assert s[..|gv.group|] == gv.group && s[|gv.group| + 1..] == gv.version;
      if SlashFree(gv.group) {
        FirstSlashAfter(gv.group, gv.version);
      }
    }
  }

  lemma {:induction false} FirstSlashAfter(head: string, tail: string)
    requires SlashFree(head)
    ensures IndexSlash(head + "/" + tail) == |head|
  {
    if head != "" {
      assert (head + "/" + tail)[1..] == head[1..] + "/" + tail;
      FirstSlashAfter(head[1..], tail);
    }
  }

  // ---- the conditions on a table that the properties of discovery and printing speak about

  ghost predicate RowsNonEmpty(table: ResourceTable) {
    forall gv | gv in table :: table[gv] != []
  }

  ghost predicate OneVersionPerGroup(table: ResourceTable) {
    forall a, b | a in table && b in table && a.group == b.group :: a == b
  }

  ghost predicate NamesUnique(resources: seq<ResourceInfo>) {
    forall i, j | 0 <= i < j < |resources| :: resources[i].name != resources[j].name
  }

  ghost predicate ConvertersAligned(table: ResourceTable) {
    forall gv, i | gv in table && 0 <= i < |table[gv]| :: table[gv][i].converter.Aligned()
  }

  /** A non-empty path segment. */
  predicate Segment(s: string) {
    s != "" && SlashFree(s)
  }
}
