# Fleet gateway: a verified model

The gateway answers Kubernetes discovery and list requests from a search service and forwards everything
below `/clusters/<name>/` to the named cluster. This project models its three parts that carry logic and
proves what they promise.

- **Discovery** (`DiscoveryModel`, `DiscoveryRuns`, `KubeVersions`, `Handlers`, `Controller`). `sync` rewrites the
  discovery handlers again and again while requests read them. `DiscoveryModel` has one action for each write
  that a reader can see; a run is any sequence of enabled actions, over any number of syncs, each walking the
  resource table in any order. A request changes nothing, but it reads at two moments: it looks a handler up
  under the lock, and asks it for its list after the lock is released, when the handler may have been replaced
  and its list may have grown (`HeldHandlerServes`). `Controller` is the same code on the heap: the slice
  variable that the listers capture is an object shared by the controller and the installed handlers, every
  write is noted in a ghost run, and the class invariant says that the heap holds exactly the state this run
  leads to. Prefixes of runs are runs (`InstalledStaysInstalled`), so the two moments may be any two between
  writes of `Sync`; `ResourceHandler.ServeHTTP` calls `Interfere` between them, which stands for those writes.
- **Cluster addressing** (`Kubeconfig`, `ClusterPaths`, `ServerURLs`, `CleanPaths`, `WrittenURLs`, `Addressing`,
  `GatewayHandler`, `Routing`, `Paths`). `gw cluster` edits a kubeconfig; the server URLs it writes come back to
  the gateway as paths, which are parsed and rewritten for the proxy. Requests without a cluster go through two
  layers of discovery handlers.
- **Search results to tables** (`Tables`, `Search`, `Pipeline`). Items become objects, with the raw item in an
  annotation and the cluster in a label, and the objects become rows through columns that share one buffer.

`Resources` holds the resource table, `Http` requests and responses, and `Shipped` the table the gateway ships with.

## What the model shows about the code

- A group document lists its version once for each resource of the group version, and only the version that was
  synced last; with two versions in a group the walk over the table decides which
  (`GroupDocumentNamesItself`, `GroupsOrderIndependentExactly`).
- The next sync replaces a complete list by a shorter one before it grows back. Readers see a list that is
  complete for good exactly when it has one entry (`StaysCompleteExactly`); in the shipped table that is so for
  `apps/v1` and not for the core group (`Shipped.Discovery`).
- A row without resources makes `sync` panic, and nothing else does (`CrashReachableExactly`).
- The core group's document answers at `/apis//v1` as well as at `/api/v1`; the group entry stored under the empty
  name answers nowhere (`VersionServedExactly`, `GroupServedExactly`). `/api` lists v1 whatever is installed.
- `gw cluster` can overwrite a cluster that an existing context uses, the root's included. After `gw cluster fleet`,
  where the root uses a cluster `fleet` that no context is named after, every new context gets a nested server
  (`NewContextAddressed` gives the server of each new context for every sequence of commands).
  `ContextsKeptExactly`, `OrderIndependentExactly` and `NeverNestedExactly` give the kubeconfigs for which no
  sequence of commands does any damage.
- `gw cluster` accepts a name with `?`, `#` or `%`, but a client of the server it writes does not reach the cluster
  of that name; nor does any name work when the root server lacks a scheme or has a path. For a client that joins
  paths as Go's `path.Join` does, a root path that cleans to nothing, such as a slash, does no harm, but the names
  `.` and `..` lead elsewhere (`AddressReadsBackExactly`, `CleanAddressReadsBackExactly`, which also name the root
  servers that happen to do because they are a cluster's address themselves).
- One search item that lacks an asserted string field panics the whole list request (`Search.List`).

## Assumptions about libraries

API listers are called at request time. The request-info filter classifies a path as a resource request iff it has at
least three segments starting with `api` or four starting with `apis`. The aggregated store is keyed by group
and version and adding replaces. `sort.Slice` is modelled as insertion by adjacent swaps; its comparison follows
the "Version priority" section of the Kubernetes documentation on versions in CustomResourceDefinitions, numbers
beyond 64 bits not being version numbers. A failing print of a single value writes nothing, `MetaToTableRow` visits
the objects in order and stops at the first error, and encoding a search item and decoding the text gives the
item back (stated as a precondition on the items at hand). Time parsing, ages, JSONPath parsing, evaluation
and printing, and float truncation are arbitrary functions. A client takes its server URL apart
as appendix B of RFC 3986 does, decodes the path as section 2.1 says and refuses a URL without a scheme or an
authority. The API path is then either appended to that path or joined to it as Go's `path.Join` joins paths;
both kinds of client are modelled, and `UnescapeOfEscape`, `CleanedThere` and `CleanedIsClean` say what decoding and
cleaning do.

## Model

| member | source | states |
|---|---|---|
| Paths.SplitPathExactly | pkg/apiserver/discovery.go:147-153 | Splitting is a bijection between slash-trimmed paths and segment lists that are slash-free with non-empty ends: the parts of a path are these exactly when they are normalised and join to the trimmed path. |
| Paths.SplitPathIgnoresOuterSlashes | pkg/apiserver/discovery.go:148 | A leading or trailing slash never changes the segments. |
| Paths.SplitPathOfPrinted | pkg/apiserver/discovery.go:147-153 | Printing any normalised segments as a path and splitting gives them back. |
| ClusterPaths.Lossless | pkg/apiserver/handler.go:657-667 | Under the prefix the name is slash-free, the rest starts with a slash, and printing both gives the path back, plus one slash exactly when none followed the name. |
| ClusterPaths.AddressedExactly | pkg/apiserver/handler.go:657-670 | A path is read as API path `rest` of cluster `name` exactly when it is their printed form, or the bare name for the root path. |
| ClusterPaths.Collisions | pkg/apiserver/handler.go:657-667 | Two paths under the prefix are read alike exactly when they are equal or differ in that closing slash. |
| Kubeconfig.Options.Run | cli/kubectl-gw/cmd/cluster.go:102-136 | Ties the command on the loaded configuration to one step of the state machine, with every error and the file untouched unless it was written; on success the current context is the name and exists. |
| Kubeconfig.ClusterCommand | cli/kubectl-gw/cmd/cluster.go:17-28 | A whole invocation is one step on the file's content; with other than one argument, or when the kubeconfig does not load, nothing changes. |
| Kubeconfig.RunIsDirect | cli/kubectl-gw/cmd/cluster.go:102-131 | For a resolvable root whose cluster is named like a context or not overwritten before the last command, any command sequence, a first command always, ends in a configuration computed from the set of names used and the last name alone. |
| Kubeconfig.OrderIndependentExactly | cli/kubectl-gw/cmd/cluster.go:116-131 | Contexts and clusters depend only on the set of names used exactly when a resolvable root's cluster is named like a context. |
| Kubeconfig.ContextsKeptExactly | cli/kubectl-gw/cmd/cluster.go:106-131 | No command sequence changes the server of an existing context exactly when every cluster a context uses is named like a context or already is what the tool would write. |
| Kubeconfig.CreatedContextsAddressRoot | cli/kubectl-gw/cmd/cluster.go:124-129 | In such a sequence the contexts added are those of the names used, and each resolves to the original root server with one suffix. |
| Kubeconfig.NewContextAddressed | cli/kubectl-gw/cmd/cluster.go:116-130 | In every command sequence from a resolvable root, a new context resolves to the root server with one suffix if its name was used up to the first command that overwrites the root's cluster, and otherwise to that command's server with a second suffix. |
| Kubeconfig.NothingElseChanges | cli/kubectl-gw/cmd/cluster.go:116-130 | Every command sequence adds exactly the new names as contexts and clusters, with the settings of the root's, and changes nothing else. |
| Kubeconfig.OutcomeExactly | cli/kubectl-gw/cmd/cluster.go:106-135 | Each error and success has exactly its own condition on the file and on what fails. |
| Kubeconfig.WrittenExactly | cli/kubectl-gw/cmd/cluster.go:109-133 | The file is rewritten exactly when nothing but the message can have failed, and then its current context is the name and exists. |
| Kubeconfig.NeverNestedExactly | cli/kubectl-gw/cmd/cluster.go:116-129 | For a resolvable root, every name used in any command sequence that was no context before resolves to the root server with one suffix exactly when the root's cluster is named like a context. |
| Kubeconfig.CurrentContextExists | cli/kubectl-gw/cmd/cluster.go:107-130 | When the root context and its cluster exist at the start, the current context after any run is the last name used, and it exists once a command wrote the file. |
| Kubeconfig.CommandsSucceed | cli/kubectl-gw/cmd/cluster.go:116-123 | When the root context and its cluster exist at the start, no later command of any sequence reports either missing. |
| Addressing.AddressReadsBackExactly | cli/kubectl-gw/cmd/cluster.go:125 | For all root servers and names, a client that appends the path to the written server is read back as (name, path) exactly when the name is a segment without `%`, `?` and `#` and the root is an absolute URL without a path; a root with a query swallows the name and must itself be the address. |
| Addressing.CleanAddressReadsBackExactly | cli/kubectl-gw/cmd/cluster.go:125 | For all root servers and names and a client that joins and cleans paths, the same holds exactly when the name is such a segment other than `.` and `..` and the root's path cleans to nothing; otherwise the root must be that address already, or below it with a name whose decoded text climbs back. |
| WrittenURLs.WrittenPathExactly | cli/kubectl-gw/cmd/cluster.go:125 | The written URL has the decoded path that was written exactly when root and name are of that form: no escape, query or path of the root makes up for another. |
| WrittenURLs.WrittenCleanExactly | cli/kubectl-gw/cmd/cluster.go:125 | The cleaned path of the written URL is the segment and the name exactly under those conditions, for every segment in the place of `clusters`. |
| Addressing.CommandReachesCluster | pkg/client/proxy/interface.go:85-96 | When the root server is an absolute URL without query whose path is empty (or cleans to nothing, for a client that cleans paths), then after any commands ending on a new name that is such a segment and was first used before the root's cluster was overwritten, a request for an API path is forwarded as that name and path with that cluster's token, or answered with the token's error. |
| Addressing.ProxiedExactly | pkg/apiserver/handler.go:149-168 | The proxy answers exactly the requests with a name behind the prefix, and the forwarded path is the remaining path, closed by a slash after a bare name. |
| GatewayHandler.Proxy | pkg/client/proxy/interface.go:85-96 | Without a token neither request nor response is touched; with one the host, path and authorization are rewritten, other headers kept, and one response written. |
| GatewayHandler.ResourceHandler.ServeHTTP | pkg/apiserver/handler.go:148-243 | Every request gets exactly one response, that of the decision function on handlers looked up when it arrives and lists read after whatever `sync` writes in between; when proxying fails, the verb is unsupported or a subresource is named as well. Without a cluster the request stays as it was. |
| Routing.ListedExactly | pkg/apiserver/handler.go:227-252 | A request is answered with the list of a resource exactly when no cluster is named, a resource but no subresource is, the verb is list, and group, version and resource are that resource's. |
| Routing.NotFoundExactly | pkg/apiserver/handler.go:227-235 | Not found is answered exactly when a subresource is named, with the group, resource and name of the request. |
| Routing.NotSupportedExactly | pkg/apiserver/handler.go:249-259 | Exactly another verb than list, without a subresource, is answered as not supported. |
| Routing.InternalErrorExactly | pkg/apiserver/handler.go:170-214 | An internal error is answered exactly when the request info is missing or names no resource, each with its own message. |
| Routing.DiscoveryAskedExactly | pkg/apiserver/handler.go:179-204 | The discovery layers are asked exactly for requests that name no cluster and are for no resource. |
| Routing.SelectedLayerAnswers | pkg/apiserver/handler.go:180-203 | When the filter's path and the request's own differ, the layer that the first selects answers for the second as the flat table would, or nobody does. |
| GatewayHandler.ResourceHandler.ServeVersion | pkg/apiserver/discovery.go:41-73 | The lock is free between lookup and answer: the response on the heap is the machine's, with the variable that the handler of the earlier state captured and its content in the later state. |
| Handlers.VersionDiscoveryHandler.Find | pkg/apiserver/discovery.go:42-63 | Looks up the handler of the group version that the split path names, for core and grouped paths. |
| Handlers.VersionDiscoveryHandler.Respond | pkg/apiserver/discovery.go:47-64 | Writes one response, the current content of the captured list or the delegate's. |
| Routing.TwoLayersAreFlat | pkg/apiserver/handler.go:179-204 | The two layers, splitting and checking the path twice, equal one flat table over its segments for every path and every state of the maps. |
| Routing.VersionServedExactly | pkg/apiserver/discovery.go:41-65 | Exactly these trimmed paths are answered with the document of a group version. |
| Routing.GroupServedExactly | pkg/apiserver/discovery.go:98-122 | A group document is answered at one trimmed path and the entry of the empty group at none. |
| Routing.CoreVersionsAreFixed | pkg/apiserver/discovery.go:101-109 | The path `/api`, up to slashes, and no other gets the fixed list of core versions. |
| Routing.CoreLinkResolvesExactly | pkg/apiserver/discovery.go:44-52 | Once a sync has completed, the link of a core version, looked up in any later state and answered in any state after that, in the middle of any sync, gets a version document exactly when the table has that version, with a non-empty prefix of its resources. |
| Routing.LinksResolve | pkg/apiserver/discovery_controller.go:66-119 | A group document read in any reachable state has only links that, looked up in any later state and answered in any state after that, in the middle of any sync, reach a version document with a non-empty prefix of that version's resources. |
| Resources.GroupVersionParsesBackExactly | pkg/apiserver/discovery_controller.go:67-74 | The advertised string parses back to the group version exactly when neither part has a slash, the empty group included. |
| KubeVersions.SortGroupDiscoveryByKubeAwareVersion | pkg/apiserver/discovery_controller.go:133-137 | The in-place sort leaves a permutation in which no entry has a lower priority than a later one. |
| KubeVersions.SortedPermutationsAgree | pkg/apiserver/discovery_controller.go:133-137 | Two sorted permutations agree at every position up to equal priority, so the preferred version's priority is determined. |
| KubeVersions.CompareTransitive | pkg/apiserver/discovery_controller.go:135 | The version comparison is transitive over all strings, whether they have the version form or not. |
| KubeVersions.EqualPriorityExactly | pkg/apiserver/discovery_controller.go:135 | Two versions have equal priority exactly when they are the same string or read as the same version numbers. |
| KubeVersions.StabilityFirst | pkg/apiserver/discovery_controller.go:133-137 | For all digits: stable versions come before betas, betas before alphas, and alphas before other strings. |
| KubeVersions.LargerNumberFirst | pkg/apiserver/discovery_controller.go:133-137 | For all digits: at equal stability the larger major number comes first, then the larger minor number. |
| KubeVersions.ShorterOtherFirst | pkg/apiserver/discovery_controller.go:133-137 | Of two strings without the version form, a proper prefix comes first. |
| KubeVersions.SmallerOtherFirst | pkg/apiserver/discovery_controller.go:133-137 | Of two strings without the version form, the one with the smaller character at the first difference comes first. |
| KubeVersions.FormOfParsed | pkg/apiserver/discovery_controller.go:135 | Whatever is read as a version is `v` and digits, alone or followed by `beta` or `alpha` and digits. |
| KubeVersions.DecimalReadsBack | pkg/apiserver/discovery_controller.go:135 | The digits of every number are read as that number. |
| DiscoveryModel.InvReachable | pkg/apiserver/discovery_controller.go:58-131 | The invariant tying handlers, captured slices, group documents and aggregated entries to the table holds in every reachable state of any number of syncs. |
| DiscoveryRuns.InstalledStaysInstalled | pkg/apiserver/discovery_controller.go:83-85 | Prefixes of runs are runs, and an installed version handler stays installed in every continuation. |
| DiscoveryRuns.HeldHandlerServes | pkg/apiserver/discovery.go:58-73 | A handler looked up in any reachable state serves in every later one a non-empty prefix of the mapped row that extends the list at the lookup, complete unless that row is being filled again, even after the handler was replaced. |
| DiscoveryRuns.ServedIsPrefix | pkg/apiserver/discovery_controller.go:76-85 | In every reachable state an installed version handler serves a non-empty prefix of the table's resources, mapped in order. |
| DiscoveryRuns.ServedIsCompleteElsewhere | pkg/apiserver/discovery_controller.go:62-85 | Only the group version that the running sync is filling can serve less than its complete list. |
| DiscoveryRuns.ListedFields | pkg/apiserver/discovery_controller.go:76-82 | Every entry served, in any state and by any held handler, has name, singular name and kind of its table entry and the verb list, and is namespaced exactly when the scope is. |
| DiscoveryRuns.AggregatedFields | pkg/apiserver/discovery_controller.go:87-126 | In every reachable state the aggregated entries of a group version are complete, and each has the names, kind, scope, group and version of its table entry. |
| DiscoveryRuns.BoundaryIsDirect | pkg/apiserver/discovery_controller.go:60-130 | After complete syncs in any orders the version documents, aggregated entries and names of groups are a function of the table, and so are the group documents when each group has one version. |
| DiscoveryRuns.BoundariesAgree | pkg/apiserver/discovery_controller.go:60-130 | Further complete syncs leave what is served unchanged. |
| DiscoveryRuns.GroupsOrderIndependentExactly | pkg/apiserver/discovery_controller.go:119 | The group documents are independent of the walk over the table exactly when each group has one version. |
| DiscoveryRuns.StaysCompleteExactly | pkg/apiserver/discovery_controller.go:64-85 | After a complete sync a list stays complete in all later states exactly when it has a single entry. |
| DiscoveryRuns.BoundaryReachableExactly | pkg/apiserver/discovery_controller.go:117 | Some sync completes exactly when no row of the table is empty. |
| DiscoveryRuns.CrashReachableExactly | pkg/apiserver/discovery_controller.go:117 | A sync can panic exactly when some row is empty. |
| DiscoveryRuns.GroupDocumentNamesItself | pkg/apiserver/discovery_controller.go:110-118 | In every reachable state a group document is sorted, contains its preferred version, and all its entries parse back to one group version of the table. |
| DiscoveryRuns.ListedHasPrinter | pkg/client/search/interface.go:252-264 | A name that discovery lists, by a handler looked up earlier and in the middle of a sync, is not printed by the default printer. |
| DiscoveryRuns.ListedExactlyWhenPrinted | pkg/client/search/interface.go:252-264 | Between syncs exactly the listed names have a printer, their own when names are unique. |
| Controller.DiscoveryController.Append | pkg/apiserver/discovery_controller.go:76-82 | Growing the captured slice on the heap is one action of the machine, seen by every handler that captured it. |
| Controller.DiscoveryController.SyncGroupVersion | pkg/apiserver/discovery_controller.go:63-128 | The loop body on the heap, with its growing slices and in-place sort, is a run of the machine for that group version and panics exactly on an empty row. |
| Controller.DiscoveryController.Sync | pkg/apiserver/discovery_controller.go:58-131 | A sync in any order extends the run, panics exactly when some row is empty, and otherwise leaves the three stores equal to the table. |
| Controller.DiscoveryController.Run | pkg/apiserver/discovery_controller.go:139-149 | Any number of rounds keeps the heap equal to the machine's state and ends at a boundary unless a row is empty. |
| Tables.NewConverter | pkg/api/resourceInfo.go:49-80 | All columns with their headers, or none of them when one path does not parse; always two more headers than columns. |
| Tables.ConverterExactly | pkg/api/resourceInfo.go:50-77 | The first two headers are Cluster and Name; behind them stands one header for each column, with its name, type, format, priority and path, exactly when all paths parse, and none otherwise. |
| Tables.RowFitsHeaders | pkg/api/resourceInfo.go:107-143 | Whatever the columns, parsed or not, every row has one cell for each header, of that header's type. |
| Tables.CellShowsExactly | pkg/api/resourceInfo.go:148-196 | A cell is empty exactly when its header cannot show the value, and otherwise shows that very value. |
| Tables.RowFailsExactly | pkg/api/resourceInfo.go:103-122 | A row fails exactly when the cluster label is missing, or it is there and the annotation does not decode. |
| Tables.RowTells | pkg/api/resourceInfo.go:107-143 | A row starts with label and name, and the cell of each column tells its value: a string column the printed text exactly when the print succeeds, another the value exactly when its type can show it, and none nil when there is a value to show. |
| Tables.RowsExactly | pkg/api/resourceInfo.go:102-145 | All objects get the row that is theirs, or the error is that of the first object without one. |
| Tables.ConvertRow | pkg/api/resourceInfo.go:102-143 | With the buffer empty before every column and after the row, each cell depends on its own column and item alone, after failed prints as well. |
| Tables.ConvertToTable | pkg/api/resourceInfo.go:82-146 | One row for each object in order, or no rows and the first error. |
| Search.BuildFilters | pkg/client/search/interface.go:164-186 | The appended filters are those of the request, to which the next two rows apply. |
| Search.FiltersSelectExactly | pkg/client/search/interface.go:165-186 | An indexed item passes all filters exactly when it has the resource as `kind_plural`, the version as `apiversion` and, where the request names them, its namespace and group. |
| Search.FiltersIdentifyRequest | pkg/client/search/interface.go:164-186 | Two list requests send the same filters exactly when they ask for the same resource and effective namespace. |
| Search.List | pkg/client/search/interface.go:207-245 | Fails with the query, panics exactly when some item lacks an asserted string, and otherwise lists the objects of the items whose creation time parses, in order. |
| Search.WellFormedExactly | pkg/client/search/interface.go:210-237 | The asserted strings are exactly six fields, and the group may be missing or null as well. |
| Search.KeptExactly | pkg/client/search/interface.go:236-242 | Exactly the items whose creation time parses are kept, each at the place their order gives it. |
| Search.ObjectFields | pkg/client/search/interface.go:219-241 | Kind, name, namespace, label, annotation and creation time of a listed object are those of its item. |
| Search.ObjectGroupVersion | pkg/client/search/interface.go:210-218 | The API version of a listed object parses back to its item's group and version exactly when neither has a slash. |
| Search.PrinterfFor | pkg/client/search/interface.go:252-264 | The first resource of that name decides the printer. |
| Search.EachFindsItselfExactly | pkg/client/search/interface.go:258-262 | Every resource is printed by its own entry exactly when the names are unique. |
| Search.DefaultConverter | pkg/client/search/interface.go:266-302 | A row of cluster, name and age for each object, or no table when some object lacks the cluster label. |
| Pipeline.RowsAreDirect | pkg/api/resourceInfo.go:102-144 | Converting the listed objects never errs and gives the rows read off the original items, through label and annotation. |
| Pipeline.ListAsTable | pkg/client/search/interface.go:163-302 | For any reply the printed table has the printer's headers and exactly one direct row for each item whose creation time parses, in order. |
| Pipeline.DirectRowsFitHeaders | pkg/api/resourceInfo.go:107-143 | Every printed row has one cell for each header of its printer, of the header's type. |
| Pipeline.NamedCells | pkg/api/resourceInfo.go:107-109 | Under the headers Cluster and Name of either printer stand the cluster and the name of the item. |
| Pipeline.DefaultAge | pkg/client/search/interface.go:266-296 | The default printer's third column is headed Age and shows the age of the creation time. |
| Pipeline.ColumnTells | pkg/api/resourceInfo.go:123-142 | In the rows of a printed list, every other cell tells the value of its column for its item, as in `Tables.RowTells`. |
| Pipeline.FieldTells | pkg/api/resourceInfo.go:131-138 | A string column on a field stands under its own name and shows exactly the printed field, and nil when the item lacks it. |
| Pipeline.AgeColumnAgreesWithDefault | pkg/api/resourceInfo.go:184-192 | A date column on the creation time never shows an invalid time for a listed item; it shows the default printer's age. |
| Shipped.MeetsConditions | pkg/client/search/interface.go:33-103 | The shipped table meets every condition of the general properties. |
| Shipped.Discovery | pkg/client/search/interface.go:33-103 | On the shipped table syncs never panic and end serving the same; the list of apps/v1 stays complete and that of the core group does not. |
| Shipped.CoreDocument | pkg/client/search/interface.go:51-101 | After any complete syncs `/api/v1` serves exactly these four entries, only namespaces not being namespaced. |
| Shipped.AppsDocuments | pkg/client/search/interface.go:34-50 | After any complete syncs these are the documents of `apps/v1`, of the group `apps` and of the aggregated store. |
| Shipped.PodStatus | pkg/client/search/interface.go:58-64 | A listed pod's printed status stands under the header Status, and nil for a pod without one. |
| Shipped.AgeColumns | pkg/client/search/interface.go:41-100 | The Age column that each shipped column list ends in shows the default printer's age. |

## Left out

- Kubeconfig.ConfigFile.Modify: a failing write leaves the file as it was; partly written files and the merging of several kubeconfig files are not modelled.
- Addressing.ClientPath: a client that refuses some characters, or keeps `#` as a part of the path; chars are single bytes, and whether an authority is a valid host is not modelled.
- Addressing.CleanClientPath: API paths are clean themselves; a trailing slash of the API path that a client preserves is not modelled.
- Controller.DiscoveryController.Interfere: its body writes nothing; callers rely only on its contract, which any writes of `Sync` meet.
- GatewayHandler.Proxy: the reverse proxy's transport is not modelled; its bad-gateway answer counts as the one forwarded response, and the slash it puts before the rewritten path is its own.
- DiscoveryModel.Apply: appending to the captured slice, looking a handler up and reading its list are one atomic step each, at moments of their own; Go's memory model for the unlocked slice is not modelled.
- Handlers.ResourceManager.AddGroupVersion: priorities, freshness and caching in the aggregated store are not modelled.
- Http.IsResourcePath: of the request-info filter only the classification of paths is modelled; verb, resource and subresource are inputs.
- Tables.CellForJSONValue: floats are reals, so the rounding of a large integer shown as a number and the result of truncating one out of range are not modelled.
- Tables.PrintResults: the text of a value is an arbitrary function; full JSONPath evaluation is one as well.
- Search.List: sending the query and the limit of 100 results; the reply is an arbitrary input.
- Search.PrinterfFor: a resource without a converter; every shipped resource has one.
- Serializers, schemes, the coercing decoder and the request scope in `handler.go`: library wiring over an empty schema map.
- Token lookup, TLS, logging, metrics instrumentation, option parsing and server start-up: foreign calls and plumbing.
- `tearDown`, `destroy`, the storage map and the REST storage: unused, empty or pure delegation.
