# Ownership tree of a Kubernetes object, modelled in Dafny

`tree` takes a kind, a name and a namespace. It discovers the cluster's API
resources, resolves the kind to one resource type, lists every namespaced
object and indexes the objects by owner reference. It then reports which
objects the named object owns. This project models the logic of
`tree/main.go` between those cluster calls, with the calls themselves
replaced by inputs. The project has four parts:

- **Catalog** (`catalog.dfy`) models `contains`, `apiNames`, `findAPIs`,
  `fullAPIName`, `resourceMap.lookup` and `resources`.
  - The discovery response is an input: a sequence of resource lists.
    Each list carries its group/version string and the already-parsed
    group/version (`Err` with the parser's error text when it does not parse).
  - `FindAPIs` keeps the source's nested loops. They are proved equal to
    two reference definitions. `Included` is the listable resources in
    discovery order. `IndexOf` is the name index. Each index entry is also
    proved equal to `Select`, which states directly which resources, in
    which order, an entry holds.
- **Resolver** (`resolver.dfy`) models `overrideType` and the resolution
  branch of `run`.
  - Both are pure functions. Resolution returns a result value: one
    resource, `NotFound`, or `Ambiguous` with the candidate names.
  - The override table is also given as data (`OverrideKeys`), and
    `overrideType` is proved equal to the table's first hit.
- **Directory** (`directory.dfy`) models `newObjectDirectory`.
  - Its loop is proved to build exactly `Ownership(objs)`: child `c` is
    stored under owner `o` exactly when some object with uid `c` names
    `o` as an owner.
  - The `items` map keeps the last object of each uid.
- **Fetcher** (`fetcher.dfy`) models the pagination loop of `queryAPI` and
  a sequential `getAllResources`.
  - The cluster is a function from (resource, namespace) to the
    responses of successive list requests. The loop is proved to send each
    response's continuation token with the next request, to stop at the
    first response without a token, and to return the items in request
    order or the failure.

`Text` (`text.dfy`) models `strings.ToLower` on ASCII. `Wrappers`
(`wrappers.dfy`) holds `Option` and `Result`.

The code is followed where it is stricter or different than a plain reading
of its intent:

- Index keys are registered with their own spelling. Only `lookup`
  lower-cases its argument (tree/main.go:220 against 255). A key is
  therefore found case-insensitively only when it is itself lower-case
  (`LookupFindsAlias` requires this). A key with an upper-case letter is
  never consulted (`MixedCaseKeyUnreachable`).
- `getAllResources` returns the items it merged together with the error.
  Its callers drop the items when the error is set
  (tree/main.go:82-85 and tree/rootcmd.go:81-84). The model returns the error alone. The loop of
  `GetAllResources` keeps the items merged so far equal to `Merged` as an
  invariant, whether or not a listing failed, but its contract does not
  return them on failure.

## Model

| member | source | states |
|---|---|---|
| `Catalog.Contains` | tree/main.go:263-270 | The result is true exactly when `s` occurs in `v`. |
| `Catalog.ApiNames` | tree/main.go:273-291 | Returns exactly three names for each of the 2 + (number of short names) base names. For each base name `n` (singular, plural, then each short name, in order) they are `n`, `n.group`, `n.version.group`. |
| `Catalog.SingularFallback` | tree/main.go:275-279 | The first three aliases use the lower-cased kind when the singular name is empty, and the singular name otherwise. |
| `Catalog.GVR` | tree/main.go:204-210 | No contract of its own: it copies the group, the version and the plural name. `FullAPIName` states what joining them gives. |
| `Catalog.FullAPIName` | tree/main.go:225-228 | The full name is the plural name's `name.version.group` alias, so it is one of the resource's own keys. For the core group it ends in a dot. |
| `Catalog.AliasForms` | tree/main.go:281-287 | Every alias is one of the three forms `n`, `n.group`, `n.version.group` of some base name `n`. |
| `Catalog.RegisterNames` | tree/main.go:254-256 | The inner loop ends with the map `Register` specifies: the resource appended to each name's entry in turn, a missing key starting empty. |
| `Catalog.CatalogResource` | tree/main.go:249-257 | Cataloguing one listable resource appends it to the list and keeps the map equal to the index of the longer list. |
| `Catalog.RegisterEffect` | tree/main.go:254-256 | Registering a name list appends the resource to a key's entry once per occurrence of the key in the list. It adds no key outside the list. |
| `Catalog.IndexMatchesSelect` | tree/main.go:245-258 | Every index entry lists the resources registering that key in discovery order, once per occurrence. A key is present exactly when that list is non-empty. |
| `Catalog.SelectMembers` | tree/main.go:253-256 | A resource is in an entry exactly when it is catalogued and the key is one of its aliases. |
| `Catalog.IndexComplete` | tree/main.go:253-256 | Every alias of every catalogued resource is a key, and its entry holds the resource. |
| `Catalog.IndexSound` | tree/main.go:253-256 | An entry only holds catalogued resources that register its key. |
| `Catalog.CatalogGroup` | tree/main.go:245-258 | The loop over one group/version appends exactly its listable descriptors and keeps the map equal to their index. |
| `Catalog.FindAPIs` | tree/main.go:230-261 | A discovery failure is reported as such. Otherwise the call succeeds exactly when every group/version parses, and then returns the listable resources in discovery order with their index. Otherwise it fails with the first unparsable group/version string. |
| `Catalog.ListableMembers` | tree/main.go:245-252 | A resource is listable in a group/version exactly when its descriptor is there and supports "list". |
| `Catalog.IncludedMembers` | tree/main.go:239-258 | A resource is catalogued exactly when it supports "list" and some parsed group/version carries its descriptor. |
| `Catalog.IncludedPrefix` | tree/main.go:257 | The catalogue of a prefix of the response is a prefix of the whole catalogue: discovery order is kept. |
| `Catalog.Lookup` | tree/main.go:219-221 | No contract of its own: it reads `m[ToLower(s)]`, with the empty sequence for an absent key as Go's nil slice. `LookupCaseInsensitive`, `LookupFindsAlias`, `LookupSound` and `MixedCaseKeyUnreachable` state its properties. |
| `Catalog.Resources` | tree/main.go:223 | No contract of its own: it returns the ordered catalogue. `ResourcesListable`, `IncludedMembers` and `IncludedPrefix` state what it holds. |
| `Catalog.LookupCaseInsensitive` | tree/main.go:219-221 | `lookup(s) == lookup(ToLower(s))`, and an absent key gives the empty sequence. |
| `Catalog.MixedCaseKeyUnreachable` | tree/main.go:219-221 | No argument of `lookup` reaches a key that holds an upper-case letter. |
| `Catalog.LookupFindsAlias` | tree/main.go:219-221 | Looking up, in any case, a lower-case alias of a catalogued resource returns that resource. |
| `Catalog.LookupSound` | tree/main.go:219-221 | `lookup` returns the reference entry of the lower-cased name. Everything it returns is catalogued, listable and registers that name. |
| `Catalog.ResourcesListable` | tree/main.go:223 | `resources` only holds listable descriptors, each from its own parsed group/version and registered under all of its aliases. |
| `Text.ToLower` | tree/main.go:98 | No contract of its own: the ASCII lower-casing used for every `strings.ToLower` call (tree/main.go:98, 220 and 278). `ToLowerAt` and `ToLowerIdempotent` state its properties. |
| `Text.ToLowerAt` | tree/main.go:220 | Lower-casing keeps the length and lower-cases each character on its own. |
| `Text.ToLowerIdempotent` | tree/main.go:220 | Lower-casing twice equals lower-casing once, and the result is lower-case. |
| `Resolver.FirstHit` | tree/main.go:107-115 | Returns a resource exactly when some key's lookup is non-empty. It is then the first resource of the first such key. |
| `Resolver.OverrideType` | tree/main.go:97-118 | Compares the lower-cased kind. Service kinds take the first `service.v1.` resource. Deployment kinds take the first `deployment.v1.apps` resource, else the first `deployment.v1beta1.extensions` one. Any other kind, or an override whose keys are all empty, gives no override. |
| `Resolver.OverrideIsTable` | tree/main.go:100-117 | `overrideType` is the first non-empty hit of the lower-cased kind's row of the ordered override table. |
| `Resolver.FullNames` | tree/main.go:61-64 | The candidate names are, position by position, `fullAPIName` of each candidate. |
| `Resolver.Resolve` | tree/main.go:53-69 | An override wins even when the generic lookup is ambiguous. Otherwise: no match gives `NotFound(kind)` (and a `NotFound` error only ever names the kind asked for); several give `Ambiguous` with every candidate's full name in lookup order; exactly one match returns it. |
| `Resolver.ResolveCaseInsensitive` | tree/main.go:53-69 | Resolving the lower-cased kind gives the same resource, or the same kind of error: `NotFound` of the original kind exactly when `NotFound` of the lower-cased one, and `Ambiguous` with the same candidates. |
| `Resolver.ResolvedIsCatalogued` | tree/main.go:53-69 | A resolved resource is catalogued and listable. When it came from the generic index, it registers the lower-cased kind. |
| `Resolver.AmbiguousCandidatesResolvable` | tree/main.go:60-65 | Looking up a lower-case candidate name of an ambiguity error finds that candidate again. |
| `Resolver.KeysAreLower` | tree/main.go:102-112 | The three override keys are lower-case, so `lookup` reads them as written. |
| `Resolver.CoreServiceRegistersKey` | tree/main.go:286 | A core-group v1 descriptor with singular name "service" registers `service.v1.`, the key the Service override looks up. |
| `Resolver.ServicePrecedence` | tree/main.go:101-105 | With a core v1 Service catalogued, every Service kind resolves to the first resource registering `service.v1.`, however ambiguous the bare name. |
| `Resolver.DeploymentPrecedence` | tree/main.go:107-111 | With an apps/v1 Deployment catalogued, every Deployment kind resolves to the first resource registering `deployment.v1.apps`. |
| `Resolver.ExtensionLacksCoreServiceKey` | tree/main.go:281-287 | A resource whose group is non-empty and does not end in a dot, and none of whose base names is `service.v1.`, never registers `service.v1.`. |
| `Resolver.ServiceNeverExtension` | tree/main.go:101-105 | With a core v1 Service catalogued, no Service kind resolves to such an extension-group resource (for example Knative's Service). |
| `Resolver.SplitAtFirstDot` | tree/main.go:285-286 | Two dot-joined names whose heads hold no dot are equal only when heads and tails are equal. |
| `Resolver.OtherGroupLacksAppsDeploymentKey` | tree/main.go:281-287 | A resource with dot-free base names and version, in a group other than `apps` (and `v1.apps`, whose `n.group` form spells the same key), never registers `deployment.v1.apps`. |
| `Resolver.DeploymentNeverOtherGroup` | tree/main.go:107-111 | With an apps/v1 Deployment catalogued, no Deployment kind resolves to a Deployment of such another group, for example extensions/v1beta1. |
| `Directory.ChildSet` | tree/main.go:88 | No contract of its own: it reads `ownership[o]`, with the empty set for an absent key as Go's nil map. `ChildrenIff` and `NothingOwnedIff` state its properties. |
| `Directory.AddOwnersEffect` | tree/main.go:134-139 | Recording an object's references adds its uid to the children of exactly the owners it names, creating exactly those missing keys. |
| `Directory.RecordOwners` | tree/main.go:134-139 | The inner loop is the recording `AddOwners`. |
| `Directory.OwnershipStep` | tree/main.go:132-140 | One more object changes the intended relation exactly by that object's own owner edges. |
| `Directory.NewObjectDirectory` | tree/main.go:127-142 | `items` has exactly the input uids as keys, and stores the last object of each uid. `ownership` is exactly `Ownership(objs)`. |
| `Directory.ChildrenIff` | tree/main.go:127-142 | `c` is a child of `o` exactly when some input object with uid `c` has an owner reference with uid `o`. |
| `Directory.NothingOwnedIff` | tree/main.go:88-91 | An object has no children exactly when no input object names it as owner. |
| `Directory.OwnershipOrderFree` | tree/main.go:132-140 | The ownership relation depends only on which objects arrive, not on their order or repetitions. |
| `Directory.OwnershipPermutation` | tree/main.go:132-140 | Any permutation of the input gives the same ownership relation. |
| `Directory.OrphanOwnerIsKey` | tree/main.go:134-137 | For any input, an owner that some object names but whose uid no input object has is a key of `ownership`, holding that object among its children, and is not a key of `items`. |
| `Fetcher.FirstEnd` | tree/main.go:186-194 | The index returned is the first response that fails or has an empty token. |
| `Fetcher.QueryAPI` | tree/main.go:173-197 | Returns the listing of the first responses up to the one that ends it. Request 0 sends an empty token and request `i` sends response `i-1`'s token, always with limit 250. Exactly as many requests are sent as responses are read. |
| `Fetcher.ConcatItemsAppend` | tree/main.go:189 | Items of concatenated responses concatenate. |
| `Fetcher.ConcatItemsMembers` | tree/main.go:189 | An object is read exactly when some response read holds it. |
| `Fetcher.ListingMembers` | tree/main.go:178-196 | A successful listing holds exactly the items of the pages up to the first one without a token. |
| `Fetcher.FailureReturnsNoItems` | tree/main.go:186-188 | A page failure the loop reaches returns the error with the resource and the cause, and no items. |
| `Fetcher.LaterPagesIgnored` | tree/main.go:191-194 | Responses after the one without a token do not change the listing. |
| `Fetcher.ThreePages` | tree/main.go:178-196 | Three pages with tokens "t1", "t2", "" list all their items in order. |
| `Fetcher.NamespacedMembers` | tree/main.go:151-154 | A resource is queried exactly when it is in the input and namespaced. |
| `Fetcher.QueriedStep` | tree/main.go:156-166 | Querying one more resource extends the merge by its items, or the failures by its error. |
| `Fetcher.FailuresMembers` | tree/main.go:158-162 | An error is among the failures exactly when some queried listing fails with it. |
| `Fetcher.NoFailures` | tree/main.go:158-162 | There are no failures exactly when every queried listing succeeds. |
| `Fetcher.GetAllResources` | tree/main.go:145-171 | Only the listings of the namespaced resources, in input order, decide the result. It succeeds exactly when all of them list successfully, and then returns their items merged in query order. Otherwise it fails with the error of some failing resource. |
| `Fetcher.MergedContains` | tree/main.go:163-165 | The merged output holds every successful listing's items, with multiplicity. |
| `Fetcher.MergedCount` | tree/main.go:163-165 | The merged output is as long as the successful listings together. |

## Left out

- Kubeconfig and flag handling, and client construction (tree/main.go:24-46): configuration I/O.
- `ServerPreferredResources` (tree/main.go:231): replaced by the discovery response as an input, whose failure is a `Result` error.
- `schema.ParseGroupVersion` (tree/main.go:240): a library parser outside this model. Each resource list carries its parse result as a `Result`: the group/version, or the parser's error text.
- The `ri.Get` of the named object (tree/main.go:71-80): a network call. The directory lemmas take the object's uid as a parameter instead.
- `intf.List` (tree/main.go:182-185): the server is a function giving the successive responses of one listing. The model does not let a response depend on the options sent. Instead, `QueryAPI` records the options of every request, so the token protocol is stated.
- Fetcher.QueryAPI: requires the server's responses to end, meaning some response fails or carries no token. Against a server that never ends, the source loops forever.
- Fetcher.GetAllResources: concurrency is not modelled. The goroutines, `sync.WaitGroup`, `sync.Mutex` and the unsynchronised write of `errResult` (tree/main.go:146-170) are sequentialised in input order. The model merges successful listings in query order, where the source appends them in completion order. No claim is made about which error is reported when several listings fail; the contract only says it is the error of one of them.
- Error message texts (`%q`, `%w`, `strings.Join` of the candidates at tree/main.go:59-66, 187, 233, 242): errors are datatypes carrying the same data. A parse failure carries the group/version string and the parser's error text. The candidates are a sequence.
- Printing the directory and the "No resources are owned" message (tree/main.go:88-92): output. `NothingOwnedIff` states when that message is printed.
- tree/rootcmd.go: a second copy of the command wiring with logging. It adds no logic beyond what is modelled here.
- Text.ToLower: only ASCII letters are lower-cased, where Go's `strings.ToLower` maps all of Unicode.
