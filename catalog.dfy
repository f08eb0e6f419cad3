/** The resource catalog: the discovery response turned into an ordered list
    of listable resource types plus a name -> candidates index
    (`findAPIs`, `apiNames`, `contains`, `resourceMap` in tree/main.go). */
module Catalog {
  import opened Wrappers
  import opened Text

  /** schema.GroupVersion, already parsed. The core group has group "". */
  datatype GroupVersion = GroupVersion(group: string, version: string)

  /** metav1.APIResource: one resource descriptor of a discovery response. */
  datatype Descriptor = Descriptor(
    name: string,          // the plural name, e.g. "deployments"
    singularName: string,  // may be empty
    namespaced: bool,
    kind: string,
    verbs: seq<string>,
    shortNames: seq<string>)

  /** metav1.APIResourceList: one group/version of the discovery response.
      `parsed` is what schema.ParseGroupVersion made of `groupVersion`:
      the group/version, or the parser's error. */
  datatype ResourceList = ResourceList(
    groupVersion: string,
    parsed: Result<GroupVersion, string>,
    resources: seq<Descriptor>)

  /** apiResource: a descriptor together with its group/version. */
  datatype ApiResource = ApiResource(r: Descriptor, gv: GroupVersion)

  /** schema.GroupVersionResource. */
  datatype GroupVersionResource = GroupVersionResource(group: string, version: string, resource: string)

  /** resourceMap: the ordered list and the name index. */
  datatype ResourceMap = ResourceMap(list: seq<ApiResource>, m: map<string, seq<ApiResource>>)

  datatype CatalogError =
    | DiscoveryFailed(cause: string)        // ServerPreferredResources failed
    | BadGroupVersion(groupVersion: string, cause: string) // ParseGroupVersion failed

  /** The verb a descriptor must support to be catalogued. */
  const ListVerb: string := "list"

  // ---------------------------------------------------------------------
  // contains

  /** `contains`: linear search for `s` in `v`. */
  method Contains(v: seq<string>, s: string) returns (found: bool)
    ensures found <==> s in v
  {
    var i := 0;
    while i < |v|
      invariant 0 <= i <= |v|
      invariant forall j | 0 <= j < i :: v[j] != s
    {
      if v[i] == s {
        return true;
      }
      i := i + 1;
    }
    return false;
  }

  // ---------------------------------------------------------------------
  // apiNames

  /** The singular name, falling back to the lower-cased kind. */
  function SingularOf(d: Descriptor): string
  {
    if d.singularName == "" then ToLower(d.kind) else d.singularName
  }

  /** The base names: singular, plural, then every short name. */
  function BaseNames(d: Descriptor): seq<string>
  {
    [SingularOf(d), d.name] + d.shortNames
  }

  /** The group-qualified key form `n.group`. */
  function GroupQualifiedName(n: string, gv: GroupVersion): string
  {
    n + "." + gv.group
  }

  /** The fully-qualified key form `n.version.group`. */
  function QualifiedName(n: string, gv: GroupVersion): string
  {
    n + "." + gv.version + "." + gv.group
  }

  /** The three keys of one base name: bare, `n.group`, `n.version.group`. */
  function Qualify(n: string, gv: GroupVersion): seq<string>
  {
    [n, GroupQualifiedName(n, gv), QualifiedName(n, gv)]
  }

  /** The keys of every base name in turn. */
  function QualifyAll(ns: seq<string>, gv: GroupVersion): (r: seq<string>)
    ensures |r| == 3 * |ns|
    ensures forall i | 0 <= i < |ns| ::
      r[3 * i] == ns[i] &&
      r[3 * i + 1] == GroupQualifiedName(ns[i], gv) &&
      r[3 * i + 2] == QualifiedName(ns[i], gv)
  {
    if ns == [] then []
    else
      var r := QualifyAll(ns[..|ns| - 1], gv) + Qualify(ns[|ns| - 1], gv);
      assert forall i | 0 <= i < |ns| - 1 :: ns[..|ns| - 1][i] == ns[i];
      r
  }

  /** Every name that can refer to descriptor `d` in group/version `gv`. */
  function AliasNames(d: Descriptor, gv: GroupVersion): seq<string>
  {
    QualifyAll(BaseNames(d), gv)
  }

  /** `k` is one of the three key forms of base name `n`. */
  predicate KeyForm(n: string, gv: GroupVersion, k: string)
  {
    k == n || k == GroupQualifiedName(n, gv) || k == QualifiedName(n, gv)
  }

  /** Every alias of a descriptor is one of the key forms of one of its
      base names. */
  lemma AliasForms(d: Descriptor, gv: GroupVersion, k: string)
    requires k in AliasNames(d, gv)
    ensures exists i | 0 <= i < |BaseNames(d)| :: KeyForm(BaseNames(d)[i], gv, k)
  {
    var r := AliasNames(d, gv);
    var j :| 0 <= j < |r| && r[j] == k;
    var i := j / 3;
    assert j == 3 * i || j == 3 * i + 1 || j == 3 * i + 2;
    assert KeyForm(BaseNames(d)[i], gv, k);
  }

  /** `apiNames`: builds the alias list by repeated appends. */
  method ApiNames(a: Descriptor, gv: GroupVersion) returns (out: seq<string>)
    ensures out == AliasNames(a, gv)
    ensures |out| == 3 * (2 + |a.shortNames|)
    ensures out[0] == SingularOf(a) && out[3] == a.name
    ensures forall i | 0 <= i < 2 + |a.shortNames| ::
      out[3 * i] == BaseNames(a)[i] &&
      out[3 * i + 1] == GroupQualifiedName(BaseNames(a)[i], gv) &&
      out[3 * i + 2] == QualifiedName(BaseNames(a)[i], gv)
  {
    var singularName := a.singularName;
    if singularName == "" {
      singularName := ToLower(a.kind);
    }
    var names := [singularName, a.name] + a.shortNames;
    out := [];
    for i := 0 to |names|
      invariant out == QualifyAll(names[..i], gv)
    {
      var n := names[i];
      assert names[..i + 1][..i] == names[..i];
      out := out + [n, GroupQualifiedName(n, gv), QualifiedName(n, gv)];
    }
    assert names[..|names|] == names;
    assert BaseNames(a)[1] == a.name;
  }

  /** A descriptor's own alias list registers its singular name (or the
      lower-cased kind) under all three forms, in that order. */
  lemma SingularFallback(d: Descriptor, gv: GroupVersion)
    ensures d.singularName == "" ==> AliasNames(d, gv)[..3] == Qualify(ToLower(d.kind), gv)
    ensures d.singularName != "" ==> AliasNames(d, gv)[..3] == Qualify(d.singularName, gv)
  {
    var r := AliasNames(d, gv);
    assert r[0] == BaseNames(d)[0];
  }

  // ---------------------------------------------------------------------
  // GroupVersionResource and fullAPIName

  /** `GroupVersionResource` of an apiResource. */
  function GVR(a: ApiResource): GroupVersionResource
  {
    GroupVersionResource(a.gv.group, a.gv.version, a.r.name)
  }

  /** `fullAPIName`: resource, version and group joined by dots. It is
      exactly the fully-qualified key `apiNames` registers for the plural
      name, and for the core group it ends in a dot. */
  function FullAPIName(a: ApiResource): (r: string)
    ensures r == AliasNames(a.r, a.gv)[5]
    ensures r in AliasNames(a.r, a.gv)
    ensures a.gv.group == "" ==> |r| > 0 && r[|r| - 1] == '.'
  {
    var sgv := GVR(a);
    var r := QualifiedName(sgv.resource, GroupVersion(sgv.group, sgv.version));
    assert BaseNames(a.r)[1] == a.r.name;
    r
  }

  // ---------------------------------------------------------------------
  // The index: its loop-shaped definition and a reference definition

  /** An index entry, `nil` (empty) when the key is absent. */
  function Get(m: map<string, seq<ApiResource>>, k: string): seq<ApiResource>
  {
    if k in m then m[k] else []
  }

  /** `n` copies of `v`. */
  function Repeat(v: ApiResource, n: nat): (r: seq<ApiResource>)
    ensures |r| == n
    ensures forall i | 0 <= i < n :: r[i] == v
  {
    seq(n, _ => v)
  }

  /** `rm.m[name] = append(rm.m[name], v)` for each name in turn. */
  function Register(m: map<string, seq<ApiResource>>, names: seq<string>, v: ApiResource): map<string, seq<ApiResource>>
  {
    if names == [] then m
    else
      var m' := Register(m, names[..|names| - 1], v);
      var k := names[|names| - 1];
      m'[k := Get(m', k) + [v]]
  }

  /** The index after registering every resource of `list` in order. */
  function IndexOf(list: seq<ApiResource>): map<string, seq<ApiResource>>
  {
    if list == [] then map[]
    else
      var v := list[|list| - 1];
      Register(IndexOf(list[..|list| - 1]), AliasNames(v.r, v.gv), v)
  }

  /** How many times resource `v` registers key `k`. */
  function Weight(v: ApiResource, k: string): nat
  {
    multiset(AliasNames(v.r, v.gv))[k]
  }

  /** Reference definition of one index entry: the resources of `list`, in
      list order, each once per occurrence of `k` among its alias names. */
  function Select(list: seq<ApiResource>, k: string): seq<ApiResource>
  {
    if list == [] then []
    else
      var v := list[|list| - 1];
      Select(list[..|list| - 1], k) + Repeat(v, Weight(v, k))
  }

  lemma {:induction false} RegisterEffect(m: map<string, seq<ApiResource>>, names: seq<string>, v: ApiResource, k: string)
    ensures Get(Register(m, names, v), k) == Get(m, k) + Repeat(v, multiset(names)[k])
    ensures k in Register(m, names, v) <==> k in m || k in names
  {
    if names != [] {
      var init := names[..|names| - 1];
      var last := names[|names| - 1];
      assert names == init + [last];
      RegisterEffect(m, init, v, k);
      assert multiset(names) == multiset(init) + multiset{last};
      if last == k {
        assert Repeat(v, multiset(names)[k]) == Repeat(v, multiset(init)[k]) + [v];
      }
    }
  }

  lemma {:induction false} SelectMembers(list: seq<ApiResource>, k: string, w: ApiResource)
    ensures w in Select(list, k) <==> w in list && k in AliasNames(w.r, w.gv)
  {
    if list != [] {
      var init := list[..|list| - 1];
      var v := list[|list| - 1];
      assert list == init + [v];
      SelectMembers(init, k, w);
      var tail := Repeat(v, Weight(v, k));
      assert Select(list, k) == Select(init, k) + tail;
      assert w in tail <==> w == v && Weight(v, k) > 0 by {
        if w in tail { assert tail[0] == v; }
        if w == v && Weight(v, k) > 0 { assert tail[0] == w; }
      }
      assert k in AliasNames(v.r, v.gv) <==> Weight(v, k) > 0;
      assert w in list <==> w in init || w == v;
    }
  }

  /** Each index entry is exactly the reference entry: the registering loop
      lists every resource in discovery order, once per alias occurrence,
      and a key is present exactly when some resource registers it. */
  lemma {:induction false} IndexMatchesSelect(list: seq<ApiResource>, k: string)
    ensures Get(IndexOf(list), k) == Select(list, k)
    ensures k in IndexOf(list) <==> Select(list, k) != []
  {
    if list != [] {
      var init := list[..|list| - 1];
      var v := list[|list| - 1];
      assert list == init + [v];
      IndexMatchesSelect(init, k);
      RegisterEffect(IndexOf(init), AliasNames(v.r, v.gv), v, k);
      assert k in AliasNames(v.r, v.gv) <==> Weight(v, k) > 0;
    }
  }

  /** Every alias of every resource is a key whose entry holds it. */
  lemma IndexComplete(list: seq<ApiResource>, v: ApiResource, k: string)
    requires v in list && k in AliasNames(v.r, v.gv)
    ensures k in IndexOf(list) && v in IndexOf(list)[k]
  {
    IndexMatchesSelect(list, k);
    SelectMembers(list, k, v);
  }

  /** An index entry only holds resources of the list that register its key. */
  lemma IndexSound(list: seq<ApiResource>, k: string, w: ApiResource)
    requires k in IndexOf(list) && w in IndexOf(list)[k]
    ensures w in list && k in AliasNames(w.r, w.gv)
  {
    IndexMatchesSelect(list, k);
    SelectMembers(list, k, w);
  }

  // ---------------------------------------------------------------------
  // findAPIs

  /** The listable descriptors of one group/version, in discovery order. */
  function Listable(ds: seq<Descriptor>, gv: GroupVersion): seq<ApiResource>
  {
    if ds == [] then []
    else
      var d := ds[|ds| - 1];
      Listable(ds[..|ds| - 1], gv) + (if ListVerb in d.verbs then [ApiResource(d, gv)] else [])
  }

  /** The catalogued resources of a discovery response, in discovery order. */
  function Included(groups: seq<ResourceList>): seq<ApiResource>
  {
    if groups == [] then []
    else
      var g := groups[|groups| - 1];
      Included(groups[..|groups| - 1]) + (if g.parsed.Ok? then Listable(g.resources, g.parsed.value) else [])
  }

  /** The resource map a successful `findAPIs` returns for `groups`. */
  predicate IsCatalog(rm: ResourceMap, groups: seq<ResourceList>)
  {
    rm.list == Included(groups) && rm.m == IndexOf(rm.list)
  }

  /** Every group/version string of the response could be parsed. */
  predicate AllParsed(groups: seq<ResourceList>)
  {
    forall i | 0 <= i < |groups| :: groups[i].parsed.Ok?
  }

  lemma AllParsedStep(groups: seq<ResourceList>, n: nat)
    requires n < |groups|
    ensures AllParsed(groups[..n + 1]) <==> AllParsed(groups[..n]) && groups[n].parsed.Ok?
  {
    assert forall i | 0 <= i < n :: groups[..n + 1][i] == groups[..n][i];
    assert groups[..n + 1][n] == groups[n];
  }

  /** The innermost loop of `findAPIs`: `rm.m[name] = append(rm.m[name], v)`
      for every name in turn. */
  method RegisterNames(m0: map<string, seq<ApiResource>>, names: seq<string>, v: ApiResource)
    returns (m: map<string, seq<ApiResource>>)
    ensures m == Register(m0, names, v)
  {
    m := m0;
    var ni := 0;
    while ni < |names|
      invariant 0 <= ni <= |names|
      invariant m == Register(m0, names[..ni], v)
    {
      var name := names[ni];
      assert names[..ni + 1][..ni] == names[..ni];
      m := m[name := Get(m, name) + [v]];
      ni := ni + 1;
    }
    assert names[..|names|] == names;
  }

  lemma ListableStep(ds: seq<Descriptor>, n: nat, gv: GroupVersion)
    requires n < |ds|
    ensures Listable(ds[..n + 1], gv) ==
      Listable(ds[..n], gv) + (if ListVerb in ds[n].verbs then [ApiResource(ds[n], gv)] else [])
  {
    assert ds[..n + 1][..n] == ds[..n];
  }

  /** One listable resource: registered under each of its aliases, then
      appended to the list. */
  method CatalogResource(list0: seq<ApiResource>, m0: map<string, seq<ApiResource>>, v: ApiResource)
    returns (list: seq<ApiResource>, m: map<string, seq<ApiResource>>)
    requires m0 == IndexOf(list0)
    ensures list == list0 + [v]
    ensures m == IndexOf(list)
  {
    var names := ApiNames(v.r, v.gv);
    m := RegisterNames(m0, names, v);
    list := list0 + [v];
    assert list[..|list0|] == list0;
  }

  /** The loop of `findAPIs` over the descriptors of one group/version:
      each listable one is registered under its aliases and appended. */
  method CatalogGroup(list0: seq<ApiResource>, m0: map<string, seq<ApiResource>>, ds: seq<Descriptor>, gv: GroupVersion)
    returns (list: seq<ApiResource>, m: map<string, seq<ApiResource>>)
    requires m0 == IndexOf(list0)
    ensures list == list0 + Listable(ds, gv)
    ensures m == IndexOf(list)
  {
    list, m := list0, m0;
    var ri := 0;
    while ri < |ds|
      invariant 0 <= ri <= |ds|
      invariant list == list0 + Listable(ds[..ri], gv)
      invariant m == IndexOf(list)
    {
      var apiRes := ds[ri];
      ListableStep(ds, ri, gv);
      var listable := Contains(apiRes.verbs, ListVerb);
      if listable {
        list, m := CatalogResource(list, m, ApiResource(apiRes, gv));
      }
      ri := ri + 1;
    }
    assert ds[..|ds|] == ds;
  }

  /** `findAPIs` over an already-fetched discovery response. It fails with
      the first group/version that does not parse, and otherwise returns the
      listable descriptors in order together with their name index. */
  method FindAPIs(discovery: Result<seq<ResourceList>, string>) returns (res: Result<ResourceMap, CatalogError>)
    ensures discovery.Err? ==> res == Err(DiscoveryFailed(discovery.error))
    ensures discovery.Ok? ==> (res.Ok? <==> AllParsed(discovery.value))
    ensures discovery.Ok? && res.Ok? ==> IsCatalog(res.value, discovery.value)
    ensures discovery.Ok? && res.Err? ==>
      exists i | 0 <= i < |discovery.value| ::
        discovery.value[i].parsed.Err? && AllParsed(discovery.value[..i]) &&
        res.error == BadGroupVersion(discovery.value[i].groupVersion, discovery.value[i].parsed.error)
  {
    if discovery.Err? {
      return Err(DiscoveryFailed(discovery.error));
    }
    var groups := discovery.value;
    var list: seq<ApiResource> := [];
    var m: map<string, seq<ApiResource>> := map[];
    var gi := 0;
    while gi < |groups|
      invariant 0 <= gi <= |groups|
      invariant AllParsed(groups[..gi])
      invariant list == Included(groups[..gi])
      invariant m == IndexOf(list)
    {
      var group := groups[gi];
      assert groups[..gi + 1][..gi] == groups[..gi];
      if group.parsed.Err? {
        assert groups[gi].parsed.Err? && AllParsed(groups[..gi]);
        res := Err(BadGroupVersion(group.groupVersion, group.parsed.error));
        return;
      }
      assert Included(groups[..gi + 1]) == Included(groups[..gi]) + Listable(group.resources, group.parsed.value);
      AllParsedStep(groups, gi);
      list, m := CatalogGroup(list, m, group.resources, group.parsed.value);
      gi := gi + 1;
    }
    assert groups[..|groups|] == groups;
    return Ok(ResourceMap(list, m));
  }

  lemma {:induction false} ListableMembers(ds: seq<Descriptor>, gv: GroupVersion, v: ApiResource)
    ensures v in Listable(ds, gv) <==> v.gv == gv && v.r in ds && ListVerb in v.r.verbs
  {
    if ds != [] {
      var init := ds[..|ds| - 1];
      assert ds == init + [ds[|ds| - 1]];
      ListableMembers(init, gv, v);
    }
  }

  /** A resource is catalogued exactly when some parsed group/version of the
      response carries its descriptor and the descriptor supports "list". */
  lemma {:induction false} IncludedMembers(groups: seq<ResourceList>, v: ApiResource)
    ensures v in Included(groups) <==>
      ListVerb in v.r.verbs &&
      exists i | 0 <= i < |groups| :: groups[i].parsed == Ok(v.gv) && v.r in groups[i].resources
  {
    if groups != [] {
      var init := groups[..|groups| - 1];
      var g := groups[|groups| - 1];
      IncludedMembers(init, v);
      if g.parsed.Ok? {
        ListableMembers(g.resources, g.parsed.value, v);
      }
      CarriedByPrefix(groups, init, g, v);
    }
  }

  /** Some group/version of `groups` carries `v` exactly when one of `init`
      does or the last one, `g`, does. */
  lemma CarriedByPrefix(groups: seq<ResourceList>, init: seq<ResourceList>, g: ResourceList, v: ApiResource)
    requires groups == init + [g]
    ensures (exists i | 0 <= i < |groups| :: groups[i].parsed == Ok(v.gv) && v.r in groups[i].resources) <==>
      (exists i | 0 <= i < |init| :: init[i].parsed == Ok(v.gv) && v.r in init[i].resources) ||
      (g.parsed == Ok(v.gv) && v.r in g.resources)
  {
    if exists i | 0 <= i < |groups| :: groups[i].parsed == Ok(v.gv) && v.r in groups[i].resources {
      var i :| 0 <= i < |groups| && groups[i].parsed == Ok(v.gv) && v.r in groups[i].resources;
      if i < |init| {
        assert init[i] == groups[i];
      }
    }
    if exists i | 0 <= i < |init| :: init[i].parsed == Ok(v.gv) && v.r in init[i].resources {
      var i :| 0 <= i < |init| && init[i].parsed == Ok(v.gv) && v.r in init[i].resources;
      assert groups[i] == init[i];
    }
    assert groups[|init|] == g;
  }

  /** Discovery order is kept: the catalogue of a longer response extends the
      catalogue of its prefix. */
  lemma {:induction false} IncludedPrefix(groups: seq<ResourceList>, n: nat)
    requires n <= |groups|
    ensures Included(groups[..n]) <= Included(groups)
  {
    if n < |groups| {
      var init := groups[..|groups| - 1];
      assert groups[..n] == init[..n];
      IncludedPrefix(init, n);
    } else {
      assert groups[..n] == groups;
    }
  }

  // ---------------------------------------------------------------------
  // lookup and resources

  /** `lookup`: the entry of the lower-cased name, empty when absent. */
  function Lookup(rm: ResourceMap, s: string): seq<ApiResource>
  {
    Get(rm.m, ToLower(s))
  }

  /** `resources`: the catalogue in discovery order. */
  function Resources(rm: ResourceMap): seq<ApiResource>
  {
    rm.list
  }

  /** Lookup does not distinguish a name from its lower-cased form. */
  lemma LookupCaseInsensitive(rm: ResourceMap, s: string)
    ensures Lookup(rm, s) == Lookup(rm, ToLower(s))
    ensures ToLower(s) !in rm.m ==> Lookup(rm, s) == []
  {
    ToLowerIdempotent(s);
  }

  /** Keys are registered with their own spelling while `lookup` lower-cases
      its argument, so a key holding an upper-case letter is never consulted. */
  lemma MixedCaseKeyUnreachable(rm: ResourceMap, s: string, k: string)
    requires !IsLower(k)
    ensures ToLower(s) != k
  {
    ToLowerIdempotent(s);
  }

  /** Looking up a lower-case alias of a catalogued resource, in any case,
      returns that resource among the results. */
  lemma LookupFindsAlias(rm: ResourceMap, groups: seq<ResourceList>, v: ApiResource, k: string, s: string)
    requires IsCatalog(rm, groups)
    requires v in Resources(rm) && k in AliasNames(v.r, v.gv)
    requires ToLower(s) == k
    ensures v in Lookup(rm, s)
  {
    IndexComplete(rm.list, v, k);
  }

  /** Everything lookup returns is a catalogued, listable resource that
      registers the lower-cased name, and lookup lists the candidates in
      discovery order (the reference entry `Select`). */
  lemma LookupSound(rm: ResourceMap, groups: seq<ResourceList>, s: string, w: ApiResource)
    requires IsCatalog(rm, groups)
    ensures Lookup(rm, s) == Select(Resources(rm), ToLower(s))
    ensures w in Lookup(rm, s) ==> w in Resources(rm) && ToLower(s) in AliasNames(w.r, w.gv) && ListVerb in w.r.verbs
  {
    IndexMatchesSelect(rm.list, ToLower(s));
    SelectMembers(rm.list, ToLower(s), w);
    IncludedMembers(groups, w);
  }

  /** `resources` only holds listable descriptors, each from its own parsed
      group/version, and each is registered under all of its aliases. */
  lemma ResourcesListable(rm: ResourceMap, groups: seq<ResourceList>, v: ApiResource)
    requires IsCatalog(rm, groups)
    requires v in Resources(rm)
    ensures ListVerb in v.r.verbs
    ensures exists i | 0 <= i < |groups| :: groups[i].parsed == Ok(v.gv) && v.r in groups[i].resources
    ensures forall k | k in AliasNames(v.r, v.gv) :: k in rm.m && v in rm.m[k]
  {
    IncludedMembers(groups, v);
    forall k | k in AliasNames(v.r, v.gv)
      ensures k in rm.m && v in rm.m[k]
    {
      IndexComplete(rm.list, v, k);
    }
  }
}
