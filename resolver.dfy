/** Kind resolution: the hard-coded override table (`overrideType`) tried
    before the generic index, and the three outcomes of the generic lookup
    (the resolution branch of `run` in tree/main.go). */
module Resolver {
  import opened Wrappers
  import opened Text
  import opened Catalog

  /** Kinds the override table redirects to the core-group Service. */
  const ServiceKinds: set<string> := {"svc", "service", "services"}
  /** Kinds the override table redirects to a Deployment. */
  const DeploymentKinds: set<string> := {"deploy", "deployment", "deployments"}

  /** "service.v1.": the Service of the core group (whose group is empty). */
  const CoreServiceKey: string := QualifiedName("service", GroupVersion("", "v1"))
  /** "deployment.v1.apps". */
  const AppsDeploymentKey: string := QualifiedName("deployment", GroupVersion("apps", "v1"))
  /** "deployment.v1beta1.extensions". */
  const ExtensionsDeploymentKey: string := QualifiedName("deployment", GroupVersion("extensions", "v1beta1"))

  /** The first resource of the first key, in order, whose lookup is
      non-empty. */
  function FirstHit(rm: ResourceMap, keys: seq<string>): (r: Option<ApiResource>)
    ensures r.Some? <==> exists i | 0 <= i < |keys| :: Lookup(rm, keys[i]) != []
    ensures r.Some? ==>
      exists i | 0 <= i < |keys| ::
        Lookup(rm, keys[i]) != [] && r.value == Lookup(rm, keys[i])[0] &&
        forall j | 0 <= j < i :: Lookup(rm, keys[j]) == []
  {
    if keys == [] then None
    else if Lookup(rm, keys[0]) != [] then Some(Lookup(rm, keys[0])[0])
    else
      var r := FirstHit(rm, keys[1..]);
      assert forall i | 1 <= i < |keys| :: keys[1..][i - 1] == keys[i];
      r
  }

  /** `overrideType`: compares against the lower-cased kind. Service names
      prefer the core-group Service; Deployment names prefer apps/v1, then
      extensions/v1beta1; every other kind, and an override whose targets
      are all absent, yields no override. */
  function OverrideType(kind: string, rm: ResourceMap): (r: Option<ApiResource>)
    ensures ToLower(kind) in ServiceKinds ==>
      (r.Some? <==> Lookup(rm, CoreServiceKey) != []) &&
      (r.Some? ==> r.value == Lookup(rm, CoreServiceKey)[0])
    ensures ToLower(kind) in DeploymentKinds ==>
      (Lookup(rm, AppsDeploymentKey) != [] ==> r == Some(Lookup(rm, AppsDeploymentKey)[0])) &&
      (Lookup(rm, AppsDeploymentKey) == [] && Lookup(rm, ExtensionsDeploymentKey) != [] ==>
         r == Some(Lookup(rm, ExtensionsDeploymentKey)[0])) &&
      (Lookup(rm, AppsDeploymentKey) == [] && Lookup(rm, ExtensionsDeploymentKey) == [] ==> r.None?)
    ensures ToLower(kind) !in ServiceKinds + DeploymentKinds ==> r.None?
  {
    var k := ToLower(kind);
    assert ServiceKinds !! DeploymentKinds;
    if k in ServiceKinds then
      var out := Lookup(rm, CoreServiceKey);
      if |out| != 0 then Some(out[0]) else None
    else if k in DeploymentKinds then
      var out := Lookup(rm, AppsDeploymentKey);
      if |out| != 0 then Some(out[0])
      else
        var out' := Lookup(rm, ExtensionsDeploymentKey);
        if |out'| != 0 then Some(out'[0]) else None
    else None
  }

  /** The override table as data: for a lower-cased kind, the qualified
      names to try, in precedence order. */
  function OverrideKeys(kind: string): seq<string>
  {
    if kind in ServiceKinds then [CoreServiceKey]
    else if kind in DeploymentKinds then [AppsDeploymentKey, ExtensionsDeploymentKey]
    else []
  }

  /** `overrideType` is the ordered override table: the first key of the
      lower-cased kind's row whose lookup is non-empty wins, with the first
      resource of that lookup. */
  lemma OverrideIsTable(kind: string, rm: ResourceMap)
    ensures OverrideType(kind, rm) == FirstHit(rm, OverrideKeys(ToLower(kind)))
  {
    var keys := OverrideKeys(ToLower(kind));
    if ToLower(kind) in DeploymentKinds && ToLower(kind) !in ServiceKinds {
      assert keys[1..] == [ExtensionsDeploymentKey];
      assert keys[1..][1..] == [];
    } else if ToLower(kind) in ServiceKinds {
      assert keys[1..] == [];
    }
  }

  datatype ResolveError =
    | NotFound(kind: string)                              // "could not find api kind %q"
    | Ambiguous(kind: string, candidates: seq<string>)    // "ambiguous kind %q. use one of these ..."

  /** The fully-qualified names of a candidate list, in order. */
  function FullNames(rs: seq<ApiResource>): (names: seq<string>)
    ensures |names| == |rs|
    ensures forall i | 0 <= i < |rs| :: names[i] == FullAPIName(rs[i])
  {
    if rs == [] then []
    else
      var names := [FullAPIName(rs[0])] + FullNames(rs[1..]);
      assert forall i | 1 <= i < |rs| :: rs[1..][i - 1] == rs[i];
      names
  }

  /** The resolution branch of `run`: the override first, otherwise the
      generic lookup, which finds nothing, several candidates, or one. */
  function Resolve(kind: string, rm: ResourceMap): (r: Result<ApiResource, ResolveError>)
    ensures OverrideType(kind, rm).Some? ==> r == Ok(OverrideType(kind, rm).value)
    ensures r.Err? ==> OverrideType(kind, rm).None?
    ensures r == Err(NotFound(kind)) <==> OverrideType(kind, rm).None? && Lookup(rm, kind) == []
    ensures r.Err? && r.error.Ambiguous? ==>
      r.error.kind == kind &&
      |Lookup(rm, kind)| > 1 &&
      |r.error.candidates| == |Lookup(rm, kind)| &&
      forall i | 0 <= i < |Lookup(rm, kind)| :: r.error.candidates[i] == FullAPIName(Lookup(rm, kind)[i])
    ensures r.Ok? && OverrideType(kind, rm).None? ==> Lookup(rm, kind) == [r.value]
    ensures OverrideType(kind, rm).None? && |Lookup(rm, kind)| == 1 ==> r == Ok(Lookup(rm, kind)[0])
    ensures r.Err? && r.error.NotFound? ==> r.error.kind == kind
    ensures OverrideType(kind, rm).None? && |Lookup(rm, kind)| > 1 ==> r.Err? && r.error.Ambiguous?
  {
    match OverrideType(kind, rm)
    case Some(k) => Ok(k)
    case None =>
      var apiResults := Lookup(rm, kind);
      if |apiResults| == 0 then Err(NotFound(kind))
      else if |apiResults| > 1 then Err(Ambiguous(kind, FullNames(apiResults)))
      else Ok(apiResults[0])
  }

  /** Resolution depends on the kind only through its lower-cased form:
      resolving the lower-cased kind gives the same resource, or the same
      kind of error with the same candidates. */
  lemma ResolveCaseInsensitive(kind: string, rm: ResourceMap)
    ensures Resolve(kind, rm).Ok? ==> Resolve(ToLower(kind), rm) == Resolve(kind, rm)
    ensures Resolve(kind, rm).Err? <==> Resolve(ToLower(kind), rm).Err?
    ensures Resolve(kind, rm).Err? && Resolve(kind, rm).error.Ambiguous? ==>
      Resolve(ToLower(kind), rm) == Err(Ambiguous(ToLower(kind), Resolve(kind, rm).error.candidates))
    ensures Resolve(kind, rm) == Err(NotFound(kind)) <==> Resolve(ToLower(kind), rm) == Err(NotFound(ToLower(kind)))
  {
    ToLowerIdempotent(kind);
    LookupCaseInsensitive(rm, kind);
  }

  /** A successful resolution always yields a listable resource of the
      catalogue, and the one found through the generic index registers the
      lower-cased kind among its aliases. */
  lemma ResolvedIsCatalogued(kind: string, rm: ResourceMap, groups: seq<ResourceList>)
    requires IsCatalog(rm, groups)
    requires Resolve(kind, rm).Ok?
    ensures Resolve(kind, rm).value in Resources(rm)
    ensures ListVerb in Resolve(kind, rm).value.r.verbs
    ensures OverrideType(kind, rm).None? ==> ToLower(kind) in AliasNames(Resolve(kind, rm).value.r, Resolve(kind, rm).value.gv)
  {
    var v := Resolve(kind, rm).value;
    match OverrideType(kind, rm)
    case Some(k) =>
      OverrideIsTable(kind, rm);
      var keys := OverrideKeys(ToLower(kind));
      var i :| 0 <= i < |keys| && Lookup(rm, keys[i]) != [] && k == Lookup(rm, keys[i])[0];
      LookupSound(rm, groups, keys[i], k);
    case None =>
      LookupSound(rm, groups, kind, v);
  }

  /** Every candidate an ambiguity error lists is itself the fully-qualified
      key of that candidate, so looking it up (when it is lower-case) finds
      the candidate again. */
  lemma AmbiguousCandidatesResolvable(kind: string, rm: ResourceMap, groups: seq<ResourceList>, i: nat)
    requires IsCatalog(rm, groups)
    requires Resolve(kind, rm).Err? && Resolve(kind, rm).error.Ambiguous?
    requires i < |Resolve(kind, rm).error.candidates|
    requires IsLower(Resolve(kind, rm).error.candidates[i])
    ensures Lookup(rm, kind)[i] in Lookup(rm, Resolve(kind, rm).error.candidates[i])
  {
    var w := Lookup(rm, kind)[i];
    LookupSound(rm, groups, kind, w);
    LookupFindsAlias(rm, groups, w, FullAPIName(w), Resolve(kind, rm).error.candidates[i]);
  }

  /** The override keys are already lower-case, so `lookup` finds them
      under their own spelling. */
  lemma KeysAreLower()
    ensures IsLower(CoreServiceKey)
    ensures IsLower(AppsDeploymentKey)
    ensures IsLower(ExtensionsDeploymentKey)
  {
    CoreServiceKeyLower();
    AppsDeploymentKeyLower();
    ExtensionsDeploymentKeyLower();
  }

  lemma CoreServiceKeyLower()
    ensures IsLower(CoreServiceKey)
  {
    LowerQualified("service", GroupVersion("", "v1"));
  }

  lemma AppsDeploymentKeyLower()
    ensures IsLower(AppsDeploymentKey)
  {
    LowerQualified("deployment", GroupVersion("apps", "v1"));
  }

  lemma ExtensionsDeploymentKeyLower()
    ensures IsLower(ExtensionsDeploymentKey)
  {
    LowerQualified("deployment", GroupVersion("extensions", "v1beta1"));
  }

  /** A qualified name built from lower-case words is lower-case. */
  lemma LowerQualified(n: string, gv: GroupVersion)
    requires LowerWord(n) && LowerWord(gv.version) && LowerWord(gv.group)
    ensures IsLower(QualifiedName(n, gv))
  {
    LowerWordIsLower(n);
    LowerWordIsLower(gv.version);
    LowerWordIsLower(gv.group);
    LowerWordIsLower(".");
    ToLowerConcat(n, ".");
    ToLowerConcat(n + ".", gv.version);
    ToLowerConcat(n + "." + gv.version, ".");
    ToLowerConcat(n + "." + gv.version + ".", gv.group);
  }

  /** Lower-case letters, digits and dots only. */
  predicate LowerWord(w: string)
  {
    forall i | 0 <= i < |w| :: 'a' <= w[i] <= 'z' || '0' <= w[i] <= '9' || w[i] == '.'
  }

  lemma LowerWordIsLower(w: string)
    requires LowerWord(w)
    ensures IsLower(w)
  {
    ToLowerAt(w);
  }

  /** A v1 descriptor of the core group whose singular name (or, when that
      is empty, lower-cased kind) is "service" registers the key the
      Service override looks up. */
  lemma CoreServiceRegistersKey(a: ApiResource)
    requires a.gv == GroupVersion("", "v1") && SingularOf(a.r) == "service"
    ensures CoreServiceKey in AliasNames(a.r, a.gv)
  {
    assert AliasNames(a.r, a.gv)[2] == QualifiedName(BaseNames(a.r)[0], a.gv);
  }

  /** Override precedence: once the catalogue holds a core-group v1
      Service, every Service kind resolves (however ambiguous the bare name
      is) to the first catalogued resource registering "service.v1.". */
  lemma ServicePrecedence(kind: string, rm: ResourceMap, groups: seq<ResourceList>, core: ApiResource)
    requires IsCatalog(rm, groups)
    requires core in Resources(rm) && core.gv == GroupVersion("", "v1") && SingularOf(core.r) == "service"
    requires ToLower(kind) in ServiceKinds
    ensures Select(Resources(rm), CoreServiceKey) != []
    ensures Resolve(kind, rm) == Ok(Select(Resources(rm), CoreServiceKey)[0])
    ensures CoreServiceKey in AliasNames(Resolve(kind, rm).value.r, Resolve(kind, rm).value.gv)
  {
    CoreServiceRegistersKey(core);
    KeysAreLower();
    LookupFindsAlias(rm, groups, core, CoreServiceKey, CoreServiceKey);
    LookupSound(rm, groups, CoreServiceKey, Lookup(rm, CoreServiceKey)[0]);
  }

  /** Deployment precedence: with an apps/v1 Deployment catalogued, every
      Deployment kind resolves to the first resource registering
      "deployment.v1.apps", whatever extensions/v1beta1 holds. */
  lemma DeploymentPrecedence(kind: string, rm: ResourceMap, groups: seq<ResourceList>, apps: ApiResource)
    requires IsCatalog(rm, groups)
    requires apps in Resources(rm) && apps.gv == GroupVersion("apps", "v1") && SingularOf(apps.r) == "deployment"
    requires ToLower(kind) in DeploymentKinds
    ensures Select(Resources(rm), AppsDeploymentKey) != []
    ensures Resolve(kind, rm) == Ok(Select(Resources(rm), AppsDeploymentKey)[0])
    ensures AppsDeploymentKey in AliasNames(Resolve(kind, rm).value.r, Resolve(kind, rm).value.gv)
  {
    assert AliasNames(apps.r, apps.gv)[2] == QualifiedName(BaseNames(apps.r)[0], apps.gv);
    KeysAreLower();
    LookupFindsAlias(rm, groups, apps, AppsDeploymentKey, AppsDeploymentKey);
    LookupSound(rm, groups, AppsDeploymentKey, Lookup(rm, AppsDeploymentKey)[0]);
  }

  /** A dotted string ends with the last character of its tail. */
  lemma LastOfDotted(x: string, y: string)
    requires y != ""
    ensures (x + "." + y)[|x + "." + y| - 1] == y[|y| - 1]
  {
  }

  /** A resource outside the core group (whose group does not end in a dot),
      none of whose base names is "service.v1." itself, never registers
      "service.v1.": every other key form ends with the group's last
      character. */
  lemma ExtensionLacksCoreServiceKey(ext: ApiResource)
    requires ext.gv.group != "" && ext.gv.group[|ext.gv.group| - 1] != '.'
    requires CoreServiceKey !in BaseNames(ext.r)
    ensures CoreServiceKey !in AliasNames(ext.r, ext.gv)
  {
    var v, g := ext.gv.version, ext.gv.group;
    assert CoreServiceKey[|CoreServiceKey| - 1] == '.';
    forall i | 0 <= i < |BaseNames(ext.r)|
      ensures !KeyForm(BaseNames(ext.r)[i], ext.gv, CoreServiceKey)
    {
      var n := BaseNames(ext.r)[i];
      LastOfDotted(n, g);
      LastOfDotted(v, g);
      LastOfDotted(n, v + "." + g);
      assert QualifiedName(n, ext.gv) == n + "." + (v + "." + g);
    }
    if CoreServiceKey in AliasNames(ext.r, ext.gv) {
      AliasForms(ext.r, ext.gv, CoreServiceKey);
    }
  }

  /** The Service override never picks an extension-group "Service" (such
      as Knative's) once the core v1 Service is catalogued, wherever the
      extension resource was discovered. */
  lemma ServiceNeverExtension(kind: string, rm: ResourceMap, groups: seq<ResourceList>, core: ApiResource, ext: ApiResource)
    requires IsCatalog(rm, groups)
    requires core in Resources(rm) && core.gv == GroupVersion("", "v1") && SingularOf(core.r) == "service"
    requires ToLower(kind) in ServiceKinds
    requires ext.gv.group != "" && ext.gv.group[|ext.gv.group| - 1] != '.'
    requires CoreServiceKey !in BaseNames(ext.r)
    ensures Resolve(kind, rm) != Ok(ext)
  {
    ServicePrecedence(kind, rm, groups, core);
    ExtensionLacksCoreServiceKey(ext);
  }

  /** A string without dots. */
  predicate Dotless(w: string)
  {
    forall i | 0 <= i < |w| :: w[i] != '.'
  }

  lemma DotAt(a: string, b: string)
    ensures (a + "." + b)[|a|] == '.'
    ensures forall i | 0 <= i < |a| :: (a + "." + b)[i] == a[i]
  {
  }

  /** Two dotted strings whose heads hold no dot split at the same place. */
  lemma SplitAtFirstDot(a: string, b: string, c: string, d: string)
    requires Dotless(a) && Dotless(c)
    ensures a + "." + b == c + "." + d ==> a == c && b == d
  {
    if a + "." + b == c + "." + d {
      DotAt(a, b);
      DotAt(c, d);
      assert |a| == |c|;
      var s := a + "." + b;
      assert a == s[..|a|];
      assert c == (c + "." + d)[..|c|];
      assert b == s[|a| + 1..];
      assert d == (c + "." + d)[|c| + 1..];
    }
  }

  /** A resource with dotless base names and version registers
      "deployment.v1.apps" only from the group "apps" (or the odd group
      "v1.apps", whose `n.group` form spells the same key). */
  lemma OtherGroupLacksAppsDeploymentKey(ext: ApiResource)
    requires forall n | n in BaseNames(ext.r) :: Dotless(n)
    requires Dotless(ext.gv.version)
    requires ext.gv.group != "apps" && ext.gv.group != "v1.apps"
    ensures AppsDeploymentKey !in AliasNames(ext.r, ext.gv)
  {
    var key := AppsDeploymentKey;
    var v, g := ext.gv.version, ext.gv.group;
    assert key == "deployment" + "." + ("v1" + "." + "apps");
    assert key[10] == '.';
    assert Dotless("deployment") && Dotless("v1");
    forall i | 0 <= i < |BaseNames(ext.r)|
      ensures !KeyForm(BaseNames(ext.r)[i], ext.gv, key)
    {
      var n := BaseNames(ext.r)[i];
      assert Dotless(n);
      SplitAtFirstDot(n, g, "deployment", "v1" + "." + "apps");
      SplitAtFirstDot(n, v + "." + g, "deployment", "v1" + "." + "apps");
      SplitAtFirstDot(v, g, "v1", "apps");
      assert QualifiedName(n, ext.gv) == n + "." + (v + "." + g);
    }
    if key in AliasNames(ext.r, ext.gv) {
      AliasForms(ext.r, ext.gv, key);
    }
  }

  /** The Deployment override never picks a Deployment of another group
      (such as extensions/v1beta1) once apps/v1 is catalogued. */
  lemma DeploymentNeverOtherGroup(kind: string, rm: ResourceMap, groups: seq<ResourceList>, apps: ApiResource, ext: ApiResource)
    requires IsCatalog(rm, groups)
    requires apps in Resources(rm) && apps.gv == GroupVersion("apps", "v1") && SingularOf(apps.r) == "deployment"
    requires ToLower(kind) in DeploymentKinds
    requires forall n | n in BaseNames(ext.r) :: Dotless(n)
    requires Dotless(ext.gv.version)
    requires ext.gv.group != "apps" && ext.gv.group != "v1.apps"
    ensures Resolve(kind, rm) != Ok(ext)
  {
    DeploymentPrecedence(kind, rm, groups, apps);
    OtherGroupLacksAppsDeploymentKey(ext);
  }
}
