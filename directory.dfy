/** The ownership directory (`newObjectDirectory` in tree/main.go): one pass
    over the fetched objects builds `uid -> object` and
    `owner uid -> set of child uids`. */
module Directory {

  /** types.UID: an opaque identity. */
  type UID = string

  /** metav1.OwnerReference, reduced to the owner's uid, the only part
      this core reads. */
  datatype OwnerReference = OwnerReference(uid: UID)

  /** unstructured.Unstructured, seen through GetUID and GetOwnerReferences. */
  datatype Object = Object(uid: UID, ownerReferences: seq<OwnerReference>)

  /** objectDirectory. `ownership` is Go's map[UID]map[UID]bool, whose
      inner maps only ever hold `true`: a set. */
  datatype ObjectDirectory = ObjectDirectory(items: map<UID, Object>, ownership: map<UID, set<UID>>)

  /** The owner uids some object of `objs` names. */
  ghost function Owners(objs: seq<Object>): set<UID>
  {
    set x, r | x in objs && r in x.ownerReferences :: r.uid
  }

  /** The uids of the objects of `objs` that name `o` as an owner. */
  ghost function Children(objs: seq<Object>, o: UID): set<UID>
  {
    set x, r | x in objs && r in x.ownerReferences && r.uid == o :: x.uid
  }

  /** The ownership relation the directory should hold: `c` is a child of
      `o` exactly when some object with uid `c` names owner `o`. */
  ghost function Ownership(objs: seq<Object>): map<UID, set<UID>>
  {
    map o | o in Owners(objs) :: Children(objs, o)
  }

  /** The children of `o` in map `m`, empty when `o` is not a key (Go's
      `ownership[o]`, a nil map for an absent key, as `run` reads it). */
  function ChildSet(m: map<UID, set<UID>>, o: UID): set<UID>
  {
    if o in m then m[o] else {}
  }

  /** Some reference of `refs` names owner `o`. */
  predicate Refers(refs: seq<OwnerReference>, o: UID)
  {
    exists r | r in refs :: r.uid == o
  }

  /** The inner loop of `newObjectDirectory`: record `c` as a child of every
      owner in `refs`, creating an owner's set on first use. */
  function AddOwners(m: map<UID, set<UID>>, c: UID, refs: seq<OwnerReference>): map<UID, set<UID>>
  {
    if refs == [] then m
    else
      var m' := AddOwners(m, c, refs[..|refs| - 1]);
      var o := refs[|refs| - 1].uid;
      m'[o := ChildSet(m', o) + {c}]
  }

  /** Recording the references of `c` adds `c` to the children of exactly
      the owners it names, and adds exactly those owners as keys. */
  lemma {:induction false} AddOwnersEffect(m: map<UID, set<UID>>, c: UID, refs: seq<OwnerReference>, o: UID)
    ensures o in AddOwners(m, c, refs) <==> o in m || Refers(refs, o)
    ensures ChildSet(AddOwners(m, c, refs), o) == ChildSet(m, o) + (if Refers(refs, o) then {c} else {})
  {
    if refs != [] {
      var init := refs[..|refs| - 1];
      var last := refs[|refs| - 1];
      assert refs == init + [last];
      AddOwnersEffect(m, c, init, o);
      assert Refers(refs, o) <==> Refers(init, o) || last.uid == o by {
        if Refers(refs, o) {
          var r :| r in refs && r.uid == o;
          assert r in init || r == last;
        }
        if Refers(init, o) {
          var r :| r in init && r.uid == o;
          assert r in refs;
        }
      }
    }
  }

  lemma OwnersAppend(objs: seq<Object>, x: Object, o: UID)
    ensures o in Owners(objs + [x]) <==> o in Owners(objs) || Refers(x.ownerReferences, o)
  {
    if o in Owners(objs + [x]) {
      var y, r :| y in objs + [x] && r in y.ownerReferences && r.uid == o;
      assert y in objs || y == x;
    }
    if o in Owners(objs) {
      var y, r :| y in objs && r in y.ownerReferences && r.uid == o;
      assert y in objs + [x];
    }
    if Refers(x.ownerReferences, o) {
      var r :| r in x.ownerReferences && r.uid == o;
      assert x in objs + [x];
    }
  }

  lemma ChildrenAppend(objs: seq<Object>, x: Object, o: UID)
    ensures Children(objs + [x], o) == Children(objs, o) + (if Refers(x.ownerReferences, o) then {x.uid} else {})
  {
    var lhs := Children(objs + [x], o);
    var rhs := Children(objs, o) + (if Refers(x.ownerReferences, o) then {x.uid} else {});
    forall c | c in lhs
      ensures c in rhs
    {
      var y, r :| y in objs + [x] && r in y.ownerReferences && r.uid == o && y.uid == c;
      assert y in objs || y == x;
    }
    forall c | c in rhs
      ensures c in lhs
    {
      if c in Children(objs, o) {
        var y, r :| y in objs && r in y.ownerReferences && r.uid == o && y.uid == c;
        assert y in objs + [x];
      } else {
        var r :| r in x.ownerReferences && r.uid == o;
        assert x in objs + [x];
      }
    }
  }

  lemma OwnershipAt(objs: seq<Object>, o: UID)
    ensures o in Ownership(objs) <==> o in Owners(objs)
    ensures ChildSet(Ownership(objs), o) == Children(objs, o)
  {
  }

  /** Two ownership maps with the same keys and the same child sets are equal. */
  lemma SameOwnership(m1: map<UID, set<UID>>, m2: map<UID, set<UID>>)
    requires forall o :: o in m1 <==> o in m2
    requires forall o :: ChildSet(m1, o) == ChildSet(m2, o)
    ensures m1 == m2
  {
    forall o | o in m1
      ensures m1[o] == m2[o]
    {
      assert ChildSet(m1, o) == ChildSet(m2, o);
    }
  }

  /** Adding one object to the input adds exactly its own owner edges. */
  lemma OwnershipStep(objs: seq<Object>, x: Object)
    ensures Ownership(objs + [x]) == AddOwners(Ownership(objs), x.uid, x.ownerReferences)
  {
    var after := Ownership(objs + [x]);
    var added := AddOwners(Ownership(objs), x.uid, x.ownerReferences);
    forall o
      ensures (o in after <==> o in added) && ChildSet(after, o) == ChildSet(added, o)
    {
      AddOwnersEffect(Ownership(objs), x.uid, x.ownerReferences, o);
      OwnershipAt(objs, o);
      OwnershipAt(objs + [x], o);
      OwnersAppend(objs, x, o);
      ChildrenAppend(objs, x, o);
    }
    SameOwnership(after, added);
  }

  /** The owner-recording loop of `newObjectDirectory` for one object. */
  method RecordOwners(ownership0: map<UID, set<UID>>, uid: UID, refs: seq<OwnerReference>)
    returns (ownership: map<UID, set<UID>>)
    ensures ownership == AddOwners(ownership0, uid, refs)
  {
    ownership := ownership0;
    var j := 0;
    while j < |refs|
      invariant 0 <= j <= |refs|
      invariant ownership == AddOwners(ownership0, uid, refs[..j])
    {
      var ownerRef := refs[j];
      assert refs[..j + 1][..j] == refs[..j];
      if ownerRef.uid !in ownership {
        ownership := ownership[ownerRef.uid := {}];
      }
      ownership := ownership[ownerRef.uid := ownership[ownerRef.uid] + {uid}];
      j := j + 1;
    }
    assert refs[..|refs|] == refs;
  }

  /** `newObjectDirectory`: one pass storing every object under its uid
      (a later object with the same uid replaces an earlier one) and
      indexing every owner reference. */
  method NewObjectDirectory(objs: seq<Object>) returns (v: ObjectDirectory)
    ensures v.items.Keys == set x | x in objs :: x.uid
    ensures forall i | 0 <= i < |objs| ::
      (forall j | i < j < |objs| :: objs[j].uid != objs[i].uid) ==> v.items[objs[i].uid] == objs[i]
    ensures v.ownership == Ownership(objs)
  {
    var items: map<UID, Object> := map[];
    var ownership: map<UID, set<UID>> := map[];
    var i := 0;
    while i < |objs|
      invariant 0 <= i <= |objs|
      invariant items.Keys == set x | x in objs[..i] :: x.uid
      invariant forall k | 0 <= k < i ::
        (forall j | k < j < i :: objs[j].uid != objs[k].uid) ==> objs[k].uid in items && items[objs[k].uid] == objs[k]
      invariant ownership == Ownership(objs[..i])
    {
      var obj := objs[i];
      assert objs[..i + 1] == objs[..i] + [obj];
      assert (set x | x in objs[..i + 1] :: x.uid) == (set x | x in objs[..i] :: x.uid) + {obj.uid};
      items := items[obj.uid := obj];
      ownership := RecordOwners(ownership, obj.uid, obj.ownerReferences);
      OwnershipStep(objs[..i], obj);
      i := i + 1;
    }
    assert objs[..|objs|] == objs;
    v := ObjectDirectory(items, ownership);
  }

  /** Ownership is exactly the owner references of the input: `c` is a
      child of `o` if and only if some object with uid `c` names `o`. */
  lemma ChildrenIff(d: ObjectDirectory, objs: seq<Object>, o: UID, c: UID)
    requires d.ownership == Ownership(objs)
    ensures c in ChildSet(d.ownership, o) <==>
      exists i, j | 0 <= i < |objs| && 0 <= j < |objs[i].ownerReferences| ::
        objs[i].uid == c && objs[i].ownerReferences[j].uid == o
  {
    if c in ChildSet(d.ownership, o) {
      assert o in Owners(objs);
      var x, r :| x in objs && r in x.ownerReferences && r.uid == o && x.uid == c;
      var i :| 0 <= i < |objs| && objs[i] == x;
      var j :| 0 <= j < |x.ownerReferences| && x.ownerReferences[j] == r;
    }
    if exists i, j | 0 <= i < |objs| && 0 <= j < |objs[i].ownerReferences| ::
        objs[i].uid == c && objs[i].ownerReferences[j].uid == o {
      var i, j :| 0 <= i < |objs| && 0 <= j < |objs[i].ownerReferences| &&
        objs[i].uid == c && objs[i].ownerReferences[j].uid == o;
      var x, r := objs[i], objs[i].ownerReferences[j];
      assert o in Owners(objs);
      assert c in Children(objs, o);
    }
  }

  /** "No resources are owned by this object" is reported exactly when no
      fetched object names it as an owner. */
  lemma NothingOwnedIff(d: ObjectDirectory, objs: seq<Object>, o: UID)
    requires d.ownership == Ownership(objs)
    ensures |ChildSet(d.ownership, o)| == 0 <==> forall x | x in objs :: !Refers(x.ownerReferences, o)
  {
    if exists x | x in objs :: Refers(x.ownerReferences, o) {
      var x :| x in objs && Refers(x.ownerReferences, o);
      var r :| r in x.ownerReferences && r.uid == o;
      assert o in Owners(objs);
      assert x.uid in ChildSet(d.ownership, o);
    }
    if |ChildSet(d.ownership, o)| != 0 {
      var c :| c in ChildSet(d.ownership, o);
      assert o in Owners(objs);
      var x, r :| x in objs && r in x.ownerReferences && r.uid == o && x.uid == c;
    }
  }

  /** The ownership relation does not depend on the order (or number of
      repetitions) in which objects arrive. */
  lemma OwnershipOrderFree(a: seq<Object>, b: seq<Object>)
    requires forall x :: x in a <==> x in b
    ensures Ownership(a) == Ownership(b)
  {
    assert Owners(a) == Owners(b);
    forall o | o in Owners(a)
      ensures Children(a, o) == Children(b, o)
    {
    }
  }

  /** In particular, any permutation of the input gives the same ownership. */
  lemma OwnershipPermutation(a: seq<Object>, b: seq<Object>)
    requires multiset(a) == multiset(b)
    ensures Ownership(a) == Ownership(b)
  {
    forall x
      ensures x in a <==> x in b
    {
      assert x in a <==> x in multiset(a);
      assert x in b <==> x in multiset(b);
    }
    OwnershipOrderFree(a, b);
  }

  /** Owner keys need not be objects of the directory: an owner that some
      fetched object names but that was not fetched itself is a key of
      `ownership`, with that object among its children, and not a key of
      `items`. */
  lemma OrphanOwnerIsKey(d: ObjectDirectory, objs: seq<Object>, child: Object, o: UID)
    requires d.items.Keys == set x | x in objs :: x.uid
    requires d.ownership == Ownership(objs)
    requires child in objs && Refers(child.ownerReferences, o)
    requires forall x | x in objs :: x.uid != o
    ensures o in d.ownership && child.uid in d.ownership[o]
    ensures o !in d.items
  {
    var r :| r in child.ownerReferences && r.uid == o;
    assert o in Owners(objs);
    assert child.uid in Children(objs, o);
  }
}
