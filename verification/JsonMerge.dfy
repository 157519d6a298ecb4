/** Merging a strategies patch into a base document: the values, and the merge in place over the
    objects in memory, whose keys Go visits in any order. */
module JsonMerge {
  import opened Options

  datatype Json =
    | Null
    | Bool(b: bool)
    | Number(n: int)
    | String(s: string)
    | Array(elems: seq<Json>)
    | Object(fields: map<string, Json>)

  /** The member of a value, null standing for "absent" as the merge never asks which it is. */
  function Member(v: Json, k: string): Json {
    if v.Object? && k in v.fields then v.fields[k] else Null
  }

  function Keys(v: Json): set<string> {
    if v.Object? then v.fields.Keys else {}
  }

  /** What the program's merge makes of a base value and a patch value. */
  function Merge(base: Json, patch: Json): Json
    decreases patch
  {
    if base.Object? && patch.Object? then
      Object(map k | k in base.fields.Keys + patch.fields.Keys ::
               if k in patch.fields then Merge(Member(base, k), patch.fields[k]) else base.fields[k])
    else patch
  }

  /** MergePatch of section 2 of RFC 7396. */
  function MergePatch(target: Json, patch: Json): Json
    decreases patch
  {
    if !patch.Object? then patch
    else
      Object(map k | k in Keys(target) + patch.fields.Keys && !(k in patch.fields && patch.fields[k].Null?) ::
               if k in patch.fields then MergePatch(Member(target, k), patch.fields[k]) else target.fields[k])
  }

  /** No member of the patch, at any depth reached through objects, is null. */
  predicate NullFree(patch: Json)
    decreases patch
  {
    patch.Object? ==> forall k :: k in patch.fields ==> !patch.fields[k].Null? && NullFree(patch.fields[k])
  }

  /** The program's merge is RFC 7396's exactly for the patches whose object tree holds no null,
      whatever the base. */
  lemma {:induction false} MergeIsMergePatchIff(base: Json, patch: Json)
    ensures Merge(base, patch) == MergePatch(base, patch) <==> NullFree(patch)
    decreases patch
  {
    if patch.Object? {
      forall k | k in patch.fields
        ensures Merge(Member(base, k), patch.fields[k]) == MergePatch(Member(base, k), patch.fields[k])
                <==> NullFree(patch.fields[k])
      {
        MergeIsMergePatchIff(Member(base, k), patch.fields[k]);
      }
      var ours, rfc := Merge(base, patch), MergePatch(base, patch);
      if NullFree(patch) {
        assert ours.fields.Keys == rfc.fields.Keys;
        forall k | k in ours.fields ensures ours.fields[k] == rfc.fields[k] {
          if k in patch.fields && !base.Object? { assert Merge(Member(base, k), patch.fields[k]) == patch.fields[k]; }
        }
        assert ours.fields == rfc.fields;
      } else {
        var k :| k in patch.fields && (patch.fields[k].Null? || !NullFree(patch.fields[k]));
        if patch.fields[k].Null? {
          assert k in ours.fields && k !in rfc.fields;
        } else {
          assert ours.fields[k] == Merge(Member(base, k), patch.fields[k]) by {
            if !base.Object? { assert Member(base, k) == Null; }
          }
          assert rfc.fields[k] == MergePatch(Member(base, k), patch.fields[k]);
        }
      }
    }
  }

  /** A null in the patch is stored ... */
  lemma NullIsStored(base: Json, k: string)
    requires base.Object?
    ensures Merge(base, Object(map[k := Null])) == Object(base.fields[k := Null])
  {
    assert Merge(base, Object(map[k := Null])).fields == base.fields[k := Null];
  }

  /** ... where RFC 7396 removes the member. */
  lemma NullWouldRemove(base: Json, k: string)
    requires base.Object?
    ensures MergePatch(base, Object(map[k := Null])) == Object(base.fields - {k})
  {
    assert MergePatch(base, Object(map[k := Null])).fields == base.fields - {k};
  }

  /** What a value holds at a path of keys. */
  function Lookup(v: Json, path: seq<string>): Option<Json>
    decreases |path|
  {
    if path == [] then Some(v)
    else if v.Object? && path[0] in v.fields then Lookup(v.fields[path[0]], path[1..])
    else None
  }

  /** The patch says nothing at the path: on the way there it is an object without the next key. */
  predicate Silent(patch: Json, path: seq<string>)
    decreases |path|
  {
    patch.Object? && path != [] && (path[0] in patch.fields ==> Silent(patch.fields[path[0]], path[1..]))
  }

  /** At every path: what is not an object in the patch is stored as it is, nulls included; where the patch says
      nothing the base stays; and nothing comes from anywhere else. */
  lemma {:induction false} MergedAtPath(base: Json, patch: Json, path: seq<string>)
    ensures var merged := Merge(base, patch);
            && (Lookup(patch, path).Some? && !Lookup(patch, path).value.Object? ==>
                  Lookup(merged, path) == Lookup(patch, path))
            && (Silent(patch, path) && Lookup(base, path).Some? ==> Lookup(merged, path) == Lookup(base, path))
            && (Lookup(merged, path).Some? ==> Lookup(base, path).Some? || Lookup(patch, path).Some?)
    decreases |path|
  {
    if path != [] && patch.Object? && path[0] in patch.fields {
      MergedAtPath(Member(base, path[0]), patch.fields[path[0]], path[1..]);
      assert base.Object? ==>
          Merge(base, patch).fields[path[0]] == Merge(Member(base, path[0]), patch.fields[path[0]]);
    }
  }

  /** Merging the same patch twice is merging it once, nulls included. */
  lemma {:induction false} MergeIdempotent(base: Json, patch: Json)
    ensures Merge(Merge(base, patch), patch) == Merge(base, patch)
    decreases patch
  {
    if patch.Object? {
      var once := Merge(base, patch);
      var twice := Merge(once, patch);
      forall k | k in patch.fields ensures twice.fields[k] == once.fields[k] {
        MergeIdempotent(Member(base, k), patch.fields[k]);
        if !base.Object? { MergeSelf(patch.fields[k]); }
      }
      assert twice.fields == once.fields;
    }
  }

  lemma {:induction false} MergeSelf(v: Json)
    ensures Merge(v, v) == v
    decreases v
  {
    if v.Object? {
      forall k | k in v.fields ensures Merge(Member(v, k), v.fields[k]) == v.fields[k] {
        MergeSelf(v.fields[k]);
      }
      assert Merge(v, v).fields == v.fields;
    }
  }

  // ----- in memory ----------------------------------------------------------

  /** A value stored in an object: an object by reference, anything else by value. */
  datatype Node = Leaf(value: Json) | Child(obj: JsonObject)

  class JsonObject {
    var fields: map<string, Node>
    ghost var repr: set<JsonObject>

    constructor ()
      ensures Valid() && repr == {this} && fields == map[]
    {
      fields, repr := map[], {this};
    }

    /** The objects below this one form a tree and `repr` is all of them. */
    ghost predicate Valid()
      reads this, repr
      decreases repr
    {
      && this in repr
      && (forall k :: k in fields && fields[k].Leaf? ==> !fields[k].value.Object?)
      && (forall k :: k in fields && fields[k].Child? ==>
            fields[k].obj in repr && fields[k].obj.repr <= repr - {this} && fields[k].obj.Valid())
      && (forall k, k' :: k in fields && k' in fields && k != k' && fields[k].Child? && fields[k'].Child? ==>
            fields[k].obj.repr !! fields[k'].obj.repr)
    }

    ghost function View(): (v: Json)
      requires Valid()
      reads this, repr
      ensures v.Object? && v.fields.Keys == fields.Keys
      decreases repr
    {
      Object(map k | k in fields :: if fields[k].Leaf? then fields[k].value else fields[k].obj.View())
    }
  }

  /** The value of a node that is a tree over the objects `foot`. */
  ghost function NodeView(n: Node, foot: set<JsonObject>): Option<Json>
    reads if n.Child? then {n.obj} + n.obj.repr else {}
  {
    match n
    case Leaf(value) => if !value.Object? && foot == {} then Some(value) else None
    case Child(o) => if o.Valid() && foot == o.repr then Some(o.View()) else None
  }

  type Feet = map<string, set<JsonObject>>

  /** The value of an object that is a tree whose members are over the objects `feet`. */
  ghost function TreeView(o: JsonObject, feet: Feet): Option<Json>
    reads o, o.repr
  {
    if && o.Valid() && o.fields.Keys == feet.Keys
       && forall k :: k in o.fields ==> NodeView(o.fields[k], feet[k]) == Some(Member(o.View(), k))
    then Some(o.View()) else None
  }

  lemma TreeShape(o: JsonObject, view: Json, feet: Feet)
    requires TreeView(o, feet) == Some(view)
    ensures view.Object? && view.fields.Keys == feet.Keys == o.fields.Keys && o.Valid() && o.View() == view
    ensures Separate(feet, o, o.repr)
  {
    forall k | k in feet ensures feet[k] <= o.repr - {o} {
      assert NodeView(o.fields[k], feet[k]) == Some(Member(view, k));
    }
    forall j, k | j in feet && k in feet && j != k ensures feet[j] !! feet[k] {
      assert NodeView(o.fields[j], feet[j]) == Some(Member(view, j))
             && NodeView(o.fields[k], feet[k]) == Some(Member(view, k));
    }
  }

  lemma TreeMember(o: JsonObject, view: Json, feet: Feet, k: string)
    requires TreeView(o, feet) == Some(view) && k in feet
    ensures k in o.fields && NodeView(o.fields[k], feet[k]) == Some(Member(view, k))
  {
  }

  /** An object over separate trees becomes a tree once its `repr` covers them. */
  ghost method Regrow(o: JsonObject, repr: set<JsonObject>, view: Json, feet: Feet)
    requires view.Object? && view.fields.Keys == feet.Keys == o.fields.Keys && Separate(feet, o, repr)
    requires forall k :: k in feet ==> NodeView(o.fields[k], feet[k]) == Some(view.fields[k])
    modifies o`repr
    ensures o.repr == repr && TreeView(o, feet) == Some(view)
  {
    assert forall k :: k in o.fields && o.fields[k].Child? ==> o.fields[k].obj in feet[k];
    o.repr := repr;
    forall k | k in feet ensures NodeView(o.fields[k], feet[k]) == Some(view.fields[k]) {
      assert o !in feet[k];
    }
    assert o.Valid();
    assert o.View().fields == view.fields;
  }

  ghost function FeetOf(o: JsonObject): (feet: Feet)
    requires o.Valid()
    reads o, o.repr
    ensures TreeView(o, feet) == Some(o.View())
  {
    map k | k in o.fields :: if o.fields[k].Child? then o.fields[k].obj.repr else {}
  }

  ghost function At(feet: map<string, set<JsonObject>>, k: string): set<JsonObject> {
    if k in feet then feet[k] else {}
  }

  function MergedAt(base: Json, k: string, value: Json): Json
    requires base.Object?
  {
    Object(base.fields[k := Merge(Member(base, k), value)])
  }

  /** The keys of the patch outside `todo` have been merged, the others not. */
  ghost predicate PartlyMerged(base: Json, patch: Json, now: Json, todo: set<string>) {
    && base.Object? && patch.Object? && now.Object? && todo <= patch.fields.Keys
    && now.fields.Keys == base.fields.Keys + (patch.fields.Keys - todo)
    && forall k :: k in now.fields ==>
         now.fields[k] == if k in patch.fields && k !in todo then Merge(Member(base, k), Member(patch, k))
           else base.fields[k]
  }

  lemma OneMoreMerged(base: Json, patch: Json, now: Json, todo: set<string>, k: string)
    requires PartlyMerged(base, patch, now, todo) && k in todo
    ensures PartlyMerged(base, patch, MergedAt(now, k, Member(patch, k)), todo - {k})
  {
    assert k in now.fields <==> k in base.fields;
  }

  lemma AllMerged(base: Json, patch: Json, now: Json)
    requires PartlyMerged(base, patch, now, {})
    ensures now == Merge(base, patch)
  {
    var r := Merge(base, patch);
    assert r.fields.Keys == now.fields.Keys;
    forall k | k in r.fields ensures r.fields[k] == now.fields[k] {
    }
  }

  /** All objects under the keys `todo`. */
  ghost function Under(todo: set<string>, feet: Feet): set<JsonObject> {
    set k, o | k in todo && k in feet && o in feet[k] :: o
  }

  /** The feet of an object, inside `repr` and apart from each other. */
  ghost predicate Separate(feet: Feet, o: JsonObject, repr: set<JsonObject>) {
    && o in repr
    && (forall k :: k in feet ==> feet[k] <= repr - {o})
    && (forall j, k :: j in feet && k in feet && j != k ==> feet[j] !! feet[k])
  }

  /** What is left of the patch is apart from the base, and goes where the base has its own objects. */
  ghost predicate Apart(todo: set<string>, patchFeet: Feet, baseRepr: set<JsonObject>, feet: Feet,
                        start: set<JsonObject>) {
    Under(todo, patchFeet) !! baseRepr && Under(todo, feet) <= start
  }

  lemma ApartAtStart(todo: set<string>, patch: JsonObject, patchFeet: Feet, base: JsonObject, feet: Feet)
    requires Separate(patchFeet, patch, patch.repr) && Separate(feet, base, base.repr) && base.repr !! patch.repr
    ensures Apart(todo, patchFeet, base.repr, feet, base.repr)
  {
  }

  lemma ApartAt(todo: set<string>, k: string, patch: JsonObject, patchFeet: Feet, base: JsonObject,
                baseRepr: set<JsonObject>, feet: Feet, start: set<JsonObject>)
    requires Apart(todo, patchFeet, baseRepr, feet, start) && Separate(patchFeet, patch, patch.repr) && k in todo
             && k in patchFeet
    requires base in start && start !! patch.repr
    ensures patch.repr !! {base} + At(feet, k) && baseRepr !! patchFeet[k] && patchFeet[k] < patch.repr
    ensures {base} + At(feet, k) <= start
  {
    assert patchFeet[k] <= Under(todo, patchFeet);
    assert At(feet, k) <= Under(todo, feet);
  }

  lemma StillApart(todo: set<string>, k: string, patch: JsonObject, patchFeet: Feet, baseRepr: set<JsonObject>,
                   feet: Feet, feet': Feet, start: set<JsonObject>)
    requires Apart(todo, patchFeet, baseRepr, feet, start) && Separate(patchFeet, patch, patch.repr) && k in todo
             && k in patchFeet
    requires OnlyAt(feet, feet', k)
    ensures Apart(todo - {k}, patchFeet, baseRepr + patchFeet[k], feet', start)
  {
    assert Under(todo - {k}, patchFeet) <= Under(todo, patchFeet) - patchFeet[k];
    assert Under(todo - {k}, feet') <= Under(todo, feet);
  }

  ghost predicate OnlyAt(feet: Feet, feet': Feet, k: string) {
    feet'.Keys == feet.Keys + {k} && forall j :: j in feet && j != k ==> feet'[j] == feet[j]
  }

  lemma StillSeparate(feet: Feet, o: JsonObject, repr: set<JsonObject>, k: string, foot: set<JsonObject>,
                      extra: set<JsonObject>)
    requires Separate(feet, o, repr) && foot <= At(feet, k) + extra && extra !! repr
    ensures Separate(feet[k := foot], o, repr + extra)
  {
  }

  /** Merge into the base's object at `k`; its other members are not touched. */
  method MergeChild(base: JsonObject, k: string, value: JsonObject, ghost view: Json, ghost feet: Feet,
                    ghost valueView: Json)
    returns (ghost foot: set<JsonObject>)
    requires TreeView(base, feet) == Some(view) && value.Valid() && value.View() == valueView && base.repr !! value.repr
    requires k in base.fields && base.fields[k].Child?
    modifies feet[k]
    ensures foot <= feet[k] + value.repr
    ensures NodeView(base.fields[k], foot) == Some(Merge(Member(view, k), valueView))
    ensures forall j :: j in feet && j != k ==> NodeView(base.fields[j], feet[j]) == Some(Member(view, j))
    decreases value.repr, 4
  {
    ChildShape(base, view, feet, k);
    var child := base.fields[k].obj;
    MergeObjects(child, value);
    foot := child.repr;
  }

  /** The object at `k` stands for its member over its feet, which are apart from those of the others. */
  lemma ChildShape(base: JsonObject, view: Json, feet: Feet, k: string)
    requires TreeView(base, feet) == Some(view) && k in base.fields && base.fields[k].Child?
    ensures k in feet && base.fields.Keys == feet.Keys && base !in feet[k] && feet[k] <= base.repr
    ensures var child := base.fields[k].obj;
            child.Valid() && child.repr == feet[k] && child.View() == Member(view, k)
    ensures forall j :: j in feet && j != k ==>
              feet[j] !! feet[k] && base !in feet[j] && NodeView(base.fields[j], feet[j]) == Some(Member(view, j))
  {
    TreeShape(base, view, feet);
    assert NodeView(base.fields[k], feet[k]) == Some(Member(view, k));
  }

  lemma MembersMergedAt(base: JsonObject, view: Json, feet: Feet, k: string, foot: set<JsonObject>, value: Json)
    requires view.Object? && base.fields.Keys == feet.Keys == view.fields.Keys && k in feet
    requires NodeView(base.fields[k], foot) == Some(Merge(Member(view, k), value))
    requires forall j :: j in feet && j != k ==> NodeView(base.fields[j], feet[j]) == Some(Member(view, j))
    ensures MergedAt(view, k, value).fields.Keys == feet[k := foot].Keys == base.fields.Keys
    ensures forall j :: j in base.fields ==>
              NodeView(base.fields[j], feet[k := foot][j]) == Some(MergedAt(view, k, value).fields[j])
  {
  }

  method MergeInto(base: JsonObject, k: string, value: JsonObject, ghost view: Json, ghost feet: Feet,
                   ghost valueView: Json)
    returns (ghost foot: set<JsonObject>)
    requires TreeView(base, feet) == Some(view) && value.Valid() && value.View() == valueView && base.repr !! value.repr
    requires k in base.fields && base.fields[k].Child?
    modifies base`repr, feet[k]
    ensures base.repr == old(base.repr) + value.repr
    ensures TreeView(base, feet[k := foot]) == Some(MergedAt(view, k, valueView))
    decreases value.repr, 5
  {
    TreeShape(base, view, feet);
    foot := MergeChild(base, k, value, view, feet, valueView);
    StillSeparate(feet, base, base.repr, k, foot, value.repr);
    MembersMergedAt(base, view, feet, k, foot, valueView);
    Regrow(base, base.repr + value.repr, MergedAt(view, k, valueView), feet[k := foot]);
  }

  method Adopt(base: JsonObject, k: string, value: Node, ghost view: Json, ghost feet: Feet, ghost valueView: Json,
               ghost foot: set<JsonObject>)
    requires TreeView(base, feet) == Some(view) && NodeView(value, foot) == Some(valueView) && base.repr !! foot
    requires value.Leaf? || k !in base.fields || base.fields[k].Leaf?
    modifies base
    ensures base.repr == old(base.repr) + foot
    ensures TreeView(base, feet[k := foot]) == Some(MergedAt(view, k, valueView))
  {
    TreeShape(base, view, feet);
    base.fields := base.fields[k := value];
    StillSeparate(feet, base, base.repr, k, foot, foot);
    Regrow(base, base.repr + foot, MergedAt(view, k, valueView), feet[k := foot]);
  }

  /** Set one key of the base. */
  method MergeKey(base: JsonObject, k: string, value: Node, ghost view: Json, ghost feet: Feet, ghost valueView: Json,
                  ghost foot: set<JsonObject>)
    returns (ghost feet': Feet)
    requires TreeView(base, feet) == Some(view) && NodeView(value, foot) == Some(valueView) && base.repr !! foot
    modifies base, At(feet, k)
    ensures TreeView(base, feet') == Some(MergedAt(view, k, valueView))
    ensures base.repr == old(base.repr) + foot && OnlyAt(feet, feet', k)
    decreases foot, 6
  {
    if value.Child? && k in base.fields && base.fields[k].Child? {
      var foot' := MergeInto(base, k, value.obj, view, feet, valueView);
      feet' := feet[k := foot'];
    } else {
      Adopt(base, k, value, view, feet, valueView, foot);
      feet' := feet[k := foot];
    }
  }

  /** One round of the loop. */
  method MergePatchKey(base: JsonObject, patch: JsonObject, k: string, ghost view: Json, ghost patchView: Json,
                       ghost feet: Feet, ghost patchFeet: Feet)
    returns (ghost feet': Feet)
    requires TreeView(base, feet) == Some(view) && TreeView(patch, patchFeet) == Some(patchView) && k in patchFeet
    requires patch.repr !! {base} + At(feet, k) && base.repr !! patchFeet[k] && patchFeet[k] < patch.repr
    modifies base, At(feet, k)
    ensures k in patchView.fields && k in patch.fields
    ensures TreeView(base, feet') == Some(MergedAt(view, k, Member(patchView, k)))
    ensures TreeView(patch, patchFeet) == Some(patchView)
    ensures base.repr == old(base.repr) + patchFeet[k]
    ensures OnlyAt(feet, feet', k)
    decreases patch.repr, 1
  {
    TreeMember(patch, patchView, patchFeet, k);
    feet' := MergeKey(base, k, patch.fields[k], view, feet, Member(patchView, k), patchFeet[k]);
  }

  /** The loop: it picks the patch's keys in any order. */
  method MergeKeys(base: JsonObject, patch: JsonObject, ghost baseView: Json, ghost patchView: Json,
                   ghost baseFeet: Feet, ghost patchFeet: Feet)
    returns (ghost feet: Feet)
    requires TreeView(base, baseFeet) == Some(baseView) && TreeView(patch, patchFeet) == Some(patchView)
    requires base.repr !! patch.repr
    modifies base.repr
    ensures TreeView(base, feet) == Some(Merge(baseView, patchView)) && base.repr <= old(base.repr) + patch.repr
    decreases patch.repr, 2
  {
    ghost var view := baseView;
    feet := baseFeet;
    TreeShape(base, view, feet);
    TreeShape(patch, patchView, patchFeet);
    ApartAtStart(patch.fields.Keys, patch, patchFeet, base, feet);
    ghost var start := base.repr;
    var todo := patch.fields.Keys;
    while todo != {}
      invariant TreeView(patch, patchFeet) == Some(patchView) && todo <= patchFeet.Keys
      invariant TreeView(base, feet) == Some(view) && base.repr <= start + patch.repr
      invariant Apart(todo, patchFeet, base.repr, feet, start)
      invariant PartlyMerged(baseView, patchView, view, todo)
      decreases todo
    {
      var k :| k in todo;
      OneMoreMerged(baseView, patchView, view, todo, k);
      ghost var before, reprBefore := feet, base.repr;
      ApartAt(todo, k, patch, patchFeet, base, base.repr, feet, start);
      feet := MergePatchKey(base, patch, k, view, patchView, before, patchFeet);
      StillApart(todo, k, patch, patchFeet, reprBefore, before, feet, start);
      view := MergedAt(view, k, Member(patchView, k));
      todo := todo - {k};
    }
    AllMerged(baseView, patchView, view);
  }

  /** The program's mergeJSONObjects.  Objects of the patch that the base lacks become part of the base. */
  method MergeObjects(base: JsonObject, patch: JsonObject)
    requires base.Valid() && patch.Valid() && base.repr !! patch.repr
    modifies base.repr
    ensures base.Valid() && base.repr <= old(base.repr) + patch.repr
    ensures base.View() == Merge(old(base.View()), old(patch.View()))
    ensures patch.Valid() && patch.View() == old(patch.View())
    decreases patch.repr, 3
  {
    ghost var baseView, patchView := base.View(), patch.View();
    ghost var feet := MergeKeys(base, patch, baseView, patchView, FeetOf(base), FeetOf(patch));
    TreeShape(base, Merge(baseView, patchView), feet);
  }
}
