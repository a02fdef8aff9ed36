/**
  When the pruned footer is again the flattening of a schema tree: exactly when no kept LIST or MAP
  wrapper loses the content it declares.
*/
module PruneShape {
  import opened Collections
  import opened PruneSpec
  import opened PruneTree

  // ----- declared children against real ones -----

  function Declared(s: seq<Element>): int
  {
    if s == [] then 0 else NumChildren(s[0]) + Declared(s[1..])
  }

  /** How many declared children a tree lacks. */
  function Lacking(t: Tree): int
    decreases t, 1
  {
    NumChildren(t.elem) - |t.kids| + LackingAll(t.kids)
  }

  function LackingAll(ts: seq<Tree>): int
    decreases ts, 0
  {
    if ts == [] then 0 else Lacking(ts[0]) + LackingAll(ts[1..])
  }

  lemma {:induction false} DeclaredConcat(a: seq<Element>, b: seq<Element>)
    ensures Declared(a + b) == Declared(a) + Declared(b)
  {
    if a == [] {
      assert a + b == b;
    } else {
      DeclaredConcat(a[1..], b);
      assert (a + b)[1..] == a[1..] + b;
    }
  }

  lemma {:induction false} FlatCount(t: Tree)
    ensures Declared(Flatten(t)) == |Flatten(t)| - 1 + Lacking(t)
    decreases t, 1
  {
    FlatCountAll(t.kids);
    var s := Flatten(t);
    assert s[1..] == FlattenAll(t.kids);
  }

  lemma {:induction false} FlatCountAll(ts: seq<Tree>)
    ensures Declared(FlattenAll(ts)) == |FlattenAll(ts)| - |ts| + LackingAll(ts)
    decreases ts, 0
  {
    if ts != [] {
      FlatCount(ts[0]);
      FlatCountAll(ts[1..]);
      DeclaredConcat(Flatten(ts[0]), FlattenAll(ts[1..]));
    }
  }

  // ----- trees that may lack children but never have too many -----

  ghost predicate Roomy(t: Tree)
  {
    && NumChildren(t.elem) >= |t.kids|
    && (t.elem.isLeaf ==> NumChildren(t.elem) == 0)
    && (forall k | 0 <= k < |t.kids| :: Roomy(t.kids[k]))
  }

  lemma {:induction false} RoomyLacks(t: Tree)
    requires Roomy(t)
    ensures Lacking(t) >= 0
    ensures Lacking(t) == 0 <==> WellFormed(t)
    decreases t, 1
  {
    RoomyAllLack(t.kids);
  }

  lemma {:induction false} RoomyAllLack(ts: seq<Tree>)
    requires forall k | 0 <= k < |ts| :: Roomy(ts[k])
    ensures LackingAll(ts) >= 0
    ensures LackingAll(ts) == 0 <==> AllWellFormed(ts)
    decreases ts, 0
  {
    if ts != [] {
      RoomyLacks(ts[0]);
      RoomyAllLack(ts[1..]);
      assert AllWellFormed(ts) <==> WellFormed(ts[0]) && AllWellFormed(ts[1..]) by {
        assert forall k | 1 <= k < |ts| :: ts[k] == ts[1..][k - 1];
      }
    }
  }

  lemma {:induction false} WellFormedLacksNothing(t: Tree)
    requires WellFormed(t)
    ensures Lacking(t) == 0
  {
    WellFormedIsRoomy(t);
    RoomyLacks(t);
  }

  lemma {:induction false} WellFormedIsRoomy(t: Tree)
    requires WellFormed(t)
    ensures Roomy(t)
    decreases t
  {
    forall k | 0 <= k < |t.kids| ensures Roomy(t.kids[k]) {
      WellFormedIsRoomy(t.kids[k]);
    }
  }

  /** Flattening a roomy tree gives the flattening of a well-formed tree only if it is one itself. */
  lemma {:induction false} OnlyWellFormed(t: Tree, other: Tree)
    requires Roomy(t) && WellFormed(other) && Flatten(t) == Flatten(other)
    ensures WellFormed(t)
  {
    FlatCount(t);
    FlatCount(other);
    WellFormedLacksNothing(other);
    RoomyLacks(t);
  }

  // ----- when wrappers keep their content -----

  /** The pruner wants something of the tree. */
  ghost predicate Keeps(p: Pruner, norm: string -> string, t: Tree)
    decreases p
  {
    match p.tag
    case Value => true
    case Map => true
    case Struct =>
      exists k | 0 <= k < |t.kids| ::
        norm(t.kids[k].elem.name) in p.children && Keeps(p.children[norm(t.kids[k].elem.name)], norm, t.kids[k])
    case List => |t.kids| > 1 && "element" in p.children ==> Keeps(p.children["element"], norm, t)
  }

  /** The content of a wrapper is kept, and so are the contents of the wrappers inside it. */
  ghost predicate KeepsFilled(p: Pruner, norm: string -> string, t: Tree)
    decreases p, 2
  {
    Keeps(p, norm, t) && Filled(p, norm, t)
  }

  /** No LIST or MAP wrapper on the way loses its element, key or value. */
  ghost predicate Filled(p: Pruner, norm: string -> string, t: Tree)
    decreases p, 1
  {
    match p.tag
    case Value => true
    case Struct =>
      forall k | 0 <= k < |t.kids| && norm(t.kids[k].elem.name) in p.children ::
        Filled(p.children[norm(t.kids[k].elem.name)], norm, t.kids[k])
    case List =>
      "element" in p.children && t.kids != [] ==>
        var element := p.children["element"];
        var field := t.kids[0];
        if |t.kids| > 1 then Filled(element, norm, t)
        else if IsThreeLevel(t.elem, field.elem) && field.kids != [] then KeepsFilled(element, norm, field.kids[0])
        else KeepsFilled(element, norm, field)
    case Map =>
      "key" in p.children && "value" in p.children && t.kids != [] ==>
        var entry := t.kids[0];
        && (entry.kids != [] ==> KeepsFilled(p.children["key"], norm, entry.kids[0]))
        && (|entry.kids| > 1 ==> KeepsFilled(p.children["value"], norm, entry.kids[1]))
  }

  /** What is left of a tree is roomy, is there exactly when it is wanted, and lacks nothing exactly when filled. */
  ghost predicate Shaped(keeps: bool, filled: bool, kept: seq<Tree>)
  {
    && |kept| <= 1
    && (kept != [] <==> keeps)
    && (kept != [] ==> Roomy(kept[0]))
    && (LackingAll(kept) == 0 <==> filled)
    && LackingAll(kept) >= 0
  }

  lemma {:induction false} LackingOne(t: Tree)
    ensures LackingAll([t]) == Lacking(t)
  {
  }

  lemma {:induction false} LackingConcat(a: seq<Tree>, b: seq<Tree>)
    ensures LackingAll(a + b) == LackingAll(a) + LackingAll(b)
  {
    hide Lacking;
    if a == [] {
      assert a + b == b;
    } else {
      LackingConcat(a[1..], b);
      var c := a + b;
      assert c[0] == a[0] && c[1..] == a[1..] + b;
    }
  }

  /** A wrapper that declares one child for what is left of its content. */
  lemma {:induction false} WrapperShape(e: Element, keeps: bool, filled: bool, kept: seq<Tree>)
    requires e.numChildren.Some? && !e.isLeaf && Shaped(keeps, filled, kept)
    ensures Shaped(true, keeps && filled, [Node(Recount(e, 1), kept)])
  {
  }

  ghost predicate WantsKid(p: Pruner, norm: string -> string, kid: Tree)
  {
    norm(kid.elem.name) in p.children && Keeps(p.children[norm(kid.elem.name)], norm, kid)
  }

  ghost predicate FillsKid(p: Pruner, norm: string -> string, kid: Tree)
  {
    norm(kid.elem.name) in p.children ==> Filled(p.children[norm(kid.elem.name)], norm, kid)
  }

  ghost predicate ForestShaped(p: Pruner, norm: string -> string, kids: seq<Tree>, kept: seq<Tree>)
  {
    && (kept != [] <==> exists k | 0 <= k < |kids| :: WantsKid(p, norm, kids[k]))
    && (forall k | 0 <= k < |kept| :: Roomy(kept[k]))
    && (LackingAll(kept) == 0 <==> forall k | 0 <= k < |kids| :: FillsKid(p, norm, kids[k]))
    && LackingAll(kept) >= 0
  }

  /** One more tree in front of a forest. */
  lemma {:induction false} ForestShapeStep(p: Pruner, norm: string -> string, kids: seq<Tree>, kid: seq<Tree>,
                                           kept: seq<Tree>)
    requires kids != [] && ForestShaped(p, norm, kids[1..], kept)
    requires Shaped(WantsKid(p, norm, kids[0]), FillsKid(p, norm, kids[0]), kid)
    ensures ForestShaped(p, norm, kids, kid + kept)
  {
    hide Keeps, Filled, Roomy, WantsKid, FillsKid, LackingAll;
    LackingConcat(kid, kept);
    assert forall k | 1 <= k < |kids| :: kids[k] == kids[1..][k - 1];
    assert forall k | 0 <= k < |kids| - 1 :: kids[1..][k] == kids[k + 1];
    assert (exists k | 0 <= k < |kids| :: WantsKid(p, norm, kids[k]))
      <==> WantsKid(p, norm, kids[0]) || (exists k | 0 <= k < |kids[1..]| :: WantsKid(p, norm, kids[1..][k]));
    assert (forall k | 0 <= k < |kids| :: FillsKid(p, norm, kids[k]))
      <==> FillsKid(p, norm, kids[0]) && (forall k | 0 <= k < |kids[1..]| :: FillsKid(p, norm, kids[1..][k]));
  }

  lemma {:induction false} ForestShape(p: Pruner, norm: string -> string, kids: seq<Tree>)
    requires AllWellFormed(kids) && PruneForest(p, norm, kids).Ok?
    ensures ForestShaped(p, norm, kids, PruneForest(p, norm, kids).value)
    decreases p, 0, |kids|
  {
    if kids != [] {
      ForestShape(p, norm, kids[1..]);
      var kept := PruneForest(p, norm, kids[1..]).value;
      var name := norm(kids[0].elem.name);
      if name in p.children {
        TreeShape(p.children[name], norm, kids[0]);
        ForestShapeStep(p, norm, kids, Pruned(p.children[name], norm, kids[0]).value, kept);
      } else {
        ForestShapeStep(p, norm, kids, [], kept);
        assert [] + kept == kept;
      }
    }
  }

  lemma {:induction false} StructShape(p: Pruner, norm: string -> string, t: Tree)
    requires p.tag == Struct && WellFormed(t) && PrunedStruct(p, norm, t).Ok?
    ensures Shaped(Keeps(p, norm, t), Filled(p, norm, t), PrunedStruct(p, norm, t).value)
    decreases p, 1
  {
    ForestShape(p, norm, t.kids);
    var kept := PruneForest(p, norm, t.kids).value;
    assert Keeps(p, norm, t) <==> exists k | 0 <= k < |t.kids| :: WantsKid(p, norm, t.kids[k]);
    assert Filled(p, norm, t) <==> forall k | 0 <= k < |t.kids| :: FillsKid(p, norm, t.kids[k]);
    if kept != [] {
      assert t.kids != [];
      var u := Node(Recount(t.elem, |kept|), kept);
      LackingOne(u);
      assert Roomy(u);
    }
  }

  lemma {:induction false} ListShape(p: Pruner, norm: string -> string, t: Tree)
    requires p.tag == List && WellFormed(t) && PrunedList(p, norm, t).Ok?
    ensures Shaped(Keeps(p, norm, t), Filled(p, norm, t), PrunedList(p, norm, t).value)
    decreases p, 1
  {
    var element := p.children["element"];
    if t.elem.isLeaf {
      WellFormedIsRoomy(t);
      WellFormedLacksNothing(t);
      LackingOne(t);
    } else if |t.kids| > 1 {
      TreeShape(element, norm, t);
    } else {
      var field := t.kids[0];
      assert WellFormed(field);
      if IsThreeLevel(t.elem, field.elem) {
        var content := field.kids[0];
        TreeShape(element, norm, content);
        var kept := Pruned(element, norm, content).value;
        WrapperShape(field.elem, Keeps(element, norm, content), Filled(element, norm, content), kept);
        WrapperShape(t.elem, true, KeepsFilled(element, norm, content), [Node(Recount(field.elem, 1), kept)]);
      } else {
        TreeShape(element, norm, field);
        WrapperShape(t.elem, Keeps(element, norm, field), Filled(element, norm, field),
                     Pruned(element, norm, field).value);
      }
    }
  }

  /** A map entry that declares both a key and a value. */
  lemma {:induction false} EntryShape(e: Element, keeps1: bool, filled1: bool, kept1: seq<Tree>,
                                      keeps2: bool, filled2: bool, kept2: seq<Tree>)
    requires e.numChildren.Some? && !e.isLeaf && Shaped(keeps1, filled1, kept1) && Shaped(keeps2, filled2, kept2)
    ensures Shaped(true, (keeps1 && filled1) && (keeps2 && filled2), [Node(Recount(e, 2), kept1 + kept2)])
  {
    LackingConcat(kept1, kept2);
    LackingOne(Node(Recount(e, 2), kept1 + kept2));
  }

  lemma {:induction false} MapShape(p: Pruner, norm: string -> string, t: Tree)
    requires p.tag == Map && WellFormed(t) && PrunedMap(p, norm, t).Ok?
    ensures Shaped(Keeps(p, norm, t), Filled(p, norm, t), PrunedMap(p, norm, t).value)
    decreases p, 1
  {
    var entry := t.kids[0];
    assert WellFormed(entry);
    var key := entry.kids[0];
    TreeShape(p.children["key"], norm, key);
    var kept1 := Pruned(p.children["key"], norm, key).value;
    var keeps1, filled1 := Keeps(p.children["key"], norm, key), Filled(p.children["key"], norm, key);
    if |entry.kids| == 1 {
      WrapperShape(entry.elem, keeps1, filled1, kept1);
      WrapperShape(t.elem, true, keeps1 && filled1, [Node(Recount(entry.elem, 1), kept1)]);
    } else {
      var value := entry.kids[1];
      TreeShape(p.children["value"], norm, value);
      var kept2 := Pruned(p.children["value"], norm, value).value;
      var keeps2, filled2 := Keeps(p.children["value"], norm, value), Filled(p.children["value"], norm, value);
      EntryShape(entry.elem, keeps1, filled1, kept1, keeps2, filled2, kept2);
      WrapperShape(t.elem, true, (keeps1 && filled1) && (keeps2 && filled2),
                   [Node(Recount(entry.elem, 2), kept1 + kept2)]);
    }
  }

  lemma {:induction false} TreeShape(p: Pruner, norm: string -> string, t: Tree)
    requires WellFormed(t) && Pruned(p, norm, t).Ok?
    ensures Shaped(Keeps(p, norm, t), Filled(p, norm, t), Pruned(p, norm, t).value)
    decreases p, 2
  {
    match p.tag
    case Value =>
      WellFormedIsRoomy(t);
      WellFormedLacksNothing(t);
      LackingOne(t);
    case Struct => StructShape(p, norm, t);
    case List => ListShape(p, norm, t);
    case Map => MapShape(p, norm, t);
  }

  // ----- the pruned footer -----

  ghost predicate IsFlattening(s: seq<Element>)
  {
    exists t :: WellFormed(t) && Flatten(t) == s
  }

  /**
    Pruning a whole footer: the walk over a flattened schema fails as pruning its tree does; when it
    returns it has passed over everything, and the gathered schema is empty exactly when nothing was
    wanted; otherwise it flattens what is left of the tree. That in turn is a schema again if and only
    if no LIST or MAP wrapper on the way loses its content.
  */
  lemma {:induction false} PruningPreservesTheTree(p: Pruner, norm: string -> string, t: Tree)
    requires WellFormed(t)
    ensures
      var schema := Flatten(t);
      var r := Prune(p, norm, schema, 0, 0);
      match Pruned(p, norm, t)
      case Err(e) => r == Err(e)
      case Ok(kept) =>
        && r.Ok?
        && r.value.at == |schema| && r.value.chunk == Leaves(schema)
        && InRange(schema, r.value.picks)
        && var gathered := Gather(schema, r.value.picks);
           && (gathered == [] <==> !Keeps(p, norm, t))
           && (gathered != [] ==>
                && |kept| == 1 && gathered == Flatten(kept[0])
                && (IsFlattening(gathered) <==> Filled(p, norm, t))
                && (Filled(p, norm, t) ==> WellFormed(kept[0])))
  {
    var schema := Flatten(t);
    assert schema[0..|schema|] == schema;
    PruneFollowsTree(p, norm, schema, 0, 0, t);
    var kept := Pruned(p, norm, t);
    if kept.Ok? {
      TreeShape(p, norm, t);
      if kept.value != [] {
        var u := kept.value[0];
        assert kept.value == [u];
        FlattenOne(u);
        LackingOne(u);
        RoomyLacks(u);
        forall other | WellFormed(other) && Flatten(other) == Flatten(u) ensures WellFormed(u) {
          OnlyWellFormed(u, other);
        }
      }
    }
  }

  /** A list whose element struct has none of the wanted fields keeps its wrappers and is no schema any more. */
  lemma {:induction false} HollowListIsNoSchema()
    ensures
      var group := (name, n, repeated) => Element(name, false, Some(n), repeated, false);
      var leaf := Node(Element("a", true, None, false, false), []);
      var list := Node(group("l", 1, false),
                       [Node(group("list", 1, true), [Node(group("element", 1, false), [leaf])])]);
      var root := Node(group("schema", 1, false), [list]);
      var wanted := Pruner(Struct, map["b" := Pruner(Value, map[])]);
      var p := Pruner(Struct, map["l" := Pruner(List, map["element" := wanted])]);
      var schema := Flatten(root);
      var r := Prune(p, s => s, schema, 0, 0);
      && WellFormed(root)
      && r.Ok? && InRange(schema, r.value.picks)
      && !IsFlattening(Gather(schema, r.value.picks))
  {
    var group := (name, n, repeated) => Element(name, false, Some(n), repeated, false);
    var leaf := Node(Element("a", true, None, false, false), []);
    var content := Node(group("element", 1, false), [leaf]);
    var field := Node(group("list", 1, true), [content]);
    var list := Node(group("l", 1, false), [field]);
    var root := Node(group("schema", 1, false), [list]);
    var norm: string -> string := s => s;
    var element := Pruner(Struct, map["b" := Pruner(Value, map[])]);
    var whole := Pruner(List, map["element" := element]);
    var p := Pruner(Struct, map["l" := whole]);
    assert WellFormed(leaf) && WellFormed(content) && WellFormed(field) && WellFormed(list) && WellFormed(root);
    assert content.kids[0] == leaf && norm(leaf.elem.name) !in element.children;
    assert content.kids[1..] == [];
    assert PruneForest(element, norm, content.kids) == PruneForest(element, norm, []);
    assert Pruned(element, norm, content) == Ok([]);
    assert Pruned(whole, norm, list).Ok?;
    assert list.kids[0] == field && field.kids[0] == content;
    assert root.kids[0] == list && root.kids[1..] == [];
    assert PruneForest(p, norm, root.kids).Ok?;
    assert Pruned(p, norm, root).Ok?;
    assert !Keeps(element, norm, content);
    assert !Filled(whole, norm, list);
    assert !Filled(p, norm, root);
    assert Keeps(whole, norm, list);
    assert Keeps(p, norm, root);
    PruningPreservesTheTree(p, norm, root);
  }
}
