/**
  The walk over a flattened schema as it runs: two cursors move, three gather maps grow, and a struct
  that keeps nothing is taken back. Every method is proved against PruneSpec.
*/
module SchemaWalk {
  import opened Collections
  import opened PruneSpec
  import opened PruneTree

  function Indices(picks: seq<Pick>): (r: seq<nat>)
    ensures |r| == |picks|
  {
    seq(|picks|, k requires 0 <= k < |picks| => picks[k].index)
  }

  function Counts(picks: seq<Pick>): (r: seq<int>)
    ensures |r| == |picks|
  {
    seq(|picks|, k requires 0 <= k < |picks| => picks[k].count)
  }

  lemma {:induction false} PicksSplit(a: seq<Pick>, b: seq<Pick>)
    ensures Indices(a + b) == Indices(a) + Indices(b)
    ensures Counts(a + b) == Counts(a) + Counts(b)
  {
  }

  /** Where both cursors stand and what the three gather maps hold. */
  datatype Maps = Maps(at: nat, chunk: nat, chunkMap: seq<nat>, schemaMap: seq<nat>, schemaNumChildren: seq<int>)

  /** The cursors move to where a piece ends, and the maps grow by what it picks. */
  function Extended(m: Maps, piece: Piece): (r: Maps)
    ensures r.at == piece.at && r.chunk == piece.chunk
  {
    Maps(piece.at, piece.chunk, m.chunkMap + piece.chunks, m.schemaMap + Indices(piece.picks),
         m.schemaNumChildren + Counts(piece.picks))
  }

  /** A call failed with the error that the specification gives, or did what it says. */
  ghost predicate Did(before: Maps, after: Maps, spec: Result<Piece>, error: Option<Error>)
  {
    match spec
    case Err(e) => error == Some(e)
    case Ok(piece) => error == None && after == Extended(before, piece)
  }

  lemma {:induction false} ExtendedThen(m: Maps, a: Piece, b: Piece)
    ensures Extended(Extended(m, a), b) == Extended(m, Then(a, b))
  {
    PicksSplit(a.picks, b.picks);
  }

  /** The element under the schema cursor goes into the maps. */
  function Pushed(m: Maps, count: int): Maps
  {
    m.(at := m.at + 1, schemaMap := m.schemaMap + [m.at], schemaNumChildren := m.schemaNumChildren + [count])
  }

  lemma {:induction false} PushedFirst(m: Maps, count: int, piece: Piece)
    ensures Extended(Pushed(m, count), piece) == Extended(m, piece.(picks := [Pick(m.at, count)] + piece.picks))
  {
    PicksSplit([Pick(m.at, count)], piece.picks);
    assert Indices([Pick(m.at, count)]) == [m.at] && Counts([Pick(m.at, count)]) == [count];
  }

  /** What was done after pushing one wrapper. */
  lemma {:induction false} DidUnder(before: Maps, count: int, after: Maps, spec: Result<Piece>, error: Option<Error>)
    requires Did(Pushed(before, count), after, spec, error)
    ensures Did(before, after, Under([Pick(before.at, count)], spec), error)
  {
    if spec.Ok? {
      PushedFirst(before, count, spec.value);
    }
  }

  lemma {:induction false} DidUnderTwo(before: Maps, n: int, m: int, after: Maps, spec: Result<Piece>,
                                       error: Option<Error>)
    requires Did(Pushed(Pushed(before, n), m), after, spec, error)
    ensures Did(before, after, Under([Pick(before.at, n), Pick(before.at + 1, m)], spec), error)
  {
    DidUnder(Pushed(before, n), m, after, spec, error);
    DidUnder(before, n, after, Under([Pick(before.at + 1, m)], spec), error);
    UnderTwice(Pick(before.at, n), Pick(before.at + 1, m), spec);
  }

  lemma {:induction false} ExtendedCursors(m: Maps, piece: Piece, at: nat, chunk: nat)
    ensures Extended(m, piece.(at := at, chunk := chunk)) == Extended(m, piece).(at := at, chunk := chunk)
  {
  }

  lemma {:induction false} ExtendedGrows(m: Maps, piece: Piece)
    ensures |Extended(m, piece).schemaMap| > |m.schemaMap| <==> Grown(piece) == 1
  {
  }

  /** One more child under a struct whose entry stands in front of its content. */
  lemma {:induction false} CountedUp(m: Maps, matched: int, done: Piece)
    ensures
      var now := Extended(Pushed(m, matched), done);
      var position := |m.schemaNumChildren|;
      && position < |now.schemaNumChildren|
      && now.(schemaNumChildren := now.schemaNumChildren[position := now.schemaNumChildren[position] + 1])
         == Extended(Pushed(m, matched + 1), done)
  {
  }

  /** Taking back the entry of a struct that kept nothing. */
  lemma {:induction false} TakenBack(m: Maps, done: Piece)
    requires done.picks == []
    ensures
      var now := Extended(Pushed(m, 0), done);
      && |now.schemaMap| > 0 && |now.schemaNumChildren| > 0
      && now.(schemaMap := now.schemaMap[..|now.schemaMap| - 1],
              schemaNumChildren := now.schemaNumChildren[..|now.schemaNumChildren| - 1])
         == Extended(m, done)
  {
  }

  /** What is done followed by what remains is the whole. */
  ghost predicate Pending(whole: Result<(Piece, nat)>, done: Piece, matched: int, rest: Result<(Piece, nat)>)
  {
    match rest
    case Err(e) => whole == Err(e)
    case Ok((piece, n)) => whole == Ok((Then(done, piece), matched + n))
  }

  /** What a struct does with its next child. */
  function ChildWalk(p: Pruner, norm: string -> string, schema: seq<Element>, at: nat, chunk: nat): Result<Piece>
    requires at < |schema|
  {
    var name := norm(schema[at].name);
    if name in p.children then Prune(p.children[name], norm, schema, at, chunk)
    else
      var (at', chunk') := PruneSpec.Skip(schema, at, chunk, 1);
      Ok(Piece(at', chunk', [], []))
  }

  lemma {:induction false} ThenSkipped(done: Piece, at: nat, chunk: nat)
    ensures Then(done, Piece(at, chunk, [], [])) == done.(at := at, chunk := chunk)
  {
    assert done.picks + [] == done.picks && done.chunks + [] == done.chunks;
  }

  lemma {:induction false} KidsStep(p: Pruner, norm: string -> string, schema: seq<Element>, at: nat, chunk: nat,
                                    left: int)
    requires left > 0 && at < |schema|
    ensures
      var whole := PruneKids(p, norm, schema, at, chunk, left);
      match ChildWalk(p, norm, schema, at, chunk)
      case Err(e) => whole == Err(e)
      case Ok(kid) =>
        match PruneKids(p, norm, schema, kid.at, kid.chunk, left - 1)
        case Err(e) => whole == Err(e)
        case Ok((piece, n)) => whole == Ok((Then(kid, piece), Grown(kid) + n))
  {
    hide Prune, PruneSpec.Skip;
    var name := norm(schema[at].name);
    if name !in p.children {
      var (at', chunk') := PruneSpec.Skip(schema, at, chunk, 1);
      var rest := PruneKids(p, norm, schema, at', chunk', left - 1);
      if rest.Ok? {
        var piece := rest.value.0;
        assert [] + piece.picks == piece.picks && [] + piece.chunks == piece.chunks;
      }
    }
  }

  lemma {:induction false} KidsEnd(p: Pruner, norm: string -> string, schema: seq<Element>, at: nat, chunk: nat,
                                   left: int)
    requires left <= 0 || at >= |schema|
    ensures PruneKids(p, norm, schema, at, chunk, left) == Ok((Piece(at, chunk, [], []), 0))
  {
  }

  lemma {:induction false} NothingDone(m: Maps, whole: Result<(Piece, nat)>)
    ensures var done := Piece(m.at + 1, m.chunk, [], []);
      Extended(Pushed(m, 0), done) == Pushed(m, 0) && Pending(whole, done, 0, whole)
  {
    if whole.Ok? {
      var piece := whole.value.0;
      assert [] + piece.picks == piece.picks && [] + piece.chunks == piece.chunks;
    }
  }

  lemma {:induction false} AllDone(whole: Result<(Piece, nat)>, done: Piece, matched: int)
    requires Pending(whole, done, matched, Ok((Piece(done.at, done.chunk, [], []), 0)))
    ensures whole.Ok? && whole.value.0 == done && whole.value.1 == matched
  {
    assert done.picks + [] == done.picks && done.chunks + [] == done.chunks;
  }

  lemma {:induction false} PendingStep(whole: Result<(Piece, nat)>, done: Piece, matched: int, kid: Piece,
                                       rest: Result<(Piece, nat)>)
    requires match rest
      case Err(e) => whole == Err(e)
      case Ok((piece, n)) => Pending(whole, done, matched, Ok((Then(kid, piece), Grown(kid) + n)))
    ensures Pending(whole, Then(done, kid), matched + Grown(kid), rest)
  {
    if rest.Ok? {
      var piece := rest.value.0;
      assert done.picks + (kid.picks + piece.picks) == (done.picks + kid.picks) + piece.picks;
      assert done.chunks + (kid.chunks + piece.chunks) == (done.chunks + kid.chunks) + piece.chunks;
    }
  }

  class Walk {
    var at: nat
    var chunk: nat
    var chunkMap: seq<nat>
    var schemaMap: seq<nat>
    var schemaNumChildren: seq<int>

    constructor ()
      ensures at == 0 && chunk == 0 && chunkMap == [] && schemaMap == [] && schemaNumChildren == []
    {
      at, chunk, chunkMap, schemaMap, schemaNumChildren := 0, 0, [], [], [];
    }

    function Now(): Maps
      reads this
    {
      Maps(at, chunk, chunkMap, schemaMap, schemaNumChildren)
    }

    method Skip(schema: seq<Element>)
      modifies this`at, this`chunk
      ensures (at, chunk) == PruneSpec.Skip(schema, old(at), old(chunk), 1)
    {
      var numToSkip := 1;
      while numToSkip > 0 && at < |schema|
        invariant PruneSpec.Skip(schema, at, chunk, numToSkip) == PruneSpec.Skip(schema, old(at), old(chunk), 1)
        decreases |schema| - at
      {
        var item := schema[at];
        if item.isLeaf {
          chunk := chunk + 1;
        }
        if item.numChildren.Some? {
          numToSkip := numToSkip + item.numChildren.value;
        }
        numToSkip := numToSkip - 1;
        at := at + 1;
      }
    }

    /** Put the element under the schema cursor into the maps and move on. */
    method Push(count: int)
      modifies this`at, this`schemaMap, this`schemaNumChildren
      ensures Now() == Pushed(old(Now()), count)
    {
      schemaMap := schemaMap + [at];
      schemaNumChildren := schemaNumChildren + [count];
      at := at + 1;
    }

    method FilterSchemaValue(schema: seq<Element>) returns (error: Option<Error>)
      modifies this
      ensures Did(old(Now()), Now(), PruneValue(schema, old(at), old(chunk)), error)
    {
      if at >= |schema| {
        return Some(EndOfSchema);
      }
      if !schema[at].isLeaf {
        return Some(GroupInsteadOfLeaf);
      }
      if NumChildren(schema[at]) != 0 {
        return Some(LeafHasChildren);
      }
      Push(0);
      chunkMap := chunkMap + [chunk];
      chunk := chunk + 1;
      error := None;
      assert Indices([Pick(old(at), 0)]) == [old(at)] && Counts([Pick(old(at), 0)]) == [0];
    }

    method FilterSchemaStruct(p: Pruner, norm: string -> string, schema: seq<Element>) returns (error: Option<Error>)
      modifies this
      ensures Did(old(Now()), Now(), PruneStruct(p, norm, schema, old(at), old(chunk)), error)
      decreases p, 1
    {
      hide PruneKids, Extended, ChildWalk, Prune, PruneSpec.Skip;
      if at >= |schema| {
        return Some(EndOfSchema);
      }
      if schema[at].isLeaf {
        return Some(LeafInsteadOfStruct);
      }
      var numChildren := NumChildren(schema[at]);
      var position := |schemaNumChildren|;
      Push(0);
      ghost var whole := PruneKids(p, norm, schema, at, chunk, numChildren);
      ghost var done := Piece(at, chunk, [], []);
      var matched := 0;
      var child := 0;
      NothingDone(old(Now()), whole);
      while child < numChildren && at < |schema|
        invariant 0 <= child && (0 <= numChildren ==> child <= numChildren) && matched >= 0
        invariant Now() == Extended(Pushed(old(Now()), matched), done)
        invariant Pending(whole, done, matched, PruneKids(p, norm, schema, at, chunk, numChildren - child))
        invariant matched == 0 ==> done.picks == []
      {
        ghost var kid := ChildWalk(p, norm, schema, at, chunk);
        KidsStep(p, norm, schema, at, chunk, numChildren - child);
        var counted;
        error, counted := FilterChild(p, norm, schema, position, matched, old(Now()), done);
        if error.Some? {
          return;
        }
        PendingStep(whole, done, matched, kid.value, PruneKids(p, norm, schema, at, chunk, numChildren - child - 1));
        matched := counted;
        done := Then(done, kid.value);
        child := child + 1;
      }
      KidsEnd(p, norm, schema, at, chunk, numChildren - child);
      AllDone(whole, done, matched);
      if matched == 0 {
        TakenBack(old(Now()), done);
        schemaMap := schemaMap[..|schemaMap| - 1];
        schemaNumChildren := schemaNumChildren[..|schemaNumChildren| - 1];
      } else {
        PushedFirst(old(Now()), matched, done);
      }
      error := None;
    }

    /** One child of a struct: walked if its name is wanted, skipped otherwise, and counted if it left anything. */
    method FilterChild(p: Pruner, norm: string -> string, schema: seq<Element>, position: nat, matched: int,
                       ghost start: Maps, ghost done: Piece)
      returns (error: Option<Error>, counted: int)
      requires at < |schema| && position == |start.schemaNumChildren|
      requires Now() == Extended(Pushed(start, matched), done)
      modifies this
      ensures
        match ChildWalk(p, norm, schema, old(at), old(chunk))
        case Err(e) => error == Some(e)
        case Ok(kid) =>
          && error == None && counted == matched + Grown(kid)
          && Now() == Extended(Pushed(start, counted), Then(done, kid))
      decreases p, 0
    {
      hide Prune, PruneSpec.Skip, Extended;
      counted := matched;
      var name := norm(schema[at].name);
      if name in p.children {
        var before := |schemaMap|;
        ghost var now := Now();
        ghost var kid := Prune(p.children[name], norm, schema, at, chunk);
        error := FilterSchema(p.children[name], norm, schema);
        if error.Some? {
          return;
        }
        ExtendedThen(Pushed(start, matched), done, kid.value);
        ExtendedGrows(now, kid.value);
        if |schemaMap| > before {
          CountedUp(start, matched, Then(done, kid.value));
          counted := counted + 1;
          schemaNumChildren := schemaNumChildren[position := schemaNumChildren[position] + 1];
        }
      } else {
        Skip(schema);
        ExtendedCursors(Pushed(start, matched), done, at, chunk);
        ThenSkipped(done, at, chunk);
        error := None;
      }
    }

    method FilterSchemaList(p: Pruner, norm: string -> string, schema: seq<Element>) returns (error: Option<Error>)
      modifies this
      ensures Did(old(Now()), Now(), PruneList(p, norm, schema, old(at), old(chunk)), error)
      decreases p, 1
    {
      hide Prune, Extended;
      if "element" !in p.children {
        return Some(MissingChild);
      }
      var found := p.children["element"];
      if at >= |schema| {
        return Some(EndOfSchema);
      }
      var list := schema[at];
      if list.isLeaf {
        if !list.isRepeated {
          return Some(ListNotRepeated);
        }
        error := FilterSchemaValue(schema);
        return;
      }
      if NumChildren(list) > 1 {
        if !list.isRepeated {
          return Some(ListNotRepeated);
        }
        error := FilterSchema(found, norm, schema);
        return;
      }
      if NumChildren(list) != 1 {
        return Some(ListGroupNotStandard);
      }
      Push(1);
      if at >= |schema| {
        return Some(EndOfSchema);
      }
      var field := schema[at];
      if !field.isRepeated {
        return Some(ListChildNotRepeated);
      }
      if !field.isLeaf && NumChildren(field) == 1 && field.name != "array" && field.name != list.name + "_tuple" {
        Push(1);
        error := FilterSchema(found, norm, schema);
        DidUnderTwo(old(Now()), 1, 1, Now(), Prune(found, norm, schema, old(at) + 2, old(chunk)), error);
      } else {
        error := FilterSchema(found, norm, schema);
        DidUnder(old(Now()), 1, Now(), Prune(found, norm, schema, old(at) + 1, old(chunk)), error);
      }
    }

    method FilterSchemaMap(p: Pruner, norm: string -> string, schema: seq<Element>) returns (error: Option<Error>)
      modifies this
      ensures Did(old(Now()), Now(), PruneMap(p, norm, schema, old(at), old(chunk)), error)
      decreases p, 1
    {
      hide Prune, Extended;
      if "key" !in p.children || "value" !in p.children {
        return Some(MissingChild);
      }
      if at >= |schema| {
        return Some(EndOfSchema);
      }
      if schema[at].isLeaf {
        return Some(ValueInsteadOfMap);
      }
      if !schema[at].isMap {
        return Some(NotAMap);
      }
      if NumChildren(schema[at]) != 1 {
        return Some(MapGroupNotStandard);
      }
      Push(1);
      if at >= |schema| {
        return Some(EndOfSchema);
      }
      if !schema[at].isRepeated {
        return Some(MapChildNotRepeated);
      }
      var n := NumChildren(schema[at]);
      if n != 1 && n != 2 {
        return Some(MapChildCount);
      }
      Push(n);
      error := FilterMapEntry(p, norm, schema, n);
      DidUnderTwo(old(Now()), 1, n, Now(), EntryWalk(p, norm, schema, old(at) + 2, old(chunk), n), error);
    }

    /** The key of a map's entries, and the value if they have two fields. */
    method FilterMapEntry(p: Pruner, norm: string -> string, schema: seq<Element>, n: nat)
      returns (error: Option<Error>)
      requires "key" in p.children && "value" in p.children && 1 <= n <= 2
      modifies this
      ensures Did(old(Now()), Now(), EntryWalk(p, norm, schema, old(at), old(chunk), n), error)
      decreases p, 0
    {
      hide Prune, Extended;
      ghost var key := Prune(p.children["key"], norm, schema, at, chunk);
      error := FilterSchema(p.children["key"], norm, schema);
      if error.None? && n == 2 {
        ghost var value := Prune(p.children["value"], norm, schema, at, chunk);
        error := FilterSchema(p.children["value"], norm, schema);
        if error.None? {
          ExtendedThen(old(Now()), key.value, value.value);
        }
      }
    }

    method FilterSchema(p: Pruner, norm: string -> string, schema: seq<Element>) returns (error: Option<Error>)
      modifies this
      ensures Did(old(Now()), Now(), Prune(p, norm, schema, old(at), old(chunk)), error)
      decreases p, 2
    {
      match p.tag
      case Struct => error := FilterSchemaStruct(p, norm, schema);
      case Value => error := FilterSchemaValue(schema);
      case List => error := FilterSchemaList(p, norm, schema);
      case Map => error := FilterSchemaMap(p, norm, schema);
    }
  }
}
