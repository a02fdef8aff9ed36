/**
  Column pruning of a Parquet footer (NativeParquetJni.cpp): the schema is a tree flattened depth
  first, and the walk over it picks the elements and the column chunks to keep.
*/
module PruneSpec {
  import opened Collections

  /** The parts of a schema element that pruning looks at. A leaf is an element whose type is set. */
  datatype Element = Element(name: string, isLeaf: bool, numChildren: Option<int>, isRepeated: bool, isMap: bool)

  function NumChildren(e: Element): int
  {
    if e.numChildren.Some? then e.numChildren.value else 0
  }

  datatype Tag = Value | Struct | List | Map

  /** What to keep: the tag says how the element must look, the children are found by name. */
  datatype Pruner = Pruner(tag: Tag, children: map<string, Pruner>)

  datatype Error =
    | EndOfSchema | MissingChild
    | LeafInsteadOfStruct | GroupInsteadOfLeaf | LeafHasChildren
    | ListNotRepeated | ListGroupNotStandard | ListChildNotRepeated
    | ValueInsteadOfMap | NotAMap | MapGroupNotStandard | MapChildNotRepeated | MapChildCount

  datatype Result<+T> = Ok(value: T) | Err(error: Error)

  /** A kept element: where it was, and how many children it has left. */
  datatype Pick = Pick(index: nat, count: int)

  /** What one walk yields: where both cursors end up, and what it adds to the gather maps. */
  datatype Piece = Piece(at: nat, chunk: nat, picks: seq<Pick>, chunks: seq<nat>)

  /** `skip`: pass over pending elements, counting leaves. */
  function Skip(schema: seq<Element>, at: nat, chunk: nat, pending: int): (r: (nat, nat))
    decreases |schema| - at
  {
    if pending <= 0 || at >= |schema| then (at, chunk)
    else
      var e := schema[at];
      Skip(schema, at + 1, if e.isLeaf then chunk + 1 else chunk, pending + NumChildren(e) - 1)
  }

  function PruneValue(schema: seq<Element>, at: nat, chunk: nat): Result<Piece>
  {
    if at >= |schema| then Err(EndOfSchema)
    else if !schema[at].isLeaf then Err(GroupInsteadOfLeaf)
    else if NumChildren(schema[at]) != 0 then Err(LeafHasChildren)
    else Ok(Piece(at + 1, chunk + 1, [Pick(at, 0)], [chunk]))
  }

  /** Elements kept in front of a piece. */
  function Under(wrappers: seq<Pick>, r: Result<Piece>): Result<Piece>
  {
    match r
    case Ok(piece) => Ok(piece.(picks := wrappers + piece.picks))
    case Err(e) => Err(e)
  }

  function Then(first: Piece, second: Piece): Piece
  {
    Piece(second.at, second.chunk, first.picks + second.picks, first.chunks + second.chunks)
  }

  /** How many of a piece's children a struct counts for one child's walk. */
  function Grown(piece: Piece): nat { if piece.picks != [] then 1 else 0 }

  /** The children of a struct: each is walked if its name is wanted and skipped otherwise. Also counts those kept. */
  function PruneKids(p: Pruner, norm: string -> string, schema: seq<Element>, at: nat, chunk: nat, left: int)
    : Result<(Piece, nat)>
    decreases p, 0, if left < 0 then 0 else left
  {
    if left <= 0 || at >= |schema| then Ok((Piece(at, chunk, [], []), 0))
    else
      var name := norm(schema[at].name);
      if name in p.children then
        match Prune(p.children[name], norm, schema, at, chunk)
        case Err(e) => Err(e)
        case Ok(kid) =>
          (match PruneKids(p, norm, schema, kid.at, kid.chunk, left - 1)
           case Err(e) => Err(e)
           case Ok((rest, n)) => Ok((Then(kid, rest), Grown(kid) + n)))
      else
        var (at', chunk') := Skip(schema, at, chunk, 1);
        PruneKids(p, norm, schema, at', chunk', left - 1)
  }

  function PruneStruct(p: Pruner, norm: string -> string, schema: seq<Element>, at: nat, chunk: nat): Result<Piece>
    decreases p, 1
  {
    if at >= |schema| then Err(EndOfSchema)
    else if schema[at].isLeaf then Err(LeafInsteadOfStruct)
    else
      match PruneKids(p, norm, schema, at + 1, chunk, NumChildren(schema[at]))
      case Err(e) => Err(e)
      case Ok((kids, n)) => if n == 0 then Ok(kids) else Under([Pick(at, n)], Ok(kids))
  }

  /** The repeated field is the middle one of three levels, not the element itself. */
  predicate IsThreeLevel(list: Element, field: Element)
  {
    !field.isLeaf && NumChildren(field) == 1 && field.name != "array" && field.name != list.name + "_tuple"
  }

  function PruneList(p: Pruner, norm: string -> string, schema: seq<Element>, at: nat, chunk: nat): Result<Piece>
    decreases p, 1
  {
    if "element" !in p.children then Err(MissingChild)
    else if at >= |schema| then Err(EndOfSchema)
    else
      var list := schema[at];
      var element := p.children["element"];
      if list.isLeaf then
        if !list.isRepeated then Err(ListNotRepeated) else PruneValue(schema, at, chunk)
      else if NumChildren(list) > 1 then
        if !list.isRepeated then Err(ListNotRepeated) else Prune(element, norm, schema, at, chunk)
      else if NumChildren(list) != 1 then Err(ListGroupNotStandard)
      else if at + 1 >= |schema| then Err(EndOfSchema)
      else
        var field := schema[at + 1];
        if !field.isRepeated then Err(ListChildNotRepeated)
        else if IsThreeLevel(list, field) then
          Under([Pick(at, 1), Pick(at + 1, 1)], Prune(element, norm, schema, at + 2, chunk))
        else Under([Pick(at, 1)], Prune(element, norm, schema, at + 1, chunk))
  }

  function PruneMap(p: Pruner, norm: string -> string, schema: seq<Element>, at: nat, chunk: nat): Result<Piece>
    decreases p, 1
  {
    if "key" !in p.children || "value" !in p.children then Err(MissingChild)
    else if at >= |schema| then Err(EndOfSchema)
    else if schema[at].isLeaf then Err(ValueInsteadOfMap)
    else if !schema[at].isMap then Err(NotAMap)
    else if NumChildren(schema[at]) != 1 then Err(MapGroupNotStandard)
    else if at + 1 >= |schema| then Err(EndOfSchema)
    else if !schema[at + 1].isRepeated then Err(MapChildNotRepeated)
    else
      var n := NumChildren(schema[at + 1]);
      if n != 1 && n != 2 then Err(MapChildCount)
      else
        match Prune(p.children["key"], norm, schema, at + 2, chunk)
        case Err(e) => Err(e)
        case Ok(key) =>
          if n == 1 then Under([Pick(at, 1), Pick(at + 1, n)], Ok(key))
          else
            match Prune(p.children["value"], norm, schema, key.at, key.chunk)
            case Err(e) => Err(e)
            case Ok(value) => Under([Pick(at, 1), Pick(at + 1, n)], Ok(Then(key, value)))
  }

  /** `filter_schema` at one element, for either outcome of an input. */
  function Prune(p: Pruner, norm: string -> string, schema: seq<Element>, at: nat, chunk: nat): Result<Piece>
    decreases p, 2
  {
    match p.tag
    case Value => PruneValue(schema, at, chunk)
    case Struct => PruneStruct(p, norm, schema, at, chunk)
    case List => PruneList(p, norm, schema, at, chunk)
    case Map => PruneMap(p, norm, schema, at, chunk)
  }

  // ----- chunks line up with leaves -----

  /** The number of leaves in front of a position. */
  function LeafRank(schema: seq<Element>, at: nat): nat
    requires at <= |schema|
  {
    if at == 0 then 0 else LeafRank(schema, at - 1) + if schema[at - 1].isLeaf then 1 else 0
  }

  /** A leaf has no children. */
  ghost predicate LeavesAreChildless(schema: seq<Element>)
  {
    forall i | 0 <= i < |schema| && schema[i].isLeaf :: NumChildren(schema[i]) <= 0
  }

  /** The leaf ranks of the kept leaves, in order. */
  ghost function LeafRanks(schema: seq<Element>, picks: seq<Pick>): seq<nat>
    requires forall k | 0 <= k < |picks| :: picks[k].index < |schema|
  {
    if picks == [] then [] else
      var rest := LeafRanks(schema, picks[1..]);
      if schema[picks[0].index].isLeaf then [LeafRank(schema, picks[0].index)] + rest else rest
  }

  /** All picks lie in the range, in strictly increasing order. */
  ghost predicate PicksWithin(picks: seq<Pick>, from: nat, to: nat)
  {
    && (forall k | 0 <= k < |picks| :: from <= picks[k].index < to)
    && (forall j, k | 0 <= j < k < |picks| :: picks[j].index < picks[k].index)
  }

  /** A piece keeps both cursors in step and its chunks are those of its leaves. */
  ghost predicate InStep(schema: seq<Element>, from: nat, piece: Piece)
  {
    && from <= piece.at <= |schema|
    && piece.chunk == LeafRank(schema, piece.at)
    && PicksWithin(piece.picks, from, piece.at)
    && piece.chunks == LeafRanks(schema, piece.picks)
    && LeavesUntouched(schema, piece.picks)
  }

  /** Kept leaves had no children and get none. */
  ghost predicate LeavesUntouched(schema: seq<Element>, picks: seq<Pick>)
    requires forall k | 0 <= k < |picks| :: picks[k].index < |schema|
  {
    forall k | 0 <= k < |picks| && schema[picks[k].index].isLeaf ::
      picks[k].count == 0 && NumChildren(schema[picks[k].index]) == 0
  }

  lemma {:induction false} LeafRanksConcat(schema: seq<Element>, a: seq<Pick>, b: seq<Pick>)
    requires forall k | 0 <= k < |a| :: a[k].index < |schema|
    requires forall k | 0 <= k < |b| :: b[k].index < |schema|
    ensures LeafRanks(schema, a + b) == LeafRanks(schema, a) + LeafRanks(schema, b)
  {
    if a == [] {
      assert a + b == b;
    } else {
      LeafRanksConcat(schema, a[1..], b);
      assert (a + b)[1..] == a[1..] + b;
    }
  }

  lemma {:induction false} SkipInStep(schema: seq<Element>, at: nat, pending: int)
    requires at <= |schema|
    ensures
      var (at', chunk') := Skip(schema, at, LeafRank(schema, at), pending);
      at <= at' <= |schema| && chunk' == LeafRank(schema, at')
    decreases |schema| - at
  {
    if pending > 0 && at < |schema| {
      SkipInStep(schema, at + 1, pending + NumChildren(schema[at]) - 1);
    }
  }

  lemma {:induction false} ThenInStep(schema: seq<Element>, from: nat, first: Piece, second: Piece)
    requires InStep(schema, from, first) && InStep(schema, first.at, second)
    ensures InStep(schema, from, Then(first, second))
  {
    LeafRanksConcat(schema, first.picks, second.picks);
  }

  /** Putting one non-leaf element in front keeps the step. */
  lemma {:induction false} WrapInStep(schema: seq<Element>, at: nat, count: int, piece: Piece)
    requires at < |schema| && !schema[at].isLeaf && InStep(schema, at + 1, piece)
    ensures InStep(schema, at, piece.(picks := [Pick(at, count)] + piece.picks))
  {
  }

  lemma {:induction false} KidsInStep(p: Pruner, norm: string -> string, schema: seq<Element>, at: nat, left: int)
    requires LeavesAreChildless(schema) && at <= |schema|
    ensures
      var r := PruneKids(p, norm, schema, at, LeafRank(schema, at), left);
      r.Ok? ==> InStep(schema, at, r.value.0)
    decreases p, 0, if left < 0 then 0 else left
  {
    if left > 0 && at < |schema| {
      var chunk := LeafRank(schema, at);
      var name := norm(schema[at].name);
      if name in p.children {
        PruneInStep(p.children[name], norm, schema, at);
        var kid := Prune(p.children[name], norm, schema, at, chunk);
        if kid.Ok? {
          KidsInStep(p, norm, schema, kid.value.at, left - 1);
          var rest := PruneKids(p, norm, schema, kid.value.at, kid.value.chunk, left - 1);
          if rest.Ok? {
            ThenInStep(schema, at, kid.value, rest.value.0);
          }
        }
      } else {
        SkipInStep(schema, at, 1);
        var (at', chunk') := Skip(schema, at, chunk, 1);
        KidsInStep(p, norm, schema, at', left - 1);
      }
    }
  }

  lemma {:induction false} WrapTwiceInStep(schema: seq<Element>, at: nat, n: int, piece: Piece)
    requires at + 1 < |schema| && !schema[at].isLeaf && !schema[at + 1].isLeaf && InStep(schema, at + 2, piece)
    ensures InStep(schema, at, piece.(picks := [Pick(at, 1), Pick(at + 1, n)] + piece.picks))
  {
  }

  lemma {:induction false} ValueInStep(schema: seq<Element>, at: nat)
    requires at <= |schema|
    ensures
      var r := PruneValue(schema, at, LeafRank(schema, at));
      r.Ok? ==> InStep(schema, at, r.value)
  {
  }

  lemma {:induction false} ListInStep(p: Pruner, norm: string -> string, schema: seq<Element>, at: nat)
    requires LeavesAreChildless(schema) && at <= |schema|
    ensures
      var r := PruneList(p, norm, schema, at, LeafRank(schema, at));
      r.Ok? ==> InStep(schema, at, r.value)
    decreases p, 1
  {
    hide InStep, Prune, PruneValue, LeavesAreChildless;
    var chunk := LeafRank(schema, at);
    ValueInStep(schema, at);
    if "element" in p.children && at < |schema| && !schema[at].isLeaf {
      var element := p.children["element"];
      PruneInStep(element, norm, schema, at);
      if at + 1 < |schema| {
        PruneInStep(element, norm, schema, at + 1);
        var two := Prune(element, norm, schema, at + 1, chunk);
        if two.Ok? {
          WrapInStep(schema, at, 1, two.value);
        }
        if IsThreeLevel(schema[at], schema[at + 1]) {
          PruneInStep(element, norm, schema, at + 2);
          var three := Prune(element, norm, schema, at + 2, chunk);
          if three.Ok? {
            WrapTwiceInStep(schema, at, 1, three.value);
          }
        }
      }
    }
  }

  lemma {:induction false} MapInStep(p: Pruner, norm: string -> string, schema: seq<Element>, at: nat)
    requires LeavesAreChildless(schema) && at <= |schema|
    ensures
      var r := PruneMap(p, norm, schema, at, LeafRank(schema, at));
      r.Ok? ==> InStep(schema, at, r.value)
    decreases p, 1
  {
    var chunk := LeafRank(schema, at);
    if PruneMap(p, norm, schema, at, chunk).Ok? {
      var n := NumChildren(schema[at + 1]);
      PruneInStep(p.children["key"], norm, schema, at + 2);
      var key := Prune(p.children["key"], norm, schema, at + 2, chunk).value;
      if n == 1 {
        WrapTwiceInStep(schema, at, n, key);
      } else {
        PruneInStep(p.children["value"], norm, schema, key.at);
        var value := Prune(p.children["value"], norm, schema, key.at, key.chunk).value;
        ThenInStep(schema, at + 2, key, value);
        WrapTwiceInStep(schema, at, n, Then(key, value));
      }
    }
  }

  /**
    On any schema whose leaves are childless, a walk that returns keeps the chunk cursor equal to the
    number of leaves passed, picks elements in strictly increasing order, and gathers exactly the
    chunks of the leaves it picks.
  */
  lemma {:induction false} PruneInStep(p: Pruner, norm: string -> string, schema: seq<Element>, at: nat)
    requires LeavesAreChildless(schema) && at <= |schema|
    ensures
      var r := Prune(p, norm, schema, at, LeafRank(schema, at));
      r.Ok? ==> InStep(schema, at, r.value)
    decreases p, 2
  {
    var chunk := LeafRank(schema, at);
    match p.tag
    case Value =>
    case Struct =>
      if at < |schema| && !schema[at].isLeaf {
        KidsInStep(p, norm, schema, at + 1, NumChildren(schema[at]));
        var kids := PruneKids(p, norm, schema, at + 1, chunk, NumChildren(schema[at]));
        if kids.Ok? {
          WrapInStep(schema, at, kids.value.1, kids.value.0);
        }
      }
    case List => ListInStep(p, norm, schema, at);
    case Map => MapInStep(p, norm, schema, at);
  }
}
