/**
  Filtering a whole Parquet footer: schema, column orders and row groups (readAndFilter in
  NativeParquetJni.cpp).
*/
module Footer {
  import opened Collections
  import opened PruneSpec
  import opened PruneTree
  import opened PruneColumns
  import opened RowGroups
  import opened SchemaWalk
  import opened PrunerTree
  import opened PrunerForest

  /** The gather maps that pruning a schema yields. */
  datatype PruningMaps = PruningMaps(schemaMap: seq<nat>, schemaNumChildren: seq<int>, chunkMap: seq<nat>)

  function MapsOf(piece: Piece): PruningMaps
  {
    PruningMaps(Indices(piece.picks), Counts(piece.picks), piece.chunks)
  }

  method FilterSchema(p: Pruner, norm: string -> string, schema: seq<Element>) returns (r: Result<PruningMaps>)
    ensures match Prune(p, norm, schema, 0, 0)
      case Err(e) => r == Err(e)
      case Ok(piece) => r == Ok(MapsOf(piece))
  {
    var walk := new Walk();
    var error := walk.FilterSchema(p, norm, schema);
    ghost var spec := Prune(p, norm, schema, 0, 0);
    if spec.Ok? {
      var piece := spec.value;
      assert [] + Indices(piece.picks) == Indices(piece.picks) && [] + Counts(piece.picks) == Counts(piece.picks);
      assert [] + piece.chunks == piece.chunks;
    }
    match error
    case Some(e) => r := Err(e);
    case None => r := Ok(PruningMaps(walk.schemaMap, walk.schemaNumChildren, walk.chunkMap));
  }

  /** Gather the kept elements, each with its new number of children. */
  method GatherSchema(schema: seq<Element>, maps: PruningMaps, ghost picks: seq<Pick>) returns (r: seq<Element>)
    requires InRange(schema, picks) && maps.schemaMap == Indices(picks) && maps.schemaNumChildren == Counts(picks)
    ensures r == Gather(schema, picks)
  {
    r := [];
    for i := 0 to |maps.schemaMap|
      invariant r == Gather(schema, picks[..i])
    {
      assert picks[..i + 1] == picks[..i] + [picks[i]];
      GatherConcat(schema, picks[..i], [picks[i]]);
      assert [picks[i]][1..] == [];
      var element := schema[maps.schemaMap[i]];
      r := r + [Recount(element, maps.schemaNumChildren[i])];
    }
    assert picks[..|picks|] == picks;
  }

  /** The columns of every row group are replaced by the kept ones. */
  method FilterColumns(groups: array<RowGroup>, chunks: seq<nat>)
    requires forall i, k | 0 <= i < groups.Length && 0 <= k < |chunks| :: chunks[k] < |groups[i].columns|
    modifies groups
    ensures forall i | 0 <= i < groups.Length ::
              groups[i] == old(groups[i]).(columns := Select(old(groups[i]).columns, chunks))
  {
    for i := 0 to groups.Length
      invariant forall j | 0 <= j < i :: groups[j] == old(groups[j]).(columns := Select(old(groups[j]).columns, chunks))
      invariant forall j | i <= j < groups.Length :: groups[j] == old(groups[j])
    {
      var columns := groups[i].columns;
      var kept: seq<ColumnChunk> := [];
      for k := 0 to |chunks|
        invariant |kept| == k && forall l | 0 <= l < k :: kept[l] == columns[chunks[l]]
      {
        kept := kept + [columns[chunks[k]]];
      }
      groups[i] := groups[i].(columns := kept);
    }
  }

  /** A footer: its schema, the order of each column if given, and its row groups. */
  datatype Meta = Meta(schema: seq<Element>, columnOrders: Option<seq<int>>, groups: seq<RowGroup>)

  /** One column order and one chunk in every row group for each leaf of the schema. */
  ghost predicate Columnar(m: Meta)
  {
    && (m.columnOrders.Some? ==> |m.columnOrders.value| == |LeafElements(m.schema)|)
    && (forall i | 0 <= i < |m.groups| :: |m.groups[i].columns| == |LeafElements(m.schema)|)
  }

  /** A row group with only the kept columns. */
  function WithColumns(g: RowGroup, chunks: seq<nat>): RowGroup
    requires forall k | 0 <= k < |chunks| :: chunks[k] < |g.columns|
  {
    g.(columns := Select(g.columns, chunks))
  }

  /** The selected row groups come from the footer. */
  lemma {:induction false} SelectionFromGroups(groups: seq<RowGroup>, n: nat, offset: int, length: int)
    requires HaveColumns(groups) && n <= |groups|
    ensures forall k | 0 <= k < |Selection(groups, n, offset, length)| ::
      Selection(groups, n, offset, length)[k] in groups
    decreases n
  {
    if n > 0 {
      SelectionFromGroups(groups, n - 1, offset, length);
    }
  }

  /** The row groups that a part leaves; a negative length selects all of them. */
  function PartGroups(groups: seq<RowGroup>, offset: int, length: int): seq<RowGroup>
    requires length >= 0 ==> HaveColumns(groups)
  {
    if length < 0 then groups else Selection(groups, |groups|, offset, length)
  }

  /** A negative length keeps every row group, no length at all keeps none, and the midpoint decides otherwise. */
  lemma {:induction false} PartDecides(groups: seq<RowGroup>, offset: int, length: int, i: nat)
    requires HaveColumns(groups) && i < |groups|
    ensures length < 0 ==> PartGroups(groups, offset, length) == groups
    ensures length == 0 ==> PartGroups(groups, offset, length) == []
    ensures length >= 0 && offset <= Midpoint(groups, i) < offset + length ==>
      groups[i] in PartGroups(groups, offset, length)
    ensures length >= 0 && (forall k | 0 <= k < |groups| :: !(offset <= Midpoint(groups, k) < offset + length)) ==>
      PartGroups(groups, offset, length) == []
  {
    hide Midpoint;
    if length >= 0 {
      if offset <= Midpoint(groups, i) < offset + length {
        SelectedIsIn(groups, |groups|, offset, length, i);
      }
      if forall k | 0 <= k < |groups| :: !(offset <= Midpoint(groups, k) < offset + length) {
        NoneIsIn(groups, |groups|, offset, length);
      }
    }
  }

  lemma {:induction false} SelectedIsIn(groups: seq<RowGroup>, n: nat, offset: int, length: int, i: nat)
    requires HaveColumns(groups) && i < n <= |groups| && offset <= Midpoint(groups, i) < offset + length
    ensures groups[i] in Selection(groups, n, offset, length)
    decreases n
  {
    if i < n - 1 {
      SelectedIsIn(groups, n - 1, offset, length, i);
    }
  }

  lemma {:induction false} NoneIsIn(groups: seq<RowGroup>, n: nat, offset: int, length: int)
    requires HaveColumns(groups) && n <= |groups|
    requires forall k | 0 <= k < |groups| :: !(offset <= Midpoint(groups, k) < offset + length)
    ensures Selection(groups, n, offset, length) == []
    decreases n
  {
    if n > 0 {
      NoneIsIn(groups, n - 1, offset, length);
    }
  }

  lemma {:induction false} PartGroupsFromGroups(groups: seq<RowGroup>, offset: int, length: int)
    requires length >= 0 ==> HaveColumns(groups)
    ensures forall k | 0 <= k < |PartGroups(groups, offset, length)| :: PartGroups(groups, offset, length)[k] in groups
  {
    if length >= 0 {
      SelectionFromGroups(groups, |groups|, offset, length);
    }
  }

  method FilterByPart(groups: seq<RowGroup>, offset: int, length: int) returns (selected: seq<RowGroup>)
    requires length >= 0 ==> HaveColumns(groups)
    ensures selected == PartGroups(groups, offset, length)
  {
    selected := groups;
    if length >= 0 {
      selected := FilterGroups(groups, offset, length);
    }
  }

  /** A footer whose schema flattens a tree and whose columns belong to its leaves. */
  ghost predicate IsFooter(m: Meta, t: Tree, length: int)
  {
    && WellFormed(t) && m.schema == Flatten(t) && Columnar(m)
    && (length >= 0 ==> HaveColumns(m.groups))
  }

  /** The list names a forest with distinct sibling names, depth first. */
  ghost predicate Lists(entries: seq<Entry>, parentNumChildren: int, ws: seq<Wish>)
  {
    DistinctNames(ws) && entries == ListedAll(ws) && parentNumChildren == |ws|
  }

  /**
    What filtering a footer by a pruner comes to, for a footer whose schema flattens a tree: the error of
    pruning the tree, or a footer with the pruned schema whose column orders and chunks again belong to
    its leaves one by one, each taken from the wanted leaf it stood for before.
  */
  ghost predicate FilteredBy(m: Meta, t: Tree, p: Pruner, norm: string -> string, offset: int, length: int,
                             r: Result<Meta>)
    requires IsFooter(m, t, length)
  {
    match Pruned(p, norm, t)
    case Err(e) => r == Err(e)
    case Ok(trees) =>
      var kept := Chosen(Wanting(p, norm), Paths(t, 0), 0);
      && r.Ok? && Columnar(r.value)
      && r.value.schema == FlattenAll(trees)
      && Ranks(m.schema, kept)
      && LeafElements(r.value.schema) == Select(LeafElements(m.schema), kept)
      && (m.columnOrders.None? ==> r.value.columnOrders == None)
      && (m.columnOrders.Some? ==> r.value.columnOrders == Some(Select(m.columnOrders.value, kept)))
      && var selected := PartGroups(m.groups, offset, length);
         && |r.value.groups| == |selected|
         && forall i | 0 <= i < |selected| ::
              && (forall k | 0 <= k < |kept| :: kept[k] < |selected[i].columns|)
              && r.value.groups[i] == WithColumns(selected[i], kept)
  }

  method FilterFooter(m: Meta, ghost t: Tree, p: Pruner, norm: string -> string, offset: int, length: int)
    returns (r: Result<Meta>)
    requires IsFooter(m, t, length)
    ensures FilteredBy(m, t, p, norm, offset, length, r)
  {
    hide PruneSpec.Prune, Flatten, FlattenAll, Gather, LeafElements, LeafRank, LeafRanks, Chosen, Paths, Pruned,
      PartGroups;
    FilteredParts(p, norm, t);
    ghost var kept := Chosen(Wanting(p, norm), Paths(t, 0), 0);
    var filter := FilterSchema(p, norm, m.schema);
    if filter.Err? {
      return Err(filter.error);
    }
    var maps := filter.value;
    ghost var piece := Prune(p, norm, m.schema, 0, 0).value;
    assert maps.chunkMap == kept;
    var schema := GatherSchema(m.schema, maps, piece.picks);
    var orders := m.columnOrders;
    if orders.Some? {
      orders := Some(Select(orders.value, maps.chunkMap));
    }
    var selected := FilterByPart(m.groups, offset, length);
    PartGroupsFromGroups(m.groups, offset, length);
    assert forall i | 0 <= i < |selected| :: selected[i] in m.groups;
    assert forall i | 0 <= i < |selected| :: |selected[i].columns| == |LeafElements(m.schema)|;
    var groups := new RowGroup[|selected|](i requires 0 <= i < |selected| => selected[i]);
    FilterColumns(groups, maps.chunkMap);
    r := Ok(Meta(schema, orders, groups[..]));
  }

  /** How reading and filtering a footer ends: filtered or refused, or with a list of names that is no forest. */
  datatype Reading = Done(result: Result<Meta>) | NotConsumed | Overran

  /**
    End to end, from the depth-first list of names, child counts and tags that the caller passes. If that
    lists a forest with distinct sibling names, the footer is filtered by exactly that forest; if it stops
    short it is refused, whatever the footer.
  */
  method ReadAndFilter(m: Meta, ghost t: Tree, entries: seq<Entry>, parentNumChildren: int, ghost ws: seq<Wish>,
                       norm: string -> string, offset: int, length: int)
    returns (r: Reading)
    requires IsFooter(m, t, length)
    ensures
      var built := Build(Pruner(Struct, map[]), entries, parentNumChildren);
      built.Built? ==> r.Done? && FilteredBy(m, t, built.root, norm, offset, length, r.result)
    ensures Lists(entries, parentNumChildren, ws) ==>
      r.Done? && FilteredBy(m, t, Pruner(Struct, AsChildren(ws)), norm, offset, length, r.result)
    ensures parentNumChildren != 0 ==>
      var n := AtLeast(parentNumChildren, 1);
      && (r.NotConsumed? <==> StopsShort(n, entries))
      && (r.Overran? <==> !NeedsThroughout(n, entries))
  {
    hide FilteredBy, Build, ListedAll, Flatten, Columnar;
    var empty := Pruner(Struct, map[]);
    var built := AddDepthFirst(empty, entries, parentNumChildren);
    if Lists(entries, parentNumChildren, ws) {
      BuildUndoesListing(ws);
    }
    if parentNumChildren != 0 {
      AcceptedExactlyWhenComplete(empty, entries, parentNumChildren);
    }
    match built
    case Rejected => r := NotConsumed;
    case Overrun => r := Overran;
    case Built(p) =>
      var result := FilterFooter(m, t, p, norm, offset, length);
      r := Done(result);
  }

  /** What pruning a footer's schema gives, put together. */
  lemma {:induction false} FilteredParts(p: Pruner, norm: string -> string, t: Tree)
    requires WellFormed(t)
    ensures
      var schema := Flatten(t);
      match Pruned(p, norm, t)
      case Err(e) => Prune(p, norm, schema, 0, 0) == Err(e)
      case Ok(trees) =>
        var r := Prune(p, norm, schema, 0, 0);
        var kept := Chosen(Wanting(p, norm), Paths(t, 0), 0);
        && r.Ok? && InRange(schema, r.value.picks) && r.value.chunks == kept && Ranks(schema, kept)
        && Gather(schema, r.value.picks) == FlattenAll(trees)
        && LeafElements(FlattenAll(trees)) == Select(LeafElements(schema), kept)
  {
    hide Prune, Pruned, Flatten, FlattenAll, Gather, LeafElements, LeafRank, LeafRanks, Chosen, Paths;
    var schema := Flatten(t);
    assert schema[0..|schema|] == schema;
    PruneFollowsTree(p, norm, schema, 0, 0, t);
    if Pruned(p, norm, t).Ok? {
      FlatteningIsChildless(t);
      ChunksLineUpWithLeaves(p, norm, schema);
      ExactlyTheWantedColumns(p, norm, t);
    }
  }
}
