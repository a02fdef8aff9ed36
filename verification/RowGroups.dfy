/**
  Assignment of row groups to the parts of a file by midpoint (NativeParquetJni.cpp), with the
  correction of wrong file offsets described in PARQUET-2078.
*/
module RowGroups {
  import opened Collections

  /** An optional field that is not set reads as zero. */
  function OrZero(o: Option<int>): int { if o.Some? then o.value else 0 }

  datatype ColumnChunk = ColumnChunk(hasMetadata: bool, dataPageOffset: int, dictionaryPageOffset: Option<int>,
                                     compressedSize: int)

  datatype RowGroup = RowGroup(columns: seq<ColumnChunk>, fileOffset: int, compressedSize: Option<int>, numRows: int)

  /** The source reads the first column of every row group. */
  ghost predicate HaveColumns(groups: seq<RowGroup>)
  {
    forall i | 0 <= i < |groups| :: groups[i].columns != []
  }

  // ----- what the filter computes -----

  /** The dictionary page of a chunk, if it stands in front of the data. */
  function Offset(c: ColumnChunk): (r: int)
    ensures r <= c.dataPageOffset && (c.dictionaryPageOffset.Some? ==> r <= c.dictionaryPageOffset.value)
    ensures r == c.dataPageOffset || Some(r) == c.dictionaryPageOffset
  {
    if c.dictionaryPageOffset.Some? && c.dataPageOffset > c.dictionaryPageOffset.value
    then c.dictionaryPageOffset.value else c.dataPageOffset
  }

  predicate InvalidFileOffset(start: int, preStart: int, preSize: int)
  {
    (preStart == 0 && start != 4) || start < preStart + preSize
  }

  /** Where a row group without column metadata starts, given the start and size of the one before. */
  function CorrectedStart(g: RowGroup, preStart: int, preSize: int): int
  {
    if !InvalidFileOffset(g.fileOffset, preStart, preSize) then g.fileOffset
    else if preStart == 0 then 4
    else preStart + preSize
  }

  function SumSizes(columns: seq<ColumnChunk>): int
  {
    if columns == [] then 0 else SumSizes(columns[..|columns| - 1]) + columns[|columns| - 1].compressedSize
  }

  function TotalSize(g: RowGroup): int
  {
    if g.compressedSize.Some? then g.compressedSize.value else SumSizes(g.columns)
  }

  /** Division that rounds toward zero. */
  function Halved(n: int): int { if n >= 0 then n / 2 else -(-n / 2) }

  function WithMetadata(groups: seq<RowGroup>): bool
    requires HaveColumns(groups)
  {
    groups != [] ==> groups[0].columns[0].hasMetadata
  }

  /** Where row group i starts. */
  function Start(groups: seq<RowGroup>, i: nat): int
    requires HaveColumns(groups) && i < |groups|
  {
    if WithMetadata(groups) then Offset(groups[i].columns[0])
    else if i == 0 then CorrectedStart(groups[0], 0, 0)
    else CorrectedStart(groups[i], Start(groups, i - 1), OrZero(groups[i - 1].compressedSize))
  }

  function Midpoint(groups: seq<RowGroup>, i: nat): int
    requires HaveColumns(groups) && i < |groups|
  {
    Start(groups, i) + Halved(TotalSize(groups[i]))
  }

  predicate Selects(groups: seq<RowGroup>, i: nat, offset: int, length: int)
    requires HaveColumns(groups) && i < |groups|
  {
    offset <= Midpoint(groups, i) < offset + length
  }

  /** The first n row groups, as far as a part selects them. */
  function Selection(groups: seq<RowGroup>, n: nat, offset: int, length: int): seq<RowGroup>
    requires HaveColumns(groups) && n <= |groups|
  {
    if n == 0 then []
    else Selection(groups, n - 1, offset, length) +
         if Selects(groups, n - 1, offset, length) then [groups[n - 1]] else []
  }

  /** Sizes of columns add up, one column having its own. */
  lemma {:induction false} SizesAddUp(a: seq<ColumnChunk>, c: ColumnChunk, b: seq<ColumnChunk>)
    ensures SumSizes(a + [c] + b) == SumSizes(a) + c.compressedSize + SumSizes(b)
    decreases |b|
  {
    var all := a + [c] + b;
    if b == [] {
      assert all[..|all| - 1] == a;
    } else {
      SizesAddUp(a, c, b[..|b| - 1]);
      assert all[..|all| - 1] == a + [c] + b[..|b| - 1];
    }
  }

  // ----- the filter -----

  method TotalCompressedSize(g: RowGroup) returns (total: int)
    ensures total == TotalSize(g)
  {
    total := 0;
    if g.compressedSize.Some? {
      total := g.compressedSize.value;
    } else {
      for i := 0 to |g.columns|
        invariant total == SumSizes(g.columns[..i])
      {
        assert g.columns[..i + 1][..i] == g.columns[..i];
        total := total + g.columns[i].compressedSize;
      }
      assert g.columns[..|g.columns|] == g.columns;
    }
  }

  method FilterGroups(groups: seq<RowGroup>, offset: int, length: int) returns (filtered: seq<RowGroup>)
    requires HaveColumns(groups)
    ensures filtered == Selection(groups, |groups|, offset, length)
  {
    var preStart, preSize := 0, 0;
    var firstColumnWithMetadata := true;
    if |groups| > 0 {
      firstColumnWithMetadata := groups[0].columns[0].hasMetadata;
    }
    filtered := [];
    for i := 0 to |groups|
      invariant filtered == Selection(groups, i, offset, length)
      invariant i == 0 ==> preStart == 0 && preSize == 0
      invariant i > 0 && !firstColumnWithMetadata ==>
                  preStart == Start(groups, i - 1) && preSize == OrZero(groups[i - 1].compressedSize)
    {
      var g := groups[i];
      var start;
      if firstColumnWithMetadata {
        start := Offset(g.columns[0]);
      } else {
        start := g.fileOffset;
        if InvalidFileOffset(start, preStart, preSize) {
          if preStart == 0 {
            start := 4;
          } else {
            start := preStart + preSize;
          }
        }
        preStart := start;
        preSize := OrZero(g.compressedSize);
      }
      var total := TotalCompressedSize(g);
      var mid := start + Halved(total);
      if mid >= offset && mid < offset + length {
        filtered := filtered + [g];
      }
    }
  }

  /**
    If the very first column has metadata, every row group starts where the first page of its first column
    is, be it a dictionary or data page. Otherwise the first row group starts at 4.
  */
  lemma {:induction false} FirstColumnDecides(groups: seq<RowGroup>, i: nat)
    requires HaveColumns(groups) && i < |groups|
    ensures groups[0].columns[0].hasMetadata ==>
      var c := groups[i].columns[0];
      && Start(groups, i) <= c.dataPageOffset
      && (c.dictionaryPageOffset.Some? ==> Start(groups, i) <= c.dictionaryPageOffset.value)
      && (Start(groups, i) == c.dataPageOffset || Some(Start(groups, i)) == c.dictionaryPageOffset)
    ensures !groups[0].columns[0].hasMetadata ==> !WithMetadata(groups) && Start(groups, 0) == 4
  {
  }

  // ----- midpoints -----

  /**
    The midpoint halves a row group up to one odd byte, which goes to the second half, counted away from
    the start whichever sign the size has.
  */
  lemma {:induction false} MidpointHalves(groups: seq<RowGroup>, i: nat)
    requires HaveColumns(groups) && i < |groups|
    ensures
      var first := Midpoint(groups, i) - Start(groups, i);
      var second := TotalSize(groups[i]) - first;
      && (TotalSize(groups[i]) >= 0 ==> 0 <= first <= second <= first + 1)
      && (TotalSize(groups[i]) <= 0 ==> first - 1 <= second <= first <= 0)
  {
  }

  /** A row group of positive size goes to the part that holds all of it, and to no part that holds nothing of it. */
  lemma {:induction false} WholeGroupsGoWithTheirPart(groups: seq<RowGroup>, i: nat, offset: int, length: int)
    requires HaveColumns(groups) && i < |groups| && TotalSize(groups[i]) > 0
    ensures
      var start, end := Start(groups, i), Start(groups, i) + TotalSize(groups[i]);
      && (offset <= start && end <= offset + length ==> Selects(groups, i, offset, length))
      && (end <= offset || offset + length <= start ==> !Selects(groups, i, offset, length))
  {
    hide Start, TotalSize, Midpoint;
    MidpointHalves(groups, i);
  }

  /** One group of 100 bytes at offset 4 belongs to the part that ends at 60, and not to the one behind it. */
  lemma {:induction false} GroupAcrossACut()
    ensures
      var groups := [RowGroup([ColumnChunk(true, 4, None, 100)], 0, Some(100), 1)];
      && HaveColumns(groups) && Midpoint(groups, 0) == 54
      && Selection(groups, 1, 0, 60) == groups && Selection(groups, 1, 60, 60) == []
  {
    var groups := [RowGroup([ColumnChunk(true, 4, None, 100)], 0, Some(100), 1)];
    assert groups[0].columns == [ColumnChunk(true, 4, None, 100)];
    assert Midpoint(groups, 0) == 54;
    assert Selection(groups, 0, 0, 60) == [] && Selection(groups, 0, 60, 60) == [];
  }

  // ----- conservation over the parts of a file -----

  /** Part k of a file reaches from cut k to cut k + 1. */
  ghost predicate Cuts(cuts: seq<int>)
  {
    |cuts| >= 1 && forall j, k | 0 <= j <= k < |cuts| :: cuts[j] <= cuts[k]
  }

  ghost predicate PartSelects(groups: seq<RowGroup>, i: nat, cuts: seq<int>, k: nat)
    requires HaveColumns(groups) && i < |groups| && k + 1 < |cuts|
  {
    Selects(groups, i, cuts[k], cuts[k + 1] - cuts[k])
  }

  function Rows(groups: seq<RowGroup>): int
  {
    if groups == [] then 0 else Rows(groups[..|groups| - 1]) + groups[|groups| - 1].numRows
  }

  function RowsOfParts(groups: seq<RowGroup>, cuts: seq<int>, parts: nat): int
    requires HaveColumns(groups) && parts < |cuts|
  {
    if parts == 0 then 0
    else
      var last := Selection(groups, |groups|, cuts[parts - 1], cuts[parts] - cuts[parts - 1]);
      RowsOfParts(groups, cuts, parts - 1) + Rows(last)
  }

  lemma RowsSnoc(groups: seq<RowGroup>, g: RowGroup)
    ensures Rows(groups + [g]) == Rows(groups) + g.numRows
  {
  }

  /** The cut whose part holds a point. */
  lemma {:induction false} PartOf(cuts: seq<int>, point: int) returns (k: nat)
    requires Cuts(cuts) && cuts[0] <= point < cuts[|cuts| - 1]
    ensures k + 1 < |cuts| && cuts[k] <= point < cuts[k + 1]
  {
    k := 0;
    while point >= cuts[k + 1]
      invariant k + 1 < |cuts| && cuts[k] <= point
      decreases |cuts| - k
    {
      k := k + 1;
    }
  }

  /** Every row group whose midpoint is in the file is selected by exactly one part, every other by none. */
  lemma {:induction false} ExactlyOnePart(groups: seq<RowGroup>, i: nat, cuts: seq<int>)
    requires HaveColumns(groups) && i < |groups| && Cuts(cuts)
    ensures (exists k: nat | k + 1 < |cuts| :: PartSelects(groups, i, cuts, k))
       <==> cuts[0] <= Midpoint(groups, i) < cuts[|cuts| - 1]
    ensures forall j: nat, k: nat | j + 1 < |cuts| && k + 1 < |cuts| ::
              PartSelects(groups, i, cuts, j) && PartSelects(groups, i, cuts, k) ==> j == k
  {
    var mid := Midpoint(groups, i);
    if cuts[0] <= mid < cuts[|cuts| - 1] {
      var k := PartOf(cuts, mid);
      assert PartSelects(groups, i, cuts, k);
    }
  }

  /** Selecting by two adjacent parts counts the rows of selecting by their union. */
  lemma {:induction false} AdjacentRows(groups: seq<RowGroup>, n: nat, a: int, b: int, c: int)
    requires HaveColumns(groups) && n <= |groups| && a <= b <= c
    ensures Rows(Selection(groups, n, a, b - a)) + Rows(Selection(groups, n, b, c - b)) ==
            Rows(Selection(groups, n, a, c - a))
    decreases n
  {
    hide Midpoint, Rows, Selection;
    if n == 0 {
      NoRows(groups, a, b - a);
      NoRows(groups, b, c - b);
      NoRows(groups, a, c - a);
    } else {
      AdjacentRows(groups, n - 1, a, b, c);
      OneMoreGroup(groups, n, a, b - a);
      OneMoreGroup(groups, n, b, c - b);
      OneMoreGroup(groups, n, a, c - a);
    }
  }

  lemma {:induction false} NoRows(groups: seq<RowGroup>, offset: int, length: int)
    requires HaveColumns(groups)
    ensures Rows(Selection(groups, 0, offset, length)) == 0
  {
  }

  lemma {:induction false} OneMoreGroup(groups: seq<RowGroup>, n: nat, offset: int, length: int)
    requires HaveColumns(groups) && 0 < n <= |groups|
    ensures Rows(Selection(groups, n, offset, length)) == Rows(Selection(groups, n - 1, offset, length))
          + if Selects(groups, n - 1, offset, length) then groups[n - 1].numRows else 0
  {
    hide Midpoint;
    var less := Selection(groups, n - 1, offset, length);
    RowsSnoc(less, groups[n - 1]);
    assert less + [] == less;
  }

  lemma {:induction false} NothingSelected(groups: seq<RowGroup>, n: nat, a: int)
    requires HaveColumns(groups) && n <= |groups|
    ensures Selection(groups, n, a, 0) == []
    decreases n
  {
    if n > 0 {
      NothingSelected(groups, n - 1, a);
    }
  }

  /** The rows of all parts add up to those of the whole file. */
  lemma {:induction false} RowsAddUp(groups: seq<RowGroup>, cuts: seq<int>, parts: nat)
    requires HaveColumns(groups) && Cuts(cuts) && parts < |cuts|
    ensures RowsOfParts(groups, cuts, parts) == Rows(Selection(groups, |groups|, cuts[0], cuts[parts] - cuts[0]))
    decreases parts
  {
    hide Selection, Rows;
    if parts == 0 {
      NoRowsInEmptyPart(groups, cuts[0]);
    } else {
      RowsAddUp(groups, cuts, parts - 1);
      AdjacentRows(groups, |groups|, cuts[0], cuts[parts - 1], cuts[parts]);
    }
  }

  lemma {:induction false} NoRowsInEmptyPart(groups: seq<RowGroup>, a: int)
    requires HaveColumns(groups)
    ensures Rows(Selection(groups, |groups|, a, 0)) == 0
  {
    NothingSelected(groups, |groups|, a);
  }

  lemma {:induction false} AllSelected(groups: seq<RowGroup>, n: nat, a: int, length: int)
    requires HaveColumns(groups) && n <= |groups|
    requires forall i | 0 <= i < n :: Selects(groups, i, a, length)
    ensures Selection(groups, n, a, length) == groups[..n]
    decreases n
  {
    if n > 0 {
      AllSelected(groups, n - 1, a, length);
      assert groups[..n] == groups[..n - 1] + [groups[n - 1]];
    }
  }

  /** Cutting up a file that holds all midpoints neither loses nor repeats a row. */
  lemma {:induction false} RowsAreConserved(groups: seq<RowGroup>, cuts: seq<int>)
    requires HaveColumns(groups) && Cuts(cuts)
    requires forall i | 0 <= i < |groups| :: cuts[0] <= Midpoint(groups, i) < cuts[|cuts| - 1]
    ensures RowsOfParts(groups, cuts, |cuts| - 1) == Rows(groups)
  {
    var n := |cuts| - 1;
    RowsAddUp(groups, cuts, n);
    AllSelected(groups, |groups|, cuts[0], cuts[n] - cuts[0]);
    assert groups[..|groups|] == groups;
  }

  // ----- corrected offsets -----

  ghost predicate SizesSet(groups: seq<RowGroup>)
  {
    forall i | 0 <= i < |groups| :: groups[i].compressedSize.Some? && groups[i].compressedSize.value >= 0
  }

  /** Corrected row groups start at 4, and each one starts at its own offset unless that lies inside the one before. */
  lemma {:induction false} CorrectedStarts(groups: seq<RowGroup>, i: nat)
    requires HaveColumns(groups) && i < |groups| && !WithMetadata(groups) && SizesSet(groups)
    ensures Start(groups, i) >= 4
    ensures i == 0 ==> Start(groups, i) == 4
    ensures i > 0 ==>
      var end := Start(groups, i - 1) + groups[i - 1].compressedSize.value;
      && end <= Start(groups, i)
      && (groups[i].fileOffset >= end ==> Start(groups, i) == groups[i].fileOffset)
      && (groups[i].fileOffset < end ==> Start(groups, i) == end)
    decreases i
  {
    if i > 0 {
      CorrectedStarts(groups, i - 1);
    }
  }

  /**
    Whatever the sizes, a corrected start behind a start other than zero is the greater of the group's own
    offset and the end of the group before. So a start falls below the one before it exactly when that
    one is not zero, the size before is negative and the offset lies below it too.
  */
  lemma {:induction false} StartFallsExactlyWhen(groups: seq<RowGroup>, i: nat)
    requires HaveColumns(groups) && 0 < i < |groups| && !WithMetadata(groups)
    ensures
      var before, offset := Start(groups, i - 1), groups[i].fileOffset;
      var size := if groups[i - 1].compressedSize.Some? then groups[i - 1].compressedSize.value else 0;
      && (before == 0 ==> Start(groups, i) == 4)
      && (before != 0 ==> Start(groups, i) == if offset >= before + size then offset else before + size)
      && (Start(groups, i) < before <==> before != 0 && size < 0 && offset < before)
  {
  }

  /** Two groups of which the first claims a size of -2: the second starts at 3, in front of the first. */
  lemma {:induction false} NegativeSizeGoesBackwards()
    ensures
      var chunk := ColumnChunk(false, 0, None, 0);
      var groups := [RowGroup([chunk], 4, Some(-2), 1), RowGroup([chunk], 3, Some(1), 1)];
      HaveColumns(groups) && !WithMetadata(groups) && Start(groups, 0) == 4 && Start(groups, 1) == 3
  {
    var chunk := ColumnChunk(false, 0, None, 0);
    var groups := [RowGroup([chunk], 4, Some(-2), 1), RowGroup([chunk], 3, Some(1), 1)];
    assert groups[0].columns == [chunk] && groups[1].columns == [chunk];
    assert Start(groups, 0) == 4;
    StartFallsExactlyWhen(groups, 1);
  }

  lemma {:induction false} CorrectedGroupsAreApart(groups: seq<RowGroup>, i: nat, j: nat)
    requires HaveColumns(groups) && i < j < |groups| && !WithMetadata(groups) && SizesSet(groups)
    ensures Start(groups, i) + groups[i].compressedSize.value <= Start(groups, j)
    ensures Midpoint(groups, i) <= Midpoint(groups, j)
    decreases j
  {
    CorrectedStarts(groups, j);
    if i + 1 < j {
      CorrectedGroupsAreApart(groups, i, j - 1);
    }
  }

  /** Without column metadata, what a part selects is a contiguous run of row groups. */
  lemma {:induction false} SelectionIsContiguous(groups: seq<RowGroup>, i: nat, j: nat, k: nat, offset: int,
                                                 length: int)
    requires HaveColumns(groups) && i < j < k < |groups| && !WithMetadata(groups) && SizesSet(groups)
    requires Selects(groups, i, offset, length) && Selects(groups, k, offset, length)
    ensures Selects(groups, j, offset, length)
  {
    CorrectedGroupsAreApart(groups, i, j);
    CorrectedGroupsAreApart(groups, j, k);
  }

  /** Offsets that already are in order are left alone, so correcting changes nothing in a sound footer. */
  lemma {:induction false} SoundOffsetsAreKept(groups: seq<RowGroup>, i: nat)
    requires HaveColumns(groups) && i < |groups| && !WithMetadata(groups) && SizesSet(groups)
    requires groups[0].fileOffset == 4
    requires forall k | 0 < k < |groups| ::
               groups[k].fileOffset >= groups[k - 1].fileOffset + groups[k - 1].compressedSize.value
    ensures Start(groups, i) == groups[i].fileOffset
    decreases i
  {
    CorrectedStarts(groups, i);
    if i > 0 {
      SoundOffsetsAreKept(groups, i - 1);
    }
  }
}
