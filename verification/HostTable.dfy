/**
  Packing the columns of a device table into one host buffer (HostTableJni.cpp).
*/
module HostTable {
  import opened Collections

  type Byte = n: int | 0 <= n < 256

  datatype DType = FixedWidth(width: nat) | Str | Other

  /**
    A column on the device: what its data and mask pointers lead to, if they lead anywhere. The mask
    is present whenever there are nulls, and may be present without any.
  */
  datatype Column = Column(dtype: DType, size: nat, data: Option<seq<Byte>>, mask: Option<seq<Byte>>, nullCount: nat,
                           kids: seq<Column>)

  /** A column whose data and mask are addresses. */
  datatype View = View(dtype: DType, size: nat, data: Option<int>, mask: Option<int>, nullCount: nat, kids: seq<View>)

  datatype Status = Fine | Overflow | BadType | PastEnd

  /** The number of characters of a string column is read from its children. */
  type CharCount = seq<Column> -> nat

  /** A multiple of 64. */
  predicate Aligned(n: int) { n % 64 == 0 }

  lemma {:induction false} AlignedSum(a: int, b: int)
    requires Aligned(a)
    ensures Aligned(a + b) <==> Aligned(b)
  {
  }

  /** The next multiple of 64 does not pass another multiple. */
  lemma {:induction false} AlignedStep(a: int, b: int, c: int)
    requires Aligned(a) && Aligned(b) && Aligned(c) && a + b < c + 64
    ensures a + b <= c
  {
  }

  /** Sizes are padded to 64 bytes. */
  function PadSize(n: nat): (r: nat)
    ensures n <= r < n + 64 && Aligned(r)
    ensures Aligned(n) ==> r == n
  {
    (n + 63) / 64 * 64
  }

  /** A mask has a bit for each row, padded to 64 bytes. */
  function MaskSize(rows: nat): (r: nat)
    ensures Aligned(r) && rows <= 8 * r
  {
    PadSize((rows + 7) / 8)
  }

  /** 64 bytes less would not do. */
  lemma {:induction false} MaskIsLeast(rows: nat)
    ensures rows == 0 ==> MaskSize(rows) == 0
    ensures rows > 0 ==> 8 * (MaskSize(rows) - 64) < rows <= 8 * MaskSize(rows)
  {
  }

  /** The column without a mask that marks nothing, as it is after a round trip. */
  function Plain(c: Column): Column
    decreases c, 1
  {
    c.(mask := if c.nullCount > 0 then c.mask else None, kids := PlainAll(c.kids))
  }

  function PlainAll(cs: seq<Column>): (r: seq<Column>)
    ensures |r| == |cs|
    decreases cs, 0
  {
    if cs == [] then [] else [Plain(cs[0])] + PlainAll(cs[1..])
  }

  function DataSize(chars: CharCount, dtype: DType, size: nat, kids: seq<Column>): Option<nat>
  {
    match dtype
    case FixedWidth(width) => Some(width * size)
    case Str => Some(chars(PlainAll(kids)))
    case Other => None
  }

  /** The size of a column's padded data and its mask, unless it has data of an unknown type. */
  function OwnSize(chars: CharCount, c: Column): Option<nat>
  {
    var data := if c.data.None? then Some(0) else DataSize(chars, c.dtype, c.size, c.kids);
    if data.None? then None else Some(PadSize(data.value) + if c.nullCount > 0 then MaskSize(c.size) else 0)
  }

  /** The size of all of a column's parts, its children included. */
  function ColumnSize(chars: CharCount, c: Column): Option<nat>
    decreases c, 1
  {
    var own, kids := OwnSize(chars, c), TableSize(chars, c.kids);
    if own.None? || kids.None? then None else Some(own.value + kids.value)
  }

  function TableSize(chars: CharCount, cs: seq<Column>): Option<nat>
    decreases cs, 0
  {
    if cs == [] then Some(0)
    else
      var first, rest := ColumnSize(chars, cs[0]), TableSize(chars, cs[1..]);
      if first.None? || rest.None? then None else Some(first.value + rest.value)
  }

  /** The pointers lead to as much as the column's type, rows and nulls say. */
  ghost predicate OnDevice(chars: CharCount, c: Column)
  {
    && (c.data.Some? ==> DataSize(chars, c.dtype, c.size, c.kids) in {None, Some(|c.data.value|)})
    && (c.nullCount > 0 ==> c.mask.Some? && |c.mask.value| == MaskSize(c.size))
    && (forall k | 0 <= k < |c.kids| :: OnDevice(chars, c.kids[k]))
  }

  ghost predicate AllOnDevice(chars: CharCount, cs: seq<Column>)
  {
    forall k | 0 <= k < |cs| :: OnDevice(chars, cs[k])
  }

  // ----- what the buffer and the views hold -----

  function Zeros(n: nat): (r: seq<Byte>)
    ensures |r| == n && forall k | 0 <= k < n :: r[k] == 0
  {
    seq(n, _ => 0)
  }

  function Padded(data: seq<Byte>): (r: seq<Byte>)
    ensures |r| == PadSize(|data|) && data <= r
  {
    data + Zeros(PadSize(|data|) - |data|)
  }

  /** A column's own part of the buffer. */
  function OwnBytes(c: Column): seq<Byte>
  {
    (if c.data.Some? then Padded(c.data.value) else [])
    + if c.nullCount > 0 && c.mask.Some? then c.mask.value else []
  }

  /** The bytes of a column: its data padded, its mask, then its children. */
  function Bytes(c: Column): seq<Byte>
    decreases c, 1
  {
    OwnBytes(c) + TableBytes(c.kids)
  }

  function TableBytes(cs: seq<Column>): seq<Byte>
    decreases cs, 0
  {
    if cs == [] then [] else Bytes(cs[0]) + TableBytes(cs[1..])
  }

  /** Where a column's mask starts when the column starts at an address. */
  function MaskAt(c: Column, at: int): int
  {
    at + if c.data.Some? then PadSize(|c.data.value|) else 0
  }

  /** The view of a column whose bytes start at an address. */
  function ViewAt(c: Column, at: int): View
    decreases c, 1
  {
    View(c.dtype, c.size, if c.data.Some? then Some(at) else None,
         if c.nullCount > 0 then Some(MaskAt(c, at)) else None, c.nullCount, ViewsAt(c.kids, at + |OwnBytes(c)|))
  }

  function ViewsAt(cs: seq<Column>, at: int): (r: seq<View>)
    ensures |r| == |cs|
    decreases cs, 0
  {
    if cs == [] then [] else [ViewAt(cs[0], at)] + ViewsAt(cs[1..], at + |Bytes(cs[0])|)
  }

  /**
    Where the parts of a column lie: its data at the front, its mask behind the padding, its children
    behind both. A fixed-width column has as many bytes of data as its rows
    take up, and a string column as many as it has characters.
  */
  lemma {:induction false} ColumnLayout(chars: CharCount, c: Column, at: int)
    requires OnDevice(chars, c)
    ensures
      var v := ViewAt(c, at);
      var padded := if c.data.Some? then PadSize(|c.data.value|) else 0;
      var masked := if c.nullCount > 0 then MaskSize(c.size) else 0;
      && (v.data.Some? <==> c.data.Some?) && (v.data.Some? ==> v.data.value == at)
      && (v.mask.Some? <==> c.nullCount > 0) && (v.mask.Some? ==> v.mask.value == at + padded)
      && v.kids == ViewsAt(c.kids, at + padded + masked)
      && v.dtype == c.dtype && v.size == c.size && v.nullCount == c.nullCount
    ensures c.data.Some? && c.dtype.FixedWidth? ==> |c.data.value| == c.size * c.dtype.width
    ensures c.data.Some? && c.dtype.Str? ==> |c.data.value| == chars(PlainAll(c.kids))
  {
    hide PadSize, MaskSize, ViewsAt, Padded;
  }

  // ----- when packing succeeds -----

  /** How packing a column at a place of a buffer ends, and where. */
  function Pack(chars: CharCount, c: Column, bp: nat, limit: nat): (r: (Status, nat))
    decreases c, 1
  {
    var own := PackOwn(chars, c, bp, limit);
    if !own.0.Fine? then own else PackAll(chars, c.kids, own.1, limit)
  }

  /** The data is copied and padded, then the mask is copied. */
  function PackOwn(chars: CharCount, c: Column, bp: nat, limit: nat): (Status, nat)
  {
    var size := DataSize(chars, c.dtype, c.size, c.kids);
    if c.data.Some? && size.None? then (BadType, bp)
    else if c.data.Some? && bp + size.value > limit then (Overflow, bp)
    else if c.data.Some? && bp + PadSize(size.value) > limit then (PastEnd, limit)
    else
      var bp := if c.data.Some? then bp + PadSize(size.value) else bp;
      if c.nullCount == 0 then (Fine, bp)
      else if bp + MaskSize(c.size) > limit then (Overflow, bp)
      else (Fine, bp + MaskSize(c.size))
  }

  function PackAll(chars: CharCount, cs: seq<Column>, bp: nat, limit: nat): (Status, nat)
    decreases cs, 0
  {
    if cs == [] then (Fine, bp)
    else
      var first := Pack(chars, cs[0], bp, limit);
      if !first.0.Fine? then first else PackAll(chars, cs[1..], first.1, limit)
  }

  /** The packer uses exactly the bytes that the size function counts. */
  lemma {:induction false} ColumnFillsItsSize(chars: CharCount, c: Column)
    requires OnDevice(chars, c) && ColumnSize(chars, c).Some?
    ensures |Bytes(c)| == ColumnSize(chars, c).value && Aligned(|Bytes(c)|) && Aligned(|OwnBytes(c)|)
    decreases c, 1
  {
    hide Aligned, OwnSize, TableBytes, TableSize, OwnBytes;
    TableFillsItsSize(chars, c.kids);
    OwnFillsItsSize(chars, c);
    AlignedSum(|OwnBytes(c)|, |TableBytes(c.kids)|);
  }

  lemma {:induction false} OwnFillsItsSize(chars: CharCount, c: Column)
    requires OnDevice(chars, c) && OwnSize(chars, c).Some?
    ensures |OwnBytes(c)| == OwnSize(chars, c).value && Aligned(|OwnBytes(c)|)
  {
    hide DataSize;
    NoPadding();
  }

  lemma {:induction false} NoPadding()
    ensures PadSize(0) == 0
  {
  }

  lemma {:induction false} TableFillsItsSize(chars: CharCount, cs: seq<Column>)
    requires AllOnDevice(chars, cs) && TableSize(chars, cs).Some?
    ensures |TableBytes(cs)| == TableSize(chars, cs).value && Aligned(|TableBytes(cs)|)
    decreases cs, 0
  {
    hide Bytes, Aligned, ColumnSize;
    if cs == [] {
      NothingAligned();
    } else {
      ColumnFillsItsSize(chars, cs[0]);
      TableFillsItsSize(chars, cs[1..]);
      AlignedSum(|Bytes(cs[0])|, |TableBytes(cs[1..])|);
    }
  }

  lemma {:induction false} NothingAligned()
    ensures Aligned(0)
  {
  }

  /** What the outcome of packing says about the sizes. */
  ghost predicate Decided(r: (Status, nat), bp: nat, size: Option<nat>, limit: nat)
  {
    && (r.0 == Fine <==> size.Some? && bp + size.value <= limit)
    && (r.0 == Fine ==> r.1 == bp + size.value)
    && (size.Some? ==> r.0 != BadType)
    && (r.0 == PastEnd ==> !Aligned(bp) || !Aligned(limit))
    && r.1 <= limit
  }

  lemma {:induction false} PackDecides(chars: CharCount, c: Column, bp: nat, limit: nat)
    requires bp <= limit
    ensures Decided(Pack(chars, c, bp, limit), bp, ColumnSize(chars, c), limit)
    ensures ColumnSize(chars, c).Some? ==> Aligned(ColumnSize(chars, c).value)
    decreases c, 1
  {
    hide Aligned, OwnSize, PackAll, TableSize, PackOwn;
    var own := PackOwn(chars, c, bp, limit);
    PackOwnDecides(chars, c, bp, limit);
    var from := if own.0.Fine? then own.1 else bp;
    PackAllDecides(chars, c.kids, from, limit);
    var size, kids := OwnSize(chars, c), TableSize(chars, c.kids);
    if size.Some? {
      AlignedSum(size.value, bp);
      if kids.Some? {
        AlignedSum(size.value, kids.value);
      }
    }
  }

  lemma {:induction false} PackOwnDecides(chars: CharCount, c: Column, bp: nat, limit: nat)
    requires bp <= limit
    ensures Decided(PackOwn(chars, c, bp, limit), bp, OwnSize(chars, c), limit)
    ensures OwnSize(chars, c).Some? ==> Aligned(OwnSize(chars, c).value)
  {
    hide DataSize, MaskSize, PadSize, Aligned;
    NoPadding();
    NothingAligned();
    var data := DataSize(chars, c.dtype, c.size, c.kids);
    var mask := if c.nullCount > 0 then MaskSize(c.size) else 0;
    if c.data.Some? && data.Some? {
      var size := PadSize(data.value);
      AlignedSum(size, mask);
      if Aligned(bp) && Aligned(limit) && bp + data.value <= limit {
        AlignedStep(bp, size, limit);
      }
    }
  }

  /**
    Packing succeeds if and only if all types are known and the size fits. Padding runs past the end of
    the buffer only if the buffer's size or the place to start is no multiple of 64.
  */
  lemma {:induction false} PackAllDecides(chars: CharCount, cs: seq<Column>, bp: nat, limit: nat)
    requires bp <= limit
    ensures Decided(PackAll(chars, cs, bp, limit), bp, TableSize(chars, cs), limit)
    ensures TableSize(chars, cs).Some? ==> Aligned(TableSize(chars, cs).value)
    decreases cs, 0
  {
    hide Pack, ColumnSize, Aligned;
    if cs == [] {
      NothingAligned();
    } else {
      PackDecides(chars, cs[0], bp, limit);
      var first := Pack(chars, cs[0], bp, limit);
      PackAllDecides(chars, cs[1..], if first.0.Fine? then first.1 else bp, limit);
      var size, rest := ColumnSize(chars, cs[0]), TableSize(chars, cs[1..]);
      if size.Some? {
        AlignedSum(size.value, bp);
        if rest.Some? {
          AlignedSum(size.value, rest.value);
        }
      }
    }
  }

  // ----- slices -----

  datatype Slice = Slice(start: int, length: nat)

  function OwnSlices(c: Column, at: int): seq<Slice>
  {
    (if c.data.Some? then [Slice(at, |c.data.value|)] else [])
    + if c.nullCount > 0 && c.mask.Some? then [Slice(MaskAt(c, at), |c.mask.value|)] else []
  }

  /** The parts of the buffer that views point to, in order. */
  function Slices(c: Column, at: int): seq<Slice>
    decreases c, 1
  {
    OwnSlices(c, at) + TableSlices(c.kids, at + |OwnBytes(c)|)
  }

  function TableSlices(cs: seq<Column>, at: int): seq<Slice>
    decreases cs, 0
  {
    if cs == [] then [] else Slices(cs[0], at) + TableSlices(cs[1..], at + |Bytes(cs[0])|)
  }

  /** Slices one after another between two addresses, each starting at a multiple of 64 from the first. */
  ghost predicate Apart(s: seq<Slice>, from: int, to: int)
  {
    && (forall k | 0 <= k < |s| :: from <= s[k].start && s[k].start + s[k].length <= to && Aligned(s[k].start - from))
    && (forall j, k | 0 <= j < k < |s| :: s[j].start + s[j].length <= s[k].start)
  }

  lemma {:induction false} ApartConcat(a: seq<Slice>, b: seq<Slice>, from: int, mid: int, to: int)
    requires Apart(a, from, mid) && Apart(b, mid, to) && from <= mid <= to && Aligned(mid - from)
    ensures Apart(a + b, from, to)
  {
    hide Aligned;
    forall k | 0 <= k < |b| ensures Aligned(b[k].start - from) {
      AlignedSum(mid - from, b[k].start - mid);
    }
  }

  lemma {:induction false} ColumnSlicesApart(chars: CharCount, c: Column, at: int)
    requires OnDevice(chars, c) && ColumnSize(chars, c).Some?
    ensures Apart(Slices(c, at), at, at + |Bytes(c)|)
    decreases c, 1
  {
    hide Aligned, OwnSize, TableSize, TableBytes, TableSlices, OwnSlices, OwnBytes;
    ColumnFillsItsSize(chars, c);
    OwnSlicesApart(chars, c, at);
    TableSlicesApart(chars, c.kids, at + |OwnBytes(c)|);
    ApartConcat(OwnSlices(c, at), TableSlices(c.kids, at + |OwnBytes(c)|), at, at + |OwnBytes(c)|, at + |Bytes(c)|);
  }

  lemma {:induction false} OwnSlicesApart(chars: CharCount, c: Column, at: int)
    requires OnDevice(chars, c) && OwnSize(chars, c).Some?
    ensures Apart(OwnSlices(c, at), at, at + |OwnBytes(c)|)
  {
    hide DataSize, PadSize, MaskSize, Aligned, Padded, OnDevice;
    NothingAligned();
    if c.data.Some? {
      assert at + PadSize(|c.data.value|) - at == PadSize(|c.data.value|);
    }
  }

  /** The slices of a packed table are pairwise disjoint and start at multiples of 64 bytes from its base. */
  lemma {:induction false} TableSlicesApart(chars: CharCount, cs: seq<Column>, at: int)
    requires AllOnDevice(chars, cs) && TableSize(chars, cs).Some?
    ensures Apart(TableSlices(cs, at), at, at + |TableBytes(cs)|)
    decreases cs, 0
  {
    hide Bytes, Slices, Aligned, ColumnSize, Apart, OnDevice;
    if cs == [] {
      NoSlicesApart(at);
    } else {
      var mid := at + |Bytes(cs[0])|;
      ColumnFillsItsSize(chars, cs[0]);
      ColumnSlicesApart(chars, cs[0], at);
      TableSlicesApart(chars, cs[1..], mid);
      ApartConcat(Slices(cs[0], at), TableSlices(cs[1..], mid), at, mid, at + |TableBytes(cs)|);
    }
  }

  lemma {:induction false} NoSlicesApart(at: int)
    ensures Apart([], at, at)
  {
  }

  // ----- when padding runs past the end -----

  /** A slice whose bytes fit in front of the limit while its padding does not. */
  predicate Spills(s: Slice, limit: int)
  {
    s.start + s.length <= limit < s.start + PadSize(s.length)
  }

  ghost predicate SomeSpills(s: seq<Slice>, limit: int)
  {
    exists k | 0 <= k < |s| :: Spills(s[k], limit)
  }

  lemma {:induction false} SpillsConcat(a: seq<Slice>, b: seq<Slice>, limit: int)
    ensures SomeSpills(a + b, limit) <==> SomeSpills(a, limit) || SomeSpills(b, limit)
  {
    hide Spills;
    if k :| 0 <= k < |a| && Spills(a[k], limit) {
      assert (a + b)[k] == a[k];
    }
    if k :| 0 <= k < |b| && Spills(b[k], limit) {
      assert (a + b)[|a| + k] == b[k];
    }
  }

  lemma {:induction false} NoneSpillBehind(s: seq<Slice>, from: int, to: int, limit: int)
    requires Apart(s, from, to) && from > limit
    ensures !SomeSpills(s, limit)
  {
    hide PadSize;
  }

  lemma {:induction false} OwnSpills(chars: CharCount, c: Column, bp: nat, limit: nat)
    requires OnDevice(chars, c) && OwnSize(chars, c).Some? && bp <= limit
    ensures SomeSpills(OwnSlices(c, bp), limit) <==> PackOwn(chars, c, bp, limit).0 == PastEnd
  {
    hide DataSize, Aligned;
    var data := if c.data.Some? then [Slice(bp, |c.data.value|)] else [];
    var mask := if c.nullCount > 0 && c.mask.Some? then [Slice(MaskAt(c, bp), |c.mask.value|)] else [];
    SpillsConcat(data, mask, limit);
    if c.data.Some? {
      assert SomeSpills(data, limit) <==> Spills(data[0], limit);
    }
    if c.nullCount > 0 {
      assert PadSize(|c.mask.value|) == |c.mask.value|;
      assert !SomeSpills(mask, limit);
    }
  }

  lemma {:induction false} PackSpills(chars: CharCount, c: Column, bp: nat, limit: nat)
    requires OnDevice(chars, c) && ColumnSize(chars, c).Some? && bp <= limit
    ensures Pack(chars, c, bp, limit).0 == PastEnd <==> SomeSpills(Slices(c, bp), limit)
    decreases c, 1
  {
    hide SomeSpills, PackOwn, OwnSlices, TableSlices, OwnBytes, PackAll, TableSize, OwnSize, Apart, TableBytes;
    var own, next := PackOwn(chars, c, bp, limit), bp + |OwnBytes(c)|;
    SpillsConcat(OwnSlices(c, bp), TableSlices(c.kids, next), limit);
    OwnSpills(chars, c, bp, limit);
    OwnFillsItsSize(chars, c);
    PackOwnDecides(chars, c, bp, limit);
    if own.0.Fine? {
      PackAllSpills(chars, c.kids, next, limit);
    } else {
      TableSlicesApart(chars, c.kids, next);
      NoneSpillBehind(TableSlices(c.kids, next), next, next + |TableBytes(c.kids)|, limit);
    }
  }

  /**
    Packing a table of known types writes padding behind the buffer if and only if some slice of its layout
    fits while the padding of that slice does not.
  */
  lemma {:induction false} PackAllSpills(chars: CharCount, cs: seq<Column>, bp: nat, limit: nat)
    requires AllOnDevice(chars, cs) && TableSize(chars, cs).Some? && bp <= limit
    ensures PackAll(chars, cs, bp, limit).0 == PastEnd <==> SomeSpills(TableSlices(cs, bp), limit)
    decreases cs, 0
  {
    hide SomeSpills, Pack, Slices, Bytes, ColumnSize, Apart, OnDevice;
    if cs == [] {
      NoSliceSpills(limit);
    } else {
      var first, next := Pack(chars, cs[0], bp, limit), bp + |Bytes(cs[0])|;
      SpillsConcat(Slices(cs[0], bp), TableSlices(cs[1..], next), limit);
      PackSpills(chars, cs[0], bp, limit);
      ColumnFillsItsSize(chars, cs[0]);
      PackDecides(chars, cs[0], bp, limit);
      if first.0.Fine? {
        PackAllSpills(chars, cs[1..], next, limit);
      } else {
        TableSlicesApart(chars, cs[1..], next);
        NoneSpillBehind(TableSlices(cs[1..], next), next, next + |TableBytes(cs[1..])|, limit);
      }
    }
  }

  lemma {:induction false} NoSliceSpills(limit: int)
    ensures !SomeSpills([], limit)
  {
  }

  /** One column of bytes, as many as the buffer holds. */
  function ByteColumn(n: nat): Column { Column(FixedWidth(1), n, Some(Zeros(n)), None, 0, []) }

  lemma {:induction false} ByteColumnSpills(chars: CharCount, limit: nat)
    ensures AllOnDevice(chars, [ByteColumn(limit)])
    ensures PackAll(chars, [ByteColumn(limit)], 0, limit).0 == if Aligned(limit) then Fine else PastEnd
  {
    var c := ByteColumn(limit);
    assert DataSize(chars, c.dtype, c.size, c.kids) == Some(limit);
    assert OnDevice(chars, c);
    assert [c][1..] == [] && [c][0] == c;
    assert PadSize(limit) > limit <==> !Aligned(limit);
    assert Pack(chars, c, 0, limit) == if Aligned(limit) then (Fine, limit) else (PastEnd, limit);
  }

  /** The buffer sizes for which no table at all makes padding run past the end are the multiples of 64. */
  lemma {:induction false} SafeBufferSizes(chars: CharCount, limit: nat)
    ensures (forall cs | AllOnDevice(chars, cs) :: PackAll(chars, cs, 0, limit).0 != PastEnd) <==> Aligned(limit)
  {
    hide PackAll, TableSize, AllOnDevice;
    ByteColumnSpills(chars, limit);
    NothingAligned();
    forall cs | AllOnDevice(chars, cs) && Aligned(limit) ensures PackAll(chars, cs, 0, limit).0 != PastEnd {
      PackAllDecides(chars, cs, 0, limit);
    }
  }

  // ----- relocation -----

  const TWO_TO_64: int := 0x1_0000_0000_0000_0000

  /** Pointer arithmetic wraps; the division is unsigned on 64 bits, four bytes to a mask word. */
  function MoveData(address: int, offset: int): int { (address + offset) % TWO_TO_64 }

  function MoveMask(address: int, offset: int): int { (address + 4 * (offset % TWO_TO_64 / 4)) % TWO_TO_64 }

  function ToDevice(v: View, offset: int): View
    decreases v, 1
  {
    v.(data := if v.data.Some? then Some(MoveData(v.data.value, offset)) else None,
       mask := if v.mask.Some? then Some(MoveMask(v.mask.value, offset)) else None,
       kids := ToDeviceAll(v.kids, offset))
  }

  function ToDeviceAll(vs: seq<View>, offset: int): (r: seq<View>)
    ensures |r| == |vs|
    decreases vs, 0
  {
    if vs == [] then [] else [ToDevice(vs[0], offset)] + ToDeviceAll(vs[1..], offset)
  }

  /** A mask moves like the data if and only if the offset is a multiple of four, negative or not. */
  lemma {:induction false} MaskMovesExactly(address: int, offset: int)
    ensures MoveMask(address, offset) == MoveData(address, offset) <==> offset % 4 == 0
  {
  }
}
