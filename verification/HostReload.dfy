/**
  The round trip of a packed table: copied to a device buffer and relocated, its views lead to the
  same columns again.
*/
module HostReload {
  import opened Collections
  import opened HostTable

  /** Some bytes of a memory that starts at a base address. */
  function ReadAt(mem: seq<Byte>, base: int, address: int, size: nat): Option<seq<Byte>>
  {
    if base <= address && address + size <= base + |mem| then Some(mem[address - base..address - base + size]) else None
  }

  /** The column a view leads to, unless it points outside the memory or its data is of unknown size. */
  function Load(chars: CharCount, mem: seq<Byte>, base: int, v: View): Option<Column>
    decreases v, 1
  {
    var kids := LoadAll(chars, mem, base, v.kids);
    if kids.None? then None
    else
      var data := LoadData(chars, mem, base, v, kids.value);
      var mask := if v.mask.None? then None else ReadAt(mem, base, v.mask.value, MaskSize(v.size));
      if (v.data.Some? && data.None?) || (v.mask.Some? && mask.None?) then None
      else Some(Column(v.dtype, v.size, data, mask, v.nullCount, kids.value))
  }

  function LoadData(chars: CharCount, mem: seq<Byte>, base: int, v: View, kids: seq<Column>): Option<seq<Byte>>
  {
    var size := DataSize(chars, v.dtype, v.size, kids);
    if v.data.None? || size.None? then None else ReadAt(mem, base, v.data.value, size.value)
  }

  function LoadAll(chars: CharCount, mem: seq<Byte>, base: int, vs: seq<View>): Option<seq<Column>>
    decreases vs, 0
  {
    if vs == [] then Some([])
    else
      var first, rest := Load(chars, mem, base, vs[0]), LoadAll(chars, mem, base, vs[1..]);
      if first.None? || rest.None? then None else Some([first.value] + rest.value)
  }

  lemma {:induction false} PlainTwice(c: Column)
    ensures Plain(Plain(c)) == Plain(c)
    decreases c, 1
  {
    PlainAllTwice(c.kids);
  }

  lemma {:induction false} PlainAllTwice(cs: seq<Column>)
    ensures PlainAll(PlainAll(cs)) == PlainAll(cs)
    decreases cs, 0
  {
    if cs != [] {
      PlainTwice(cs[0]);
      PlainAllTwice(cs[1..]);
      assert PlainAll(cs)[1..] == PlainAll(cs[1..]);
    }
  }

  /** Host and device buffers lie within the address space, apart by an offset that is a multiple of four. */
  ghost predicate Moved(host: int, device: int, size: nat, offset: int)
  {
    && 0 <= host && host + size < TWO_TO_64 && 0 <= device && device + size < TWO_TO_64
    && offset == device - host && offset % 4 == 0
  }

  lemma {:induction false} MovesWithBuffer(host: int, device: int, size: nat, offset: int, at: nat)
    requires Moved(host, device, size, offset) && at <= size
    ensures MoveData(host + at, offset) == device + at
    ensures MoveMask(host + at, offset) == device + at
  {
  }

  /** The data and the mask of a column are where its view says. */
  lemma {:induction false} OwnParts(chars: CharCount, c: Column, mem: seq<Byte>, at: nat, base: int)
    requires OnDevice(chars, c) && ColumnSize(chars, c).Some? && Holds(mem, at, OwnBytes(c))
    ensures c.data.Some? ==> ReadAt(mem, base, base + at, |c.data.value|) == c.data
    ensures c.nullCount > 0 ==> ReadAt(mem, base, base + MaskAt(c, at), MaskSize(c.size)) == c.mask
    ensures MaskAt(c, at) <= at + |OwnBytes(c)|
  {
    hide DataSize, ColumnSize;
    var data := if c.data.Some? then Padded(c.data.value) else [];
    var mask := if c.nullCount > 0 && c.mask.Some? then c.mask.value else [];
    HoldsSplit(mem, at, data, mask);
    if c.data.Some? {
      HoldsSplit(mem, at, c.data.value, Zeros(PadSize(|c.data.value|) - |c.data.value|));
    }
  }

  lemma {:induction false} ReloadColumn(chars: CharCount, c: Column, mem: seq<Byte>, at: nat, host: int, device: int,
                                        offset: int)
    requires OnDevice(chars, c) && ColumnSize(chars, c).Some?
    requires Holds(mem, at, Bytes(c)) && Moved(host, device, |mem|, offset)
    ensures Load(chars, mem, device, ToDevice(ViewAt(c, host + at), offset)) == Some(Plain(c))
    decreases c, 1
  {
    hide ViewsAt, ToDeviceAll, LoadAll, PlainAll, OwnBytes, TableBytes, ReadAt, TableSize, MoveData, MoveMask, DataSize,
         PadSize, MaskSize;
    HoldsSplit(mem, at, OwnBytes(c), TableBytes(c.kids));
    ReloadTable(chars, c.kids, mem, at + |OwnBytes(c)|, host, device, offset);
    OwnParts(chars, c, mem, at, device);
    MovesWithBuffer(host, device, |mem|, offset, at);
    MovesWithBuffer(host, device, |mem|, offset, MaskAt(c, at));
    SameDataSize(chars, c);
    assert host + at + |OwnBytes(c)| == host + (at + |OwnBytes(c)|);
    assert MaskAt(c, host + at) == host + MaskAt(c, at);
    assert device + MaskAt(c, at) == MaskAt(c, device + at);
  }

  lemma {:induction false} SameDataSize(chars: CharCount, c: Column)
    ensures DataSize(chars, c.dtype, c.size, PlainAll(c.kids)) == DataSize(chars, c.dtype, c.size, c.kids)
  {
    PlainAllTwice(c.kids);
  }

  /**
    Relocation round trip: a packed table that is copied to a device buffer and whose views are moved
    by an offset divisible by four, negative or not, loads as the same columns with the same types,
    sizes, null counts, data and masks; only masks that mark nothing are gone.
  */
  lemma {:induction false} ReloadTable(chars: CharCount, cs: seq<Column>, mem: seq<Byte>, at: nat, host: int,
                                       device: int, offset: int)
    requires AllOnDevice(chars, cs) && TableSize(chars, cs).Some?
    requires Holds(mem, at, TableBytes(cs)) && Moved(host, device, |mem|, offset)
    ensures LoadAll(chars, mem, device, ToDeviceAll(ViewsAt(cs, host + at), offset)) == Some(PlainAll(cs))
    decreases cs, 0
  {
    hide Bytes, ViewAt, ToDevice, Load, Plain, ColumnSize, OnDevice, Moved;
    if cs != [] {
      var next := at + |Bytes(cs[0])|;
      HoldsSplit(mem, at, Bytes(cs[0]), TableBytes(cs[1..]));
      ReloadColumn(chars, cs[0], mem, at, host, device, offset);
      ReloadTable(chars, cs[1..], mem, next, host, device, offset);
      var views := ViewsAt(cs, host + at);
      assert host + at + |Bytes(cs[0])| == host + next;
      assert views[0] == ViewAt(cs[0], host + at) && views[1..] == ViewsAt(cs[1..], host + next);
      var moved := ToDeviceAll(views, offset);
      assert moved[1..] == ToDeviceAll(views[1..], offset);
    }
  }
}
