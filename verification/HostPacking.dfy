/**
  The packer as it runs: it writes a buffer from front to back and moves its write position along.
*/
module HostPacking {
  import opened Collections
  import opened HostTable

  /** Nothing in front of the start changed, and nothing from the end on. */
  twostate predicate WroteOnly(buffer: array<Byte>, from: nat, to: nat)
    reads buffer
  {
    && from <= to <= buffer.Length
    && buffer[..from] == old(buffer[..from])
    && buffer[to..] == old(buffer[to..])
  }

  method CopyToHost(src: seq<Byte>, buffer: array<Byte>, bp: nat, size: nat) returns (status: Status, end: nat)
    requires bp <= buffer.Length && size <= |src|
    modifies buffer
    ensures status == if bp + size > buffer.Length then Overflow else Fine
    ensures status == Overflow ==> buffer[..] == old(buffer[..]) && end == bp
    ensures status == Fine ==> end == bp + size && WroteOnly(buffer, bp, end) && buffer[bp..end] == src[..size]
  {
    if bp + size > buffer.Length {
      return Overflow, bp;
    }
    forall k | 0 <= k < size {
      buffer[bp + k] := src[k];
    }
    assert forall k | bp <= k < bp + size :: buffer[k] == src[k - bp];
    return Fine, bp + size;
  }

  /** Copy data and pad it with zeros. */
  method CopyPadded(data: seq<Byte>, buffer: array<Byte>, bp: nat) returns (status: Status, end: nat)
    requires bp <= buffer.Length
    modifies buffer
    ensures status == if bp + |data| > buffer.Length then Overflow
                      else if bp + PadSize(|data|) > buffer.Length then PastEnd else Fine
    ensures bp <= end <= buffer.Length && buffer[..bp] == old(buffer[..bp])
    ensures status == Overflow ==> end == bp
    ensures status == PastEnd ==> end == buffer.Length
    ensures status == Fine ==>
      end == bp + PadSize(|data|) && WroteOnly(buffer, bp, end) && buffer[bp..end] == Padded(data)
  {
    hide PadSize;
    var paddedEnd := bp + PadSize(|data|);
    status, end := CopyToHost(data, buffer, bp, |data|);
    if status != Fine {
      assert buffer[..bp] == buffer[..][..bp];
      return;
    }
    while end != paddedEnd
      invariant bp + |data| <= end <= paddedEnd && end <= buffer.Length
      invariant buffer[..bp] == old(buffer[..bp])
      invariant forall k | end <= k < buffer.Length :: buffer[k] == old(buffer[k])
      invariant forall k | bp <= k < bp + |data| :: buffer[k] == data[k - bp]
      invariant forall k | bp + |data| <= k < end :: buffer[k] == 0
      decreases paddedEnd - end
    {
      if end == buffer.Length {
        return PastEnd, end;
      }
      buffer[end] := 0;
      end := end + 1;
    }
    assert buffer[bp..end] == Padded(data);
  }

  /** A column's data and mask, with the addresses where they start. */
  method PackOwnParts(chars: CharCount, c: Column, buffer: array<Byte>, bp: nat, base: int)
    returns (status: Status, end: nat, data: Option<int>, mask: Option<int>)
    requires OnDevice(chars, c) && bp <= buffer.Length
    modifies buffer
    ensures (status, end) == PackOwn(chars, c, bp, buffer.Length)
    ensures bp <= end <= buffer.Length && buffer[..bp] == old(buffer[..bp])
    ensures status == Fine ==>
      && WroteOnly(buffer, bp, end) && buffer[bp..end] == OwnBytes(c)
      && data == (if c.data.Some? then Some(base + bp) else None)
      && mask == (if c.nullCount > 0 then Some(MaskAt(c, base + bp)) else None)
  {
    hide PadSize, MaskSize, DataSize;
    data, mask := None, None;
    end := bp;
    if c.data.Some? {
      data := Some(base + bp);
      if DataSize(chars, c.dtype, c.size, c.kids).None? {
        return BadType, bp, data, mask;
      }
      status, end := CopyPadded(c.data.value, buffer, bp);
      if status != Fine {
        return;
      }
    }
    status := Fine;
    ghost var middle, written := end, buffer[bp..end];
    if c.nullCount > 0 {
      mask := Some(base + end);
      status, end := CopyToHost(c.mask.value, buffer, end, MaskSize(c.size));
      if status != Fine {
        assert buffer[..bp] == buffer[..][..bp];
        return;
      }
      assert buffer[bp..middle] == buffer[..middle][bp..];
      assert buffer[bp..end] == buffer[bp..middle] + buffer[middle..end];
      assert buffer[..bp] == buffer[..middle][..bp];
      assert c.mask.value[..MaskSize(c.size)] == c.mask.value;
    }
  }

  // ----- columns one after another -----

  lemma {:induction false} TableBytesConcat(a: seq<Column>, b: seq<Column>)
    ensures TableBytes(a + b) == TableBytes(a) + TableBytes(b)
  {
    hide Bytes;
    if a == [] {
      assert a + b == b;
    } else {
      TableBytesConcat(a[1..], b);
      var c := a + b;
      assert c[0] == a[0] && c[1..] == a[1..] + b;
      Regroup(Bytes(a[0]), TableBytes(a[1..]), TableBytes(b));
    }
  }

  lemma {:induction false} ViewsConcat(a: seq<Column>, b: seq<Column>, at: int)
    ensures ViewsAt(a + b, at) == ViewsAt(a, at) + ViewsAt(b, at + |TableBytes(a)|)
    decreases |a|
  {
    hide Bytes, ViewAt;
    if a == [] {
      assert a + b == b;
    } else {
      var c, next := a + b, at + |Bytes(a[0])|;
      assert c[0] == a[0] && c[1..] == a[1..] + b;
      ViewsConcat(a[1..], b, next);
      var first, rest, last := [ViewAt(a[0], at)], ViewsAt(a[1..], next), ViewsAt(b, next + |TableBytes(a[1..])|);
      assert |TableBytes(a)| == |Bytes(a[0])| + |TableBytes(a[1..])|;
      assert ViewsAt(a, at) == first + rest;
      assert ViewsAt(c, at) == first + ViewsAt(c[1..], next);
      Regroup(first, rest, last);
    }
  }

  lemma {:induction false} OneColumn(c: Column, at: int)
    ensures TableBytes([c]) == Bytes(c) && ViewsAt([c], at) == [ViewAt(c, at)]
  {
  }

  /** The first column done and the rest to do. */
  lemma {:induction false} OneMoreColumn(cs: seq<Column>, i: nat, at: int)
    requires i < |cs|
    ensures TableBytes(cs[..i + 1]) == TableBytes(cs[..i]) + Bytes(cs[i])
    ensures ViewsAt(cs[..i + 1], at) == ViewsAt(cs[..i], at) + [ViewAt(cs[i], at + |TableBytes(cs[..i])|)]
  {
    hide Bytes, ViewAt;
    assert cs[..i + 1] == cs[..i] + [cs[i]];
    TableBytesConcat(cs[..i], [cs[i]]);
    ViewsConcat(cs[..i], [cs[i]], at);
    OneColumn(cs[i], at + |TableBytes(cs[..i])|);
  }

  lemma {:induction false} PackAllStep(chars: CharCount, cs: seq<Column>, bp: nat, limit: nat)
    requires cs != []
    ensures
      var first := Pack(chars, cs[0], bp, limit);
      PackAll(chars, cs, bp, limit) == if first.0 == Fine then PackAll(chars, cs[1..], first.1, limit) else first
  {
  }

  method BuildHostColumnView(chars: CharCount, c: Column, buffer: array<Byte>, bp: nat, base: int, hostCols: seq<View>)
    returns (status: Status, end: nat, cols: seq<View>)
    requires OnDevice(chars, c) && bp <= buffer.Length
    modifies buffer
    ensures (status, end) == Pack(chars, c, bp, buffer.Length)
    ensures bp <= end <= buffer.Length && buffer[..bp] == old(buffer[..bp])
    ensures status == Fine ==>
      && WroteOnly(buffer, bp, end) && buffer[bp..end] == Bytes(c)
      && cols == hostCols + [ViewAt(c, base + bp)]
    decreases c, 1
  {
    hide PackOwn, OwnBytes, TableBytes, ViewsAt, PackAll;
    cols := hostCols;
    var data, mask;
    status, end, data, mask := PackOwnParts(chars, c, buffer, bp, base);
    if status != Fine {
      return;
    }
    ghost var middle := end;
    ghost var own := buffer[..middle];
    assert own[bp..] == OwnBytes(c) && |OwnBytes(c)| == middle - bp;
    var children;
    status, end, children := BuildViews(chars, c.kids, buffer, end, base);
    assert buffer[..middle] == own;
    assert buffer[..bp] == own[..bp];
    if status != Fine {
      return;
    }
    assert buffer[bp..end] == own[bp..] + buffer[middle..end];
    cols := hostCols + [View(c.dtype, c.size, data, mask, c.nullCount, children)];
    assert base + middle == base + bp + |OwnBytes(c)|;
  }

  /** Pack columns behind one another and collect their views. */
  method BuildViews(chars: CharCount, cs: seq<Column>, buffer: array<Byte>, bp: nat, base: int)
    returns (status: Status, end: nat, views: seq<View>)
    requires AllOnDevice(chars, cs) && bp <= buffer.Length
    modifies buffer
    ensures (status, end) == PackAll(chars, cs, bp, buffer.Length)
    ensures bp <= end <= buffer.Length && buffer[..bp] == old(buffer[..bp])
    ensures status == Fine ==>
      && WroteOnly(buffer, bp, end) && buffer[bp..end] == TableBytes(cs)
      && views == ViewsAt(cs, base + bp)
    decreases cs, 0
  {
    hide Pack, Bytes, ViewAt, PackAll, TableBytes, ViewsAt, OnDevice;
    status, end, views := Fine, bp, [];
    NoColumns(chars, base + bp, bp, buffer.Length);
    for i := 0 to |cs|
      invariant status == Fine && bp <= end <= buffer.Length && WroteOnly(buffer, bp, end)
      invariant buffer[bp..end] == TableBytes(cs[..i]) && views == ViewsAt(cs[..i], base + bp)
      invariant PackAll(chars, cs[i..], end, buffer.Length) == PackAll(chars, cs, bp, buffer.Length)
    {
      assert cs[i..][0] == cs[i] && cs[i..][1..] == cs[i + 1..];
      PackAllStep(chars, cs[i..], end, buffer.Length);
      OneMoreColumn(cs, i, base + bp);
      ghost var middle := end;
      ghost var before := buffer[..middle];
      assert before[bp..] == TableBytes(cs[..i]);
      status, end, views := BuildHostColumnView(chars, cs[i], buffer, end, base, views);
      assert buffer[..middle] == before && buffer[..bp] == before[..bp];
      if status != Fine {
        return;
      }
      assert buffer[bp..end] == before[bp..] + buffer[middle..end];
      assert base + middle == base + bp + |TableBytes(cs[..i])|;
    }
    assert cs[..|cs|] == cs && cs[|cs|..] == [];
    NoColumns(chars, base + bp, end, buffer.Length);
  }

  lemma {:induction false} NoColumns(chars: CharCount, at: int, bp: nat, limit: nat)
    ensures TableBytes([]) == [] && ViewsAt([], at) == [] && PackAll(chars, [], bp, limit) == (Fine, bp)
  {
  }

  /**
    Packing a whole table. A buffer of the size that was asked for is filled to its end and never
    overflows; any other outcome than success means that a type is unknown or the buffer too small.
  */
  method ToHostTable(chars: CharCount, cs: seq<Column>, buffer: array<Byte>, base: int)
    returns (status: Status, views: seq<View>)
    requires AllOnDevice(chars, cs)
    modifies buffer
    ensures status == Fine <==> TableSize(chars, cs).Some? && TableSize(chars, cs).value <= buffer.Length
    ensures status == PastEnd ==> !Aligned(buffer.Length)
    ensures TableSize(chars, cs).Some? ==> (status == PastEnd <==> SomeSpills(TableSlices(cs, 0), buffer.Length))
    ensures status == Fine ==>
      var n := TableSize(chars, cs).value;
      && buffer[..n] == TableBytes(cs) && buffer[n..] == old(buffer[n..])
      && views == ViewsAt(cs, base)
  {
    hide PackAll, TableSize, TableBytes, ViewsAt, OnDevice, SomeSpills, TableSlices;
    var end;
    status, end, views := BuildViews(chars, cs, buffer, 0, base);
    PackAllDecides(chars, cs, 0, buffer.Length);
    if TableSize(chars, cs).Some? {
      PackAllSpills(chars, cs, 0, buffer.Length);
    }
  }
}
