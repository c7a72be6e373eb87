/** Reads and writes of any range of bytes on a device that transfers whole blocks only. */
module BlockDevice {
  import opened Bytes

  // ---------------------------------------------------------------- blocks and bytes

  /** The size of so many blocks, which is also the position of the block with that number. */
  function Span(blocks: nat, size: nat): nat
  {
    blocks * size
  }

  /** The number of whole blocks in so many bytes. */
  function Whole(bytes: nat, size: nat): nat
    requires size > 0
  {
    bytes / size
  }

  lemma {:induction false} SpanZero(size: nat)
    ensures Span(0, size) == 0 && Span(1, size) == size
  {
  }

  lemma {:induction false} SpanAdd(a: nat, b: nat, size: nat)
    ensures Span(a + b, size) == Span(a, size) + Span(b, size)
  {
  }

  lemma {:induction false} SpanLess(a: nat, b: nat, size: nat)
    requires a <= b
    ensures Span(a, size) <= Span(b, size) && (a < b && size > 0 ==> Span(a, size) < Span(b, size))
  {
  }

  lemma {:induction false} WholeSpan(bytes: nat, size: nat)
    requires size > 0
    ensures Span(Whole(bytes, size), size) <= bytes < Span(Whole(bytes, size), size) + size
  {
  }

  /** How many of `length` bytes, from `offset` in a block on, lie in so many blocks. */
  function Reached(blocks: nat, offset: nat, size: nat, length: nat): nat
  {
    if Span(blocks, size) <= offset then 0
    else if Span(blocks, size) - offset < length then Span(blocks, size) - offset
    else length
  }

  /** Where a position lies in its block. */
  function Offset(at: nat, size: nat): nat
    requires size > 0
  {
    WholeSpan(at, size);
    at - Span(Whole(at, size), size)
  }

  // ---------------------------------------------------------------- the device

  /** A device.  Its callbacks transfer blocks from the front and may stop short at any point; a block that is
      not reported as written is unchanged. */
  class Device {
    var disk: seq<Byte>
    /** A callback of the present transfer has returned less than it was asked for. */
    ghost var stopped: bool
    /** How many blocks its callbacks have read and written. */
    ghost var got: nat
    ghost var put: nat
    const blockSize: nat

    constructor (disk: seq<Byte>, blockSize: nat)
      requires blockSize > 0
      ensures this.disk == disk && this.blockSize == blockSize
    {
      this.disk, this.blockSize := disk, blockSize;
      stopped, got, put := false, 0, 0;
    }

    /** Read up to `num` blocks into a buffer at position `at`. */
    method ReadBlocks(block: nat, num: nat, buffer: array<Byte>, at: nat) returns (ret: nat)
      requires at + Span(num, blockSize) <= buffer.Length
      modifies buffer, this`stopped, this`got
      ensures stopped == (old(stopped) || ret < num) && got == old(got) + ret
      ensures ret <= num && at + Span(ret, blockSize) <= buffer.Length && buffer[..at] == old(buffer[..at])
      ensures ret > 0 ==> Span(block + ret, blockSize) <= |disk|
      ensures ret > 0 ==>
                buffer[at..at + Span(ret, blockSize)] == disk[Span(block, blockSize)..Span(block + ret, blockSize)]
    {
      hide Span;
      ret :| 0 <= ret <= num && (ret > 0 ==> Span(block + ret, blockSize) <= |disk|);
      stopped, got := stopped || ret < num, got + ret;
      SpanLess(ret, num, blockSize);
      SpanLess(block, block + ret, blockSize);
      SpanAdd(block, ret, blockSize);
      if ret > 0 {
        PutAt(buffer, at, disk[Span(block, blockSize)..Span(block + ret, blockSize)]);
      }
    }

    /** Write up to `num` blocks. */
    method WriteBlocks(block: nat, num: nat, data: seq<Byte>) returns (ret: nat)
      requires Span(num, blockSize) <= |data|
      modifies this`disk, this`stopped, this`put
      ensures stopped == (old(stopped) || ret < num) && put == old(put) + ret
      ensures ret <= num && Span(ret, blockSize) <= |data|
      ensures ret > 0 ==> Span(block, blockSize) + Span(ret, blockSize) <= |old(disk)|
      ensures disk == if ret > 0 then Put(old(disk), Span(block, blockSize), data[..Span(ret, blockSize)])
                      else old(disk)
    {
      hide Span;
      ret :| 0 <= ret <= num && (ret > 0 ==> Span(block, blockSize) + Span(ret, blockSize) <= |disk|);
      stopped, put := stopped || ret < num, put + ret;
      SpanLess(ret, num, blockSize);
      if ret > 0 {
        disk := Put(disk, Span(block, blockSize), data[..Span(ret, blockSize)]);
      }
    }
  }

  /** Store bytes in a buffer. */
  method PutAt(buffer: array<Byte>, at: nat, s: seq<Byte>)
    requires at + |s| <= buffer.Length
    modifies buffer
    ensures buffer[..at] == old(buffer[..at]) && buffer[at..at + |s|] == s
  {
    ghost var b := buffer[..];
    PutBytes(buffer, at, s);
    PutSlice(b, at, s, 0, at);
    PutSlice(b, at, s, at, at + |s|);
    assert buffer[..at] == buffer[..][0..at] && buffer[at..at + |s|] == buffer[..][at..at + |s|];
    assert b[at..at] + s == s;
  }

  // ---------------------------------------------------------------- reading

  /** The first bytes of a buffer are those of the disk from `start` on. */
  ghost predicate ReadTo(buffer: seq<Byte>, disk: seq<Byte>, start: nat, n: nat)
  {
    n <= |buffer| && (n > 0 ==> start + n <= |disk| && buffer[..n] == disk[start..start + n])
  }

  /** Reading on behind what has been read. */
  lemma {:induction false} ReadMore(before: seq<Byte>, after: seq<Byte>, disk: seq<Byte>, start: nat, n: nat,
                                    more: nat)
    requires ReadTo(before, disk, start, n) && n + more <= |after| && after[..n] == before[..n]
    requires more > 0 ==> start + n + more <= |disk| && after[n..n + more] == disk[start + n..start + n + more]
    ensures ReadTo(after, disk, start, n + more)
  {
    if more > 0 {
      assert after[..n + more] == after[..n] + after[n..n + more];
      if n > 0 {
        assert disk[start..start + n + more] == disk[start..start + n] + disk[start + n..start + n + more];
      }
    }
  }

  lemma {:induction false} SubSlice(s: seq<Byte>, from: nat, size: nat, offset: nat, length: nat)
    requires from + size <= |s| && offset + length <= size
    ensures s[from..from + size][offset..offset + length] == s[from + offset..from + offset + length]
  {
    var a, b := s[from..from + size][offset..offset + length], s[from + offset..from + offset + length];
    assert |a| == |b| == length;
    forall k | 0 <= k < length
      ensures a[k] == b[k]
    {
      assert a[k] == s[from..from + size][offset + k] == s[from + offset + k];
    }
  }

  /** Read part of a block through a temporary buffer. */
  method ReadPart(dev: Device, block: nat, offset: nat, length: nat, buffer: array<Byte>, at: nat) returns (ok: bool)
    requires offset + length <= dev.blockSize && at + length <= buffer.Length && !dev.stopped
    modifies buffer, dev`stopped, dev`got
    ensures ok <==> !dev.stopped
    ensures dev.got == old(dev.got) + if ok then 1 else 0
    ensures buffer[..at] == old(buffer[..at])
    ensures ok && length > 0 ==>
              var from := Span(block, dev.blockSize) + offset;
              from + length <= |dev.disk| && buffer[at..at + length] == dev.disk[from..from + length]
  {
    hide Span;
    SpanZero(dev.blockSize);
    SpanAdd(block, 1, dev.blockSize);
    var tmp := new Byte[dev.blockSize];
    var ret := dev.ReadBlocks(block, 1, tmp, 0);
    if ret != 1 {
      return false;
    }
    var from := Span(block, dev.blockSize);
    SubSlice(tmp[..], 0, dev.blockSize, offset, length);
    SubSlice(dev.disk, from, dev.blockSize, offset, length);
    assert tmp[0..dev.blockSize] == tmp[..][0..dev.blockSize];
    assert tmp[offset..offset + length] == tmp[..][offset..offset + length];
    PutAt(buffer, at, tmp[offset..offset + length]);
    return true;
  }

  /** Read a range of bytes.  The number returned is how many of the first bytes are right: as many as lie in
      the blocks that the callbacks delivered, and all of them exactly when no callback stops short. */
  method ReadBlock(dev: Device, start: nat, length: nat, buffer: array<Byte>) returns (n: nat)
    requires dev.blockSize > 0 && length <= buffer.Length
    modifies buffer, dev`stopped, dev`got
    ensures ReadTo(buffer[..], dev.disk, start, n)
    ensures n == Reached(dev.got, Offset(start, dev.blockSize), dev.blockSize, length)
    ensures n <= length && (!dev.stopped ==> n == length) && (dev.stopped && length > 0 ==> n < length)
  {
    hide Span, Whole;
    dev.stopped, dev.got := false, 0;
    SpanZero(dev.blockSize);
    var block := Whole(start, dev.blockSize);
    WholeSpan(start, dev.blockSize);
    var offset := start - Span(block, dev.blockSize);
    if offset == 0 {
      n := ReadRest(dev, start, offset, 0, block, length, buffer);
      return;
    }
    var leading := if dev.blockSize - offset > length then length else dev.blockSize - offset;
    ghost var before := buffer[..];
    var ok := ReadPart(dev, block, offset, leading, buffer, 0);
    if !ok {
      return 0;
    }
    ReadMore(before, buffer[..], dev.disk, start, 0, leading);
    if leading == length {
      return leading;
    }
    SpanAdd(block, 1, dev.blockSize);
    n := ReadRest(dev, start, offset, leading, block + 1, length, buffer);
  }

  /** Read the whole blocks and the tail behind the leading bytes. */
  method ReadRest(dev: Device, ghost start: nat, ghost offset: nat, leading: nat, block: nat, length: nat,
                  buffer: array<Byte>)
    returns (n: nat)
    requires dev.blockSize > 0 && leading <= length <= buffer.Length && start + leading == Span(block, dev.blockSize)
    requires ReadTo(buffer[..], dev.disk, start, leading) && !dev.stopped
    requires Span(dev.got, dev.blockSize) == offset + leading
    modifies buffer, dev`stopped, dev`got
    ensures ReadTo(buffer[..], dev.disk, start, n)
    ensures n == Reached(dev.got, offset, dev.blockSize, length)
    ensures n <= length && (!dev.stopped ==> n == length) && (dev.stopped && length > 0 ==> n < length)
  {
    hide Span, Whole, ReadTo;
    var num := Whole(length - leading, dev.blockSize);
    WholeSpan(length - leading, dev.blockSize);
    SpanZero(dev.blockSize);
    SpanAdd(block, num, dev.blockSize);
    SpanAdd(dev.got, num, dev.blockSize);
    SpanAdd(dev.got + num, 1, dev.blockSize);
    var tail := length - leading - Span(num, dev.blockSize);
    var end := leading + Span(num, dev.blockSize);
    if num > 0 {
      ghost var before := dev.got;
      var ret := ReadMiddle(dev, start, leading, block, num, buffer);
      SpanLess(ret, num, dev.blockSize);
      SpanAdd(before, ret, dev.blockSize);
      if ret != num {
        return leading + Span(ret, dev.blockSize);
      }
    }
    if tail != 0 {
      ghost var before := buffer[..];
      var ok := ReadPart(dev, block + num, 0, tail, buffer, end);
      assert before[..end] == buffer[..][..end];
      if !ok {
        ReadMore(before, buffer[..], dev.disk, start, end, 0);
        return end;
      }
      ReadMore(before, buffer[..], dev.disk, start, end, tail);
    }
    return length;
  }

  /** Read whole blocks behind the leading bytes. */
  method ReadMiddle(dev: Device, ghost start: nat, leading: nat, block: nat, num: nat, buffer: array<Byte>)
    returns (ret: nat)
    requires leading + Span(num, dev.blockSize) <= buffer.Length && start + leading == Span(block, dev.blockSize)
    requires ReadTo(buffer[..], dev.disk, start, leading) && !dev.stopped
    modifies buffer, dev`stopped, dev`got
    ensures ret <= num && dev.stopped == (ret < num) && dev.got == old(dev.got) + ret
    ensures ReadTo(buffer[..], dev.disk, start, leading + Span(ret, dev.blockSize))
  {
    hide Span, ReadTo;
    ghost var before := buffer[..];
    ret := dev.ReadBlocks(block, num, buffer, leading);
    SpanZero(dev.blockSize);
    SpanAdd(block, ret, dev.blockSize);
    assert before[..leading] == buffer[..][..leading];
    var got := Span(ret, dev.blockSize);
    assert buffer[..][leading..leading + got] == buffer[leading..leading + got];
    ReadMore(before, buffer[..], dev.disk, start, leading, got);
  }

  // ---------------------------------------------------------------- writing

  /** The first `n` bytes of the data have been written from `start` on, and no other byte has changed. */
  ghost predicate WroteTo(before: seq<Byte>, after: seq<Byte>, start: nat, data: seq<Byte>, n: nat)
  {
    && n <= |data| && (n == 0 ==> after == before)
    && (n > 0 ==> start + n <= |before| && after == Put(before, start, data[..n]))
  }

  /** Writing on behind what has been written. */
  lemma {:induction false} WriteMore(d0: seq<Byte>, d1: seq<Byte>, d2: seq<Byte>, start: nat, data: seq<Byte>, n: nat,
                                     more: nat)
    requires WroteTo(d0, d1, start, data, n) && n + more <= |data| && (more == 0 ==> d2 == d1)
    requires more > 0 ==> start + n + more <= |d1| && d2 == Put(d1, start + n, data[n..n + more])
    ensures WroteTo(d0, d2, start, data, n + more)
  {
    if more > 0 {
      assert data[..n + more] == data[..n] + data[n..n + more];
      if n > 0 {
        assert d2 == Put(d0, start, data[..n + more]);
      }
    }
  }

  /** Changing part of a block and writing the whole block back changes only that part. */
  lemma {:induction false} PatchBlock(disk: seq<Byte>, from: nat, size: nat, offset: nat, part: seq<Byte>)
    requires from + size <= |disk| && offset + |part| <= size
    ensures Put(disk, from, Put(disk[from..from + size], offset, part)) == Put(disk, from + offset, part)
  {
  }

  /** Change part of a block by reading it, modifying the copy and writing it back. */
  method WritePart(dev: Device, block: nat, offset: nat, part: seq<Byte>) returns (ok: bool)
    requires offset + |part| <= dev.blockSize && !dev.stopped
    modifies dev`disk, dev`stopped, dev`got, dev`put
    ensures ok <==> !dev.stopped
    ensures dev.put == old(dev.put) + if ok then 1 else 0
    ensures ok ==> Span(block, dev.blockSize) + offset + |part| <= |old(dev.disk)|
                   && dev.disk == Put(old(dev.disk), Span(block, dev.blockSize) + offset, part)
    ensures !ok ==> dev.disk == old(dev.disk)
  {
    hide Span, Put;
    SpanZero(dev.blockSize);
    SpanAdd(block, 1, dev.blockSize);
    var tmp := new Byte[dev.blockSize];
    var ret := dev.ReadBlocks(block, 1, tmp, 0);
    if ret != 1 {
      return false;
    }
    ghost var from := Span(block, dev.blockSize);
    assert tmp[..] == tmp[0..dev.blockSize] == dev.disk[from..from + dev.blockSize];
    PatchBlock(dev.disk, from, dev.blockSize, offset, part);
    PutBytes(tmp, offset, part);
    assert tmp[..][..dev.blockSize] == tmp[..];
    ret := dev.WriteBlocks(block, 1, tmp[..]);
    ok := ret == 1;
  }

  /** Write a range of bytes.  Exactly the first `written` bytes reach the disk and no other byte changes: as many
      as lie in the blocks that the callbacks wrote, and all of them exactly when no callback stops short.
      The number returned is right unless a callback stops short and the range starts at a block: then it is one
      block too high. */
  method WriteBlock(dev: Device, start: nat, length: nat, data: seq<Byte>) returns (n: nat, ghost written: nat)
    requires dev.blockSize > 0 && length <= |data|
    modifies dev`disk, dev`stopped, dev`got, dev`put
    ensures WroteTo(old(dev.disk), dev.disk, start, data, written)
    ensures written == Reached(dev.put, Offset(start, dev.blockSize), dev.blockSize, length) <= length
    ensures (!dev.stopped ==> written == length) && (dev.stopped && length > 0 ==> written < length)
    ensures n == written + if dev.stopped && Offset(start, dev.blockSize) == 0 then dev.blockSize else 0
  {
    hide Span, Whole, WroteTo;
    dev.stopped, dev.put := false, 0;
    SpanZero(dev.blockSize);
    var block := Whole(start, dev.blockSize);
    WholeSpan(start, dev.blockSize);
    var offset := start - Span(block, dev.blockSize);
    ghost var d0 := dev.disk;
    NothingWritten(d0, start, data);
    if offset == 0 {
      // The leading part is not reset to nothing here: it still stands for a whole block.
      n, written := WriteRest(dev, start, offset, 0, dev.blockSize, block, length, data, d0);
      return;
    }
    var leading := if dev.blockSize - offset > length then length else dev.blockSize - offset;
    var ok := WritePart(dev, block, offset, data[..leading]);
    if !ok {
      return 0, 0;
    }
    assert data[0..0 + leading] == data[..leading];
    NoBytes(d0, start);
    assert leading == 0 ==> data[..leading] == [];
    WriteMore(d0, d0, dev.disk, start, data, 0, leading);
    if leading == length {
      return leading, leading;
    }
    SpanAdd(block, 1, dev.blockSize);
    n, written := WriteRest(dev, start, offset, leading, leading, block + 1, length, data, d0);
  }

  /** The count is wrong in fact: two blocks, at the start of a disk of one block. */
  method WriteCountWrong() returns (n: nat, ghost written: nat)
    ensures written < 2 && n == written + 1
  {
    var dev := new Device([0], 1);
    n, written := WriteBlock(dev, 0, 2, [1, 1]);
  }

  lemma {:induction false} NothingWritten(disk: seq<Byte>, start: nat, data: seq<Byte>)
    ensures WroteTo(disk, disk, start, data, 0)
  {
  }

  lemma {:induction false} NoBytes(disk: seq<Byte>, start: nat)
    ensures start <= |disk| ==> Put(disk, start, []) == disk
  {
  }

  /** Write whole blocks behind the leading bytes. */
  method WriteMiddle(dev: Device, ghost start: nat, leading: nat, block: nat, num: nat, data: seq<Byte>,
                     ghost d0: seq<Byte>)
    returns (ret: nat)
    requires leading + Span(num, dev.blockSize) <= |data| && start + leading == Span(block, dev.blockSize)
    requires WroteTo(d0, dev.disk, start, data, leading) && !dev.stopped
    modifies dev`disk, dev`stopped, dev`put
    ensures ret <= num && dev.stopped == (ret < num) && dev.put == old(dev.put) + ret
    ensures WroteTo(d0, dev.disk, start, data, leading + Span(ret, dev.blockSize))
  {
    hide Span, WroteTo, Put;
    ghost var d1 := dev.disk;
    ret := dev.WriteBlocks(block, num, data[leading..leading + Span(num, dev.blockSize)]);
    SpanLess(ret, num, dev.blockSize);
    SpanZero(dev.blockSize);
    ghost var done := Span(ret, dev.blockSize);
    assert data[leading..leading + Span(num, dev.blockSize)][..done] == data[leading..leading + done];
    NoBytes(d1, Span(block, dev.blockSize));
    WriteMore(d0, d1, dev.disk, start, data, leading, done);
  }

  /** Write the whole blocks and the tail behind the leading bytes, counting from `counted`. */
  method WriteRest(dev: Device, ghost start: nat, ghost offset: nat, leading: nat, counted: nat, block: nat,
                   length: nat, data: seq<Byte>, ghost d0: seq<Byte>)
    returns (n: nat, ghost written: nat)
    requires dev.blockSize > 0 && leading <= length <= |data| && start + leading == Span(block, dev.blockSize)
    requires WroteTo(d0, dev.disk, start, data, leading) && !dev.stopped
    requires Span(dev.put, dev.blockSize) == offset + leading
    modifies dev`disk, dev`stopped, dev`got, dev`put
    ensures WroteTo(d0, dev.disk, start, data, written)
    ensures written == Reached(dev.put, offset, dev.blockSize, length) <= length
    ensures (!dev.stopped ==> written == length) && (dev.stopped && length > 0 ==> written < length)
    ensures n == written + if dev.stopped then counted - leading else 0
  {
    hide Span, Whole, WroteTo, Put;
    var num := Whole(length - leading, dev.blockSize);
    WholeSpan(length - leading, dev.blockSize);
    SpanZero(dev.blockSize);
    SpanAdd(block, num, dev.blockSize);
    SpanAdd(dev.put, num, dev.blockSize);
    SpanAdd(dev.put + num, 1, dev.blockSize);
    var middle := Span(num, dev.blockSize);
    var tail := length - leading - middle;
    if num > 0 {
      ghost var before := dev.put;
      var ret := WriteMiddle(dev, start, leading, block, num, data, d0);
      SpanLess(ret, num, dev.blockSize);
      SpanAdd(before, ret, dev.blockSize);
      if ret != num {
        return counted + Span(ret, dev.blockSize), leading + Span(ret, dev.blockSize);
      }
    }
    if tail != 0 {
      ghost var d2 := dev.disk;
      var ok := WritePart(dev, block + num, 0, data[leading + middle..length]);
      if !ok {
        return counted + middle, leading + middle;
      }
      WriteMore(d0, d2, dev.disk, start, data, leading + middle, tail);
    }
    return length, length;
  }
}
