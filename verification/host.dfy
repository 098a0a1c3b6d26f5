/**
 * The host side of node.js: the guest's `WebAssembly.Memory`, the `DataView`
 * over its buffer, the one-slot view cache `dataView` (node.js:6-7) and the
 * `getlenses` loop (node.js:16-49), which reads guest memory through that
 * cache. Each read method is proved to compute the corresponding
 * specification function, of module Words or Lenses.
 */
module Host {
  import opened Words
  import opened Lenses

  /** A `WebAssembly.Memory`; the guest replaces `buffer` when it grows its memory. */
  class WasmMemory {
    var buffer: array<byte>

    constructor (buffer: array<byte>)
      ensures this.buffer == buffer
    {
      this.buffer := buffer;
    }
  }

  /** A `DataView` spanning the whole of one buffer. */
  class DataView {
    const buffer: array<byte>

    constructor (buffer: array<byte>)
      ensures this.buffer == buffer
    {
      this.buffer := buffer;
    }

    /** `getInt32(byteOffset, true)`: a RangeError unless all four bytes are in the buffer. */
    method GetInt32(byteOffset: int) returns (r: Result<int>)
      ensures r == Int32LE(buffer[..], byteOffset)
    {
      if 0 <= byteOffset && byteOffset + 4 <= buffer.Length {
        var w := U32LE(buffer[byteOffset], buffer[byteOffset + 1],
                       buffer[byteOffset + 2], buffer[byteOffset + 3]);
        r := Ok(ToInt32(w));
      } else {
        r := Err(RangeError);
      }
    }
  }

  /** The module-level `dv` (node.js:6) and its accessor `dataView` (node.js:7). */
  class ViewCache {
    var dv: DataView

    /** node.js:6: a view over a new empty buffer, which no guest memory owns. */
    constructor ()
      ensures fresh(dv) && fresh(dv.buffer) && dv.buffer.Length == 0
    {
      var empty := new byte[0];
      dv := new DataView(empty);
    }

    /**
     * `dataView(mem)`: the cached view when it is over `mem.buffer` itself,
     * otherwise a new view over `mem.buffer`, which replaces the cached one.
     */
    method DataViewOf(mem: WasmMemory) returns (v: DataView)
      modifies this
      ensures v.buffer == mem.buffer && dv == v
      ensures old(dv.buffer) == mem.buffer ==> v == old(dv)
      ensures old(dv.buffer) != mem.buffer ==> fresh(v)
    {
      if dv.buffer != mem.buffer {
        dv := new DataView(mem.buffer);
      }
      v := dv;
    }
  }

  /** `dataView(memory0).getInt32(off, true)`. */
  method ReadInt32(cache: ViewCache, memory0: WasmMemory, off: int) returns (r: Result<int>)
    modifies cache
    ensures r == Int32LE(memory0.buffer[..], off)
    ensures cache.dv.buffer == memory0.buffer
    ensures old(cache.dv.buffer) == memory0.buffer ==> cache.dv == old(cache.dv)
    ensures old(cache.dv.buffer) != memory0.buffer ==> fresh(cache.dv)
  {
    var view := cache.DataViewOf(memory0);
    r := view.GetInt32(off);
  }

  /**
   * A string field: pointer and length through the cache, then the bytes
   * decoded (node.js:25-30). Like the range and record reads below, it is
   * stated for a cache already over the buffer, the state the header reads
   * (node.js:20-21) leave it in; it then keeps the cached view.
   */
  method ReadString(cache: ViewCache, memory0: WasmMemory, at: int, decode: Utf8Decoder)
    returns (r: Result<string>)
    modifies cache
    requires cache.dv.buffer == memory0.buffer
    ensures r == LiftString(memory0.buffer[..], at, decode)
    ensures cache.dv == old(cache.dv)
  {
    ghost var mem := memory0.buffer[..];
    var ptr :- ReadInt32(cache, memory0, at);
    assert memory0.buffer[..] == mem;
    var len :- ReadInt32(cache, memory0, at + 4);
    assert memory0.buffer[..] == mem;
    var bytes :- ByteView(memory0.buffer[..], ptr, len);
    r := Ok(decode(bytes));
  }

  /** The four range words through the cache, each made unsigned (node.js:32-41). */
  method ReadRange(cache: ViewCache, memory0: WasmMemory, base: int) returns (r: Result<Range>)
    modifies cache
    requires cache.dv.buffer == memory0.buffer
    ensures r == LiftRange(memory0.buffer[..], base)
    ensures cache.dv == old(cache.dv)
  {
    var startLine :- ReadInt32(cache, memory0, base + 0);
    var startCharacter :- ReadInt32(cache, memory0, base + 4);
    var endLine :- ReadInt32(cache, memory0, base + 8);
    var endCharacter :- ReadInt32(cache, memory0, base + 12);
    r := Ok(Range(Position(ToUint32(startLine), ToUint32(startCharacter)),
                  Position(ToUint32(endLine), ToUint32(endCharacter))));
  }

  /** The record at `base` (node.js:25-46): title, then command, then the range. */
  method ReadRecord(cache: ViewCache, memory0: WasmMemory, base: int, decode: Utf8Decoder)
    returns (r: Result<LensItem>)
    modifies cache
    requires cache.dv.buffer == memory0.buffer
    ensures r == LiftRecord(memory0.buffer[..], base, decode)
    ensures cache.dv == old(cache.dv)
  {
    ghost var mem := memory0.buffer[..];
    var result0 := ReadString(cache, memory0, base + 16, decode);
    assert memory0.buffer[..] == mem;
    if result0.Err? {
      LiftRecordInOrder(mem, base, decode, result0, LiftString(mem, base + 24, decode), LiftRange(mem, base));
      return Err(result0.error);
    }
    var result1 := ReadString(cache, memory0, base + 24, decode);
    assert memory0.buffer[..] == mem;
    if result1.Err? {
      LiftRecordInOrder(mem, base, decode, result0, result1, LiftRange(mem, base));
      return Err(result1.error);
    }
    var range := ReadRange(cache, memory0, base);
    assert memory0.buffer[..] == mem;
    LiftRecordInOrder(mem, base, decode, result0, result1, range);
    if range.Err? {
      return Err(range.error);
    }
    r := Ok(LensItem(range.value, Command(result0.value, result1.value)));
  }

  /**
   * One pass of the loop (node.js:24-46): the record address base2 + 32 * i,
   * then that record read through the cache. `body` is the loop body over the
   * memory snapshot `mem`, so the pass computes `body(i)`.
   */
  method LoopIteration(cache: ViewCache, memory0: WasmMemory, base2: int, i: nat, decode: Utf8Decoder,
                       ghost mem: seq<byte>, ghost body: nat -> Result<LensItem>)
    returns (r: Result<LensItem>)
    modifies cache
    requires cache.dv.buffer == memory0.buffer && memory0.buffer[..] == mem
    requires IsLoopBody(mem, base2, decode, body)
    ensures r == body(i)
    ensures cache.dv == old(cache.dv)
  {
    var base := base2 + i * 32;
    assert base == RecordAt(base2, i);
    r := ReadRecord(cache, memory0, base, decode);
  }

  /**
   * The loop of node.js:23-47: one item per record from `base2`, pushed in
   * index order, for `len2` iterations (none when `len2` is not positive),
   * abandoned at the first iteration that throws.
   */
  method LiftRecords(memory0: WasmMemory, cache: ViewCache, base2: int, len2: int, decode: Utf8Decoder,
                     ghost mem: seq<byte>, ghost body: nat -> Result<LensItem>)
    returns (r: Result<seq<LensItem>>)
    modifies cache
    requires cache.dv.buffer == memory0.buffer && memory0.buffer[..] == mem
    requires IsLoopBody(mem, base2, decode, body)
    ensures r == RunLoop(body, Iterations(len2))
    ensures cache.dv == old(cache.dv)
  {
    ghost var view0, n := cache.dv, Iterations(len2);
    var result2: seq<LensItem> := [];
    var i := 0;
    while i < len2
      invariant 0 <= i <= n
      invariant RunLoop(body, i) == Ok(result2)
      invariant cache.dv == view0 && view0.buffer == memory0.buffer
      invariant memory0.buffer[..] == mem
    {
      var item := LoopIteration(cache, memory0, base2, i, decode, mem, body);
      assert memory0.buffer[..] == mem;
      if item.Err? {
        RunLoopErrPersists(body, i + 1, n);
        return Err(RangeError);
      }
      result2 := result2 + [item.value];
      i := i + 1;
    }
    assert i == n;
    return Ok(result2);
  }

  /**
   * `getlenses` (node.js:16-49) once the guest export has returned `ret`:
   * the header words, then the loop over the records. It computes `Lift` of
   * the memory, leaves guest memory as it was, and leaves the cache holding a
   * view of the current buffer: the view it held if that was already over
   * this buffer, a new one otherwise.
   */
  method GetLenses(ret: int, memory0: WasmMemory, cache: ViewCache, decode: Utf8Decoder)
    returns (r: Result<seq<LensItem>>)
    modifies cache
    ensures r == Lift(memory0.buffer[..], ret, decode)
    ensures cache.dv.buffer == memory0.buffer
    ensures old(cache.dv.buffer) == memory0.buffer ==> cache.dv == old(cache.dv)
    ensures old(cache.dv.buffer) != memory0.buffer ==> fresh(cache.dv)
    ensures memory0.buffer == old(memory0.buffer) && memory0.buffer[..] == old(memory0.buffer[..])
  {
    ghost var mem := memory0.buffer[..];
    var len2 :- ReadInt32(cache, memory0, ret + 4);
    assert memory0.buffer[..] == mem;
    var base2 :- ReadInt32(cache, memory0, ret + 0);
    assert memory0.buffer[..] == mem;
    assert len2 == HeaderCount(mem, ret) && base2 == HeaderBase(mem, ret);
    LiftIsLoop(mem, ret, decode);
    r := LiftRecords(memory0, cache, base2, len2, decode, mem, LoopBody(mem, base2, decode));
  }
}
