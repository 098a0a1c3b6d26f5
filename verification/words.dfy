/**
 * Guest linear memory as a byte sequence, and the two bounds-checked ways
 * `node.js` reads it: `DataView.getInt32(offset, true)` (a signed little-endian
 * 32-bit word) and `new Uint8Array(buffer, ptr, len)` (a byte range).
 * Both throw a RangeError when the range leaves the buffer; here they return
 * `Err(RangeError)` instead.
 */
module Words {

  newtype byte = b: int | 0 <= b < 256

  const TWO_31: int := 0x8000_0000
  const TWO_32: int := 0x1_0000_0000

  /** The only exception the decoder can raise: a read outside the buffer. */
  datatype Error = RangeError

  datatype Result<+T> = Ok(value: T) | Err(error: Error) {
    predicate IsFailure() {
      Err?
    }

    function PropagateFailure<U>(): Result<U>
      requires Err?
    {
      Err(error)
    }

    function Extract(): T
      requires Ok?
    {
      value
    }
  }

  /** The range [off, off + len) lies inside a buffer of `size` bytes. */
  predicate InBounds(size: int, off: int, len: int) {
    0 <= off && 0 <= len && off + len <= size
  }

  /** The unsigned value of four bytes stored least significant first. */
  function U32LE(b0: byte, b1: byte, b2: byte, b3: byte): (w: int)
    ensures 0 <= w < TWO_32
  {
    b0 as int + 0x100 * b1 as int + 0x1_0000 * b2 as int + 0x100_0000 * b3 as int
  }

  /** The unsigned little-endian word at `off`. */
  function WordAt(mem: seq<byte>, off: int): (w: int)
    requires InBounds(|mem|, off, 4)
    ensures 0 <= w < TWO_32
  {
    U32LE(mem[off], mem[off + 1], mem[off + 2], mem[off + 3])
  }

  /** JavaScript's `x >>> 0`: the representative of x modulo 2^32 in [0, 2^32). */
  function ToUint32(x: int): (w: int)
    ensures 0 <= w < TWO_32
    ensures 0 <= x < TWO_32 ==> w == x
    ensures -TWO_32 <= x < 0 ==> w == x + TWO_32
  {
    x % 0x1_0000_0000
  }

  /** `x >>> 0` differs from x by a multiple of 2^32, whatever x is. */
  lemma ToUint32Congruent(x: int)
    ensures (x - ToUint32(x)) % TWO_32 == 0
  {
  }

  /** Reinterpret an unsigned 32-bit word as two's-complement, as `getInt32` does. */
  function ToInt32(w: int): (x: int)
    requires 0 <= w < TWO_32
    ensures -TWO_31 <= x < TWO_31
    ensures ToUint32(x) == w
    ensures x < 0 <==> w >= TWO_31
  {
    if w < TWO_31 then w else w - TWO_32
  }

  /** `DataView.getInt32(off, true)` over a view spanning the whole buffer. */
  function Int32LE(mem: seq<byte>, off: int): (r: Result<int>)
    ensures r.Ok? <==> InBounds(|mem|, off, 4)
    ensures r.Ok? ==> -TWO_31 <= r.value < TWO_31 && ToUint32(r.value) == WordAt(mem, off)
  {
    if InBounds(|mem|, off, 4) then Ok(ToInt32(WordAt(mem, off))) else Err(RangeError)
  }

  /** `new Uint8Array(buffer, ptr, len)`: the bytes [ptr, ptr + len), or a RangeError. */
  function ByteView(mem: seq<byte>, ptr: int, len: int): (r: Result<seq<byte>>)
    ensures r.Ok? <==> InBounds(|mem|, ptr, len)
    ensures r.Ok? ==> |r.value| == len && forall k :: 0 <= k < len ==> r.value[k] == mem[ptr + k]
  {
    if InBounds(|mem|, ptr, len) then Ok(mem[ptr..ptr + len]) else Err(RangeError)
  }

  /** The four bytes a guest stores for the unsigned word `w`, least significant first. */
  function EncodeU32LE(w: int): (b: seq<byte>)
    requires 0 <= w < TWO_32
    ensures |b| == 4 && U32LE(b[0], b[1], b[2], b[3]) == w
  {
    var q1 := w / 0x100;
    var q2 := q1 / 0x100;
    var q3 := q2 / 0x100;
    assert w == (w % 0x100) + 0x100 * (q1 % 0x100) + 0x1_0000 * (q2 % 0x100) + 0x100_0000 * q3;
    [(w % 0x100) as byte, (q1 % 0x100) as byte, (q2 % 0x100) as byte, q3 as byte]
  }

  /** Every four bytes are the encoding of the word they hold. */
  lemma EncodeWordOfBytes(b0: byte, b1: byte, b2: byte, b3: byte)
    ensures EncodeU32LE(U32LE(b0, b1, b2, b3)) == [b0, b1, b2, b3]
  {
    var q2 := b2 as int + 0x100 * b3 as int;
    var q1 := b1 as int + 0x100 * q2;
    SplitLowByte(b0 as int, q1);
    SplitLowByte(b1 as int, q2);
    SplitLowByte(b2 as int, b3 as int);
  }

  /** The low byte and the rest of `lo + 256 * hi`. */
  lemma SplitLowByte(lo: int, hi: int)
    requires 0 <= lo < 0x100
    ensures (lo + 0x100 * hi) / 0x100 == hi && (lo + 0x100 * hi) % 0x100 == lo
  {
  }

  /** A word read back from where its encoding is stored is that word. */
  lemma WordAtEncoded(mem: seq<byte>, off: int, w: int)
    requires 0 <= w < TWO_32
    requires InBounds(|mem|, off, 4) && mem[off..off + 4] == EncodeU32LE(w)
    ensures WordAt(mem, off) == w
    ensures Int32LE(mem, off) == Ok(ToInt32(w))
  {
    var e := EncodeU32LE(w);
    assert mem[off] == e[0] && mem[off + 1] == e[1] && mem[off + 2] == e[2] && mem[off + 3] == e[3] by {
      var s := mem[off..off + 4];
      assert s[0] == mem[off] && s[1] == mem[off + 1] && s[2] == mem[off + 2] && s[3] == mem[off + 3];
    }
  }
}
