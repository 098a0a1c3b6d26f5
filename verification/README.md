# Lifting decoder of the lenses host (node.js)

This project models the host-side decoder in `node.js`. The guest WebAssembly
export `leno:lsp/lenses#getlenses` returns a pointer `ret` into guest linear
memory. `getlenses` then lifts the result out of that memory:

- a header at `ret`: the base pointer at `ret + 0` and the record count at `ret + 4`;
- `count` records of 32 bytes each, record `i` at `base + 32 * i`;
- in each record, four range words at offsets 0, 4, 8 and 12 (start line, start
  character, end line, end character);
- in each record, two (pointer, length) string references at offsets 16/20
  (title) and 24/28 (command).

Every word read goes through `dataView(mem)`, a one-slot cache that keeps
the current `DataView` while it is over the memory's current buffer and
rebuilds it otherwise. The string bytes do not use the cache: they are taken
with `new Uint8Array(memory0.buffer, ptr, len)` (node.js:27, 30).

Files:

- `words.dfy` (module `Words`) covers the byte-level reads. Bytes are a
  `byte` newtype. It has little-endian words, the signed reinterpretation
  that `DataView.getInt32` performs, and JavaScript's `>>> 0`. It also has
  the bounds-checked reads: `getInt32` and the `Uint8Array(buffer, ptr, len)`
  constructor. Both throw a RangeError, modelled as `Err(RangeError)`.
- `lenses.dfy` (module `Lenses`) holds the specification functions for one
  record (`LiftRecord`), for the loop (`RunLoop`, `LiftPrefix`) and for the
  whole call (`Lift`). It also has the guest's record layout (`RawRecord`,
  `EncodeRecord`, `ParseRecord`) and the lemmas that tie the decoder to that
  layout.
- `host.dfy` (module `Host`) holds the state the source changes: the
  `WebAssembly.Memory`, the `DataView` class, the `dv`/`dataView` cache as
  class `ViewCache`, and `getlenses` as methods. `GetLenses` reads the
  header, and `LiftRecords` is the source's `for (let i = 0; i < len2; i++)`
  loop written as a `while` loop that appends to `result2`. `GetLenses` is
  proved to compute `Lift`.

Signedness and text decoding follow the code:

- The WebAssembly Component Model canonical ABI declares the header words
  and the string (pointer, length) words as `u32`. The code reads all of
  them with the signed `getInt32` and never applies `>>> 0` to them
  (node.js:20-21, 25-29). So a count word of 2^31 or more gives a negative
  count, the loop runs zero times and the result is empty (`LiftEmptyCount`).
  A pointer or length word of 2^31 or more is negative and makes `Uint8Array`
  throw (`HighStringWordThrows`). Only the four range words are made unsigned
  (node.js:34-39).
- The canonical ABI traps on malformed UTF-8. The code's default
  `TextDecoder` substitutes U+FFFD and never throws, so decoding is the total
  function parameter `decode`; the model follows the code.

## Model

| member | source | states |
|---|---|---|
| `Words.U32LE` | node.js:20 | four bytes read least significant first give a value in [0, 2^32) |
| `Words.ToUint32` | node.js:34-39 | `x >>> 0` lies in [0, 2^32); it is x itself for x already in range and x + 2^32 for a negative signed 32-bit x |
| `Words.ToUint32Congruent` | node.js:34-39 | `x >>> 0` differs from x by a multiple of 2^32 for every integer x |
| `Words.ToInt32` | node.js:20-21 | the signed reading of a word lies in [-2^31, 2^31); `>>> 0` recovers the word; it is negative exactly when the word is 2^31 or more |
| `Words.Int32LE` | node.js:20-21 | `getInt32(off, true)` succeeds exactly when bytes [off, off+4) lie in the buffer; then it is the signed value whose unsigned form is the little-endian word at off |
| `Words.ByteView` | node.js:27 | `new Uint8Array(buffer, ptr, len)` succeeds exactly when ptr >= 0, len >= 0 and ptr + len <= buffer length; then it holds len bytes, byte k being buffer[ptr + k] |
| `Words.EncodeU32LE` | node.js:20 | the four little-endian bytes of a word read back as that word |
| `Words.EncodeWordOfBytes` | node.js:20 | every four bytes are the little-endian encoding of the word they hold (the other round trip) |
| `Words.WordAtEncoded` | node.js:20-21 | a stored word reads back as itself unsigned and as its signed reinterpretation through `getInt32` |
| `Lenses.LiftString` | node.js:25-30 | a string field succeeds exactly when its two words are in the buffer and the signed (pointer, length) they hold names bytes inside it; the result is the decode of exactly those bytes |
| `Lenses.LiftRangeWord` | node.js:34-39 | a range field made unsigned equals the stored little-endian word, and fails only when out of bounds |
| `Lenses.LiftRange` | node.js:32-41 | start.line, start.character, end.line and end.character are the unsigned words at record offsets 0, 4, 8 and 12 |
| `Lenses.LiftRecord` | node.js:24-46 | one record lifts exactly when its 32 bytes lie in the buffer and both string references name bytes inside it |
| `Lenses.RunLoop` | node.js:22-23 | a completed loop of n iterations yields exactly n items |
| `Lenses.RunLoopItems` | node.js:31 | item i of a completed loop is what iteration i produced, so the output order is the index order |
| `Lenses.RunLoopOk` | node.js:22-47 | the loop completes if and only if no iteration throws |
| `Lenses.RunLoopErrPersists` | node.js:22-47 | once an iteration throws, the whole call throws however many iterations remain |
| `Lenses.RecordAt` | node.js:24 | record i starts at base + 32 * i, with base the signed base word |
| `Lenses.LoopBody` | node.js:23-47 | iteration i of the loop lifts the record at `RecordAt(base, i)` |
| `Lenses.LiftPrefix` | node.js:23-47 | the loop after n iterations over the records from base; when it completes it holds n items |
| `Lenses.LiftPrefixStep` | node.js:31 | one more iteration appends the next record's item to the end, or throws when that record cannot be read |
| `Lenses.HeaderCount` | node.js:20 | the record count is `getInt32(ret + 4, true)`; it is negative exactly when the stored word is 2^31 or more |
| `Lenses.HeaderBase` | node.js:21 | the base pointer is `getInt32(ret + 0, true)`, read signed |
| `Lenses.Iterations` | node.js:23 | `for (let i = 0; i < len2; i++)` runs len2 times for a positive len2 and never otherwise |
| `Lenses.Lift` | node.js:20-48 | a successful call has read the whole 8-byte header at `ret` |
| `Lenses.LiftCharacterized` | node.js:20-48 | the call succeeds if and only if the header and every counted record can be read; then it returns max(count, 0) items, and item i is lifted from the record at base + 32 * i |
| `Lenses.LiftEmptyCount` | node.js:20-23 | a count word of 0, or of 2^31 or more, yields an empty result whatever the base word holds |
| `Lenses.EncodeRecord` | node.js:24-39 | a record is 32 bytes |
| `Lenses.ParseRecord` | node.js:24-39 | the eight words of a 32-byte block are each 32-bit values |
| `Lenses.ParseEncodeRecord` | node.js:24-39 | reading back an encoded record gives the record |
| `Lenses.EncodeParseRecord` | node.js:24-39 | every 32-byte block is the encoding of the words it holds |
| `Lenses.RecordWords` | node.js:24-39 | the words at record offsets 0, 4, ..., 28 are the layout's fields in table order |
| `Lenses.LiftRecordLayout` | node.js:24-46 | a stored record lifts to its range words as stored, with the title and command decoded from the bytes that its signed pointer and length words name |
| `Lenses.LiftRecordValue` | node.js:24-46 | any 32 readable bytes lift to the layout item of the eight words they hold |
| `Lenses.HighStringWordThrows` | node.js:25-30 | a pointer or length word of 2^31 or more always makes the record throw |
| `Lenses.LiftLayout` | node.js:16-49 | round trip: a header (base, count) and count stored records lift to count items, in order, each the layout item of its record; the call throws exactly when some record's strings lie outside the buffer |
| `Host.DataView.constructor` | node.js:7 | `new DataView(mem.buffer)` is bound to that buffer |
| `Host.DataView.GetInt32` | node.js:20 | reading the array gives `Int32LE` of its contents |
| `Host.ViewCache.constructor` | node.js:6 | the initial view is over a new empty buffer that no memory owns |
| `Host.ViewCache.DataViewOf` | node.js:7 | if the cached view is over the same buffer object, that view is returned and kept; otherwise a new view is built and stored; either way the result is over `mem.buffer` |
| `Host.ReadInt32` | node.js:20 | `dataView(memory0).getInt32(off, true)` computes `Int32LE` of the current buffer; the cache is left over that buffer, keeping its view if it was already there and holding a new one otherwise |
| `Host.ReadString` | node.js:25-30 | reading a string field through a cache already over the buffer computes `LiftString` and keeps the cached view |
| `Host.ReadRange` | node.js:32-41 | reading the range through a cache already over the buffer computes `LiftRange` and keeps the cached view |
| `Host.ReadRecord` | node.js:25-46 | reading the record at `base` through a cache already over the buffer computes `LiftRecord` and keeps the cached view |
| `Host.LoopIteration` | node.js:24-46 | iteration i computes the address base2 + 32 * i and yields the loop body's item i; the cached view is kept |
| `Host.LiftRecords` | node.js:22-47 | the loop yields exactly the loop body run for max(len2, 0) iterations, abandoned at the first throw; the cached view is kept throughout |
| `Host.GetLenses` | node.js:16-49 | the call computes `Lift` of guest memory; memory and its buffer are unchanged (decoding is read-only); the cache ends over the current buffer, with the view it held if that was already over this buffer and a new one otherwise |

## Left out

- Module loading and start-up are not modelled. This covers `readFile`,
  `WebAssembly.compile`/`instantiate`, the WASI set-up, `wasi.start`,
  `console.log` and the async wrapper (node.js:1-5, 8-13, 52-68). They are I/O and
  runtime plumbing.
- The guest export call `exports0['leno:lsp/lenses#getlenses']()`
  (node.js:19) is a foreign call. Its return value is the parameter `ret` of
  `Lift` and `GetLenses`. `ret` may be any integer: a negative one makes the
  header read throw.
- `TextDecoder` (node.js:17, 27, 30) is the abstract parameter `decode`. The
  model does not cover U+FFFD replacement, BOM stripping or any other UTF-8
  detail. A fresh decoder per call holds no state that matters here.
- The lowering encoder for string arguments (guest `realloc`, pointer 1 for
  the empty string) has no code in node.js. It is not part of this model.
- Growing guest memory is not modelled. Growth replaces `WasmMemory.buffer`
  and detaches the old buffer. The cache's behaviour on a replaced buffer is
  stated by `DataViewOf` for any buffer object. Nothing after the guest call
  (node.js:20-48) grows memory. A growth during that call replaces
  `memory0.buffer` before `GetLenses` starts. `GetLenses` accepts any cache
  state, so in that case it builds a fresh view.
- JavaScript numbers are doubles. `base2 + i * 32` and `ret + 4` stay far
  below 2^53, so the model uses exact integers.
- Every exception is a RangeError in the source, so the model does not record
  which read threw first. The order of reads is still that of the source.
- Host.ReadString: stated only for a cache already over the current buffer.
  That is the only state `getlenses` reaches it in, because the header reads
  (node.js:20-21) go through `dataView` first. From any other cache state
  only `ReadInt32` and `GetLenses` are specified.
- Host.ReadRange: stated only for a cache already over the current buffer,
  for the same reason as `ReadString`.
- Host.ReadRecord: stated only for a cache already over the current buffer,
  for the same reason as `ReadString`.
- Host.LoopIteration: stated only for a cache already over the current
  buffer, for the same reason as `ReadString`.
- Host.LiftRecords: stated only for a cache already over the current buffer,
  for the same reason as `ReadString`.
