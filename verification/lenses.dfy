/**
 * The lifting decoder of `getlenses` (node.js:16-49) as specification
 * functions over a snapshot of guest memory, and the record layout the guest
 * writes, so that what the decoder reads can be compared with what was stored.
 *
 * Result header at `ret`: base pointer at +0, record count at +4.
 * Record (32 bytes, at base + 32 * i):
 *   +0 start.line   +4 start.character   +8 end.line   +12 end.character
 *   +16 title ptr   +20 title len        +24 command ptr   +28 command len
 */
module Lenses {
  import opened Words

  datatype Position = Position(line: int, character: int)
  datatype Range = Range(start: Position, end: Position)
  datatype Command = Command(title: string, command: string)
  datatype LensItem = LensItem(range: Range, command: Command)

  const RECORD_SIZE: int := 32

  /** `TextDecoder.decode`, left abstract: any total map from bytes to text. */
  type Utf8Decoder = seq<byte> -> string

  /** The (pointer, length) string reference at `at` names bytes inside the buffer. */
  predicate StringRefInBounds(mem: seq<byte>, at: int)
    requires InBounds(|mem|, at, 8)
  {
    InBounds(|mem|, ToInt32(WordAt(mem, at)), ToInt32(WordAt(mem, at + 4)))
  }

  /**
   * A string field (node.js:25-27 and 28-30): pointer and length read signed,
   * then the bytes they name decoded.
   */
  function LiftString(mem: seq<byte>, at: int, decode: Utf8Decoder): (r: Result<string>)
    ensures r.Ok? <==> InBounds(|mem|, at, 8) && StringRefInBounds(mem, at)
    ensures r.Ok? ==>
      var ptr, len := ToInt32(WordAt(mem, at)), ToInt32(WordAt(mem, at + 4));
      r.value == decode(mem[ptr..ptr + len])
  {
    var ptr :- Int32LE(mem, at);
    var len :- Int32LE(mem, at + 4);
    var bytes :- ByteView(mem, ptr, len);
    Ok(decode(bytes))
  }

  /** A range field (node.js:34-39): the signed word made unsigned with `>>> 0`. */
  function LiftRangeWord(mem: seq<byte>, off: int): (r: Result<int>)
    ensures r.Ok? <==> InBounds(|mem|, off, 4)
    ensures r.Ok? ==> r.value == WordAt(mem, off)
  {
    var x :- Int32LE(mem, off);
    Ok(ToUint32(x))
  }

  /** The four range words of the record at `base` (node.js:32-41). */
  function LiftRange(mem: seq<byte>, base: int): (r: Result<Range>)
    ensures r.Ok? <==> InBounds(|mem|, base, 16)
    ensures r.Ok? ==>
      r.value == Range(Position(WordAt(mem, base), WordAt(mem, base + 4)),
                       Position(WordAt(mem, base + 8), WordAt(mem, base + 12)))
  {
    var startLine :- LiftRangeWord(mem, base + 0);
    var startCharacter :- LiftRangeWord(mem, base + 4);
    var endLine :- LiftRangeWord(mem, base + 8);
    var endCharacter :- LiftRangeWord(mem, base + 12);
    Ok(Range(Position(startLine, startCharacter), Position(endLine, endCharacter)))
  }

  /**
   * One iteration of the loop body (node.js:24-46), in the order the source
   * reads: title, command, then the range.
   */
  function LiftRecord(mem: seq<byte>, base: int, decode: Utf8Decoder): (r: Result<LensItem>)
    ensures r.Ok? <==>
      InBounds(|mem|, base, RECORD_SIZE) &&
      StringRefInBounds(mem, base + 16) && StringRefInBounds(mem, base + 24)
  {
    var title :- LiftString(mem, base + 16, decode);
    var command :- LiftString(mem, base + 24, decode);
    var range :- LiftRange(mem, base);
    Ok(LensItem(range, Command(title, command)))
  }

  /** The reads of one record in source order: the first one that throws decides the outcome. */
  lemma LiftRecordInOrder(mem: seq<byte>, base: int, decode: Utf8Decoder,
                          title: Result<string>, command: Result<string>, range: Result<Range>)
    requires title == LiftString(mem, base + 16, decode)
    requires command == LiftString(mem, base + 24, decode)
    requires range == LiftRange(mem, base)
    ensures title.Err? ==> LiftRecord(mem, base, decode) == Err(RangeError)
    ensures title.Ok? && command.Err? ==> LiftRecord(mem, base, decode) == Err(RangeError)
    ensures title.Ok? && command.Ok? && range.Err? ==> LiftRecord(mem, base, decode) == Err(RangeError)
    ensures title.Ok? && command.Ok? && range.Ok? ==>
      LiftRecord(mem, base, decode) == Ok(LensItem(range.value, Command(title.value, command.value)))
  {
  }

  /**
   * A loop that runs `body(0)`, ..., `body(n - 1)` in order and appends each
   * result, abandoning the whole loop at the first exception.
   */
  function RunLoop<T>(body: nat -> Result<T>, n: nat): (r: Result<seq<T>>)
    ensures r.Ok? ==> |r.value| == n
  {
    if n == 0 then Ok([])
    else
      var prev :- RunLoop(body, n - 1);
      var item :- body(n - 1);
      Ok(prev + [item])
  }

  /** Item i of a completed loop is what iteration i produced. */
  lemma {:induction false} RunLoopItems<T>(body: nat -> Result<T>, n: nat)
    requires RunLoop(body, n).Ok?
    ensures forall i :: 0 <= i < n ==> body(i) == Ok(RunLoop(body, n).value[i])
  {
    if n > 0 {
      RunLoopItems(body, n - 1);
      assert RunLoop(body, n).value == RunLoop(body, n - 1).value + [body(n - 1).value];
    }
  }

  /** A loop completes exactly when none of its iterations throws. */
  lemma {:induction false} RunLoopOk<T>(body: nat -> Result<T>, n: nat)
    ensures RunLoop(body, n).Ok? <==> forall i :: 0 <= i < n ==> body(i).Ok?
  {
    if n > 0 {
      RunLoopOk(body, n - 1);
    }
  }

  /** Once an iteration has thrown, running further iterations changes nothing. */
  lemma {:induction false} RunLoopErrPersists<T>(body: nat -> Result<T>, n: nat, m: nat)
    requires n <= m && RunLoop(body, n).Err?
    ensures RunLoop(body, m) == Err(RangeError)
  {
    if n < m {
      RunLoopErrPersists(body, n, m - 1);
    }
  }

  /** The address of record i of a sequence starting at `base` (node.js:24). */
  function RecordAt(base: int, i: int): int
  {
    base + i * RECORD_SIZE
  }

  /** Iteration i of the loop of node.js:23-47: the record at base + 32 * i. */
  function LoopBody(mem: seq<byte>, base: int, decode: Utf8Decoder): nat -> Result<LensItem>
  {
    i => LiftRecord(mem, RecordAt(base, i), decode)
  }

  /** `body` agrees with the loop body over `mem` at every record address from `base`. */
  ghost predicate IsLoopBody(mem: seq<byte>, base: int, decode: Utf8Decoder, body: nat -> Result<LensItem>)
  {
    forall i: nat {:trigger RecordAt(base, i)} :: LiftRecord(mem, RecordAt(base, i), decode) == body(i)
  }

  /** The loop of node.js:23-47 after `n` iterations: records 0 .. n-1 from `base`. */
  function LiftPrefix(mem: seq<byte>, base: int, n: nat, decode: Utf8Decoder): (r: Result<seq<LensItem>>)
    ensures r.Ok? ==> |r.value| == n
  {
    RunLoop(LoopBody(mem, base, decode), n)
  }

  /**
   * One more iteration appends the next record's item (`push`, node.js:31),
   * or throws when that record cannot be read.
   */
  lemma LiftPrefixStep(mem: seq<byte>, base: int, n: nat, decode: Utf8Decoder)
    requires LiftPrefix(mem, base, n, decode).Ok?
    ensures LiftRecord(mem, RecordAt(base, n), decode).Ok? ==>
      LiftPrefix(mem, base, n + 1, decode) ==
        Ok(LiftPrefix(mem, base, n, decode).value + [LiftRecord(mem, RecordAt(base, n), decode).value])
    ensures LiftRecord(mem, RecordAt(base, n), decode).Err? ==>
      LiftPrefix(mem, base, n + 1, decode) == Err(RangeError)
  {
    assert LoopBody(mem, base, decode)(n) == LiftRecord(mem, RecordAt(base, n), decode);
  }

  /** The signed record count the header stores at `ret + 4`. */
  function HeaderCount(mem: seq<byte>, ret: int): (count: int)
    requires InBounds(|mem|, ret, 8)
    ensures Int32LE(mem, ret + 4) == Ok(count)
    ensures count < 0 <==> WordAt(mem, ret + 4) >= TWO_31
  {
    ToInt32(WordAt(mem, ret + 4))
  }

  /** The signed base pointer the header stores at `ret + 0`. */
  function HeaderBase(mem: seq<byte>, ret: int): (base: int)
    requires InBounds(|mem|, ret, 8)
    ensures Int32LE(mem, ret) == Ok(base)
  {
    ToInt32(WordAt(mem, ret))
  }

  /**
   * `getlenses` after the guest call returned `ret` (node.js:20-48): count and
   * base are read signed; a negative count runs the loop zero times.
   */
  function Lift(mem: seq<byte>, ret: int, decode: Utf8Decoder): (r: Result<seq<LensItem>>)
    ensures r.Ok? ==> InBounds(|mem|, ret, 8)
  {
    var len2 :- Int32LE(mem, ret + 4);
    var base2 :- Int32LE(mem, ret + 0);
    LiftPrefix(mem, base2, Iterations(len2), decode)
  }

  /** The number of times the loop of node.js:23 runs for a signed count. */
  function Iterations(count: int): (n: nat)
    ensures count <= 0 ==> n == 0
    ensures count > 0 ==> n == count
  {
    if count < 0 then 0 else count
  }

  /** Once the header is readable, `getlenses` is its loop over records from the header's base. */
  lemma LiftIsLoop(mem: seq<byte>, ret: int, decode: Utf8Decoder)
    requires InBounds(|mem|, ret, 8)
    ensures Lift(mem, ret, decode) ==
      LiftPrefix(mem, HeaderBase(mem, ret), Iterations(HeaderCount(mem, ret)), decode)
  {
    assert Int32LE(mem, ret + 4) == Ok(HeaderCount(mem, ret));
    assert Int32LE(mem, ret + 0) == Ok(HeaderBase(mem, ret));
  }

  /**
   * What `getlenses` returns, in terms of the header and the records: it
   * succeeds exactly when the header and every counted record can be read;
   * then it yields max(count, 0) items, item i lifted from base + 32 * i.
   */
  lemma LiftCharacterized(mem: seq<byte>, ret: int, decode: Utf8Decoder)
    ensures Lift(mem, ret, decode).Ok? <==>
      InBounds(|mem|, ret, 8) &&
      forall i :: 0 <= i < HeaderCount(mem, ret) ==>
        LiftRecord(mem, RecordAt(HeaderBase(mem, ret), i), decode).Ok?
    ensures Lift(mem, ret, decode).Ok? ==>
      var items := Lift(mem, ret, decode).value;
      |items| == Iterations(HeaderCount(mem, ret)) &&
      forall i :: 0 <= i < |items| ==>
        LiftRecord(mem, RecordAt(HeaderBase(mem, ret), i), decode) == Ok(items[i])
  {
    if InBounds(|mem|, ret, 8) {
      var base, n := HeaderBase(mem, ret), Iterations(HeaderCount(mem, ret));
      var body := LoopBody(mem, base, decode);
      LiftIsLoop(mem, ret, decode);
      RunLoopOk(body, n);
      forall i | 0 <= i < n ensures body(i) == LiftRecord(mem, RecordAt(base, i), decode) {}
      if Lift(mem, ret, decode).Ok? {
        RunLoopItems(body, n);
      }
    }
  }

  /**
   * A count word of 0, or of 2^31 or more (negative through `getInt32`),
   * yields no items whatever the base word holds.
   */
  lemma LiftEmptyCount(mem: seq<byte>, ret: int, decode: Utf8Decoder)
    requires InBounds(|mem|, ret, 8)
    requires WordAt(mem, ret + 4) == 0 || WordAt(mem, ret + 4) >= TWO_31
    ensures Lift(mem, ret, decode) == Ok([])
  {
    assert HeaderCount(mem, ret) <= 0;
  }

  /** One record as the guest lays it out: eight unsigned 32-bit words. */
  datatype RawRecord = RawRecord(
    startLine: int, startCharacter: int, endLine: int, endCharacter: int,
    titlePtr: int, titleLen: int, commandPtr: int, commandLen: int)
  {
    predicate Valid() {
      0 <= startLine < TWO_32 && 0 <= startCharacter < TWO_32 &&
      0 <= endLine < TWO_32 && 0 <= endCharacter < TWO_32 &&
      0 <= titlePtr < TWO_32 && 0 <= titleLen < TWO_32 &&
      0 <= commandPtr < TWO_32 && 0 <= commandLen < TWO_32
    }
  }

  /** The 32 bytes of a record, words in layout order. */
  function EncodeRecord(raw: RawRecord): (b: seq<byte>)
    requires raw.Valid()
    ensures |b| == RECORD_SIZE
  {
    EncodeU32LE(raw.startLine) + EncodeU32LE(raw.startCharacter) +
    EncodeU32LE(raw.endLine) + EncodeU32LE(raw.endCharacter) +
    EncodeU32LE(raw.titlePtr) + EncodeU32LE(raw.titleLen) +
    EncodeU32LE(raw.commandPtr) + EncodeU32LE(raw.commandLen)
  }

  /** The eight words held by 32 bytes. */
  function ParseRecord(block: seq<byte>): (raw: RawRecord)
    requires |block| == RECORD_SIZE
    ensures raw.Valid()
  {
    RawRecord(WordAt(block, 0), WordAt(block, 4), WordAt(block, 8), WordAt(block, 12),
              WordAt(block, 16), WordAt(block, 20), WordAt(block, 24), WordAt(block, 28))
  }

  /** The item the layout says a record stands for: range words as stored, string words signed. */
  function LayoutItem(mem: seq<byte>, raw: RawRecord, decode: Utf8Decoder): Result<LensItem>
    requires raw.Valid()
  {
    var tp, tl := ToInt32(raw.titlePtr), ToInt32(raw.titleLen);
    var cp, cl := ToInt32(raw.commandPtr), ToInt32(raw.commandLen);
    if InBounds(|mem|, tp, tl) && InBounds(|mem|, cp, cl) then
      Ok(LensItem(
           Range(Position(raw.startLine, raw.startCharacter), Position(raw.endLine, raw.endCharacter)),
           Command(decode(mem[tp..tp + tl]), decode(mem[cp..cp + cl]))))
    else Err(RangeError)
  }

  /** The words read at the eight field offsets of a stored record are the record's words. */
  lemma RecordWords(mem: seq<byte>, base: int, raw: RawRecord)
    requires raw.Valid() && InBounds(|mem|, base, RECORD_SIZE)
    requires mem[base..base + RECORD_SIZE] == EncodeRecord(raw)
    ensures WordAt(mem, base) == raw.startLine && WordAt(mem, base + 4) == raw.startCharacter
    ensures WordAt(mem, base + 8) == raw.endLine && WordAt(mem, base + 12) == raw.endCharacter
    ensures WordAt(mem, base + 16) == raw.titlePtr && WordAt(mem, base + 20) == raw.titleLen
    ensures WordAt(mem, base + 24) == raw.commandPtr && WordAt(mem, base + 28) == raw.commandLen
  {
    var e := EncodeRecord(raw);
    forall j | 0 <= j < RECORD_SIZE ensures mem[base + j] == e[j] {
      assert mem[base..base + RECORD_SIZE][j] == mem[base + j];
    }
    WordInRecord(mem, base, e, 0, raw.startLine);
    WordInRecord(mem, base, e, 4, raw.startCharacter);
    WordInRecord(mem, base, e, 8, raw.endLine);
    WordInRecord(mem, base, e, 12, raw.endCharacter);
    WordInRecord(mem, base, e, 16, raw.titlePtr);
    WordInRecord(mem, base, e, 20, raw.titleLen);
    WordInRecord(mem, base, e, 24, raw.commandPtr);
    WordInRecord(mem, base, e, 28, raw.commandLen);
  }

  lemma WordInRecord(mem: seq<byte>, base: int, e: seq<byte>, at: int, w: int)
    requires 0 <= w < TWO_32 && |e| == RECORD_SIZE && 0 <= at <= RECORD_SIZE - 4
    requires InBounds(|mem|, base, RECORD_SIZE)
    requires forall j :: 0 <= j < RECORD_SIZE ==> mem[base + j] == e[j]
    requires var c := EncodeU32LE(w); e[at] == c[0] && e[at + 1] == c[1] && e[at + 2] == c[2] && e[at + 3] == c[3]
    ensures WordAt(mem, base + at) == w
  {
  }

  /** Reading the eight words back from an encoded record gives the record. */
  lemma ParseEncodeRecord(raw: RawRecord)
    requires raw.Valid()
    ensures ParseRecord(EncodeRecord(raw)) == raw
  {
    var e := EncodeRecord(raw);
    assert e[0..RECORD_SIZE] == e;
    RecordWords(e, 0, raw);
  }

  /** Every 32-byte block is the encoding of the words it holds. */
  lemma EncodeParseRecord(block: seq<byte>)
    requires |block| == RECORD_SIZE
    ensures EncodeRecord(ParseRecord(block)) == block
  {
    EncodeWordAt(block, 0);
    EncodeWordAt(block, 4);
    EncodeWordAt(block, 8);
    EncodeWordAt(block, 12);
    EncodeWordAt(block, 16);
    EncodeWordAt(block, 20);
    EncodeWordAt(block, 24);
    EncodeWordAt(block, 28);
    assert EncodeRecord(ParseRecord(block)) ==
      block[0..4] + block[4..8] + block[8..12] + block[12..16] +
      block[16..20] + block[20..24] + block[24..28] + block[28..32];
    JoinSlices(block, 0, 4, 8);
    JoinSlices(block, 0, 8, 12);
    JoinSlices(block, 0, 12, 16);
    JoinSlices(block, 0, 16, 20);
    JoinSlices(block, 0, 20, 24);
    JoinSlices(block, 0, 24, 28);
    JoinSlices(block, 0, 28, 32);
    assert block[0..32] == block;
  }

  lemma JoinSlices(s: seq<byte>, i: int, j: int, k: int)
    requires 0 <= i <= j <= k <= |s|
    ensures s[i..j] + s[j..k] == s[i..k]
  {
  }

  lemma EncodeWordAt(block: seq<byte>, at: int)
    requires InBounds(|block|, at, 4)
    ensures EncodeU32LE(WordAt(block, at)) == block[at..at + 4]
  {
    EncodeWordOfBytes(block[at], block[at + 1], block[at + 2], block[at + 3]);
  }

  /**
   * The decoder agrees with the layout table: a record stored at `base`
   * lifts to its range words as stored and to the decoded bytes its string
   * words name, read signed.
   */
  lemma LiftRecordLayout(mem: seq<byte>, base: int, raw: RawRecord, decode: Utf8Decoder)
    requires raw.Valid() && InBounds(|mem|, base, RECORD_SIZE)
    requires mem[base..base + RECORD_SIZE] == EncodeRecord(raw)
    ensures LiftRecord(mem, base, decode) == LayoutItem(mem, raw, decode)
  {
    RecordWords(mem, base, raw);
    LiftRecordWords(mem, base, raw, decode);
  }

  lemma LiftRecordWords(mem: seq<byte>, base: int, raw: RawRecord, decode: Utf8Decoder)
    requires raw.Valid() && InBounds(|mem|, base, RECORD_SIZE)
    requires WordAt(mem, base) == raw.startLine && WordAt(mem, base + 4) == raw.startCharacter
    requires WordAt(mem, base + 8) == raw.endLine && WordAt(mem, base + 12) == raw.endCharacter
    requires WordAt(mem, base + 16) == raw.titlePtr && WordAt(mem, base + 20) == raw.titleLen
    requires WordAt(mem, base + 24) == raw.commandPtr && WordAt(mem, base + 28) == raw.commandLen
    ensures LiftRecord(mem, base, decode) == LayoutItem(mem, raw, decode)
  {
  }

  /** What one record lifts to, stated through the words its 32 bytes hold. */
  lemma LiftRecordValue(mem: seq<byte>, base: int, decode: Utf8Decoder)
    requires InBounds(|mem|, base, RECORD_SIZE)
    ensures LiftRecord(mem, base, decode) ==
      LayoutItem(mem, ParseRecord(mem[base..base + RECORD_SIZE]), decode)
  {
    var block := mem[base..base + RECORD_SIZE];
    EncodeParseRecord(block);
    LiftRecordLayout(mem, base, ParseRecord(block), decode);
  }

  /**
   * A pointer or length word of 2^31 or more is negative through `getInt32`
   * and is never made unsigned, so the record always throws.
   */
  lemma HighStringWordThrows(mem: seq<byte>, base: int, decode: Utf8Decoder)
    requires InBounds(|mem|, base, RECORD_SIZE)
    requires WordAt(mem, base + 16) >= TWO_31 || WordAt(mem, base + 20) >= TWO_31 ||
             WordAt(mem, base + 24) >= TWO_31 || WordAt(mem, base + 28) >= TWO_31
    ensures LiftRecord(mem, base, decode) == Err(RangeError)
  {
  }

  /**
   * Round trip through guest memory: a header holding (base, count) at `ret`
   * and `count` records stored at base + 32 * i lift to one item per record,
   * in order, each the record's layout item; the call throws exactly when some
   * record's strings lie outside the buffer.
   */
  lemma LiftLayout(mem: seq<byte>, ret: int, baseWord: int, raws: seq<RawRecord>, decode: Utf8Decoder)
    requires InBounds(|mem|, ret, 8) && 0 <= baseWord < TWO_32 && |raws| < TWO_31
    requires mem[ret..ret + 4] == EncodeU32LE(baseWord)
    requires mem[ret + 4..ret + 8] == EncodeU32LE(|raws|)
    requires forall i :: 0 <= i < |raws| ==>
      var at := RecordAt(ToInt32(baseWord), i);
      raws[i].Valid() && InBounds(|mem|, at, RECORD_SIZE) &&
      mem[at..at + RECORD_SIZE] == EncodeRecord(raws[i])
    ensures Lift(mem, ret, decode).Ok? <==>
      forall i :: 0 <= i < |raws| ==> LayoutItem(mem, raws[i], decode).Ok?
    ensures Lift(mem, ret, decode).Ok? ==>
      var items := Lift(mem, ret, decode).value;
      |items| == |raws| &&
      forall i :: 0 <= i < |raws| ==> Ok(items[i]) == LayoutItem(mem, raws[i], decode)
  {
    var base := ToInt32(baseWord);
    WordAtEncoded(mem, ret, baseWord);
    WordAtEncoded(mem, ret + 4, |raws|);
    assert HeaderBase(mem, ret) == base && HeaderCount(mem, ret) == |raws|;
    forall i | 0 <= i < |raws|
      ensures LiftRecord(mem, RecordAt(base, i), decode) == LayoutItem(mem, raws[i], decode)
    {
      LiftRecordLayout(mem, RecordAt(base, i), raws[i], decode);
    }
    LiftCharacterized(mem, ret, decode);
  }
}
