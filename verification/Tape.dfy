/** The tape commands on the tape file: to a caller the tape is a sequence of blocks with a
    cursor. Reads and writes of the file do not fail. */
module Tape {
  import opened Bytes
  import opened TapeFormat

  datatype Status =
    | Good
    | EndOfData               // NO SENSE, ASC_END_OF_DATA
    | BeginOfMedium           // NO SENSE, ASC_BOM
    | BlankCheck
    | Mark(info: int)         // a filemark was met
    | WrongLength(info: int)  // ILI
    | EndOfMedium
    | WriteError
    | FormatCorrupt           // MEDIUM ERROR, ASC_MEDIUM_FORMAT_CORRUPT

  /** The block under a cursor; the end of data counts as an empty block. */
  function BlockAt(blocks: seq<Block>, p: nat): Block {
    if p < |blocks| then blocks[p] else Block(false, [])
  }

  /** Filemarks at positions p to q - 1. */
  function Marks(blocks: seq<Block>, p: nat, q: nat): nat
    requires p <= q <= |blocks|
  {
    if p == q then 0 else Marks(blocks, p, q - 1) + if blocks[q - 1].filemark then 1 else 0
  }

  lemma {:induction false} MarksSplit(blocks: seq<Block>, p: nat, q: nat, r: nat)
    requires p <= q <= r <= |blocks|
    ensures Marks(blocks, p, r) == Marks(blocks, p, q) + Marks(blocks, q, r)
  {
    if q < r {
      MarksSplit(blocks, p, q, r - 1);
    }
  }

  /** The data of n blocks from position p on. */
  function Data(blocks: seq<Block>, p: nat, n: nat): seq<byte> {
    if n == 0 then [] else Data(blocks, p, n - 1) + BlockAt(blocks, Min(p + n - 1, |blocks|)).data
  }

  /** What resp_var_read reports at position p. At the end of data a length of 0 is no error. */
  function VarStatus(blocks: seq<Block>, p: nat, length: nat): Status {
    var b := BlockAt(blocks, p);
    if length == |b.data| then Good
    else if p >= |blocks| then BlankCheck
    else if b.filemark then Mark(length - |b.data|)
    else WrongLength(length - |b.data|)
  }

  /** Where resp_var_read leaves the cursor: one on if it got data, met a filemark or had the
      block's exact length; a read of no bytes stays before a block with data. */
  function VarCursor(blocks: seq<Block>, p: nat, length: nat): nat
    requires p <= |blocks|
  {
    var b := BlockAt(blocks, p);
    if p == |blocks| then p
    else if b.filemark || length == |b.data| || Min(length, |b.data|) > 0 then p + 1
    else p
  }

  /** What resp_var_read returns at position p, and where it ends. */
  predicate VarOutcome(blocks: seq<Block>, p: nat, length: nat, status: Status, q: nat, data: seq<byte>)
    requires p <= |blocks|
  {
    var b := BlockAt(blocks, p);
    data == b.data[..Min(length, |b.data|)] && status == VarStatus(blocks, p, length)
      && q == VarCursor(blocks, p, length)
  }

  /** How many blocks of exactly this length stand from position p on. */
  function Run(blocks: seq<Block>, p: nat, length: nat): nat
    requires p <= |blocks|
    decreases |blocks| - p
  {
    if p < |blocks| && !blocks[p].filemark && |blocks[p].data| == length then 1 + Run(blocks, p + 1, length) else 0
  }

  /** Whatever is under the cursor, a variable read is told of everything but a block of its
      own length, except that a length of 0 hides a filemark, which is passed, and the end of
      data. */
  lemma UnreportedIff(blocks: seq<Block>, p: nat, length: nat)
    requires p <= |blocks| && forall b :: b in blocks ==> WellFormed(b)
    ensures VarStatus(blocks, p, length) == Good <==>
              if p < |blocks| && !blocks[p].filemark then length == |blocks[p].data| else length == 0
    ensures p < |blocks| && blocks[p].filemark ==> VarCursor(blocks, p, length) == p + 1
  {
    if p < |blocks| {
      assert WellFormed(blocks[p]);
    }
  }

  /** What a variable read reports, by what is under the cursor; the number is by how much the
      read asked for more than there is. */
  lemma ReportIff(blocks: seq<Block>, p: nat, length: nat, info: int)
    requires p <= |blocks| && forall b :: b in blocks ==> WellFormed(b)
    ensures var status := VarStatus(blocks, p, length);
            && (status == BlankCheck <==> p == |blocks| && length > 0)
            && (status == Mark(info) <==> p < |blocks| && blocks[p].filemark && length > 0 && info == length)
            && (status == WrongLength(info) <==>
                  p < |blocks| && !blocks[p].filemark && info != 0 && |blocks[p].data| + info == length)
            && (status.Good? || status.BlankCheck? || status.Mark? || status.WrongLength?)
  {
    if p < |blocks| {
      assert WellFormed(blocks[p]);
    }
  }

  /** A variable read moves on exactly if it hands over data, or passes a filemark, or asks for
      the length of an empty block; it stays at the end of data, and where it meets data and
      asks for none or the other way round. */
  lemma MovesIff(blocks: seq<Block>, p: nat, length: nat)
    requires p <= |blocks|
    ensures VarCursor(blocks, p, length) in {p, p + 1}
    ensures VarCursor(blocks, p, length) == p + 1 <==>
              p < |blocks| && (blocks[p].filemark || (length == 0 <==> blocks[p].data == []))
  {
  }

  /** What resp_fixed_read returns at position p, and where it ends. */
  predicate FixedOutcome(blocks: seq<Block>, p: nat, count: nat, length: nat, status: Status, q: nat, buf: seq<byte>,
                         transferred: nat)
    requires p <= |blocks|
  {
    var k := Run(blocks, p, length);
    if count <= k || (length == 0 && p + k == |blocks|) then
      status == Good && q == Min(p + count, |blocks|) && buf == Data(blocks, p, count) && transferred == |buf|
    else if BlockAt(blocks, p + k).filemark then
      status == Mark(count - k) && q == p + k + 1 && buf == Data(blocks, p, k) && transferred == 0
    else
      status == FormatCorrupt && q == p + k && buf == Data(blocks, p, k) && transferred == 0
  }

  /** Variable reads of this length, from position p on, that report nothing. */
  function GoodReads(blocks: seq<Block>, p: nat, length: nat): nat
    requires p <= |blocks|
    decreases |blocks| - p
  {
    if p < |blocks| && VarStatus(blocks, p, length) == Good then 1 + GoodReads(blocks, p + 1, length) else 0
  }

  lemma {:induction false} RunIsGoodReads(blocks: seq<Block>, p: nat, length: nat)
    requires length > 0 && p <= |blocks| && forall b :: b in blocks ==> WellFormed(b)
    ensures Run(blocks, p, length) == GoodReads(blocks, p, length) <= |blocks| - p
    ensures p + Run(blocks, p, length) <= |blocks|
    decreases |blocks| - p
  {
    if p < |blocks| {
      assert WellFormed(blocks[p]);
      RunIsGoodReads(blocks, p + 1, length);
    }
  }

  /** A fixed read of blocks of a positive length does what as many variable reads would, up to
      the first that reports something. It hands over what they would have, up to there; a
      filemark it passes as a variable read does, anything else it stays before. */
  lemma FixedIsVar(blocks: seq<Block>, p: nat, count: nat, length: nat, status: Status, q: nat, buf: seq<byte>,
                   transferred: nat)
    requires length > 0 && p <= |blocks| && forall b :: b in blocks ==> WellFormed(b)
    requires FixedOutcome(blocks, p, count, length, status, q, buf, transferred)
    ensures var k := GoodReads(blocks, p, length);
            && p + k <= |blocks|
            && buf == Data(blocks, p, if count <= k then count else k)
            && (count <= k ==> status == Good && q == p + count && transferred == |buf|)
            && (count > k ==> transferred == 0)
            && (count > k && VarStatus(blocks, p + k, length).Mark? ==>
                  status == Mark(count - k) && q == VarCursor(blocks, p + k, length))
            && (count > k && !VarStatus(blocks, p + k, length).Mark? ==> status == FormatCorrupt && q == p + k)
  {
    hide Run, GoodReads, Data;
    RunIsGoodReads(blocks, p, length);
    var k := Run(blocks, p, length);
    ReportIff(blocks, p + k, length, length);
  }

  /** After i blocks of resp_fixed_read from position p on. */
  predicate ReadSoFar(blocks: seq<Block>, p: nat, length: nat, i: nat, q: nat, buf: seq<byte>) {
    && p <= |blocks| && q == Min(p + i, |blocks|) && buf == Data(blocks, p, i)
    && (i <= Run(blocks, p, length) ==> q == p + i && Run(blocks, p, length) == i + Run(blocks, q, length))
    && (i > Run(blocks, p, length) ==> length == 0 && q == |blocks| && p + Run(blocks, p, length) == |blocks|)
  }

  lemma NothingRead(blocks: seq<Block>, p: nat, length: nat)
    requires p <= |blocks|
    ensures ReadSoFar(blocks, p, length, 0, p, [])
  {
  }

  lemma ReadStops(blocks: seq<Block>, p: nat, length: nat, count: nat, i: nat, q: nat, buf: seq<byte>)
    requires ReadSoFar(blocks, p, length, i, q, buf) && i < count
    ensures BlockAt(blocks, q).filemark ==>
      q < |blocks| && FixedOutcome(blocks, p, count, length, Mark(count - i), q + 1, buf, 0)
    ensures !BlockAt(blocks, q).filemark && |BlockAt(blocks, q).data| != length ==>
      FixedOutcome(blocks, p, count, length, FormatCorrupt, q, buf, 0)
  {
    hide Data;
  }

  lemma ReadGoesOn(blocks: seq<Block>, p: nat, length: nat, i: nat, q: nat, buf: seq<byte>)
    requires ReadSoFar(blocks, p, length, i, q, buf)
    requires !BlockAt(blocks, q).filemark && |BlockAt(blocks, q).data| == length
    ensures ReadSoFar(blocks, p, length, i + 1, Min(q + 1, |blocks|), buf + BlockAt(blocks, q).data[..length])
  {
  }

  lemma ReadEnds(blocks: seq<Block>, p: nat, length: nat, count: nat, q: nat, buf: seq<byte>)
    requires ReadSoFar(blocks, p, length, count, q, buf)
    ensures FixedOutcome(blocks, p, count, length, Good, q, buf, |buf|)
  {
    hide Data;
  }

  /** The sequence with everything from position p on replaced by new blocks; no new block
      leaves it as it is. */
  function Replaced(blocks: seq<Block>, p: nat, added: seq<Block>): seq<Block>
    requires p <= |blocks|
  {
    if added == [] then blocks else blocks[..p] + added
  }

  lemma ReplacedStep(blocks: seq<Block>, p: nat, a: seq<Block>, b: Block)
    requires p <= |blocks|
    ensures p + |a| <= |Replaced(blocks, p, a)|
    ensures Replaced(blocks, p, a)[..p + |a|] + [b] == Replaced(blocks, p, a + [b])
  {
    if a != [] {
      assert Replaced(blocks, p, a)[..p + |a|] == blocks[..p] + a;
    }
  }

  function Filemarks(n: nat): (r: seq<Block>)
    ensures |r| == n && forall i :: 0 <= i < n ==> r[i] == Block(true, [])
  {
    seq(n, _ => Block(true, []))
  }

  lemma FilemarksStep(n: nat)
    ensures Filemarks(n + 1) == Filemarks(n) + [Block(true, [])]
  {
  }

  /** What the code can tell from the current header. */
  lemma HeaderType(blocks: seq<Block>, p: nat)
    requires p <= |blocks|
    ensures var h := HeaderOf(blocks, p);
            && (h.blkType == BLK_EOD <==> p == |blocks|)
            && (h.blkType == BLK_FILEMARK <==> BlockAt(blocks, p).filemark)
            && h.blkType != BLK_BOT
            && h.blkSz == |BlockAt(blocks, p).data|
            && (h.prev == 0 <==> p == 0)
            && h.curr == Off(blocks, p)
  {
  }

  lemma HeaderCurr(blocks: seq<Block>, p: nat)
    requires p <= |blocks|
    ensures HeaderOf(blocks, p).curr == Off(blocks, p)
  {
  }

  /** One position after the cursor, or the end of data. */
  function Top(blocks: seq<Block>, p: nat): nat
  {
    Min(p + 1, |blocks|)
  }

  /** Where a backward SPACE over count filemarks from position p ends. */
  predicate SpacedBack(blocks: seq<Block>, p: nat, count: nat, q: nat, status: Status)
    requires p <= |blocks|
  {
    if status == Good then
      q + 1 < |blocks| && q < p && blocks[q + 1].filemark && Marks(blocks, q + 1, Top(blocks, p)) == count
    else
      status == BeginOfMedium && q == 0 && Marks(blocks, Top(blocks, 0), Top(blocks, p)) < count
  }

  lemma {:induction false} NoMarks(blocks: seq<Block>, a: nat, b: nat)
    requires a <= b <= |blocks| && forall i :: a <= i < b ==> !blocks[i].filemark
    ensures Marks(blocks, a, b) == 0
  {
    if a < b {
      NoMarks(blocks, a, b - 1);
    }
  }

  /** Backward over one filemark: the nearest one counting the block under the cursor, and one
      position further; from one at the very beginning there is no further. */
  lemma BackOverOne(blocks: seq<Block>, p: nat, k: nat, q: nat, status: Status)
    requires k <= p <= |blocks| && k < |blocks| && blocks[k].filemark
    requires forall i :: k < i <= p && i < |blocks| ==> !blocks[i].filemark
    ensures SpacedBack(blocks, p, 1, q, status) <==>
              if k == 0 then status == BeginOfMedium && q == 0 else status == Good && q == k - 1
  {
    NoMarks(blocks, k + 1, Top(blocks, p));
    MarksSplit(blocks, k, k + 1, Top(blocks, p));
    assert Marks(blocks, k, k) == 0 && Marks(blocks, k, k + 1) == 1;
    if q + 1 <= Top(blocks, p) {
      if q + 1 <= k {
        MarksSplit(blocks, q + 1, k, Top(blocks, p));
        if q + 1 < k && blocks[q + 1].filemark {
          MarksSplit(blocks, q + 1, q + 2, k);
          assert Marks(blocks, q + 1, q + 1) == 0;
        }
      } else {
        MarksSplit(blocks, k + 1, q + 1, Top(blocks, p));
      }
    }
    if k > 0 {
      MarksSplit(blocks, 1, k, Top(blocks, p));
    }
  }

  /** Backward over m filemarks and then over n is backward over m + n. */
  lemma BackComposes(blocks: seq<Block>, p: nat, m: nat, q: nat, n: nat, r: nat, status: Status)
    requires p <= |blocks| && SpacedBack(blocks, p, m, q, Good) && q <= |blocks| && SpacedBack(blocks, q, n, r, status)
    ensures SpacedBack(blocks, p, m + n, r, status)
  {
    if status == Good {
      MarksSplit(blocks, r + 1, q + 1, Top(blocks, p));
    } else {
      MarksSplit(blocks, Top(blocks, 0), q + 1, Top(blocks, p));
    }
  }

  lemma MarksDown(blocks: seq<Block>, p: nat, top: nat)
    requires 0 < p <= |blocks| && Top(blocks, p) <= top <= |blocks|
    ensures Marks(blocks, Top(blocks, p - 1), top)
         == Marks(blocks, Top(blocks, p), top) + if BlockAt(blocks, p).filemark then 1 else 0
  {
    MarksSplit(blocks, p, Top(blocks, p), top);
    if p < |blocks| {
      assert Marks(blocks, p, p) == 0;
    }
  }

  lemma DataReads(file: seq<byte>, size: nat, blocks: seq<Block>, p: nat, n: nat)
    requires Holds(file, size, blocks) && p <= |blocks| && n <= |BlockAt(blocks, p).data|
    ensures var at := Off(blocks, p) + HDR_SIZE;
            at + n <= |file| && file[at..at + n] == BlockAt(blocks, p).data[..n]
  {
    hide HeaderOf, Encode, Off, WellFormed;
    var at := Off(blocks, p) + HDR_SIZE;
    if p < |blocks| {
      var d := blocks[p].data;
      assert At(file, at, d);
      assert file[at..at + n] == file[at..at + |d|][..n];
    } else {
      assert At(file, Off(blocks, p), Encode(HeaderOf(blocks, p)));
    }
  }

  /** The header changes of append_blk. */
  lemma NewHeaders(blocks: seq<Block>, p: nat, b: Block)
    requires p <= |blocks|
    ensures var now := blocks[..p] + [b];
            var was := HeaderOf(blocks, p);
            var next := was.curr + |b.data| + HDR_SIZE;
            && HeaderOf(now, p) == Header(|b.data|, |b.data|, if b.filemark then BLK_FILEMARK else BLK_UNCOMPRESS_DATA,
                                          was.blkNum, was.prev, was.curr, next)
            && HeaderOf(now, p + 1) == Header(0, 0, BLK_EOD, was.blkNum + 1, was.curr, next, next)
  {
    NewPositions(blocks, p, b);
    if p > 0 {
      SamePositions(blocks, p, b, p - 1);
    }
  }

  lemma NextFits(len: nat, i: nat, n: nat, size: nat)
    requires i < n && n * len <= size
    ensures 0 <= i * len && (i + 1) * len == i * len + len <= size
  {
    if i + 1 < n {
      MulStep(len, i + 1, n);
    }
  }

  /** n data blocks of len bytes cut from the front of buf. */
  function Cut(buf: seq<byte>, len: nat, n: nat): (r: seq<Block>)
    requires n * len <= |buf|
    ensures |r| == n
  {
    if n == 0 then []
    else
      NextFits(len, n - 1, n, |buf|);
      Cut(buf, len, n - 1) + [Block(false, buf[(n - 1) * len..(n - 1) * len + len])]
  }

  lemma CutNone(buf: seq<byte>, len: nat)
    ensures 0 * len == 0 && Cut(buf, len, 0) == []
  {
  }

  lemma CutOne(buf: seq<byte>)
    ensures 1 * |buf| == |buf| && Cut(buf, |buf|, 1) == [Block(false, buf)]
  {
    assert 0 * |buf| == 0;
    CutNone(buf, |buf|);
    assert buf[0..|buf|] == buf;
  }

  lemma CutNext(buf: seq<byte>, len: nat, i: nat, n: nat)
    requires i < n && n * len <= |buf|
    ensures 0 <= i * len && (i + 1) * len == i * len + len <= |buf|
    ensures Cut(buf, len, i + 1) == Cut(buf, len, i) + [Block(false, buf[i * len..i * len + len])]
  {
    NextFits(len, i, n, |buf|);
  }

  class Drive {
    var file: seq<byte>
    var cBlk: Header
    const maxCapacity: nat
    ghost var size: nat
    ghost var blocks: seq<Block>
    ghost var cursor: nat

    ghost predicate Valid()
      reads this
    {
      && Holds(file, size, blocks)
      && cursor <= |blocks|
      && cBlk == HeaderOf(blocks, cursor)
    }

    /** ssc_new and bs_ssc_open. */
    constructor (size: nat, mam: seq<byte>, maxCapacity: nat)
      requires size < 0x1_0000_0000 && |mam| == MAM_SIZE
      ensures Valid() && blocks == [] && cursor == 0 && this.maxCapacity == maxCapacity
    {
      hide Holds, NewTape, HeaderOf;
      file := NewTape(size, mam);
      cBlk := HeaderOf([], 0);
      this.maxCapacity := maxCapacity;
      this.size, blocks, cursor := size, [], 0;
      NewTapeHolds(size, mam);
    }

    /** ssc_read_blkhdr into the current header. */
    method ReadHeader(at: nat) returns (err: bool)
      modifies `cBlk
      ensures err == (at + HDR_SIZE > |file|)
      ensures !err ==> cBlk == HeaderAt(file, at)
    {
      err := at + HDR_SIZE > |file|;
      if !err {
        cBlk := HeaderAt(file, at);
      }
    }

    /** skip_next_header: one position on, the end of data to itself. */
    method SkipNext() returns (err: bool)
      requires Valid()
      modifies `cBlk, `cursor
      ensures Valid() && !err && cursor == Min(old(cursor) + 1, |blocks|)
    {
      hide Holds, HeaderAt;
      HeaderReads(file, size, blocks, Min(cursor + 1, |blocks|));
      err := ReadHeader(cBlk.next);
      cursor := Min(cursor + 1, |blocks|);
    }

    /** From the beginning-of-tape header to the first position. */
    method ToFirst() returns (err: bool)
      requires Holds(file, size, blocks)
      modifies `cBlk, `cursor
      ensures Valid() && !err && cursor == 0
    {
      hide Holds, HeaderAt;
      BotReads(file, size, blocks);
      HeaderReads(file, size, blocks, 0);
      err := ReadHeader(0);
      if !err {
        err := ReadHeader(cBlk.next);
        cursor := 0;
      }
    }

    /** skip_prev_header: one position back; from the first it comes back to the first. */
    method SkipPrev() returns (err: bool)
      requires Valid()
      modifies `cBlk, `cursor
      ensures Valid() && !err && cursor == if old(cursor) == 0 then 0 else old(cursor) - 1
    {
      hide Holds, HeaderAt;
      if cursor == 0 {
        BotReads(file, size, blocks);
      } else {
        HeaderReads(file, size, blocks, cursor - 1);
      }
      err := ReadHeader(cBlk.prev);
      if !err {
        if cBlk.blkType == BLK_BOT {
          HeaderReads(file, size, blocks, 0);
          err := ReadHeader(cBlk.next);
        } else {
          cursor := cursor - 1;
        }
      }
    }

    /** resp_rewind */
    method Rewind() returns (err: bool)
      requires Valid()
      modifies `cBlk, `cursor
      ensures Valid() && !err && cursor == 0
    {
      err := ToFirst();
    }

    /** append_blk: the new block replaces everything from the cursor on, and the cursor is
        behind it. */
    method AppendBlk(b: Block)
      requires Valid() && WellFormed(b)
      requires Off(blocks, cursor) + HDR_SIZE + |b.data| + HDR_SIZE <= LIMIT
      modifies this
      ensures Valid() && size == old(size)
      ensures blocks == old(blocks)[..old(cursor)] + [b] && cursor == old(cursor) + 1
    {
      hide Holds, Encode, Pwrite, Off, HeaderOf;
      HeaderCurr(blocks, cursor);
      ghost var now := blocks[..cursor] + [b];
      AppendHolds(file, size, blocks, cursor, b);
      NewHeaders(blocks, cursor, b);
      var sz := |b.data|;
      var curr := cBlk.(next := cBlk.curr + sz + HDR_SIZE,
                        blkType := if b.filemark then BLK_FILEMARK else BLK_UNCOMPRESS_DATA,
                        ondiskSz := sz, blkSz := sz);
      var eod := Header(0, 0, BLK_EOD, curr.blkNum + 1, curr.curr, curr.next, curr.next);
      cBlk := eod;
      file := Pwrite(file, curr.curr, Encode(curr));
      file := Pwrite(file, eod.curr, Encode(eod));
      if sz != 0 {
        file := Pwrite(file, curr.curr + HDR_SIZE, b.data);
      }
      blocks, cursor := now, cursor + 1;
    }

    /** WRITE FILEMARKS */
    method WriteFilemarks(n: nat)
      requires Valid() && Off(blocks, cursor) + n * HDR_SIZE + HDR_SIZE <= LIMIT
      modifies this
      ensures Valid() && size == old(size) && cursor == old(cursor) + n
      ensures blocks == Replaced(old(blocks), old(cursor), Filemarks(n))
    {
      hide Holds, HeaderOf, Off, Filemarks;
      FilemarksStep(0);
      var i := 0;
      while i < n
        invariant 0 <= i <= n && Valid() && size == old(size) && cursor == old(cursor) + i
        invariant blocks == Replaced(old(blocks), old(cursor), Filemarks(i))
        invariant Off(blocks, cursor) + (n - i) * HDR_SIZE + HDR_SIZE <= LIMIT
      {
        FilemarksStep(i);
        ReplacedStep(old(blocks), old(cursor), Filemarks(i), Block(true, []));
        NewPositions(blocks, cursor, Block(true, []));
        HeaderCurr(blocks[..cursor] + [Block(true, [])], cursor);
        HeaderCurr(blocks[..cursor] + [Block(true, [])], cursor + 1);
        AppendBlk(Block(true, []));
        i := i + 1;
      }
    }

    /** The loop of WRITE(6): n blocks of len bytes from the front of the buffer. */
    method WriteBlocks(buf: seq<byte>, len: nat, n: nat) returns (ret: nat)
      requires Valid() && len < 0x8000_0000 && n * len <= |buf|
      requires Off(blocks, cursor) + (|buf| + HDR_SIZE) + n * HDR_SIZE <= LIMIT
      modifies this
      ensures Valid() && size == old(size) && cursor == old(cursor) + n && ret == n * len
      ensures blocks == Replaced(old(blocks), old(cursor), Cut(buf, len, n))
    {
      hide Holds, HeaderOf, Off, Cut;
      ret := 0;
      var i := 0;
      CutNone(buf, len);
      while i < n
        invariant 0 <= i <= n && Valid() && size == old(size) && cursor == old(cursor) + i
        invariant ret == i * len <= |buf|
        invariant blocks == Replaced(old(blocks), old(cursor), Cut(buf, len, i))
        invariant Off(blocks, cursor) + (|buf| - ret) + (n - i) * HDR_SIZE + HDR_SIZE <= LIMIT
      {
        CutNext(buf, len, i, n);
        var b := Block(false, buf[ret..ret + len]);
        ReplacedStep(old(blocks), old(cursor), Cut(buf, len, i), b);
        NewPositions(blocks, cursor, b);
        HeaderCurr(blocks[..cursor] + [b], cursor);
        HeaderCurr(blocks[..cursor] + [b], cursor + 1);
        AppendBlk(b);
        ret := ret + len;
        i := i + 1;
      }
    }

    /** WRITE(6): the whole buffer as one block, or in fixed mode count blocks of the mode's
        block length. The blocks stay written whatever is then reported. */
    method Write6(fixed: bool, buf: seq<byte>, cdbCount: nat, modeLength: nat) returns (status: Status)
      requires Valid() && |buf| < 0x8000_0000 && modeLength < 0x100_0000
      requires fixed ==> cdbCount * modeLength <= |buf|
      requires Off(blocks, cursor) + (|buf| + HDR_SIZE) + (if fixed then cdbCount else 1) * HDR_SIZE <= LIMIT
      modifies this
      ensures Valid() && size == old(size)
      ensures fixed ==> cursor == old(cursor) + cdbCount
      ensures fixed ==> blocks == Replaced(old(blocks), old(cursor), Cut(buf, modeLength, cdbCount))
      ensures !fixed ==> cursor == old(cursor) + 1 && blocks == old(blocks)[..old(cursor)] + [Block(false, buf)]
      ensures if Off(blocks, cursor) > maxCapacity then status == EndOfMedium
              else status == if fixed && cdbCount * modeLength != |buf| then WriteError else Good
    {
      hide Holds, HeaderOf, Off, Cut;
      var ret;
      if fixed {
        ret := WriteBlocks(buf, modeLength, cdbCount);
      } else {
        assert 1 * |buf| == |buf|;
        ret := WriteBlocks(buf, |buf|, 1);
        CutOne(buf);
      }
      HeaderCurr(blocks, cursor);
      if cBlk.curr > maxCapacity {
        return EndOfMedium;
      }
      return if ret != |buf| then WriteError else Good;
    }

    /** space_blocks: forward it stops at the end of data and says so; backward it stops at
        the first block and says nothing. */
    method SpaceBlocks(count: int) returns (status: Status)
      requires Valid()
      modifies `cBlk, `cursor
      ensures Valid()
      ensures count > 0 ==> cursor == Min(old(cursor) + count, |blocks|)
      ensures count > 0 ==> status == if old(cursor) + count >= |blocks| then EndOfData else Good
      ensures count <= 0 ==> cursor == (if old(cursor) + count < 0 then 0 else old(cursor) + count) && status == Good
    {
      hide Holds, HeaderOf, Off;
      var left := count;
      while left != 0
        invariant Valid()
        invariant count > 0 ==>
          0 <= left && cursor + left == old(cursor) + count && (left < count ==> cursor < |blocks|)
        invariant count <= 0 ==>
          left <= 0 && cursor == if old(cursor) + (count - left) < 0 then 0 else old(cursor) + (count - left)
        decreases if left < 0 then -left else left
      {
        if left > 0 {
          var err := SkipNext();
          HeaderType(blocks, cursor);
          if cBlk.blkType == BLK_EOD {
            return EndOfData;
          }
          left := left - 1;
        } else {
          var err := SkipPrev();
          HeaderType(blocks, cursor);
          assert cBlk.blkType != BLK_BOT;   // so the beginning of the tape is never reported
          left := left + 1;
        }
      }
      return Good;
    }

    /** space_filemark_forward: behind the count-th filemark from the cursor on, or at the
        end of data if there are fewer. */
    method SpaceFilemarkForward(count: nat) returns (status: Status)
      requires Valid() && count > 0
      modifies `cBlk, `cursor
      ensures Valid() && old(cursor) <= cursor
      ensures Marks(blocks, old(cursor), |blocks|) < count ==> cursor == |blocks| && status == EndOfData
      ensures Marks(blocks, old(cursor), |blocks|) >= count ==>
        old(cursor) < cursor && blocks[cursor - 1].filemark && Marks(blocks, old(cursor), cursor) == count
          && status == Good
    {
      hide Holds, HeaderOf, Off;
      var left := count;
      while true
        invariant Valid() && old(cursor) <= cursor && left > 0
        invariant Marks(blocks, old(cursor), cursor) + left == count
        decreases |blocks| - cursor
      {
        HeaderType(blocks, cursor);
        MarksSplit(blocks, old(cursor), cursor, |blocks|);
        if cBlk.blkType == BLK_EOD {
          return EndOfData;
        }
        if cBlk.blkType == BLK_FILEMARK {
          left := left - 1;
        }
        var err := SkipNext();
        MarksSplit(blocks, old(cursor), cursor, |blocks|);
        if left == 0 {
          return Good;
        }
      }
    }

    /** space_filemark_reverse: it counts from the block under the cursor, not from the one
        before it, and ends one position before the last filemark it counts. */
    method SpaceFilemarkReverse(count: nat) returns (status: Status)
      requires Valid() && count > 0
      modifies `cBlk, `cursor
      ensures Valid() && cursor <= old(cursor)
      ensures SpacedBack(blocks, old(cursor), count, cursor, status)
    {
      hide Holds, HeaderOf, Off;
      var left := count;
      ghost var top := Top(blocks, cursor);
      assert Marks(blocks, top, top) == 0;
      hide Marks;
      while true
        invariant Valid() && cursor <= old(cursor) && left > 0
        invariant Top(blocks, cursor) <= top && Marks(blocks, Top(blocks, cursor), top) + left == count
        decreases cursor
      {
        HeaderType(blocks, cursor);
        if cBlk.prev == 0 {
          return BeginOfMedium;
        }
        if cBlk.blkType == BLK_FILEMARK {
          left := left - 1;
        }
        MarksDown(blocks, cursor, top);
        var err := SkipPrev();
        if left == 0 {
          return Good;
        }
      }
    }

    /** SPACE to the end of data; it ends because next is always further on. */
    method SpaceToEnd()
      requires Valid()
      modifies `cBlk, `cursor
      ensures Valid() && cursor == |blocks|
    {
      hide Holds, HeaderOf, Off;
      HeaderType(blocks, cursor);
      while cBlk.blkType != BLK_EOD
        invariant Valid() && (cBlk.blkType == BLK_EOD <==> cursor == |blocks|)
        decreases |blocks| - cursor
      {
        var err := SkipNext();
        HeaderType(blocks, cursor);
      }
    }

    /** pread64 of a block's data. */
    method ReadData(n: nat) returns (data: seq<byte>)
      requires Valid() && n <= |BlockAt(blocks, cursor).data|
      ensures data == BlockAt(blocks, cursor).data[..n]
    {
      hide HeaderOf, Off, Encode, WellFormed;
      HeaderCurr(blocks, cursor);
      DataReads(file, size, blocks, cursor, n);
      data := file[cBlk.curr + HDR_SIZE..cBlk.curr + HDR_SIZE + n];
    }

    /** resp_var_read: length is the smaller of the transfer length and the buffer's. */
    method VarRead(bufLength: nat, cdbLength: nat) returns (status: Status, data: seq<byte>)
      requires Valid()
      modifies `cBlk, `cursor
      ensures Valid()
      ensures VarOutcome(blocks, old(cursor), Min(bufLength, cdbLength), status, cursor, data)
      ensures data != [] ==> cursor == old(cursor) + 1
      ensures status.WrongLength? ==>
        status.info + |BlockAt(blocks, old(cursor)).data| == Min(bufLength, cdbLength)
        && (status.info > 0 ==> data == BlockAt(blocks, old(cursor)).data)
        && (status.info < 0 ==> |data| == Min(bufLength, cdbLength) < |BlockAt(blocks, old(cursor)).data|)
    {
      hide Holds, HeaderOf, Off;
      var length := Min(bufLength, cdbLength);
      HeaderType(blocks, cursor);
      status, data := Good, [];
      if length != cBlk.blkSz {
        var info: int := length - cBlk.blkSz;
        if cBlk.blkType == BLK_EOD {
          status := BlankCheck;
        } else if cBlk.blkType == BLK_FILEMARK {
          status := Mark(info);
        } else {
          status := WrongLength(info);
        }
        length := Min(length, cBlk.blkSz);
        if length == 0 {
          if cBlk.blkType == BLK_FILEMARK {
            var err := SkipNext();
          }
          return;
        }
      }
      data := ReadData(length);
      var err := SkipNext();
    }

    /** resp_fixed_read: buf is what it has put into the in-buffer, transferred what it reports
        as the length of that: nothing unless every block is there and has the mode's block
        length. The cursor stays behind the blocks that were read, and behind a filemark that
        was met. A block length of 0 matches the end of data, again and again. */
    method FixedRead(count: nat, modeLength: nat) returns (status: Status, buf: seq<byte>, transferred: nat)
      requires Valid()
      modifies `cBlk, `cursor
      ensures Valid()
      ensures FixedOutcome(blocks, old(cursor), count, modeLength, status, cursor, buf, transferred)
    {
      hide Holds, HeaderOf, Off, ReadSoFar, FixedOutcome, Run, Data;
      buf, transferred := [], 0;
      var i := 0;
      NothingRead(blocks, cursor, modeLength);
      while i < count
        invariant 0 <= i <= count && Valid() && transferred == 0
        invariant ReadSoFar(blocks, old(cursor), modeLength, i, cursor, buf)
      {
        HeaderType(blocks, cursor);
        ReadStops(blocks, old(cursor), modeLength, count, i, cursor, buf);
        if cBlk.blkType == BLK_FILEMARK {
          var err := SkipNext();
          return Mark(count - i), buf, 0;
        }
        if modeLength != cBlk.blkSz {
          return FormatCorrupt, buf, 0;
        }
        ReadGoesOn(blocks, old(cursor), modeLength, i, cursor, buf);
        var d := ReadData(modeLength);
        buf := buf + d;
        var err := SkipNext();
        i := i + 1;
      }
      ReadEnds(blocks, old(cursor), modeLength, count, cursor, buf);
      return Good, buf, |buf|;
    }
  }

  // ----- what is written is read back

  lemma ReplacedAt(blocks: seq<Block>, p: nat, added: seq<Block>, i: nat)
    requires p <= |blocks| && i < |added|
    ensures var now := Replaced(blocks, p, added);
            |now| == p + |added| && now[p + i] == added[i] && BlockAt(now, p + i) == added[i]
  {
  }

  lemma {:induction false} CutAt(buf: seq<byte>, len: nat, n: nat, i: nat)
    requires n * len <= |buf| && i < n
    ensures Cut(buf, len, n)[i] == Block(false, Cut(buf, len, n)[i].data) && |Cut(buf, len, n)[i].data| == len
  {
    NextFits(len, n - 1, n, |buf|);
    if i < n - 1 {
      CutAt(buf, len, n - 1, i);
    }
  }

  lemma ReplacedNone(blocks: seq<Block>, p: nat)
    requires p <= |blocks|
    ensures Replaced(blocks, p, []) == blocks
  {
  }

  lemma {:induction false} CutRun(buf: seq<byte>, len: nat, n: nat, blocks: seq<Block>, p: nat, i: nat)
    requires n * len <= |buf| && i <= n && p <= |blocks|
    ensures p + i <= |Replaced(blocks, p, Cut(buf, len, n))|
    ensures Run(Replaced(blocks, p, Cut(buf, len, n)), p + i, len) >= n - i
    decreases n - i
  {
    hide Replaced, Cut, BlockAt;
    if i < n {
      ReplacedAt(blocks, p, Cut(buf, len, n), i);
      CutAt(buf, len, n, i);
      CutRun(buf, len, n, blocks, p, i + 1);
    } else if n > 0 {
      ReplacedAt(blocks, p, Cut(buf, len, n), 0);
    } else {
      CutNone(buf, len);
      assert Replaced(blocks, p, []) == blocks by { ReplacedNone(blocks, p); }
    }
  }

  lemma {:induction false} CutPiece(buf: seq<byte>, len: nat, n: nat, i: nat)
    requires n * len <= |buf| && i < n
    ensures 0 <= i * len && (i + 1) * len == i * len + len <= |buf|
    ensures Cut(buf, len, n)[i] == Block(false, buf[i * len..i * len + len])
  {
    NextFits(len, n - 1, n, |buf|);
    if i < n - 1 {
      CutPiece(buf, len, n - 1, i);
    }
  }

  lemma {:induction false} CutData(buf: seq<byte>, len: nat, n: nat, blocks: seq<Block>, p: nat, k: nat)
    requires n * len <= |buf| && k <= n && p <= |blocks| && k * len <= |buf|
    ensures Data(Replaced(blocks, p, Cut(buf, len, n)), p, k) == buf[..k * len]
  {
    hide Replaced, Cut, BlockAt;
    assert 0 * len == 0;
    if k > 0 {
      NextFits(len, k - 1, n, |buf|);
      CutData(buf, len, n, blocks, p, k - 1);
      ReplacedAt(blocks, p, Cut(buf, len, n), k - 1);
      CutPiece(buf, len, n, k - 1);
      assert buf[..k * len] == buf[..(k - 1) * len] + buf[(k - 1) * len..(k - 1) * len + len];
    }
  }

  lemma CutReadsBack(blocks: seq<Block>, p: nat, buf: seq<byte>, len: nat, n: nat, status: Status, q: nat,
                     data: seq<byte>, transferred: nat)
    requires p <= |blocks| && n * len <= |buf| && p <= |Replaced(blocks, p, Cut(buf, len, n))|
    requires FixedOutcome(Replaced(blocks, p, Cut(buf, len, n)), p, n, len, status, q, data, transferred)
    ensures status == Good && q == p + n && data == buf[..n * len] && transferred == |data|
  {
    hide Replaced, Cut, Data, BlockAt, Run;
    CutRun(buf, len, n, blocks, p, 0);
    CutRun(buf, len, n, blocks, p, n);
    CutData(buf, len, n, blocks, p, n);
  }

  /** Blocks of fixed length that are written, spaced back over and read in one command come
      back as the bytes they were. */
  method FixedRoundTrip(drive: Drive, buf: seq<byte>, count: nat, modeLength: nat)
    returns (status: Status, data: seq<byte>)
    requires drive.Valid() && |buf| < 0x8000_0000 && modeLength < 0x100_0000 && count * modeLength <= |buf|
    requires Off(drive.blocks, drive.cursor) + (|buf| + HDR_SIZE) + count * HDR_SIZE <= LIMIT
    modifies drive
    ensures drive.Valid() && status == Good && data <= buf && |data| == count * modeLength
    ensures drive.cursor == old(drive.cursor) + count
  {
    hide Holds, HeaderOf, Replaced, Cut, FixedOutcome, Off;
    var written := drive.Write6(true, buf, count, modeLength);
    var spaced := drive.SpaceBlocks(0 - count);
    var transferred;
    status, data, transferred := drive.FixedRead(count, modeLength);
    CutReadsBack(old(drive.blocks), old(drive.cursor), buf, modeLength, count, status, drive.cursor, data, transferred);
  }

  function DataBlocks(items: seq<seq<byte>>): (r: seq<Block>)
    ensures |r| == |items|
  {
    if items == [] then [] else DataBlocks(items[..|items| - 1]) + [Block(false, items[|items| - 1])]
  }

  lemma {:induction false} DataBlocksAt(items: seq<seq<byte>>, i: nat)
    requires i < |items|
    ensures DataBlocks(items)[i] == Block(false, items[i])
  {
    if i < |items| - 1 {
      DataBlocksAt(items[..|items| - 1], i);
    }
  }

  /** The bytes blocks of any lengths take on the tape, headers included. */
  function Room(items: seq<seq<byte>>): nat {
    if items == [] then 0 else Room(items[..|items| - 1]) + |items[|items| - 1]| + HDR_SIZE
  }

  lemma {:induction false} RoomGrows(items: seq<seq<byte>>, i: nat)
    requires i < |items|
    ensures Room(items[..i]) + |items[i]| + HDR_SIZE == Room(items[..i + 1]) <= Room(items)
    decreases |items| - i
  {
    assert items[..i + 1][..i] == items[..i];
    if i + 1 < |items| {
      RoomGrows(items, i + 1);
    } else {
      assert items[..i + 1] == items;
    }
  }

  lemma NoItems(items: seq<seq<byte>>)
    requires items == []
    ensures DataBlocks(items) == [] && Room(items) == 0
  {
  }

  lemma MoreItems(items: seq<seq<byte>>, i: nat)
    requires i < |items|
    ensures DataBlocks(items[..i + 1]) == DataBlocks(items[..i]) + [Block(false, items[i])]
  {
    assert items[..i + 1][..i] == items[..i];
  }

  method WriteItems(drive: Drive, items: seq<seq<byte>>)
    requires drive.Valid() && (forall i :: 0 <= i < |items| ==> |items[i]| < 0x8000_0000)
    requires Off(drive.blocks, drive.cursor) + Room(items) + HDR_SIZE <= LIMIT
    modifies drive
    ensures drive.Valid() && drive.cursor == old(drive.cursor) + |items|
    ensures drive.blocks == Replaced(old(drive.blocks), old(drive.cursor), DataBlocks(items))
  {
    hide Holds, HeaderOf, Off, Replaced, Room, DataBlocks, Cut;
    var i := 0;
    ReplacedNone(drive.blocks, drive.cursor);
    assert DataBlocks(items[..0]) == [] && Room(items[..0]) == 0 by { NoItems(items[..0]); }
    while i < |items|
      invariant 0 <= i <= |items| && drive.Valid() && drive.cursor == old(drive.cursor) + i
      invariant drive.blocks == Replaced(old(drive.blocks), old(drive.cursor), DataBlocks(items[..i]))
      invariant Off(drive.blocks, drive.cursor) + (Room(items) - Room(items[..i])) + HDR_SIZE <= LIMIT
    {
      RoomGrows(items, i);
      MoreItems(items, i);
      ReplacedStep(old(drive.blocks), old(drive.cursor), DataBlocks(items[..i]), Block(false, items[i]));
      NewPositions(drive.blocks, drive.cursor, Block(false, items[i]));
      HeaderCurr(drive.blocks[..drive.cursor] + [Block(false, items[i])], drive.cursor);
      HeaderCurr(drive.blocks[..drive.cursor] + [Block(false, items[i])], drive.cursor + 1);
      var written := drive.Write6(false, items[i], 0, 0);
      i := i + 1;
    }
    assert items[..|items|] == items;
  }

  /** Read lengths with which no read stays where it is: an empty block is asked for no byte,
      another for at least one. */
  predicate AllMove(items: seq<seq<byte>>, lengths: seq<nat>) {
    |lengths| == |items| && forall i :: 0 <= i < |items| ==> (lengths[i] == 0 <==> items[i] == [])
  }

  /** What reads of these lengths hand over. */
  function Fronts(items: seq<seq<byte>>, lengths: seq<nat>): (r: seq<seq<byte>>)
    requires |lengths| == |items|
    ensures |r| == |items|
  {
    seq(|items|, i requires 0 <= i < |items| => items[i][..Min(lengths[i], |items[i]|)])
  }

  /** And what they report: nothing if the length is that of the block, or how much longer. */
  function Reports(items: seq<seq<byte>>, lengths: seq<nat>): (r: seq<Status>)
    requires |lengths| == |items|
    ensures |r| == |items|
  {
    seq(|items|, i requires 0 <= i < |items| =>
      if lengths[i] == |items[i]| then Good else WrongLength(lengths[i] - |items[i]|))
  }

  lemma WholeFronts(items: seq<seq<byte>>, lengths: seq<nat>)
    requires |lengths| == |items| && forall i :: 0 <= i < |items| ==> lengths[i] >= |items[i]|
    ensures Fronts(items, lengths) == items
  {
    forall i | 0 <= i < |items|
      ensures Fronts(items, lengths)[i] == items[i]
    {
      assert items[i][..|items[i]|] == items[i];
    }
  }

  /** One read of the round trip. */
  method ReadItem(drive: Drive, items: seq<seq<byte>>, lengths: seq<nat>, i: nat, ghost was: seq<Block>, ghost at: nat)
    returns (status: Status, data: seq<byte>)
    requires drive.Valid() && AllMove(items, lengths) && i < |items| && at <= |was|
    requires drive.blocks == Replaced(was, at, DataBlocks(items)) && drive.cursor == at + i
    modifies drive`cBlk, drive`cursor
    ensures drive.Valid() && drive.cursor == at + i + 1
    ensures data == Fronts(items, lengths)[i] && status == Reports(items, lengths)[i]
  {
    hide Holds, HeaderOf, Off, Replaced, DataBlocks;
    ReplacedAt(was, at, DataBlocks(items), i);
    DataBlocksAt(items, i);
    MovesIff(drive.blocks, drive.cursor, lengths[i]);
    status, data := drive.VarRead(lengths[i], lengths[i]);
  }

  /** Blocks of any lengths, written one by one, spaced back over and read one by one with reads
      of any lengths that move, come back in order, each as much of it as was asked for. */
  method VarRoundTrip(drive: Drive, items: seq<seq<byte>>, lengths: seq<nat>)
    returns (got: seq<seq<byte>>, reports: seq<Status>)
    requires drive.Valid() && AllMove(items, lengths) && (forall i :: 0 <= i < |items| ==> |items[i]| < 0x8000_0000)
    requires Off(drive.blocks, drive.cursor) + Room(items) + HDR_SIZE <= LIMIT
    modifies drive
    ensures drive.Valid() && drive.cursor == old(drive.cursor) + |items|
    ensures got == Fronts(items, lengths) && reports == Reports(items, lengths)
  {
    hide Holds, HeaderOf, Off, Replaced, Room, DataBlocks, BlockAt, Fronts, Reports;
    assert |lengths| == |items|;
    hide AllMove;
    ghost var was, at := drive.blocks, drive.cursor;
    WriteItems(drive, items);
    var spaced := drive.SpaceBlocks(0 - |items|);
    ghost var all := drive.blocks;
    got, reports := [], [];
    while |got| < |items|
      invariant drive.Valid() && drive.blocks == all && |got| == |reports| <= |items|
      invariant got == Fronts(items, lengths)[..|got|] && reports == Reports(items, lengths)[..|got|]
      invariant all == Replaced(was, at, DataBlocks(items)) && drive.cursor == at + |got|
    {
      var status, data := ReadItem(drive, items, lengths, |got|, was, at);
      got, reports := got + [data], reports + [status];
    }
  }

  /** With the lengths they were written with they come back as they were, nothing reported. */
  lemma ExactReads(items: seq<seq<byte>>, lengths: seq<nat>)
    requires |lengths| == |items| && forall i :: 0 <= i < |items| ==> lengths[i] == |items[i]|
    ensures AllMove(items, lengths) && Fronts(items, lengths) == items
    ensures forall i :: 0 <= i < |items| ==> Reports(items, lengths)[i] == Good
  {
    WholeFronts(items, lengths);
  }
}
