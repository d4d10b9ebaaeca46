/** The tape file: block headers with checksums at file offsets, linked both ways, and what
    it means for a file to hold a sequence of blocks. */
module TapeFormat {
  import opened Bytes
  import opened Crc32c

  const HDR_SIZE := 48
  const MAM_SIZE := 1104
  const FIRST := HDR_SIZE + MAM_SIZE
  const LIMIT := 0x8000_0000_0000_0000     // no file offset reaches 2^63

  const BLK_UNCOMPRESS_DATA := 0x02
  const BLK_BOT := 0x10
  const BLK_EOD := 0x20
  const BLK_FILEMARK := 0x40

  datatype Header = Header(ondiskSz: nat, blkSz: nat, blkType: nat, blkNum: nat, prev: nat, curr: nat, next: nat)

  predicate Fits(h: Header) {
    && h.ondiskSz < 0x1_0000_0000 && h.blkSz < 0x1_0000_0000 && h.blkType < 0x1_0000_0000
    && h.blkNum < LIMIT && h.prev < LIMIT && h.curr < LIMIT && h.next < LIMIT
  }

  function Body(h: Header): (r: seq<byte>)
    ensures |r| == HDR_SIZE - 4
  {
    PutBe(h.ondiskSz, 4) + PutBe(h.blkSz, 4) + PutBe(h.blkType, 4)
    + PutBe(h.blkNum, 8) + PutBe(h.prev, 8) + PutBe(h.curr, 8) + PutBe(h.next, 8)
  }

  /** ssc_write_blkhdr: the fields behind their checksum. */
  function Encode(h: Header): (r: seq<byte>)
    ensures |r| == HDR_SIZE
  {
    DigestBytes(Body(h)) + Body(h)
  }

  /** ssc_read_blkhdr; a checksum that does not match is only reported. */
  function Decode(s: seq<byte>): Header
    requires |s| == HDR_SIZE
  {
    Header(GetBe(s[4..8]), GetBe(s[8..12]), GetBe(s[12..16]),
           GetBe(s[16..24]), GetBe(s[24..32]), GetBe(s[32..40]), GetBe(s[40..48]))
  }

  predicate ChecksumMatches(s: seq<byte>)
    requires |s| == HDR_SIZE
  {
    s[..4] == DigestBytes(s[4..])
  }

  lemma SmallMod(v: nat, m: nat)
    requires v < m
    ensures Mod(v, m) == v
  {
  }

  lemma Field(v: nat, k: nat)
    requires (k == 4 && v < 0x1_0000_0000) || (k == 8 && v < 0x1_0000_0000_0000_0000)
    ensures GetBe(PutBe(v, k)) == v
  {
    GetPut(v, k);
    assert Pow256(4) == 256 * (256 * (256 * (256 * Pow256(0))));
    assert Pow256(8) == 256 * (256 * (256 * (256 * Pow256(4))));
    SmallMod(v, Pow256(k));
  }

  lemma EncodedFields(h: Header)
    ensures var s := Encode(h);
            && s[..4] == DigestBytes(Body(h)) && s[4..] == Body(h)
            && s[4..8] == PutBe(h.ondiskSz, 4) && s[8..12] == PutBe(h.blkSz, 4) && s[12..16] == PutBe(h.blkType, 4)
            && s[16..24] == PutBe(h.blkNum, 8) && s[24..32] == PutBe(h.prev, 8)
            && s[32..40] == PutBe(h.curr, 8) && s[40..48] == PutBe(h.next, 8)
  {
    hide PutBe, DigestBytes;
  }

  /** A header that is written and read back is the same, and its checksum matches. */
  lemma DecodeEncode(h: Header)
    requires Fits(h)
    ensures Decode(Encode(h)) == h && ChecksumMatches(Encode(h))
  {
    hide PutBe, DigestBytes, GetBe, Encode;
    EncodedFields(h);
    Field(h.ondiskSz, 4);
    Field(h.blkSz, 4);
    Field(h.blkType, 4);
    Field(h.blkNum, 8);
    Field(h.prev, 8);
    Field(h.curr, 8);
    Field(h.next, 8);
  }

  // ----- the file

  /** pwrite: past the end of the file a gap reads as zeros. */
  function Pwrite(file: seq<byte>, at: nat, bytes: seq<byte>): (r: seq<byte>)
    ensures |r| == if at + |bytes| <= |file| then |file| else at + |bytes|
  {
    Put(file + Zeros(if at + |bytes| <= |file| then 0 else at + |bytes| - |file|), at, bytes)
  }

  /** bytes stand in the file at offset at. */
  predicate At(file: seq<byte>, at: nat, bytes: seq<byte>) {
    at + |bytes| <= |file| && file[at..at + |bytes|] == bytes
  }

  lemma PwriteSelf(file: seq<byte>, at: nat, bytes: seq<byte>)
    ensures At(Pwrite(file, at, bytes), at, bytes)
  {
  }

  /** A write changes nothing outside its own range. */
  lemma PwriteFrame(file: seq<byte>, at: nat, bytes: seq<byte>, other: nat, kept: seq<byte>)
    requires At(file, other, kept) && (other + |kept| <= at || at + |bytes| <= other)
    ensures At(Pwrite(file, at, bytes), other, kept)
  {
    var r := Pwrite(file, at, bytes);
    forall k | 0 <= k < |kept|
      ensures r[other + k] == kept[k]
    {
      assert file[other..other + |kept|][k] == kept[k];
    }
  }

  // ----- a sequence of blocks on the file

  datatype Block = Block(filemark: bool, data: seq<byte>)

  predicate WellFormed(b: Block) {
    |b.data| < 0x8000_0000 && (b.filemark ==> b.data == [])
  }

  /** Where the header at position i is: behind the headers and data of the blocks before. */
  function Off(blocks: seq<Block>, i: nat): (o: nat)
    requires i <= |blocks|
    ensures o >= FIRST + i * HDR_SIZE
  {
    if i == 0 then FIRST else Off(blocks, i - 1) + HDR_SIZE + |blocks[i - 1].data|
  }

  /** The header at position i; position |blocks| is the end of data, which points to itself. */
  function HeaderOf(blocks: seq<Block>, i: nat): Header
    requires i <= |blocks|
  {
    var prev := if i == 0 then 0 else Off(blocks, i - 1);
    if i == |blocks| then Header(0, 0, BLK_EOD, i + 1, prev, Off(blocks, i), Off(blocks, i))
    else Header(|blocks[i].data|, |blocks[i].data|, if blocks[i].filemark then BLK_FILEMARK else BLK_UNCOMPRESS_DATA,
                i + 1, prev, Off(blocks, i), Off(blocks, i + 1))
  }

  function Bot(size: nat): Header {
    Header(0, size, BLK_BOT, 0, 0, 0, FIRST)
  }

  /** The file holds these blocks: the beginning-of-tape header at 0, then every header and
      every block's data in its place. */
  ghost predicate Holds(file: seq<byte>, size: nat, blocks: seq<Block>) {
    && size < 0x1_0000_0000
    && Off(blocks, |blocks|) + HDR_SIZE <= LIMIT
    && At(file, 0, Encode(Bot(size)))
    && (forall i :: 0 <= i <= |blocks| ==> At(file, Off(blocks, i), Encode(HeaderOf(blocks, i))))
    && (forall i :: 0 <= i < |blocks| ==> WellFormed(blocks[i]) && At(file, Off(blocks, i) + HDR_SIZE, blocks[i].data))
  }

  lemma {:induction false} OffGrows(blocks: seq<Block>, i: nat, j: nat)
    requires i < j <= |blocks|
    ensures Off(blocks, i) + HDR_SIZE + |blocks[i].data| <= Off(blocks, j)
    decreases j - i
  {
    if i + 1 < j {
      OffGrows(blocks, i, j - 1);
    }
  }

  lemma {:induction false} OffPrefix(a: seq<Block>, b: seq<Block>, i: nat)
    requires i <= |a| && i <= |b| && a[..i] == b[..i]
    ensures Off(a, i) == Off(b, i)
  {
    if i > 0 {
      assert a[..i][i - 1] == b[..i][i - 1];
      assert a[..i - 1] == a[..i][..i - 1] && b[..i - 1] == b[..i][..i - 1];
      OffPrefix(a, b, i - 1);
    }
  }

  lemma HeaderFits(blocks: seq<Block>, i: nat)
    requires i <= |blocks| && Off(blocks, |blocks|) + HDR_SIZE <= LIMIT
    requires i < |blocks| ==> WellFormed(blocks[i])
    ensures Fits(HeaderOf(blocks, i))
  {
    if i > 0 {
      OffGrows(blocks, i - 1, i);
    }
    if i < |blocks| {
      OffGrows(blocks, i, |blocks|);
      if i + 1 < |blocks| {
        OffGrows(blocks, i + 1, |blocks|);
      }
    }
  }

  /** The HDR_SIZE bytes at a file offset. */
  function Raw(file: seq<byte>, at: nat): (r: seq<byte>)
    requires at + HDR_SIZE <= |file|
    ensures |r| == HDR_SIZE
  {
    file[at..at + HDR_SIZE]
  }

  /** The header a reader finds at a file offset. */
  function HeaderAt(file: seq<byte>, at: nat): Header
    requires at + HDR_SIZE <= |file|
  {
    Decode(Raw(file, at))
  }

  lemma AtMeans(file: seq<byte>, at: nat, bytes: seq<byte>)
    requires At(file, at, bytes)
    ensures at + |bytes| <= |file| && file[at..at + |bytes|] == bytes
  {
  }

  lemma HoldsHeader(file: seq<byte>, size: nat, blocks: seq<Block>, i: nat)
    requires Holds(file, size, blocks) && i <= |blocks|
    ensures At(file, Off(blocks, i), Encode(HeaderOf(blocks, i))) && Fits(HeaderOf(blocks, i))
  {
    hide Encode, HeaderOf, WellFormed, Fits, At, Off;
    HeaderFits(blocks, i);
  }

  /** Every header on the tape reads back as itself, with its checksum in order. */
  lemma HeaderReads(file: seq<byte>, size: nat, blocks: seq<Block>, i: nat)
    requires Holds(file, size, blocks) && i <= |blocks|
    ensures Off(blocks, i) + HDR_SIZE <= |file|
    ensures HeaderAt(file, Off(blocks, i)) == HeaderOf(blocks, i) && ChecksumMatches(Raw(file, Off(blocks, i)))
  {
    hide Decode, ChecksumMatches, Encode, HeaderOf, WellFormed, Fits, Off, At;
    HoldsHeader(file, size, blocks, i);
    DecodeEncode(HeaderOf(blocks, i));
    AtMeans(file, Off(blocks, i), Encode(HeaderOf(blocks, i)));
  }

  lemma BotReads(file: seq<byte>, size: nat, blocks: seq<Block>)
    requires Holds(file, size, blocks)
    ensures HDR_SIZE <= |file| && HeaderAt(file, 0) == Bot(size)
  {
    hide Decode, Encode;
    DecodeEncode(Bot(size));
  }

  /** What a reader that follows the links finds at position i: the header knows its own
      offset, next is behind the data and leads to the header that points back here with the
      next number, the end of data points to itself, and the next block's room is behind. */
  lemma Linked(file: seq<byte>, size: nat, blocks: seq<Block>, i: nat)
    requires Holds(file, size, blocks) && i <= |blocks| && Off(blocks, i) + HDR_SIZE <= |file|
    ensures var h := HeaderAt(file, Off(blocks, i));
            && h.curr == Off(blocks, i) && h.blkNum == i + 1 && (h.prev == 0 <==> i == 0)
            && (h.blkType == BLK_EOD <==> h.next == h.curr) && (h.blkType == BLK_EOD <==> i == |blocks|)
            && (i < |blocks| ==>
                  && h.next == h.curr + HDR_SIZE + h.ondiskSz && h.next + HDR_SIZE <= |file|
                  && HeaderAt(file, h.next).prev == h.curr
                  && HeaderAt(file, h.next).curr == h.next
                  && HeaderAt(file, h.next).blkNum == h.blkNum + 1)
  {
    hide Holds, Decode, ChecksumMatches;
    HeaderReads(file, size, blocks, i);
    if i < |blocks| {
      HeaderReads(file, size, blocks, i + 1);
    }
  }

  // ----- append_blk on the file

  /** The three writes of append_blk at position p: the block's header over the old one, the
      new end of data behind the room for its data, then the data. */
  function Appended(file: seq<byte>, curr: Header, eod: Header, data: seq<byte>): seq<byte> {
    var f1 := Pwrite(file, curr.curr, Encode(curr));
    var f2 := Pwrite(f1, eod.curr, Encode(eod));
    if data == [] then f2 else Pwrite(f2, curr.curr + HDR_SIZE, data)
  }

  lemma AppendedParts(file: seq<byte>, curr: Header, eod: Header, data: seq<byte>)
    requires eod.curr == curr.curr + HDR_SIZE + |data|
    ensures var f := Appended(file, curr, eod, data);
            && At(f, curr.curr, Encode(curr)) && At(f, eod.curr, Encode(eod))
            && At(f, curr.curr + HDR_SIZE, data)
  {
    hide Encode, Pwrite;
    var f1 := Pwrite(file, curr.curr, Encode(curr));
    var f2 := Pwrite(f1, eod.curr, Encode(eod));
    PwriteSelf(file, curr.curr, Encode(curr));
    PwriteFrame(f1, eod.curr, Encode(eod), curr.curr, Encode(curr));
    PwriteSelf(f1, eod.curr, Encode(eod));
    if data != [] {
      PwriteFrame(f2, curr.curr + HDR_SIZE, data, curr.curr, Encode(curr));
      PwriteFrame(f2, curr.curr + HDR_SIZE, data, eod.curr, Encode(eod));
      PwriteSelf(f2, curr.curr + HDR_SIZE, data);
    }
  }

  lemma AppendedFrame(file: seq<byte>, curr: Header, eod: Header, data: seq<byte>, at: nat, kept: seq<byte>)
    requires At(file, at, kept) && at + |kept| <= curr.curr <= eod.curr
    ensures At(Appended(file, curr, eod, data), at, kept)
  {
    hide Encode, Pwrite, At;
    var f1 := Pwrite(file, curr.curr, Encode(curr));
    var f2 := Pwrite(f1, eod.curr, Encode(eod));
    PwriteFrame(file, curr.curr, Encode(curr), at, kept);
    PwriteFrame(f1, eod.curr, Encode(eod), at, kept);
    PwriteFrame(f2, curr.curr + HDR_SIZE, data, at, kept);
  }

  lemma SamePositions(blocks: seq<Block>, p: nat, b: Block, i: nat)
    requires i <= p <= |blocks|
    ensures Off(blocks[..p] + [b], i) == Off(blocks, i)
    ensures i < p ==> HeaderOf(blocks[..p] + [b], i) == HeaderOf(blocks, i) && (blocks[..p] + [b])[i] == blocks[i]
  {
    var now := blocks[..p] + [b];
    assert now[..i] == blocks[..i];
    OffPrefix(now, blocks, i);
    if i > 0 {
      assert now[..i - 1] == blocks[..i - 1];
      OffPrefix(now, blocks, i - 1);
    }
    if i < p {
      assert now[..i + 1] == blocks[..i + 1];
      OffPrefix(now, blocks, i + 1);
    }
  }

  /** Where the new block and the new end of data go. */
  lemma NewPositions(blocks: seq<Block>, p: nat, b: Block)
    requires p <= |blocks|
    ensures var now := blocks[..p] + [b];
            var curr, eod := HeaderOf(now, p), HeaderOf(now, p + 1);
            && Off(now, p) == Off(blocks, p) == curr.curr
            && Off(now, p + 1) == eod.curr == curr.curr + HDR_SIZE + |b.data|
  {
    SamePositions(blocks, p, b, p);
  }

  lemma EarlierKept(file: seq<byte>, at: nat, header: seq<byte>, was: seq<byte>, curr: Header, eod: Header,
                    data: seq<byte>)
    requires At(file, at, header) && At(file, at + HDR_SIZE, was) && |header| == HDR_SIZE
    requires at + HDR_SIZE + |was| <= curr.curr <= eod.curr
    ensures At(Appended(file, curr, eod, data), at, header)
    ensures At(Appended(file, curr, eod, data), at + HDR_SIZE, was)
  {
    hide At, Appended;
    AppendedFrame(file, curr, eod, data, at, header);
    AppendedFrame(file, curr, eod, data, at + HDR_SIZE, was);
  }

  lemma EarlierBlock(file: seq<byte>, size: nat, blocks: seq<Block>, p: nat, b: Block, i: nat)
    requires Holds(file, size, blocks) && i < p <= |blocks|
    ensures var now := blocks[..p] + [b];
            var f := Appended(file, HeaderOf(now, p), HeaderOf(now, p + 1), b.data);
            && At(f, Off(now, i), Encode(HeaderOf(now, i)))
            && WellFormed(now[i]) && At(f, Off(now, i) + HDR_SIZE, now[i].data)
  {
    hide Encode, At, WellFormed, Appended, Off, HeaderOf;
    var now := blocks[..p] + [b];
    NewPositions(blocks, p, b);
    OffGrows(blocks, i, p);
    SamePositions(blocks, p, b, i);
    assert now[i] == blocks[i];
    EarlierKept(file, Off(blocks, i), Encode(HeaderOf(blocks, i)), blocks[i].data, HeaderOf(now, p),
                HeaderOf(now, p + 1), b.data);
  }

  lemma NewBlock(file: seq<byte>, size: nat, blocks: seq<Block>, p: nat, b: Block)
    requires Holds(file, size, blocks) && p <= |blocks|
    requires Off(blocks, p) + HDR_SIZE + |b.data| + HDR_SIZE <= LIMIT
    ensures var now := blocks[..p] + [b];
            var f := Appended(file, HeaderOf(now, p), HeaderOf(now, p + 1), b.data);
            && At(f, 0, Encode(Bot(size))) && size < 0x1_0000_0000 && Off(now, p + 1) + HDR_SIZE <= LIMIT
            && At(f, Off(now, p), Encode(HeaderOf(now, p))) && At(f, Off(now, p) + HDR_SIZE, b.data)
            && At(f, Off(now, p + 1), Encode(HeaderOf(now, p + 1)))
  {
    hide Encode, At, WellFormed, Appended, Off, HeaderOf;
    var now := blocks[..p] + [b];
    NewPositions(blocks, p, b);
    AppendedParts(file, HeaderOf(now, p), HeaderOf(now, p + 1), b.data);
    AppendedFrame(file, HeaderOf(now, p), HeaderOf(now, p + 1), b.data, 0, Encode(Bot(size)));
  }

  /** The header and the data at position i are in place. */
  ghost predicate InPlace(f: seq<byte>, now: seq<Block>, i: nat)
    requires i < |now|
  {
    && At(f, Off(now, i), Encode(HeaderOf(now, i)))
    && WellFormed(now[i]) && At(f, Off(now, i) + HDR_SIZE, now[i].data)
  }

  lemma InPlaceMeans(f: seq<byte>, now: seq<Block>, i: nat)
    requires i < |now| && InPlace(f, now, i)
    ensures At(f, Off(now, i), Encode(HeaderOf(now, i)))
    ensures WellFormed(now[i]) && At(f, Off(now, i) + HDR_SIZE, now[i].data)
  {
  }

  lemma HoldsAll(f: seq<byte>, size: nat, now: seq<Block>)
    requires |now| > 0 && size < 0x1_0000_0000 && Off(now, |now|) + HDR_SIZE <= LIMIT && At(f, 0, Encode(Bot(size)))
    requires forall i :: 0 <= i < |now| ==> InPlace(f, now, i)
    requires At(f, Off(now, |now|), Encode(HeaderOf(now, |now|)))
    ensures Holds(f, size, now)
  {
    hide Encode, At, WellFormed, Off, HeaderOf, InPlace;
    forall i | 0 <= i <= |now|
      ensures At(f, Off(now, i), Encode(HeaderOf(now, i)))
    {
      if i < |now| {
        InPlaceMeans(f, now, i);
      }
    }
    forall i | 0 <= i < |now|
      ensures WellFormed(now[i]) && At(f, Off(now, i) + HDR_SIZE, now[i].data)
    {
      InPlaceMeans(f, now, i);
    }
  }

  /** Writing a block at position p leaves the blocks before it, the new block, and the end
      of data: whatever came after p is gone. */
  lemma AppendHolds(file: seq<byte>, size: nat, blocks: seq<Block>, p: nat, b: Block)
    requires Holds(file, size, blocks) && p <= |blocks| && WellFormed(b)
    requires Off(blocks, p) + HDR_SIZE + |b.data| + HDR_SIZE <= LIMIT
    ensures var now := blocks[..p] + [b];
            Holds(Appended(file, HeaderOf(now, p), HeaderOf(now, p + 1), b.data), size, now)
  {
    hide Encode, At, WellFormed, Appended, Off, HeaderOf, Holds;
    var now := blocks[..p] + [b];
    var f := Appended(file, HeaderOf(now, p), HeaderOf(now, p + 1), b.data);
    NewBlock(file, size, blocks, p, b);
    forall i | 0 <= i <= p
      ensures InPlace(f, now, i)
    {
      if i < p {
        EarlierBlock(file, size, blocks, p, b, i);
      }
    }
    HoldsAll(f, size, now);
  }

  /** ssc_new: a fresh tape, whatever its medium information is, holds no blocks. */
  function NewTape(size: nat, mam: seq<byte>): seq<byte> {
    var f1 := Pwrite([], 0, Encode(Bot(size)));
    var f2 := Pwrite(f1, HDR_SIZE, mam);
    Pwrite(f2, FIRST, Encode(HeaderOf([], 0)))
  }

  lemma NewTapeHolds(size: nat, mam: seq<byte>)
    requires size < 0x1_0000_0000 && |mam| == MAM_SIZE
    ensures Holds(NewTape(size, mam), size, [])
  {
    hide Encode, Pwrite;
    var f1 := Pwrite([], 0, Encode(Bot(size)));
    var f2 := Pwrite(f1, HDR_SIZE, mam);
    PwriteSelf([], 0, Encode(Bot(size)));
    PwriteFrame(f1, HDR_SIZE, mam, 0, Encode(Bot(size)));
    PwriteFrame(f2, FIRST, Encode(HeaderOf([], 0)), 0, Encode(Bot(size)));
    PwriteSelf(f2, FIRST, Encode(HeaderOf([], 0)));
  }
}
