/** The SCSI commands a volume serves, stated on the flat disk. */
module CssRequest {
  import opened Bytes
  import opened CssVolume

  datatype Stamp = NoStamp | Lba | Physical

  datatype Result = Good | CheckCondition(key: nat, asc: nat, info: nat)

  const ILLEGAL_REQUEST := 0x05
  const MISCOMPARE := 0x0e
  const ASC_INVALID_FIELD_IN_CDB := 0x2400
  const ASC_MISCOMPARE := 0x1d00

  function OrBytes(a: seq<byte>, b: seq<byte>): (r: seq<byte>)
    requires |a| == |b|
    ensures |r| == |a|
  {
    seq(|a|, i requires 0 <= i < |a| => a[i] | b[i])
  }

  predicate Bit(b: byte, k: nat)
    requires k < 8
  {
    (b >> k) & 1 == 1
  }

  lemma OrBit(a: byte, b: byte, k: nat)
    requires k < 8
    ensures Bit(a | b, k) <==> Bit(a, k) || Bit(b, k)
  {
    assert k == 0 || k == 1 || k == 2 || k == 3 || k == 4 || k == 5 || k == 6 || k == 7;
  }

  /** A bit is set after the or exactly if it was set on either side. */
  lemma OrBits(a: seq<byte>, b: seq<byte>)
    requires |a| == |b|
    ensures forall i, k :: 0 <= i < |a| && 0 <= k < 8 ==> (Bit(OrBytes(a, b)[i], k) <==> Bit(a[i], k) || Bit(b[i], k))
  {
    hide Bit;
    forall i, k | 0 <= i < |a| && 0 <= k < 8
      ensures Bit(OrBytes(a, b)[i], k) <==> Bit(a[i], k) || Bit(b[i], k)
    {
      OrBit(a[i], b[i], k);
    }
  }

  lemma OrByteTwice(a: byte, b: byte)
    ensures a | (a | b) == a | b
  {
  }

  /** The same data once more changes nothing. */
  lemma OrTwice(a: seq<byte>, b: seq<byte>)
    requires |a| == |b|
    ensures OrBytes(a, OrBytes(a, b)) == OrBytes(a, b)
  {
    forall i | 0 <= i < |a|
      ensures OrBytes(a, OrBytes(a, b))[i] == OrBytes(a, b)[i]
    {
      OrByteTwice(a[i], b[i]);
    }
  }

  function Stamped(block: seq<byte>, stamp: Stamp, offset: nat): (r: seq<byte>)
    requires |block| >= 8
    ensures |r| == |block|
  {
    match stamp
    case NoStamp => block
    case Lba => Put(block, 0, PutBe(offset, 4))
    case Physical => Put(block, 0, PutBe(offset, 8))
  }

  /** The buffer is stamped in place, block after block; each stamp covers the last. */
  lemma StampTwice(block: seq<byte>, stamp: Stamp, o1: nat, o2: nat)
    requires |block| >= 8
    ensures Stamped(Stamped(block, stamp, o1), stamp, o2) == Stamped(block, stamp, o2)
  {
  }

  /** n copies of a block one behind the other from offset on, each stamped with its own
      offset. */
  function Copies(block: seq<byte>, stamp: Stamp, offset: nat, n: nat): seq<byte>
    requires |block| >= 8
    decreases n
  {
    if n == 0 then [] else Stamped(block, stamp, offset) + Copies(block, stamp, offset + |block|, n - 1)
  }

  lemma {:induction false} CopiesLength(block: seq<byte>, stamp: Stamp, offset: nat, n: nat)
    requires |block| >= 8
    ensures |Copies(block, stamp, offset, n)| == n * |block|
    decreases n
  {
    if n > 0 {
      CopiesLength(block, stamp, offset + |block|, n - 1);
      assert n * |block| == (n - 1) * |block| + |block|;
    }
  }

  /** Copy k stands k blocks behind the first and carries that offset. */
  lemma {:induction false} CopyAt(block: seq<byte>, stamp: Stamp, offset: nat, n: nat, k: nat)
    requires |block| >= 8 && k < n
    ensures 0 <= k * |block| && k * |block| + |block| <= |Copies(block, stamp, offset, n)|
    ensures Copies(block, stamp, offset, n)[k * |block|..k * |block| + |block|] ==
      Stamped(block, stamp, offset + k * |block|)
    decreases n
  {
    hide Stamped;
    var head, rest := Stamped(block, stamp, offset), Copies(block, stamp, offset + |block|, n - 1);
    if k == 0 {
      assert (head + rest)[..|block|] == head;
    } else {
      CopyAt(block, stamp, offset + |block|, n - 1, k - 1);
      assert k * |block| == (k - 1) * |block| + |block|;
      Skip(head, rest, (k - 1) * |block|, |block|);
    }
  }

  /** What can be read off a stamped block: the low 32 bits of its offset in the first four
      bytes, or the low 64 in the first eight, and the block behind them. */
  lemma StampReads(block: seq<byte>, stamp: Stamp, offset: nat)
    requires |block| >= 8
    ensures var c := Stamped(block, stamp, offset);
            match stamp
            case NoStamp => c == block
            case Lba => GetBe(c[..4]) == offset % 0x1_0000_0000 && c[4..] == block[4..]
            case Physical => GetBe(c[..8]) == offset % 0x1_0000_0000_0000_0000 && c[8..] == block[8..]
  {
    var c := Stamped(block, stamp, offset);
    assert Pow256(4) == 0x1_0000_0000 by {
      assert Pow256(1) == 256 && Pow256(2) == 0x1_0000;
    }
    hide GetBe, PutBe;
    if stamp.Lba? {
      GetPut(offset, 4);
      assert c[..4] == PutBe(offset, 4);
    } else if stamp.Physical? {
      GetPut(offset, 8);
      assert c[..8] == PutBe(offset, 8);
      assert Pow256(8) == 0x1_0000_0000_0000_0000 by {
        assert Pow256(5) == 0x100_0000_0000 && Pow256(6) == 0x1_0000_0000_0000;
        assert Pow256(7) == 0x100_0000_0000_0000;
      }
    }
  }

  /** So for every copy of a WRITE SAME. */
  lemma CopyReads(block: seq<byte>, stamp: Stamp, offset: nat, n: nat, k: nat)
    requires |block| >= 8 && k < n
    ensures 0 <= k * |block| && k * |block| + |block| <= |Copies(block, stamp, offset, n)|
    ensures var at := offset + k * |block|;
            var c := Copies(block, stamp, offset, n)[k * |block|..k * |block| + |block|];
            match stamp
            case NoStamp => c == block
            case Lba => GetBe(c[..4]) == at % 0x1_0000_0000 && c[4..] == block[4..]
            case Physical => GetBe(c[..8]) == at % 0x1_0000_0000_0000_0000 && c[8..] == block[8..]
  {
    hide Copies, Stamped, GetBe;
    CopyAt(block, stamp, offset, n, k);
    StampReads(block, stamp, offset + k * |block|);
  }

  /** Position of the first difference. */
  function FirstDifference(a: seq<byte>, b: seq<byte>): (i: nat)
    requires |a| == |b|
    ensures i <= |a| && a[..i] == b[..i]
    ensures i < |a| ==> a[i] != b[i]
    ensures i == |a| ==> a == b
  {
    if a == [] || a[0] != b[0] then 0
    else
      var k := FirstDifference(a[1..], b[1..]);
      assert a[..k + 1] == [a[0]] + a[1..][..k] && b[..k + 1] == [b[0]] + b[1..][..k];
      assert a == [a[0]] + a[1..] && b == [b[0]] + b[1..];
      k + 1
  }

  lemma VolumeSize(v: Volume)
    requires v.Valid()
    ensures |v.Disk()| == Start(|v.files|, v.fileSize)
  {
    FlatLength(v.files, v.fileSize);
  }

  /** What a request of n bytes at offset covers. */
  predicate InRange(v: Volume, offset: nat, n: nat)
    reads v
  {
    offset + n <= Start(|v.files|, v.fileSize)
  }

  lemma PutRead(disk: seq<byte>, at: nat, bytes: seq<byte>)
    requires at + |bytes| <= |disk|
    ensures Put(disk, at, bytes)[at..at + |bytes|] == bytes
  {
  }

  lemma PutAt(disk: seq<byte>, at: nat, bytes: seq<byte>)
    requires at + |bytes| <= |disk|
    ensures forall i :: 0 <= i < |bytes| ==> Put(disk, at, bytes)[at + i] == bytes[i]
  {
  }

  lemma OrOnDisk(disk: seq<byte>, at: nat, buf: seq<byte>)
    requires at + |buf| <= |disk|
    ensures var now := Put(disk, at, OrBytes(buf, disk[at..at + |buf|]));
            forall i, k :: 0 <= i < |buf| && 0 <= k < 8 ==>
              (Bit(now[at + i], k) <==> Bit(disk[at + i], k) || Bit(buf[i], k))
  {
    hide Bit, OrBytes, Put;
    var was := disk[at..at + |buf|];
    OrBits(buf, was);
    PutAt(disk, at, OrBytes(buf, was));
    assert forall i :: 0 <= i < |buf| ==> was[i] == disk[at + i];
  }

  lemma PutOver(disk: seq<byte>, at: nat, bytes: seq<byte>)
    requires at + |bytes| <= |disk|
    ensures Put(Put(disk, at, bytes), at, bytes) == Put(disk, at, bytes)
  {
  }

  /** VERIFY */
  method DoVerify(v: Volume, offset: nat, buf: seq<byte>) returns (r: Result)
    requires v.Valid() && InRange(v, offset, |buf|)
    ensures offset + |buf| <= |v.Disk()|
    ensures r == if v.Disk()[offset..offset + |buf|] == buf then Good else CheckCondition(MISCOMPARE, ASC_MISCOMPARE, 0)
  {
    var tmpbuf := v.Read(offset, |buf|);
    r := if buf == tmpbuf then Good else CheckCondition(MISCOMPARE, ASC_MISCOMPARE, 0);
  }

  /** WRITE and, with verify, WRITE AND VERIFY. The mode page is looked up after the write:
      without it the command fails, with its data on the disk. */
  method DoWrite(v: Volume, offset: nat, buf: seq<byte>, cachePage: bool, verify: bool) returns (r: Result)
    requires v.Valid() && InRange(v, offset, |buf|)
    modifies v, v.isExist
    ensures v.Valid() && |v.files| == |old(v.files)|
    ensures offset + |buf| <= |old(v.Disk())| && v.Disk() == Put(old(v.Disk()), offset, buf)
    ensures r == if cachePage then Good else CheckCondition(ILLEGAL_REQUEST, ASC_INVALID_FIELD_IN_CDB, 0)
  {
    r := Good;
    var ret := v.Write(offset, buf);
    if !cachePage {
      return CheckCondition(ILLEGAL_REQUEST, ASC_INVALID_FIELD_IN_CDB, 0);
    }
    if verify {
      var again := DoVerify(v, offset, buf);
      PutRead(old(v.Disk()), offset, buf);
      if again != Good {
        r := again;
      }
    }
  }

  /** READ */
  method DoRead(v: Volume, offset: nat, length: nat) returns (r: Result, buf: seq<byte>)
    requires v.Valid() && InRange(v, offset, length)
    ensures offset + length <= |v.Disk()| && buf == v.Disk()[offset..offset + length] && r == Good
  {
    buf := v.Read(offset, length);
    r := Good;
  }

  method OrInto(buf: seq<byte>, tmpbuf: seq<byte>) returns (ptr: seq<byte>)
    requires |tmpbuf| == |buf|
    ensures ptr == OrBytes(buf, tmpbuf)
  {
    ptr := buf;
    var i := 0;
    while i < |buf|
      invariant 0 <= i <= |buf| == |ptr|
      invariant forall k :: 0 <= k < |buf| ==> ptr[k] == if k < i then buf[k] | tmpbuf[k] else buf[k]
    {
      ptr := ptr[i := ptr[i] | tmpbuf[i]];
      i := i + 1;
    }
    assert ptr == OrBytes(buf, tmpbuf);
  }

  /** ORWRITE: every byte of the range is or-ed with the data sent. */
  method DoOrWrite(v: Volume, offset: nat, buf: seq<byte>, cachePage: bool) returns (r: Result)
    requires v.Valid() && InRange(v, offset, |buf|)
    modifies v, v.isExist
    ensures v.Valid() && offset + |buf| <= |old(v.Disk())|
    ensures v.Disk() == Put(old(v.Disk()), offset, OrBytes(buf, old(v.Disk())[offset..offset + |buf|]))
    ensures |v.Disk()| == |old(v.Disk())|
    ensures forall i, k :: 0 <= i < |buf| && 0 <= k < 8 ==>
              (Bit(v.Disk()[offset + i], k) <==> Bit(old(v.Disk())[offset + i], k) || Bit(buf[i], k))
    ensures r == if cachePage then Good else CheckCondition(ILLEGAL_REQUEST, ASC_INVALID_FIELD_IN_CDB, 0)
  {
    VolumeSize(v);
    hide Put, Flat, Start, OrBytes;
    var tmpbuf := v.Read(offset, |buf|);
    var ptr := OrInto(buf, tmpbuf);
    ghost var disk := v.Disk();
    r := DoWrite(v, offset, ptr, cachePage, false);
    hide Bit;
    OrOnDisk(disk, offset, buf);
  }

  /** A second ORWRITE of the same data leaves the disk as the first left it. */
  method DoOrWriteTwice(v: Volume, offset: nat, buf: seq<byte>, cachePage: bool) returns (r: Result, again: Result)
    requires v.Valid() && InRange(v, offset, |buf|)
    modifies v, v.isExist
    ensures v.Valid() && offset + |buf| <= |old(v.Disk())| && r == again
    ensures v.Disk() == Put(old(v.Disk()), offset, OrBytes(buf, old(v.Disk())[offset..offset + |buf|]))
  {
    hide Put, Flat, Start, OrBytes, Bit;
    ghost var was := v.Disk();
    r := DoOrWrite(v, offset, buf, cachePage);
    ghost var ored := OrBytes(buf, was[offset..offset + |buf|]);
    PutRead(was, offset, ored);
    OrTwice(buf, was[offset..offset + |buf|]);
    again := DoOrWrite(v, offset, buf, cachePage);
    PutOver(was, offset, ored);
  }

  method FindDifference(a: seq<byte>, b: seq<byte>) returns (pos: nat)
    requires |a| == |b|
    ensures pos == FirstDifference(a, b)
  {
    pos := 0;
    while pos < |a| && a[pos] == b[pos]
      invariant 0 <= pos <= |a|
      invariant pos + FirstDifference(a[pos..], b[pos..]) == FirstDifference(a, b)
    {
      assert a[pos..][1..] == a[pos + 1..] && b[pos..][1..] == b[pos + 1..];
      pos := pos + 1;
    }
  }

  /** COMPARE AND WRITE: the first half of the data is compared, the second written only if
      it is all there already; a miscompare reports the first byte that differs. */
  method DoCompareAndWrite(v: Volume, offset: nat, buf: seq<byte>, tl: nat, cachePage: bool) returns (r: Result)
    requires v.Valid() && InRange(v, offset, tl)
    modifies v, v.isExist
    ensures v.Valid() && offset + tl <= |old(v.Disk())|
    ensures if |buf| / 2 != tl then
              v.Disk() == old(v.Disk()) && r == CheckCondition(ILLEGAL_REQUEST, ASC_INVALID_FIELD_IN_CDB, 0)
            else if old(v.Disk())[offset..offset + tl] != buf[..tl] then
              v.Disk() == old(v.Disk())
              && r == CheckCondition(MISCOMPARE, ASC_MISCOMPARE,
                                     FirstDifference(buf[..tl], old(v.Disk())[offset..offset + tl]))
            else
              v.Disk() == Put(old(v.Disk()), offset, buf[tl..tl + tl])
              && r == if cachePage then Good else CheckCondition(ILLEGAL_REQUEST, ASC_INVALID_FIELD_IN_CDB, 0)
  {
    hide FirstDifference, Put, Flat, Start;
    VolumeSize(v);
    var length := |buf| / 2;
    if length != tl {
      return CheckCondition(ILLEGAL_REQUEST, ASC_INVALID_FIELD_IN_CDB, 0);
    }
    var tmpbuf := v.Read(offset, length);
    if buf[..length] != tmpbuf {
      var pos := FindDifference(buf[..length], tmpbuf);
      return CheckCondition(MISCOMPARE, ASC_MISCOMPARE, pos);
    }
    r := DoWrite(v, offset, buf[length..length + length], cachePage, false);
  }

  /** The copies up to position at are on the disk, the others are to come. */
  ghost predicate SoFar(disk: seq<byte>, offset: nat, all: seq<byte>, done: seq<byte>, block: seq<byte>, stamp: Stamp,
                        at: nat, left: nat, now: seq<byte>)
    requires |block| >= 8
  {
    && all == done + Copies(block, stamp, at, left) && at == offset + |done|
    && offset + |all| <= |disk| && now == Put(disk, offset, done)
  }

  /** Two buffers that differ at most where the stamp goes. */
  ghost predicate Alike(a: seq<byte>, block: seq<byte>, stamp: Stamp)
    requires |block| >= 8
  {
    |a| == |block| && forall o: nat :: Stamped(a, stamp, o) == Stamped(block, stamp, o)
  }

  /** Between two passes of the loop. */
  ghost predicate Copying(v: Volume, disk: seq<byte>, offset: nat, all: seq<byte>, done: seq<byte>, block: seq<byte>,
                          stamp: Stamp, at: nat, left: nat, tmpbuf: seq<byte>)
    requires |block| >= 8
    reads v, v.isExist
  {
    v.Valid() && Alike(tmpbuf, block, stamp) && SoFar(disk, offset, all, done, block, stamp, at, left, v.Disk())
  }

  lemma SoFarAll(disk: seq<byte>, offset: nat, all: seq<byte>, done: seq<byte>, block: seq<byte>, stamp: Stamp,
                 at: nat, now: seq<byte>)
    requires |block| >= 8 && SoFar(disk, offset, all, done, block, stamp, at, 0, now)
    ensures offset + |all| <= |disk| && now == Put(disk, offset, all)
  {
    assert done == all;
  }

  lemma AllCopied(v: Volume, disk: seq<byte>, offset: nat, all: seq<byte>, done: seq<byte>, block: seq<byte>,
                  stamp: Stamp, at: nat, tmpbuf: seq<byte>)
    requires |block| >= 8 && Copying(v, disk, offset, all, done, block, stamp, at, 0, tmpbuf)
    ensures v.Valid() && offset + |all| <= |disk| && v.Disk() == Put(disk, offset, all)
  {
    hide Put, Flat, SoFar;
    SoFarAll(disk, offset, all, done, block, stamp, at, v.Disk());
  }

  lemma SoFarNone(disk: seq<byte>, block: seq<byte>, stamp: Stamp, offset: nat, n: nat)
    requires |block| >= 8 && offset + |Copies(block, stamp, offset, n)| <= |disk|
    ensures SoFar(disk, offset, Copies(block, stamp, offset, n), [], block, stamp, offset, n, disk)
  {
    PutNothing(disk, offset);
  }

  lemma SoFarOn(disk: seq<byte>, offset: nat, all: seq<byte>, done: seq<byte>, block: seq<byte>, stamp: Stamp,
                at: nat, left: nat, before: seq<byte>)
    requires |block| >= 8 && left > 0 && SoFar(disk, offset, all, done, block, stamp, at, left, before)
    ensures at + |block| <= |before| && |before| == |disk|
    ensures SoFar(disk, offset, all, done + Stamped(block, stamp, at), block, stamp, at + |block|, left - 1,
                  Put(before, at, Stamped(block, stamp, at)))
  {
    hide Stamped;
    var next, rest := Stamped(block, stamp, at), Copies(block, stamp, at + |block|, left - 1);
    assert all == (done + next) + rest;
    PutPut(disk, offset, done, next);
  }

  lemma AlikeStamped(a: seq<byte>, block: seq<byte>, stamp: Stamp, at: nat)
    requires |block| >= 8 && Alike(a, block, stamp)
    ensures |a| == |block| && Stamped(a, stamp, at) == Stamped(block, stamp, at)
    ensures Alike(Stamped(a, stamp, at), block, stamp)
  {
    forall o: nat
      ensures Stamped(Stamped(a, stamp, at), stamp, o) == Stamped(block, stamp, o)
    {
      StampTwice(a, stamp, at, o);
    }
  }

  /** One copy: the buffer of the last one is stamped again and written. */
  method WriteCopy(v: Volume, at: nat, tmpbuf: seq<byte>, stamp: Stamp, ghost block: seq<byte>,
                   ghost disk: seq<byte>, ghost offset: nat, ghost all: seq<byte>, ghost done: seq<byte>,
                   ghost left: nat)
    returns (next: seq<byte>)
    requires |block| >= 8 && left > 0 && Copying(v, disk, offset, all, done, block, stamp, at, left, tmpbuf)
    modifies v, v.isExist
    ensures Copying(v, disk, offset, all, done + Stamped(block, stamp, at), block, stamp, at + |block|, left - 1, next)
  {
    SoFarOn(disk, offset, all, done, block, stamp, at, left, v.Disk());
    FlatLength(v.files, v.fileSize);
    AlikeStamped(tmpbuf, block, stamp, at);
    hide Put, Flat, Alike, Start, SoFar, Stamped;
    next := Stamped(tmpbuf, stamp, at);
    var ret := v.Write(at, next);
  }

  lemma AlikeSelf(block: seq<byte>, stamp: Stamp)
    requires |block| >= 8
    ensures Alike(block, block, stamp)
  {
  }

  method WriteCopies(v: Volume, offset: nat, block: seq<byte>, stamp: Stamp, n: nat)
    requires v.Valid() && |block| >= 8 && InRange(v, offset, |Copies(block, stamp, offset, n)|)
    modifies v, v.isExist
    ensures v.Valid() && offset + |Copies(block, stamp, offset, n)| <= |old(v.Disk())|
    ensures v.Disk() == Put(old(v.Disk()), offset, Copies(block, stamp, offset, n))
  {
    VolumeSize(v);
    ghost var disk, all, done := v.Disk(), Copies(block, stamp, offset, n), [];
    SoFarNone(disk, block, stamp, offset, n);
    AlikeSelf(block, stamp);
    var tmpbuf: seq<byte>, at: nat, left: nat := block, offset, n;
    hide Stamped, Put, Flat, Copies, Copying;
    while left > 0
      invariant Copying(v, disk, offset, all, done, block, stamp, at, left, tmpbuf)
      decreases left
    {
      tmpbuf := WriteCopy(v, at, tmpbuf, stamp, block, disk, offset, all, done, left);
      done := done + Stamped(block, stamp, at);
      at, left := at + |block|, left - 1;
    }
    AllCopied(v, disk, offset, all, done, block, stamp, at, tmpbuf);
  }

  /** WRITE SAME: n copies of the block, each stamped with its byte offset if asked for. With
      the UNMAP bit nothing is done. */
  method DoWriteSame(v: Volume, unmap: bool, offset: nat, block: seq<byte>, stamp: Stamp, n: nat) returns (r: Result)
    requires v.Valid() && |block| >= 8 && InRange(v, offset, |Copies(block, stamp, offset, n)|)
    modifies v, v.isExist
    ensures v.Valid() && r == Good
    ensures offset + |Copies(block, stamp, offset, n)| <= |old(v.Disk())|
    ensures v.Disk() == if unmap then old(v.Disk()) else Put(old(v.Disk()), offset, Copies(block, stamp, offset, n))
  {
    r := Good;
    VolumeSize(v);
    if unmap {
      return;
    }
    WriteCopies(v, offset, block, stamp, n);
  }
}
