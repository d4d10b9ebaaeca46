/** A directory volume: a flat disk striped over segment files that come into being with
    their first write. One daemon, no session failure. */
module CssVolume {
  import opened Bytes

  /** A segment in the file system. */
  datatype File = Absent | Present(bytes: seq<byte>)

  // ----- the flat disk that the segments make up

  /** What segment file f contributes: its bytes, or zeros while it does not exist. */
  function Segment(f: File, fileSize: nat): seq<byte> {
    if f.Present? then f.bytes else Zeros(fileSize)
  }

  function Flat(files: seq<File>, fileSize: nat): seq<byte> {
    if files == [] then [] else Segment(files[0], fileSize) + Flat(files[1..], fileSize)
  }

  predicate Sized(files: seq<File>, fileSize: nat) {
    forall f :: f in files ==> f.Present? ==> |f.bytes| == fileSize
  }

  /** Where segment i starts on the disk, which is i * fileSize. */
  function Start(i: nat, fileSize: nat): nat {
    if i == 0 then 0 else Start(i - 1, fileSize) + fileSize
  }

  lemma {:induction false} StartIsProduct(i: nat, fileSize: nat)
    ensures Start(i, fileSize) == i * fileSize
  {
    if i > 0 {
      StartIsProduct(i - 1, fileSize);
      assert i * fileSize == (i - 1) * fileSize + fileSize;
    }
  }

  lemma {:induction false} FlatLength(files: seq<File>, fileSize: nat)
    requires Sized(files, fileSize)
    ensures |Flat(files, fileSize)| == Start(|files|, fileSize)
  {
    if files != [] {
      FlatLength(files[1..], fileSize);
    }
  }

  lemma SegmentLength(files: seq<File>, fileSize: nat, i: nat)
    requires Sized(files, fileSize) && i < |files|
    ensures |Segment(files[i], fileSize)| == fileSize
  {
  }

  lemma Skip(a: seq<byte>, b: seq<byte>, at: nat, n: nat)
    requires at + n <= |b|
    ensures (a + b)[at + |a|..at + |a| + n] == b[at..at + n]
  {
  }

  /** Segment i occupies the bytes from Start(i) on. */
  lemma {:induction false} FlatSegment(files: seq<File>, fileSize: nat, i: nat)
    requires Sized(files, fileSize) && i < |files|
    ensures Start(i, fileSize) + fileSize <= |Flat(files, fileSize)|
    ensures Flat(files, fileSize)[Start(i, fileSize)..Start(i, fileSize) + fileSize] == Segment(files[i], fileSize)
  {
    hide Segment, Zeros;
    var head := Segment(files[0], fileSize);
    var rest := Flat(files[1..], fileSize);
    SegmentLength(files, fileSize, 0);
    if i == 0 {
      assert (head + rest)[..fileSize] == head;
    } else {
      FlatSegment(files[1..], fileSize, i - 1);
      Skip(head, rest, Start(i - 1, fileSize), fileSize);
    }
  }

  lemma PutFront(a: seq<byte>, b: seq<byte>, bytes: seq<byte>)
    requires |bytes| == |a|
    ensures Put(a + b, 0, bytes) == bytes + b
  {
  }

  lemma PutBehind(a: seq<byte>, b: seq<byte>, at: nat, bytes: seq<byte>)
    requires at + |bytes| <= |b|
    ensures Put(a + b, at + |a|, bytes) == a + Put(b, at, bytes)
  {
  }

  /** Changing one segment changes its range of the disk and nothing else. */
  lemma {:induction false} FlatUpdate(files: seq<File>, fileSize: nat, i: nat, f: File)
    requires Sized(files, fileSize) && i < |files| && f.Present? && |f.bytes| == fileSize
    ensures Start(i, fileSize) + fileSize <= |Flat(files, fileSize)|
    ensures Flat(files[i := f], fileSize) == Put(Flat(files, fileSize), Start(i, fileSize), f.bytes)
  {
    hide Put;
    FlatSegment(files, fileSize, i);
    var head := Segment(files[0], fileSize);
    var rest := Flat(files[1..], fileSize);
    SegmentLength(files, fileSize, 0);
    if i == 0 {
      assert files[0 := f][1..] == files[1..];
      PutFront(head, rest, f.bytes);
    } else {
      assert files[i := f][1..] == files[1..][i - 1 := f];
      FlatUpdate(files[1..], fileSize, i - 1, f);
      PutBehind(head, rest, Start(i - 1, fileSize), f.bytes);
    }
  }

  lemma Within(flat: seq<byte>, at: nat, seg: seq<byte>, off: nat, bytes: seq<byte>)
    requires at + |seg| <= |flat| && flat[at..at + |seg|] == seg && off + |bytes| <= |seg|
    ensures Put(flat, at, Put(seg, off, bytes)) == Put(flat, at + off, bytes)
  {
    var p, q := Put(flat, at, Put(seg, off, bytes)), Put(flat, at + off, bytes);
    forall k | 0 <= k < |flat|
      ensures p[k] == q[k]
    {
      if at <= k < at + |seg| {
        assert flat[at..at + |seg|][k - at] == seg[k - at];
      }
    }
  }

  /** Overwriting part of one segment is overwriting that part of the disk. */
  lemma FlatPut(files: seq<File>, fileSize: nat, i: nat, seg: seq<byte>, off: nat, bytes: seq<byte>)
    requires Sized(files, fileSize) && i < |files| && off + |bytes| <= fileSize
    requires seg == Segment(files[i], fileSize) && |seg| == fileSize
    ensures Start(i, fileSize) + fileSize <= |Flat(files, fileSize)|
    ensures Flat(files[i := Present(Put(seg, off, bytes))], fileSize)
         == Put(Flat(files, fileSize), Start(i, fileSize) + off, bytes)
  {
    hide Segment, Flat, Start, Put, Sized;
    FlatSegment(files, fileSize, i);
    FlatUpdate(files, fileSize, i, Present(Put(seg, off, bytes)));
    Within(Flat(files, fileSize), Start(i, fileSize), seg, off, bytes);
  }

  lemma Slices(s: seq<byte>, at: nat, len: nat, off: nat, n: nat)
    requires at + len <= |s| && off + n <= len
    ensures s[at..at + len][off..off + n] == s[at + off..at + off + n]
  {
    var t := s[at..at + len];
    var a, b := t[off..off + n], s[at + off..at + off + n];
    forall k | 0 <= k < n
      ensures a[k] == b[k]
    {
      assert t[off + k] == s[at + (off + k)];
    }
  }

  lemma FlatRead(files: seq<File>, fileSize: nat, i: nat, off: nat, n: nat)
    requires Sized(files, fileSize) && i < |files| && off + n <= fileSize
    ensures Start(i, fileSize) + fileSize <= |Flat(files, fileSize)|
    ensures off + n <= |Segment(files[i], fileSize)|
    ensures Flat(files, fileSize)[Start(i, fileSize) + off..Start(i, fileSize) + off + n] ==
      Segment(files[i], fileSize)[off..off + n]
  {
    hide Flat, Start, Segment, Sized;
    FlatSegment(files, fileSize, i);
    SegmentLength(files, fileSize, i);
    Slices(Flat(files, fileSize), Start(i, fileSize), fileSize, off, n);
  }

  lemma WithinVolume(offset: nat, fileSize: nat, n: nat)
    requires fileSize > 0 && offset < n * fileSize
    ensures offset / fileSize < n
  {
    var i := offset / fileSize;
    if n < i {
      MulStep(fileSize, n, i);
    }
  }

  /** buf is what stands on the disk from offset on. */
  predicate Got(disk: seq<byte>, offset: nat, buf: seq<byte>) {
    offset + |buf| <= |disk| && buf == disk[offset..offset + |buf|]
  }

  lemma GotNothing(disk: seq<byte>, offset: nat)
    requires offset <= |disk|
    ensures Got(disk, offset, [])
  {
  }

  lemma GotMore(disk: seq<byte>, offset: nat, buf: seq<byte>, part: seq<byte>)
    requires Got(disk, offset, buf) && Got(disk, offset + |buf|, part)
    ensures Got(disk, offset, buf + part)
  {
  }

  lemma GotAll(disk: seq<byte>, offset: nat, buf: seq<byte>)
    requires Got(disk, offset, buf)
    ensures offset + |buf| <= |disk| && buf == disk[offset..offset + |buf|]
  {
  }

  /** The first k bytes of buf have been written to the disk. */
  predicate Written(disk: seq<byte>, offset: nat, buf: seq<byte>, k: nat, now: seq<byte>) {
    k <= |buf| && offset + |buf| <= |disk| == |now| && now == Put(disk, offset, buf[..k])
  }

  lemma PutNothing(s: seq<byte>, at: nat)
    requires at <= |s|
    ensures Put(s, at, []) == s
  {
  }

  lemma WrittenNone(disk: seq<byte>, offset: nat, buf: seq<byte>)
    requires offset + |buf| <= |disk|
    ensures Written(disk, offset, buf, 0, disk)
  {
    assert buf[..0] == [];
    PutNothing(disk, offset);
  }

  lemma WrittenOn(disk: seq<byte>, offset: nat, buf: seq<byte>, k: nat, l: nat, before: seq<byte>, now: seq<byte>)
    requires Written(disk, offset, buf, k, before) && k + l <= |buf|
    requires offset + k + l <= |before| && now == Put(before, offset + k, buf[k..][..l])
    ensures Written(disk, offset, buf, k + l, now)
  {
    PutPut(disk, offset, buf[..k], buf[k..][..l]);
    assert buf[..k] + buf[k..][..l] == buf[..k + l];
  }

  lemma UpdateTwice(files: seq<File>, i: nat, g: File, f: File)
    requires i < |files|
    ensures files[i := g][i := f] == files[i := f]
  {
  }

  lemma LaterWrite(bytes: seq<byte>)
    ensures bytes + Zeros(0) == bytes
  {
  }

  /** The first write to a segment, brought to full size, is a write into zeros. */
  lemma FirstWrite(off: nat, bytes: seq<byte>, fileSize: nat)
    requires off + |bytes| <= fileSize
    ensures (Put([] + Zeros(off + |bytes|), off, bytes) + Zeros(fileSize))[..fileSize] ==
      Put(Zeros(fileSize), off, bytes)
  {
  }

  class Volume {
    const fileSize: nat
    var files: seq<File>            // the segments in the file system
    const isExist: array<bool>

    ghost predicate Valid()
      reads this, isExist
    {
      && fileSize > 0
      && isExist.Length == |files|
      && Sized(files, fileSize)
      && forall i :: 0 <= i < |files| ==> (isExist[i] <==> files[i].Present?)
    }

    ghost function Disk(): seq<byte>
      reads this
    {
      Flat(files, fileSize)
    }

    /** bs_css_open: a flag is set for every segment file that is there. */
    constructor (fileSize: nat, files: seq<File>)
      requires fileSize > 0 && Sized(files, fileSize)
      ensures Valid() && this.fileSize == fileSize && this.files == files && fresh(isExist)
    {
      this.fileSize, this.files := fileSize, files;
      var flags := new bool[|files|](_ => false);
      isExist := flags;
      new;
      var j := 0;
      while j < |files|
        invariant 0 <= j <= |files| && this.files == files
        invariant forall i :: 0 <= i < j ==> (flags[i] <==> files[i].Present?)
        invariant forall i :: j <= i < |files| ==> !flags[i]
      {
        if files[j].Present? {
          flags[j] := true;
        }
        j := j + 1;
      }
    }

    /** getfp: segment number and offset in it, and how much of it follows. */
    method GetFp(offset: nat) returns (i: nat, off: nat, len: nat)
      requires Valid() && offset < Start(|files|, fileSize)
      ensures i < |files| && off < fileSize && Start(i, fileSize) + off == offset && off + len == fileSize
    {
      StartIsProduct(|files|, fileSize);
      StartIsProduct(offset / fileSize, fileSize);
      WithinVolume(offset, fileSize, |files|);
      i, off := offset / fileSize, offset % fileSize;
      len := fileSize - off;
    }

    /** A write to a segment file creates it and zero-fills a gap before the data. */
    method LockedWrite(i: nat, off: nat, bytes: seq<byte>)
      requires i < |files|
      modifies `files
      ensures |files| == |old(files)| && files == old(files)[i := files[i]] && files[i].Present?
      ensures var was := if old(files)[i].Present? then old(files)[i].bytes else [];
              var grown := was + Zeros(if |was| < off + |bytes| then off + |bytes| - |was| else 0);
              files[i].bytes == Put(grown, off, bytes)
    {
      var was := if files[i].Present? then files[i].bytes else [];
      var grown := was + Zeros(if |was| < off + |bytes| then off + |bytes| - |was| else 0);
      files := files[i := Present(Put(grown, off, bytes))];
    }

    method Truncate(i: nat, size: nat)
      requires i < |files| && files[i].Present?
      modifies `files
      ensures |files| == |old(files)| && files == old(files)[i := Present((old(files)[i].bytes + Zeros(size))[..size])]
    {
      files := files[i := Present((files[i].bytes + Zeros(size))[..size])];
    }

    method StoreSegment(i: nat, off: nat, bytes: seq<byte>)
      requires Valid() && i < |files| && off + |bytes| <= fileSize == |Segment(files[i], fileSize)|
      modifies this, isExist
      ensures files == old(files)[i := Present(Put(Segment(old(files)[i], fileSize), off, bytes))]
      ensures isExist[i] && forall k :: 0 <= k < isExist.Length && k != i ==> isExist[k] == old(isExist[k])
    {
      hide Put, Sized;
      ghost var before := files;
      LockedWrite(i, off, bytes);
      if !isExist[i] {
        ghost var grown := files[i];
        Truncate(i, fileSize);
        FirstWrite(off, bytes, fileSize);
        UpdateTwice(before, i, grown, files[i]);
        isExist[i] := true;
      } else {
        LaterWrite(before[i].bytes);
      }
    }

    /** One pass of the loop of bs_css_read_write, writing: the segment is written, and
        brought to its full size if this was its first write. */
    method WriteSegment(i: nat, off: nat, bytes: seq<byte>)
      requires Valid() && i < |files| && off + |bytes| <= fileSize
      modifies this, isExist
      ensures Valid() && |files| == |old(files)|
      ensures Start(i, fileSize) + off + |bytes| <= |old(Disk())|
      ensures Disk() == Put(old(Disk()), Start(i, fileSize) + off, bytes)
    {
      ghost var before := files;
      SegmentLength(files, fileSize, i);
      FlatPut(files, fileSize, i, Segment(files[i], fileSize), off, bytes);
      hide Flat, Put, Start;
      StoreSegment(i, off, bytes);
    }

    /** The first rtn bytes of buf are on the disk, of n segments. */
    ghost predicate Writing(disk: seq<byte>, n: nat, offset: nat, buf: seq<byte>, rtn: nat)
      reads this, isExist
    {
      && Valid() && |files| == n && offset + |buf| <= Start(n, fileSize)
      && rtn <= |buf| && Written(disk, offset, buf, rtn, Disk())
    }

    /** One pass of the loop: what fits into the segment the position is in. */
    method WritePass(ghost disk: seq<byte>, ghost n: nat, offset: nat, buf: seq<byte>, rtn: nat) returns (l: nat)
      requires rtn < |buf| && Writing(disk, n, offset, buf, rtn)
      modifies this, isExist
      ensures 0 < l <= |buf| - rtn && Writing(disk, n, offset, buf, rtn + l)
    {
      hide Flat, Start, Put, Sized, Written;
      var i, off, room := GetFp(offset + rtn);
      l := if room < |buf| - rtn then room else |buf| - rtn;
      ghost var before := Disk();
      WriteSegment(i, off, buf[rtn..][..l]);
      WrittenOn(disk, offset, buf, rtn, l, before, Disk());
    }

    lemma NoneWritten(offset: nat, buf: seq<byte>)
      requires Valid() && offset + |buf| <= Start(|files|, fileSize)
      ensures Writing(Disk(), |files|, offset, buf, 0)
    {
      FlatLength(files, fileSize);
      hide Put, Flat, Start;
      WrittenNone(Disk(), offset, buf);
    }

    lemma AllWritten(disk: seq<byte>, n: nat, offset: nat, buf: seq<byte>)
      requires Writing(disk, n, offset, buf, |buf|)
      ensures Valid() && |files| == n && offset + |buf| <= |disk| && Disk() == Put(disk, offset, buf)
    {
      hide Put, Flat, Start;
      assert buf[..|buf|] == buf;
    }

    /** The loop of bs_css_read_write for a write. */
    method Write(offset: nat, buf: seq<byte>) returns (rtn: nat)
      requires Valid() && offset + |buf| <= Start(|files|, fileSize)
      modifies this, isExist
      ensures Valid() && rtn == |buf| && |files| == |old(files)|
      ensures offset + |buf| <= |old(Disk())| && Disk() == Put(old(Disk()), offset, buf)
    {
      hide Writing, Put, Flat, Start, Sized;
      ghost var disk, n := Disk(), |files|;
      NoneWritten(offset, buf);
      rtn := 0;
      var len := |buf|;
      while len > 0
        invariant 0 <= len && rtn + len == |buf| && Writing(disk, n, offset, buf, rtn)
      {
        var l := WritePass(disk, n, offset, buf, rtn);
        len, rtn := len - l, rtn + l;
      }
      AllWritten(disk, n, offset, buf);
    }

    /** One pass of the loop, reading. */
    method ReadSegment(i: nat, off: nat, l: nat) returns (part: seq<byte>)
      requires Valid() && i < |files| && off + l <= fileSize
      ensures Start(i, fileSize) + off + l <= |Disk()|
      ensures part == Disk()[Start(i, fileSize) + off..Start(i, fileSize) + off + l]
    {
      FlatRead(files, fileSize, i, off, l);
      if !isExist[i] {
        part := Zeros(l);
        assert Zeros(fileSize)[off..off + l] == part;
      } else {
        part := files[i].bytes[off..off + l];
      }
    }

    method ReadPass(at: nat, len: nat) returns (part: seq<byte>)
      requires Valid() && len > 0 && at + len <= Start(|files|, fileSize)
      ensures 0 < |part| <= len && Got(Disk(), at, part)
    {
      hide Flat, Segment, Start, Sized;
      var i, off, room := GetFp(at);
      part := ReadSegment(i, off, if room < len then room else len);
    }

    /** The loop of bs_css_read_write for a read; absent segments read as zeros. */
    method Read(offset: nat, length: nat) returns (buf: seq<byte>)
      requires Valid() && offset + length <= Start(|files|, fileSize)
      ensures offset + length <= |Disk()| && buf == Disk()[offset..offset + length]
    {
      FlatLength(files, fileSize);
      ghost var disk := Disk();
      GotNothing(disk, offset);
      hide Flat, Segment, Start, Sized, Got;
      buf := [];
      var len := length;
      while len > 0
        invariant 0 <= len && |buf| + len == length && Got(disk, offset, buf)
      {
        var part := ReadPass(offset + |buf|, len);
        GotMore(disk, offset, buf, part);
        buf, len := buf + part, len - |part|;
      }
      GotAll(disk, offset, buf);
    }
  }
}
