/** What the checksum of a tape header tells, and that reading a header goes on without it. */
module TapeChecksum {
  import opened Bytes
  import opened Crc32c
  import opened TapeFormat

  lemma SubSlice(s: seq<byte>, a: nat, b: nat)
    requires 4 <= a <= b <= |s|
    ensures s[4..][a - 4..b - 4] == s[a..b]
  {
  }

  lemma SameSlices(s: seq<byte>, t: seq<byte>)
    requires |s| == |t| == HDR_SIZE && s[4..] == t[4..]
    ensures Decode(s) == Decode(t)
  {
    hide GetBe;
    forall a, b | 4 <= a <= b <= HDR_SIZE
      ensures s[a..b] == t[a..b]
    {
      SubSlice(s, a, b);
      SubSlice(t, a, b);
    }
  }

  lemma SameBody(s: seq<byte>, h: Header)
    requires |s| == HDR_SIZE && Fits(h) && s[4..] == Body(h)
    ensures Decode(s) == h
  {
    hide PutBe, GetBe, DigestBytes, Encode, Body;
    DecodeEncode(h);
    EncodedFields(h);
    SameSlices(s, Encode(h));
  }

  lemma BodyOfDecoded(s: seq<byte>)
    requires |s| == HDR_SIZE
    ensures s[4..] == Body(Decode(s))
  {
    hide PutBe, GetBe;
    PutGet(s[4..8]);
    PutGet(s[8..12]);
    PutGet(s[12..16]);
    PutGet(s[16..24]);
    PutGet(s[24..32]);
    PutGet(s[32..40]);
    PutGet(s[40..48]);
  }

  /** A header is read as the one that was written exactly if its fields are the ones that
      were written; its checksum is of no account. */
  lemma DecodesIff(s: seq<byte>, h: Header)
    requires |s| == HDR_SIZE && Fits(h)
    ensures Decode(s) == h <==> s[4..] == Body(h)
  {
    hide PutBe, GetBe, DigestBytes, Encode, Body;
    if s[4..] == Body(h) {
      SameBody(s, h);
    }
    if Decode(s) == h {
      BodyOfDecoded(s);
    }
  }

  lemma UnpackDigest(v: bv32, w: bv32)
    requires (v & 0xFF) as byte == (w & 0xFF) as byte && ((v >> 8) & 0xFF) as byte == ((w >> 8) & 0xFF) as byte
    requires ((v >> 16) & 0xFF) as byte == ((w >> 16) & 0xFF) as byte && (v >> 24) as byte == (w >> 24) as byte
    ensures v == w
  {
  }

  lemma WordBytesInjective(v: bv32, w: bv32)
    requires WordBytes(v) == WordBytes(w)
    ensures v == w
  {
    var a, b := WordBytes(v), WordBytes(w);
    assert a[0] == b[0] && a[1] == b[1] && a[2] == b[2] && a[3] == b[3];
    UnpackDigest(v, w);
  }

  lemma DigestBytesInjective(a: seq<byte>, b: seq<byte>)
    requires DigestBytes(a) == DigestBytes(b)
    ensures Digest(a) == Digest(b)
  {
    hide Digest, WordBytes;
    WordBytesInjective(Digest(a).bits, Digest(b).bits);
  }

  /** The checksum sees every change inside four neighbouring bytes of the fields. */
  lemma ChecksumSeesBurst(h: Header, pre: seq<byte>, x: seq<byte>, y: seq<byte>, post: seq<byte>)
    requires Body(h) == pre + x + post && |x| == |y| <= 4
    ensures |DigestBytes(Body(h)) + (pre + y + post)| == HDR_SIZE
    ensures ChecksumMatches(DigestBytes(Body(h)) + (pre + y + post)) <==> x == y
  {
    hide DigestBytes, Digest, Body;
    var s := DigestBytes(Body(h)) + (pre + y + post);
    assert |pre + y + post| == |pre + x + post|;
    assert s[..4] == DigestBytes(Body(h)) && s[4..] == pre + y + post;
    if x != y {
      DigestDetectsBurst(pre, x, y, post);
      if ChecksumMatches(s) {
        DigestBytesInjective(pre + x + post, pre + y + post);
      }
    }
  }

  /** The bytes of a header with another type written over its own. */
  function Retyped(h: Header, blkType: nat): (r: seq<byte>)
    ensures |r| == HDR_SIZE
  {
    DigestBytes(Body(h)) + Body(h.(blkType := blkType))
  }

  lemma BodyAroundType(h: Header)
    ensures Body(h) == (PutBe(h.ondiskSz, 4) + PutBe(h.blkSz, 4)) + PutBe(h.blkType, 4)
                       + (PutBe(h.blkNum, 8) + PutBe(h.prev, 8) + PutBe(h.curr, 8) + PutBe(h.next, 8))
  {
    hide PutBe;
  }

  lemma RetypedFails(h: Header, blkType: nat)
    requires Fits(h) && blkType < 0x1_0000_0000 && blkType != h.blkType
    ensures !ChecksumMatches(Retyped(h, blkType)) && Decode(Retyped(h, blkType)) == h.(blkType := blkType)
  {
    hide PutBe, GetBe, DigestBytes, Body, ChecksumMatches, Decode;
    var k := h.(blkType := blkType);
    var pre := PutBe(h.ondiskSz, 4) + PutBe(h.blkSz, 4);
    var post := PutBe(h.blkNum, 8) + PutBe(h.prev, 8) + PutBe(h.curr, 8) + PutBe(h.next, 8);
    BodyAroundType(h);
    BodyAroundType(k);
    Field(h.blkType, 4);
    Field(blkType, 4);
    ChecksumSeesBurst(h, pre, PutBe(h.blkType, 4), PutBe(blkType, 4), post);
    assert Retyped(h, blkType)[4..] == Body(k);
    DecodesIff(Retyped(h, blkType), k);
  }

  /** Any header whose type is damaged, on the file, is read with the damaged type, although
      its checksum shows the damage. */
  lemma DamagedTypeIsRead(file: seq<byte>, at: nat, h: Header, blkType: nat)
    requires Fits(h) && blkType < 0x1_0000_0000 && blkType != h.blkType
    ensures var f := Pwrite(file, at, Retyped(h, blkType));
            && at + HDR_SIZE <= |f|
            && !ChecksumMatches(Raw(f, at)) && HeaderAt(f, at) == h.(blkType := blkType)
  {
    hide PutBe, DigestBytes, Body, ChecksumMatches, Decode, Retyped, Pwrite;
    PwriteSelf(file, at, Retyped(h, blkType));
    RetypedFails(h, blkType);
  }
}
