/** The iSCSI PDU on the wire, and a parser that sees the whole byte stream at once. */
module PduFormat {
  import opened Bytes
  import opened Crc32c

  const BHS_SIZE := 48
  const INCOMING_BUFSIZE := 8192

  /** Which digests and buffers apply to the next PDU; digests exist only in full feature phase. */
  datatype Mode = Mode(scsi: bool, headerDigest: bool, dataDigest: bool) {
    predicate Hdigest() { scsi && headerDigest }
    predicate Ddigest() { scsi && dataDigest }
  }

  /** A received PDU; data still carries its padding. */
  datatype Pdu = Pdu(bhs: seq<byte>, ahs: seq<byte>, data: seq<byte>)

  /** What the rest of the target decides from the PDUs delivered so far: the mode of the
      next PDU, whether its header is accepted (iscsi_task_rx_start) and whether the
      complete PDU is executed without an error that closes the connection. */
  datatype Server = Server(
    mode: seq<Pdu> -> Mode,
    start: (seq<Pdu>, seq<byte>) -> bool,
    finish: (seq<Pdu>, Pdu) -> bool)

  lemma RoundDown(z: nat, y: nat)
    requires y > 0
    ensures z - y < z / y * y <= z && z / y * y % y == 0
  {
    assert z == z / y * y + z % y;
    ModUnique(z / y * y, y, z / y, 0);
  }

  function RoundUp(x: nat, y: nat): (r: nat)
    requires y > 0
    ensures x <= r < x + y && r % y == 0
  {
    RoundDown(x + (y - 1), y);
    (x + (y - 1)) / y * y
  }

  function AhsLength(bhs: seq<byte>): nat
    requires |bhs| == BHS_SIZE
  {
    bhs[4] as nat * 4
  }

  function DataLength(bhs: seq<byte>): nat
    requires |bhs| == BHS_SIZE
  {
    bhs[5] as nat * 0x10000 + bhs[6] as nat * 0x100 + bhs[7] as nat
  }

  predicate HeaderAdmitted(sv: Server, hist: seq<Pdu>, bhs: seq<byte>)
    requires |bhs| == BHS_SIZE
  {
    if sv.mode(hist).scsi then sv.start(hist, bhs) else AhsLength(bhs) <= INCOMING_BUFSIZE
  }

  /** Before full feature phase the whole PDU must fit the login buffer. */
  predicate DataFits(m: Mode, ahsLen: nat, padded: nat) {
    m.scsi || padded == 0 || ahsLen + padded <= INCOMING_BUFSIZE
  }

  datatype Outcome = NeedMore | Reject | Frame(pdu: Pdu, used: nat)

  function AfterHeader(m: Mode, pad: nat, bhs: seq<byte>, ahs: seq<byte>, b: seq<byte>, d: nat): (o: Outcome)
    requires pad > 0 && |bhs| == BHS_SIZE && d <= |b|
    ensures o.Frame? ==> d <= o.used <= |b|
  {
    var e := d + RoundUp(DataLength(bhs), pad);
    if |b| < e then NeedMore else
    var f := e + if m.Ddigest() && e > d then 4 else 0;
    if |b| < f then NeedMore
    else if f > e && b[e..f] != DigestBytes(b[d..e]) then Reject
    else Frame(Pdu(bhs, ahs, b[d..e]), f)
  }

  function AfterAhs(m: Mode, pad: nat, bhs: seq<byte>, ahs: seq<byte>, b: seq<byte>, h: nat): (o: Outcome)
    requires pad > 0 && |bhs| == BHS_SIZE && h <= |b|
    ensures o.Frame? ==> h <= o.used <= |b|
  {
    var d := h + if m.Hdigest() then 4 else 0;
    if |b| < d then NeedMore
    else if m.Hdigest() && b[h..d] != DigestBytes(bhs + ahs) then Reject
    else if !DataFits(m, |ahs|, RoundUp(DataLength(bhs), pad)) then Reject
    else AfterHeader(m, pad, bhs, ahs, b, d)
  }

  /** One PDU from the front of b, following the layout of RFC 7143 section 11.2:
      BHS, AHS, header digest, padded data, data digest. */
  function OneShot(sv: Server, pad: nat, hist: seq<Pdu>, b: seq<byte>): (o: Outcome)
    requires pad > 0
    ensures o.Frame? ==> BHS_SIZE <= o.used <= |b|
  {
    if |b| < BHS_SIZE then NeedMore else
    var bhs := b[..BHS_SIZE];
    var m := sv.mode(hist);
    if !HeaderAdmitted(sv, hist, bhs) then Reject else
    var h := BHS_SIZE + AhsLength(bhs);
    if |b| < h then NeedMore else
    AfterAhs(m, pad, bhs, b[BHS_SIZE..h], b, h)
  }

  datatype Tail = Open(rest: seq<byte>) | Closed

  datatype Parsed = Parsed(frames: seq<Pdu>, tail: Tail)

  /** Every PDU of a byte stream, after those of hist, until the bytes run out or the
      connection is closed for cause. */
  function ParseAll(sv: Server, pad: nat, hist: seq<Pdu>, b: seq<byte>): Parsed
    requires pad > 0
    decreases |b|
  {
    match OneShot(sv, pad, hist, b)
    case NeedMore => Parsed(hist, Open(b))
    case Reject => Parsed(hist, Closed)
    case Frame(p, n) =>
      if !sv.finish(hist, p) then Parsed(hist + [p], Closed)
      else ParseAll(sv, pad, hist + [p], b[n..])
  }

  // ----- parsing is stable under more bytes

  lemma AfterHeaderStable(m: Mode, pad: nat, bhs: seq<byte>, ahs: seq<byte>, a: seq<byte>, b: seq<byte>, d: nat)
    requires pad > 0 && |bhs| == BHS_SIZE && d <= |a|
    requires !AfterHeader(m, pad, bhs, ahs, a, d).NeedMore?
    ensures AfterHeader(m, pad, bhs, ahs, a + b, d) == AfterHeader(m, pad, bhs, ahs, a, d)
  {
    hide DigestBytes, RoundUp;
    var e := d + RoundUp(DataLength(bhs), pad);
    var f := e + if m.Ddigest() && e > d then 4 else 0;
    assert (a + b)[d..e] == a[d..e];
    assert (a + b)[e..f] == a[e..f];
  }

  lemma AfterAhsStable(m: Mode, pad: nat, bhs: seq<byte>, ahs: seq<byte>, a: seq<byte>, b: seq<byte>, h: nat)
    requires pad > 0 && |bhs| == BHS_SIZE && h <= |a|
    requires !AfterAhs(m, pad, bhs, ahs, a, h).NeedMore?
    ensures AfterAhs(m, pad, bhs, ahs, a + b, h) == AfterAhs(m, pad, bhs, ahs, a, h)
  {
    hide DigestBytes, RoundUp, AfterHeader, DataFits;
    var d := h + if m.Hdigest() then 4 else 0;
    assert (a + b)[h..d] == a[h..d];
    if !AfterHeader(m, pad, bhs, ahs, a, d).NeedMore? {
      AfterHeaderStable(m, pad, bhs, ahs, a, b, d);
    }
  }

  lemma OneShotStable(sv: Server, pad: nat, hist: seq<Pdu>, a: seq<byte>, b: seq<byte>)
    requires pad > 0 && !OneShot(sv, pad, hist, a).NeedMore?
    ensures OneShot(sv, pad, hist, a + b) == OneShot(sv, pad, hist, a)
  {
    var ab := a + b;
    assert ab[..BHS_SIZE] == a[..BHS_SIZE];
    var bhs := a[..BHS_SIZE];
    if HeaderAdmitted(sv, hist, bhs) {
      var h := BHS_SIZE + AhsLength(bhs);
      assert ab[BHS_SIZE..h] == a[BHS_SIZE..h];
      AfterAhsStable(sv.mode(hist), pad, bhs, a[BHS_SIZE..h], a, b, h);
    }
  }

  /** The stream may be cut anywhere: parsing a and then going on with b is parsing a + b. */
  lemma {:induction false} ParseAllSplit(sv: Server, pad: nat, hist: seq<Pdu>, a: seq<byte>, b: seq<byte>)
    requires pad > 0
    ensures var p := ParseAll(sv, pad, hist, a);
            ParseAll(sv, pad, hist, a + b)
            == if p.tail.Closed? then p else ParseAll(sv, pad, p.frames, p.tail.rest + b)
    decreases |a|
  {
    var o := OneShot(sv, pad, hist, a);
    if !o.NeedMore? {
      OneShotStable(sv, pad, hist, a, b);
      if o.Frame? && sv.finish(hist, o.pdu) {
        assert (a + b)[o.used..] == a[o.used..] + b;
        ParseAllSplit(sv, pad, hist + [o.pdu], a[o.used..], b);
      }
    }
  }

  // ----- what the parser says of a PDU put together piece by piece

  lemma OneShotHead(sv: Server, pad: nat, hist: seq<Pdu>, bhs: seq<byte>, ahs: seq<byte>, rest: seq<byte>)
    requires pad > 0 && |bhs| == BHS_SIZE && HeaderAdmitted(sv, hist, bhs) && |ahs| <= AhsLength(bhs)
    requires |ahs| < AhsLength(bhs) ==> rest == []
    ensures OneShot(sv, pad, hist, bhs + ahs + rest)
         == if |ahs| < AhsLength(bhs) then NeedMore
            else AfterAhs(sv.mode(hist), pad, bhs, ahs, bhs + ahs + rest, |bhs| + |ahs|)
  {
    hide AfterAhs, HeaderAdmitted;
    var b := bhs + ahs + rest;
    assert b[..BHS_SIZE] == bhs;
    if |ahs| == AhsLength(bhs) {
      assert b[BHS_SIZE..BHS_SIZE + AhsLength(bhs)] == ahs;
    }
  }

  lemma AfterAhsDigest(m: Mode, pad: nat, bhs: seq<byte>, ahs: seq<byte>, dig: seq<byte>, rest: seq<byte>)
    requires pad > 0 && |bhs| == BHS_SIZE && m.Hdigest() && |dig| <= 4 && (|dig| < 4 ==> rest == [])
    requires |dig| == 4 ==> dig != DigestBytes(bhs + ahs)
    ensures AfterAhs(m, pad, bhs, ahs, bhs + ahs + dig + rest, |bhs| + |ahs|)
         == if |dig| < 4 then NeedMore else Reject
  {
    hide DigestBytes, AfterHeader, DataFits;
    var h := |bhs| + |ahs|;
    var b := bhs + ahs + dig + rest;
    if |dig| == 4 {
      assert b[h..h + 4] == dig;
    }
  }

  function HeadBytes(m: Mode, bhs: seq<byte>, ahs: seq<byte>): seq<byte> {
    bhs + ahs + if m.Hdigest() then DigestBytes(bhs + ahs) else []
  }

  lemma AfterAhsHead(m: Mode, pad: nat, bhs: seq<byte>, ahs: seq<byte>, rest: seq<byte>)
    requires pad > 0 && |bhs| == BHS_SIZE
    ensures var head := HeadBytes(m, bhs, ahs);
            AfterAhs(m, pad, bhs, ahs, head + rest, |bhs| + |ahs|)
            == if DataFits(m, |ahs|, RoundUp(DataLength(bhs), pad))
               then AfterHeader(m, pad, bhs, ahs, head + rest, |head|) else Reject
  {
    hide DigestBytes, AfterHeader, DataFits, RoundUp;
    var head := HeadBytes(m, bhs, ahs);
    var h := |bhs| + |ahs|;
    assert (head + rest)[h..|head|] == if m.Hdigest() then DigestBytes(bhs + ahs) else [];
  }

  lemma AfterHeaderData(m: Mode, pad: nat, bhs: seq<byte>, ahs: seq<byte>, head: seq<byte>,
                        data: seq<byte>, dig: seq<byte>)
    requires pad > 0 && |bhs| == BHS_SIZE && |data| <= RoundUp(DataLength(bhs), pad) && |dig| <= 4
    requires !m.Ddigest() || |data| < RoundUp(DataLength(bhs), pad) || data == [] ==> dig == []
    ensures AfterHeader(m, pad, bhs, ahs, head + data + dig, |head|)
         == if |data| < RoundUp(DataLength(bhs), pad) then NeedMore
            else if !m.Ddigest() || data == [] then Frame(Pdu(bhs, ahs, data), |head + data|)
            else if |dig| < 4 then NeedMore
            else if dig != DigestBytes(data) then Reject
            else Frame(Pdu(bhs, ahs, data), |head + data + dig|)
  {
    hide DigestBytes, RoundUp;
    var b := head + data + dig;
    var d := |head|;
    assert b[d..d + |data|] == data;
    if |dig| == 4 {
      assert b[d + |data|..d + |data| + 4] == dig;
    }
  }

  lemma OneShotStart(sv: Server, pad: nat, hist: seq<Pdu>, b: seq<byte>)
    requires pad > 0 && |b| <= BHS_SIZE
    ensures |b| < BHS_SIZE ==> OneShot(sv, pad, hist, b) == NeedMore
    ensures |b| == BHS_SIZE && !HeaderAdmitted(sv, hist, b) ==> OneShot(sv, pad, hist, b) == Reject
  {
    hide AfterAhs, HeaderAdmitted;
    if |b| == BHS_SIZE {
      assert b[..BHS_SIZE] == b;
    }
  }

  /** Header, data and data digest put together, judged by the parser. */
  lemma OneShotAssembled(sv: Server, pad: nat, hist: seq<Pdu>, bhs: seq<byte>, ahs: seq<byte>,
                         data: seq<byte>, dig: seq<byte>)
    requires pad > 0 && |bhs| == BHS_SIZE && HeaderAdmitted(sv, hist, bhs) && |ahs| == AhsLength(bhs)
    requires |data| <= RoundUp(DataLength(bhs), pad) && |dig| <= 4
    requires !sv.mode(hist).Ddigest() || |data| < RoundUp(DataLength(bhs), pad) || data == [] ==> dig == []
    ensures var m := sv.mode(hist);
            var head := HeadBytes(m, bhs, ahs);
            OneShot(sv, pad, hist, head + data + dig)
            == if !DataFits(m, |ahs|, RoundUp(DataLength(bhs), pad)) then Reject
               else if |data| < RoundUp(DataLength(bhs), pad) then NeedMore
               else if !m.Ddigest() || data == [] then Frame(Pdu(bhs, ahs, data), |head + data|)
               else if |dig| < 4 then NeedMore
               else if dig != DigestBytes(data) then Reject
               else Frame(Pdu(bhs, ahs, data), |head + data + dig|)
  {
    hide AfterAhs, AfterHeader, DigestBytes, DataFits, RoundUp, HeaderAdmitted, OneShot;
    var m := sv.mode(hist);
    var head := HeadBytes(m, bhs, ahs);
    var hd := if m.Hdigest() then DigestBytes(bhs + ahs) else [];
    assert head + data + dig == bhs + ahs + (hd + data + dig);
    OneShotHead(sv, pad, hist, bhs, ahs, hd + data + dig);
    assert head + data + dig == head + (data + dig);
    AfterAhsHead(m, pad, bhs, ahs, data + dig);
    AfterHeaderData(m, pad, bhs, ahs, head, data, dig);
  }

  // ----- frames by their layout

  /** The data segment length of a header is n. */
  predicate SaysLength(bhs: seq<byte>, n: nat)
    requires |bhs| == BHS_SIZE
  {
    n < 0x100_0000 && bhs[5..8] == PutBe(n, 3)
  }

  lemma GetThree(x: byte, y: byte, z: byte)
    ensures GetBe([x, y, z]) == x as nat * 0x10000 + y as nat * 0x100 + z as nat
  {
    assert GetBe([]) == 0;
    hide GetBe;
    GetSnoc([], x);
    GetSnoc([x], y);
    GetSnoc([x, y], z);
    assert [] + [x] == [x] && [x] + [y] == [x, y] && [x, y] + [z] == [x, y, z];
  }

  lemma PowThree()
    ensures Pow256(3) == 0x100_0000
  {
    assert Pow256(1) == 256 && Pow256(2) == 0x10000;
  }

  lemma FieldIff(f: seq<byte>, n: nat)
    requires |f| == 3
    ensures n < 0x100_0000 && f == PutBe(n, 3) <==> GetBe(f) == n
  {
    hide GetBe, PutBe, Pow256;
    PutGet(f);
    GetPut(n, 3);
    GetBeBound(f);
    PowThree();
  }

  /** The 24-bit field, read as the source does, is the number that was put there. */
  lemma DataLengthIff(bhs: seq<byte>, n: nat)
    requires |bhs| == BHS_SIZE
    ensures SaysLength(bhs, n) <==> DataLength(bhs) == n
  {
    hide GetBe, PutBe;
    assert bhs[5..8] == [bhs[5], bhs[6], bhs[7]];
    GetThree(bhs[5], bhs[6], bhs[7]);
    FieldIff(bhs[5..8], n);
  }

  /** The parts of a PDU on the wire. */
  function Raw(m: Mode, p: Pdu): seq<byte> {
    p.bhs + p.ahs + (if m.scsi && m.headerDigest then DigestBytes(p.bhs + p.ahs) else [])
    + p.data + if m.scsi && m.dataDigest && p.data != [] then DigestBytes(p.data) else []
  }

  /** raw is the PDU p on the wire, its header saying n bytes of data, as a receiver with this
      history accepts it (section 11.2 of RFC 7143): the AHS has four bytes for each word the
      header says, the data is padded to the next multiple of pad, the digests are there if
      negotiated, that of the data only if there is data, and they are right; before full
      feature phase AHS and data fit the login buffer. */
  predicate Framed(sv: Server, pad: nat, hist: seq<Pdu>, n: nat, p: Pdu, raw: seq<byte>)
    requires pad > 0
  {
    var m := sv.mode(hist);
    && |p.bhs| == BHS_SIZE && SaysLength(p.bhs, n) && |p.ahs| == 4 * p.bhs[4] as nat
    && n <= |p.data| < n + pad && |p.data| % pad == 0
    && (if m.scsi then sv.start(hist, p.bhs) else |p.ahs| <= 8192 && (p.data == [] || |p.ahs| + |p.data| <= 8192))
    && raw == Raw(m, p)
  }

  lemma SameMultiple(a: nat, b: nat, n: nat, y: nat)
    requires y > 0 && n <= a < n + y && n <= b < n + y && a % y == 0 && b % y == 0
    ensures a == b
  {
    var i, j := a / y, b / y;
    assert a == y * i && b == y * j;
    if i < j {
      MulStep(y, i, j);
    } else if j < i {
      MulStep(y, j, i);
    }
  }

  lemma FramedRounds(sv: Server, pad: nat, hist: seq<Pdu>, n: nat, p: Pdu, raw: seq<byte>)
    requires pad > 0 && Framed(sv, pad, hist, n, p, raw)
    ensures |p.data| == RoundUp(DataLength(p.bhs), pad) && |p.ahs| == AhsLength(p.bhs)
  {
    DataLengthIff(p.bhs, n);
    SameMultiple(|p.data|, RoundUp(n, pad), n, pad);
  }

  /** What is framed, the parser takes from the front of any bytes. */
  lemma FramedParses(sv: Server, pad: nat, hist: seq<Pdu>, n: nat, p: Pdu, raw: seq<byte>, rest: seq<byte>)
    requires pad > 0 && Framed(sv, pad, hist, n, p, raw)
    ensures OneShot(sv, pad, hist, raw + rest) == Frame(p, |raw|)
  {
    hide DigestBytes, RoundUp, OneShot, PutBe;
    FramedRounds(sv, pad, hist, n, p, raw);
    var m := sv.mode(hist);
    var head := HeadBytes(m, p.bhs, p.ahs);
    var dig := if m.Ddigest() && p.data != [] then DigestBytes(p.data) else [];
    assert raw == head + p.data + dig;
    OneShotAssembled(sv, pad, hist, p.bhs, p.ahs, p.data, dig);
    assert dig == [] ==> head + p.data == raw;
    OneShotStable(sv, pad, hist, raw, rest);
  }

  lemma ParsedHead(sv: Server, pad: nat, hist: seq<Pdu>, b: seq<byte>)
    requires pad > 0 && OneShot(sv, pad, hist, b).Frame?
    ensures var h := BHS_SIZE + AhsLength(b[..BHS_SIZE]);
            && h <= |b| && HeaderAdmitted(sv, hist, b[..BHS_SIZE])
            && OneShot(sv, pad, hist, b) == AfterAhs(sv.mode(hist), pad, b[..BHS_SIZE], b[BHS_SIZE..h], b, h)
  {
    hide AfterAhs;
  }

  lemma ParsedBody(m: Mode, pad: nat, bhs: seq<byte>, ahs: seq<byte>, b: seq<byte>, n: nat)
    requires pad > 0 && |bhs| == BHS_SIZE && DataLength(bhs) == n && bhs + ahs <= b
    requires AfterAhs(m, pad, bhs, ahs, b, |bhs| + |ahs|).Frame?
    ensures var o := AfterAhs(m, pad, bhs, ahs, b, |bhs| + |ahs|);
            var data := o.pdu.data;
            && o.pdu == Pdu(bhs, ahs, data) && |data| == RoundUp(n, pad) && DataFits(m, |ahs|, |data|)
            && b[..o.used] == HeadBytes(m, bhs, ahs) + data
                              + if m.Ddigest() && data != [] then DigestBytes(data) else []
  {
    hide DigestBytes, RoundUp, DataFits;
    var h := |bhs| + |ahs|;
    var d := h + if m.Hdigest() then 4 else 0;
    var e := d + RoundUp(n, pad);
    var o := AfterHeader(m, pad, bhs, ahs, b, d);
    assert b[..h] == bhs + ahs;
    assert b[..d] == b[..h] + b[h..d] && b[..o.used] == b[..d] + b[d..e] + b[e..o.used];
  }

  /** And what the parser takes is framed. */
  lemma ParsedFramed(sv: Server, pad: nat, hist: seq<Pdu>, n: nat, b: seq<byte>)
    requires pad > 0 && OneShot(sv, pad, hist, b).Frame? && SaysLength(b[..BHS_SIZE], n)
    ensures var o := OneShot(sv, pad, hist, b);
            Framed(sv, pad, hist, n, o.pdu, b[..o.used])
  {
    hide DigestBytes, SaysLength, OneShot, RoundUp, AfterAhs;
    var o := OneShot(sv, pad, hist, b);
    var m, bhs := sv.mode(hist), b[..BHS_SIZE];
    DataLengthIff(bhs, n);
    ParsedHead(sv, pad, hist, b);
    var ahs := b[BHS_SIZE..BHS_SIZE + AhsLength(bhs)];
    assert bhs + ahs <= b;
    ParsedBody(m, pad, bhs, ahs, b, n);
  }

  /** The parser takes p from the front of a stream that says n bytes of data, exactly if what
      it takes is the layout of p. */
  lemma FrameIff(sv: Server, pad: nat, hist: seq<Pdu>, n: nat, b: seq<byte>, p: Pdu, used: nat)
    requires pad > 0 && |b| >= BHS_SIZE && SaysLength(b[..BHS_SIZE], n)
    ensures OneShot(sv, pad, hist, b) == Frame(p, used) <==> used <= |b| && Framed(sv, pad, hist, n, p, b[..used])
  {
    hide OneShot, Framed;
    if OneShot(sv, pad, hist, b) == Frame(p, used) {
      ParsedFramed(sv, pad, hist, n, b);
    }
    if used <= |b| && Framed(sv, pad, hist, n, p, b[..used]) {
      assert b[..used] + b[used..] == b;
      FramedParses(sv, pad, hist, n, p, b[..used], b[used..]);
    }
  }

  function RawAll(sv: Server, hist: seq<Pdu>, frames: seq<Pdu>): seq<byte>
    decreases |frames|
  {
    if frames == [] then [] else Raw(sv.mode(hist), frames[0]) + RawAll(sv, hist + [frames[0]], frames[1..])
  }

  lemma FrameRaw(sv: Server, pad: nat, hist: seq<Pdu>, b: seq<byte>)
    requires pad > 0 && OneShot(sv, pad, hist, b).Frame?
    ensures var o := OneShot(sv, pad, hist, b);
            b[..o.used] == Raw(sv.mode(hist), o.pdu)
  {
    hide OneShot, SaysLength;
    DataLengthIff(b[..BHS_SIZE], DataLength(b[..BHS_SIZE]));
    ParsedFramed(sv, pad, hist, DataLength(b[..BHS_SIZE]), b);
  }

  lemma RawFirst(sv: Server, hist: seq<Pdu>, p: Pdu, more: seq<Pdu>)
    ensures RawAll(sv, hist, [p] + more) == Raw(sv.mode(hist), p) + RawAll(sv, hist + [p], more)
  {
    hide Raw;
    assert ([p] + more)[1..] == more;
  }

  /** The frames of a stream, put on the wire again, are its bytes up to those that are left. */
  lemma {:induction false} FramesAreTheStream(sv: Server, pad: nat, hist: seq<Pdu>, b: seq<byte>)
    requires pad > 0
    ensures var r := ParseAll(sv, pad, hist, b);
            && hist <= r.frames && RawAll(sv, hist, r.frames[|hist|..]) <= b
            && (r.tail.Open? ==> b == RawAll(sv, hist, r.frames[|hist|..]) + r.tail.rest)
    decreases |b|
  {
    hide OneShot, Raw;
    var r, o := ParseAll(sv, pad, hist, b), OneShot(sv, pad, hist, b);
    if o.Frame? {
      FrameRaw(sv, pad, hist, b);
      var now := hist + [o.pdu];
      if !sv.finish(hist, o.pdu) {
        RawFirst(sv, hist, o.pdu, []);
        assert r.frames[|hist|..] == [o.pdu] + [];
        assert RawAll(sv, now, []) == [] && Raw(sv.mode(hist), o.pdu) + [] == Raw(sv.mode(hist), o.pdu);
      } else {
        FramesAreTheStream(sv, pad, now, b[o.used..]);
        assert b == b[..o.used] + b[o.used..];
        RawFirst(sv, hist, o.pdu, r.frames[|now|..]);
        assert r.frames[|hist|..] == [o.pdu] + r.frames[|now|..];
      }
    } else {
      assert r.frames[|hist|..] == [];
    }
  }
}
