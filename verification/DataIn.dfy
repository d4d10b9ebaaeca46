/** The Data-In phase of one READ, or of a bidirectional command whose write phase is over,
    over a transport without RDMA (RFC 7143 section 11.7). */
module DataIn {
  import opened Bytes
  import opened Padding

  datatype Pdu =
    | Data(dataSn: nat, offset: nat, payload: seq<byte>, final: bool, status: bool, statSn: nat)
    | Response(statSn: nat)

  function Payloads(pdus: seq<Pdu>): seq<byte> {
    if pdus == [] then []
    else Payloads(pdus[..|pdus| - 1]) + (if pdus[|pdus| - 1].Data? then pdus[|pdus| - 1].payload else [])
  }

  /** Segments of m bytes needed for n bytes. */
  function Segments(n: nat, m: nat): nat
    requires m > 0
  {
    if n == 0 then 0 else if n <= m then 1 else 1 + Segments(n - m, m)
  }

  lemma DivStep(x: nat, m: nat)
    requires m > 0
    ensures (x + m) / m == x / m + 1
  {
    var d, e := x / m, (x + m) / m;
    assert x == m * d + x % m && x + m == m * e + (x + m) % m;
    assert m * (d + 1) == m * d + m;
    if e < d + 1 {
      MulStep(m, e, d + 1);
    } else if e > d + 1 {
      MulStep(m, d + 1, e);
    }
  }

  lemma SmallDiv(x: nat, m: nat)
    requires x < m
    ensures x / m == 0
  {
  }

  /** The number of segments is the quotient rounded up. */
  lemma {:induction false} SegmentsIsCeiling(n: nat, m: nat)
    requires m > 0
    ensures Segments(n, m) == (n + m - 1) / m
  {
    if n == 0 {
      SmallDiv(m - 1, m);
    } else {
      DivStep(n - 1, m);
      if n <= m {
        SmallDiv(n - 1, m);
      } else {
        SegmentsIsCeiling(n - m, m);
        assert n - m + m - 1 == n - 1;
      }
    }
  }

  /** Data-In PDU number j, for the bytes from offset on: as many as a PDU may carry, or those
      that are left of n. */
  predicate IsSegment(p: Pdu, j: nat, offset: nat, m: nat, n: nat, firstSn: nat) {
    && p.Data? && p.dataSn == firstSn + j && p.offset == offset
    && 0 < |p.payload| <= m && (|p.payload| == m || offset + |p.payload| == n)
  }

  /** Data-In PDUs whose payloads are consecutive segments of b, from its first byte. */
  predicate Contiguous(pdus: seq<Pdu>, b: seq<byte>, m: nat, firstSn: nat) {
    && (forall j :: 0 <= j < |pdus| ==> IsSegment(pdus[j], j, |Payloads(pdus[..j])|, m, |b|, firstSn))
    && Payloads(pdus) <= b
  }

  /** F and the status ride on no PDU before position last. */
  predicate Plain(pdus: seq<Pdu>, last: int) {
    forall j :: 0 <= j < |pdus| && j < last ==> pdus[j].Data? && !pdus[j].final && !pdus[j].status
  }

  /** All Data-In PDUs of a transfer of b: consecutive DataSN, contiguous offsets, payloads
      that make up b, the F bit on exactly the last, and the status there too if collapse. */
  predicate WholeTransfer(pdus: seq<Pdu>, b: seq<byte>, m: nat, firstSn: nat, collapse: bool)
    requires m > 0
  {
    && |pdus| == Segments(|b|, m)
    && Contiguous(pdus, b, m, firstSn)
    && Payloads(pdus) == b
    && Plain(pdus, |pdus| - 1)
    && (pdus != [] ==> pdus[|pdus| - 1].final && pdus[|pdus| - 1].status == collapse)
  }

  lemma Nothing(b: seq<byte>, m: nat, firstSn: nat)
    requires m > 0
    ensures Segments(0, m) == 0 && Contiguous([], b, m, firstSn) && Payloads([]) == [] && Plain([], 0) && Plain([], -1)
    ensures b == [] ==> b[..0] == []
  {
  }

  lemma PayloadsOn(data: seq<Pdu>, p: Pdu)
    requires p.Data?
    ensures Payloads(data + [p]) == Payloads(data) + p.payload
  {
    assert (data + [p])[..|data|] == data;
  }

  lemma FrontOn(data: seq<Pdu>, p: Pdu, j: nat)
    requires j <= |data|
    ensures (data + [p])[..j] == data[..j] && (data + [p])[j] == if j < |data| then data[j] else p
  {
  }

  lemma ContiguousOn(data: seq<Pdu>, p: Pdu, b: seq<byte>, at: nat, m: nat, firstSn: nat)
    requires m > 0 && at < |b| && Contiguous(data, b, m, firstSn) && Payloads(data) == b[..at]
    requires p.Data? && p.dataSn == firstSn + |data| && p.offset == at && 0 < |p.payload| <= m
    requires at + |p.payload| <= |b| && p.payload == b[at..at + |p.payload|]
    requires |p.payload| == m || at + |p.payload| == |b|
    requires Payloads(data + [p]) == b[..at + |p.payload|]
    ensures Contiguous(data + [p], b, m, firstSn)
  {
    var all := data + [p];
    assert b[..at + |p.payload|] <= b;
    assert IsSegment(p, |data|, |Payloads(data)|, m, |b|, firstSn);
    hide Payloads, IsSegment;
    forall j | 0 <= j < |all|
      ensures IsSegment(all[j], j, |Payloads(all[..j])|, m, |b|, firstSn)
    {
      FrontOn(data, p, j);
    }
  }

  lemma PlainOn(data: seq<Pdu>, p: Pdu)
    requires Plain(data, |data|) && p.Data?
    ensures Plain(data + [p], |data|)
    ensures !p.final && !p.status ==> Plain(data + [p], |data| + 1)
  {
  }

  /** One more segment: p carries the next bytes of b. */
  lemma AppendSegment(data: seq<Pdu>, p: Pdu, b: seq<byte>, at: nat, m: nat, firstSn: nat)
    requires m > 0 && at < |b| && Contiguous(data, b, m, firstSn) && Payloads(data) == b[..at] && Plain(data, |data|)
    requires p.Data? && p.dataSn == firstSn + |data| && p.offset == at && 0 < |p.payload| <= m
    requires at + |p.payload| <= |b| && p.payload == b[at..at + |p.payload|]
    requires |p.payload| == m || at + |p.payload| == |b|
    requires at + |p.payload| < |b| ==> !p.final && !p.status
    ensures Contiguous(data + [p], b, m, firstSn) && Payloads(data + [p]) == b[..at + |p.payload|]
    ensures Plain(data + [p], if at + |p.payload| < |b| then |data + [p]| else |data|)
    ensures Segments(|b| - at, m) == 1 + Segments(|b| - at - |p.payload|, m)
  {
    hide Contiguous, Plain, Payloads;
    PayloadsOn(data, p);
    assert b[..at] + p.payload == b[..at + |p.payload|];
    ContiguousOn(data, p, b, at, m, firstSn);
    PlainOn(data, p);
  }

  /** What is left to send when a segment has gone out. */
  lemma SentOne(c: seq<byte>, at: nat, n: nat, m: nat, w: seq<byte>)
    requires m > 0 && at < n && n + PAD_ROOM <= |c| && |w| == n && w[at..] == Sent(c, at, n, m)
    ensures var k := Min(m, n - at);
            && w[at..at + k] == c[at..at + k]
            && w[at + k..] == Sent(Wiped(c, at, k), at + k, n, m)
            && Leaves(c, at, n, m) == Leaves(Wiped(c, at, k), at + k, n, m)
  {
    hide Wiped;
    var k := Min(m, n - at);
    assert w[at..][..k] == w[at..at + k] && w[at..][k..] == w[at + k..];
  }

  /** The transfer of w has got to offset at. */
  ghost predicate Partly(data: seq<Pdu>, w: seq<byte>, at: nat, n: nat, m: nat, firstSn: nat, status: bool)
    requires m > 0
  {
    && at <= n == |w| && |data| + Segments(n - at, m) == Segments(n, m)
    && Contiguous(data, w, m, firstSn) && Payloads(data) == w[..at]
    && Plain(data, if at < n then |data| else |data| - 1)
    && (at == n && n > 0 ==>
          data != [] && data[|data| - 1].Data? && data[|data| - 1].final && data[|data| - 1].status == status)
  }

  lemma PartlyStarts(w: seq<byte>, n: nat, m: nat, firstSn: nat, status: bool)
    requires m > 0 && |w| == n
    ensures Partly([], w, 0, n, m, firstSn, status)
  {
    Nothing(w, m, firstSn);
    hide Contiguous, Plain, Payloads, Segments;
  }

  lemma PartlyOn(data: seq<Pdu>, p: Pdu, w: seq<byte>, at: nat, n: nat, m: nat, firstSn: nat, status: bool)
    requires m > 0 && at < n && Partly(data, w, at, n, m, firstSn, status)
    requires var to := at + Min(m, n - at);
             && p.Data? && p.dataSn == firstSn + |data| && p.offset == at && p.payload == w[at..to]
             && p.final == (to == n) && p.status == (to == n && status)
    ensures Partly(data + [p], w, at + Min(m, n - at), n, m, firstSn, status)
  {
    hide Contiguous, Plain, Payloads, Segments;
    AppendSegment(data, p, w, at, m, firstSn);
  }

  lemma PartlyEnds(data: seq<Pdu>, w: seq<byte>, n: nat, m: nat, firstSn: nat, status: bool)
    requires m > 0 && Partly(data, w, n, n, m, firstSn, status)
    ensures |data| == Segments(n, m) && WholeTransfer(data, w, m, firstSn, status && n > 0)
    ensures data != [] <==> n > 0
  {
    Nothing(w, m, firstSn);
    assert w[..n] == w;
    hide Contiguous, Plain;
  }

  lemma NothingLeft(c: seq<byte>, n: nat, m: nat)
    requires m > 0 && n + PAD_ROOM <= |c|
    ensures Leaves(c, n, n, m) == c
  {
  }

  class Task {
    const good: bool              // SAM_STAT_GOOD
    const bidi: bool
    const length: nat             // the transfer length
    const maxXmit: nat            // MaxRecvDataSegmentLength of the initiator
    const buf: array<byte>        // the in-buffer, with what lies behind it
    var offset: nat
    var expR2tsn: nat
    var statSn: nat
    var onTx: bool                // the task is in tx_clist
    var freed: nat

    constructor (buf: array<byte>, length: nat, maxXmit: nat, good: bool, bidi: bool, expR2tsn: nat, statSn: nat)
      requires maxXmit > 0
      ensures this.buf == buf && this.length == length && this.maxXmit == maxXmit && this.good == good
        && this.bidi == bidi
      ensures offset == 0 && this.expR2tsn == expR2tsn && this.statSn == statSn && onTx && freed == 0
    {
      this.buf, this.length, this.maxXmit, this.good, this.bidi := buf, length, maxXmit, good, bidi;
      offset, this.expR2tsn, this.statSn, onTx, freed := 0, expR2tsn, statSn, true, 0;
    }

    /** The paddings have room, and the offset is in the transfer. */
    predicate Fits()
      reads this
    {
      maxXmit > 0 && offset <= length && length + PAD_ROOM <= buf.Length
    }

    /** iscsi_data_rsp_build: the payload is where offset points to in the buffer. */
    method DataRspBuild() returns (p: Pdu)
      requires Fits() && offset < length
      modifies `offset, `expR2tsn, `statSn
      ensures var last := offset == length;
              && offset == old(offset) + Min(maxXmit, length - old(offset)) && expR2tsn == old(expR2tsn) + 1
              && statSn == old(statSn) + (if last && good && !bidi then 1 else 0)
              && p == Data(old(expR2tsn), old(offset), buf[old(offset)..offset], last, last && good && !bidi,
                           old(statSn))
    {
      var datalen := length - offset;
      var final, status := false, false;
      var sn := expR2tsn;
      expR2tsn := expR2tsn + 1;
      if datalen <= maxXmit {
        final := true;
        status := good && !bidi;
      } else {
        datalen := maxXmit;
      }
      p := Data(sn, offset, buf[offset..offset + datalen], final, status, statSn);
      if status {
        statSn := statSn + 1;
      }
      offset := offset + datalen;
    }

    /** iscsi_scsi_cmd_tx_start takes the task off the list; the transmit machine pads a Data-In
        in the buffer; iscsi_scsi_cmd_tx_done puts the task back while there is more to send,
        or else frees it. */
    method SendOne() returns (p: Pdu)
      requires onTx && Fits()
      modifies this, buf
      ensures Fits()
      ensures if old(offset) < length then
                var n := Min(maxXmit, length - old(offset));
                var last := offset == length;
                && offset == old(offset) + n && expR2tsn == old(expR2tsn) + 1
                && statSn == old(statSn) + (if last && good && !bidi then 1 else 0)
                && p == Data(old(expR2tsn), old(offset), old(buf[..])[old(offset)..offset], last, last && good && !bidi,
                             old(statSn))
                && onTx == !(last && good && !bidi)
                && buf[..] == Wiped(old(buf[..]), old(offset), n)
              else
                p == Response(old(statSn)) && statSn == old(statSn) + 1 && !onTx
                && offset == old(offset) && expR2tsn == old(expR2tsn) && buf[..] == old(buf[..])
      ensures freed == old(freed) + if onTx then 0 else 1
    {
      onTx := false;
      if offset < length {
        var at := offset;
        p := DataRspBuild();
        var size := PadInPlace(buf, at, |p.payload|);
      } else {
        p := Response(statSn);
        statSn := statSn + 1;
      }
      if p.Data? && (offset < length || !good || bidi) {
        onTx := true;
      } else {
        freed := freed + 1;
      }
    }

    /** The transmit loop of the task, to its end. What goes out is the buffer as the paddings
        leave it, segment by segment. */
    method TransmitAll() returns (sent: seq<Pdu>)
      requires onTx && Fits() && offset == 0
      modifies this, buf
      ensures var collapse := good && !bidi && length > 0;
              var k := Segments(length, maxXmit);
              && |sent| == k + (if collapse then 0 else 1)
              && WholeTransfer(sent[..k], Sent(old(buf[..]), 0, length, maxXmit), maxXmit, old(expR2tsn), collapse)
              && (if collapse then sent[k - 1].statSn == old(statSn) else sent[k] == Response(old(statSn)))
      ensures buf[..] == Leaves(old(buf[..]), 0, length, maxXmit)
      ensures statSn == old(statSn) + 1
      ensures !onTx && freed == old(freed) + 1
    {
      hide Segments, Payloads, Contiguous, Plain, Sent, Wiped, Leaves, Partly, WholeTransfer;
      sent := [];
      ghost var data: seq<Pdu> := [];
      ghost var w := Sent(buf[..], 0, length, maxXmit);
      ghost var status := good && !bidi;
      PartlyStarts(w, length, maxXmit, expR2tsn, status);
      while onTx
        invariant Fits() && data <= sent && expR2tsn == old(expR2tsn) + |data|
        invariant w[offset..] == Sent(buf[..], offset, length, maxXmit)
        invariant Leaves(buf[..], offset, length, maxXmit) == Leaves(old(buf[..]), 0, length, maxXmit)
        invariant Partly(data, w, offset, length, maxXmit, old(expR2tsn), status)
        invariant onTx ==> sent == data && statSn == old(statSn) && freed == old(freed)
        invariant onTx && offset == length ==> !(status && length > 0)
        invariant !onTx ==> offset == length && statSn == old(statSn) + 1 && freed == old(freed) + 1
        invariant !onTx ==> if status && length > 0
                              then sent == data && data != [] && data[|data| - 1].Data?
                                && data[|data| - 1].statSn == old(statSn)
                              else sent == data + [Response(old(statSn))]
        decreases onTx, length - offset
      {
        ghost var at, c := offset, buf[..];
        var p := SendOne();
        sent := sent + [p];
        if at < length {
          SentOne(c, at, length, maxXmit, w);
          PartlyOn(data, p, w, at, length, maxXmit, old(expR2tsn), status);
          data := data + [p];
        }
      }
      PartlyEnds(data, w, length, maxXmit, old(expR2tsn), status);
      NothingLeft(buf[..], length, maxXmit);
      assert sent[..|data|] == data;
    }
  }

  /** What an initiator that stores each payload at its offset ends up with. */
  function Reassemble(pdus: seq<Pdu>, room: seq<byte>): seq<byte> {
    if pdus == [] then room
    else
      var r := Reassemble(pdus[..|pdus| - 1], room);
      var p := pdus[|pdus| - 1];
      if p.Data? && p.offset + |p.payload| <= |r| then r[..p.offset] + p.payload + r[p.offset + |p.payload|..] else r
  }

  lemma PayloadsWithin(pdus: seq<Pdu>, b: seq<byte>, m: nat, firstSn: nat)
    requires Contiguous(pdus, b, m, firstSn)
    ensures |Payloads(pdus)| <= |b|
  {
  }

  lemma Paste(b: seq<byte>, room: seq<byte>, at: nat, n: nat)
    requires at + n <= |b| == |room|
    ensures var r := b[..at] + room[at..];
            r[..at] + b[at..at + n] + r[at + n..] == b[..at + n] + room[at + n..]
  {
    assert b[..at] + b[at..at + n] == b[..at + n];
  }

  lemma LastSegment(front: seq<Pdu>, p: Pdu, b: seq<byte>, m: nat, firstSn: nat)
    requires Contiguous(front + [p], b, m, firstSn)
    ensures p.Data? && p.offset == |Payloads(front)| && Payloads(front) + p.payload <= b
  {
    hide Payloads;
    var pdus := front + [p];
    FrontOn(front, p, |front|);
    assert IsSegment(pdus[|front|], |front|, |Payloads(pdus[..|front|])|, m, |b|, firstSn);
    PayloadsOn(front, p);
  }

  lemma FrontContiguous(front: seq<Pdu>, p: Pdu, b: seq<byte>, m: nat, firstSn: nat)
    requires Contiguous(front + [p], b, m, firstSn) && Payloads(front) <= b
    ensures Contiguous(front, b, m, firstSn)
  {
    hide Payloads, IsSegment;
    var pdus := front + [p];
    forall j | 0 <= j < |front|
      ensures IsSegment(front[j], j, |Payloads(front[..j])|, m, |b|, firstSn)
    {
      FrontOn(front, p, j);
      assert IsSegment(pdus[j], j, |Payloads(pdus[..j])|, m, |b|, firstSn);
    }
  }

  lemma LastPart(a: seq<byte>, c: seq<byte>, b: seq<byte>)
    requires a + c <= b
    ensures |a| + |c| <= |b| && a <= b && a == b[..|a|] && c == b[|a|..|a| + |c|]
  {
    assert (a + c)[..|a|] == a && (a + c)[|a|..] == c;
  }

  lemma ContiguousFront(pdus: seq<Pdu>, b: seq<byte>, m: nat, firstSn: nat)
    requires Contiguous(pdus, b, m, firstSn) && pdus != []
    ensures var front, p := pdus[..|pdus| - 1], pdus[|pdus| - 1];
            && Contiguous(front, b, m, firstSn)
            && p.Data? && p.offset == |Payloads(front)| && p.offset + |p.payload| <= |b|
            && Payloads(front) == b[..p.offset] && p.payload == b[p.offset..p.offset + |p.payload|]
  {
    hide Payloads, Contiguous;
    var front, p := pdus[..|pdus| - 1], pdus[|pdus| - 1];
    assert pdus == front + [p];
    LastSegment(front, p, b, m, firstSn);
    LastPart(Payloads(front), p.payload, b);
    FrontContiguous(front, p, b, m, firstSn);
  }

  /** The initiator rebuilds the buffer from offsets and payloads. */
  lemma {:induction false} ReassembleContiguous(pdus: seq<Pdu>, b: seq<byte>, m: nat, firstSn: nat, room: seq<byte>)
    requires Contiguous(pdus, b, m, firstSn) && |room| == |b|
    ensures var n := |Payloads(pdus)|;
            Reassemble(pdus, room) == b[..n] + room[n..]
    decreases |pdus|
  {
    hide Contiguous;
    PayloadsWithin(pdus, b, m, firstSn);
    if pdus != [] {
      var front, p := pdus[..|pdus| - 1], pdus[|pdus| - 1];
      ContiguousFront(pdus, b, m, firstSn);
      ReassembleContiguous(front, b, m, firstSn, room);
      assert |Payloads(pdus)| == p.offset + |p.payload|;
      Paste(b, room, p.offset, |p.payload|);
    }
  }

  lemma WholeTransferReassembles(pdus: seq<Pdu>, b: seq<byte>, m: nat, firstSn: nat, collapse: bool, room: seq<byte>)
    requires m > 0 && WholeTransfer(pdus, b, m, firstSn, collapse) && |room| == |b|
    ensures Reassemble(pdus, room) == b
  {
    ReassembleContiguous(pdus, b, m, firstSn, room);
  }

  /** The initiator ends up with the buffer as it was before the transfer, exactly if the bytes
      that the padding of an earlier segment covers are zeros. */
  lemma ArrivesIff(pdus: seq<Pdu>, c: seq<byte>, n: nat, m: nat, firstSn: nat, collapse: bool, room: seq<byte>)
    requires m > 0 && n + PAD_ROOM <= |c| && |room| == n
    requires WholeTransfer(pdus, Sent(c, 0, n, m), m, firstSn, collapse)
    ensures Reassemble(pdus, room) == c[..n] <==> forall p: nat :: p < n && Covered(p, m) ==> c[p] == 0
  {
    hide Sent, WholeTransfer, Covered;
    WholeTransferReassembles(pdus, Sent(c, 0, n, m), m, firstSn, collapse, room);
    SentIff(c, n, m);
  }

  lemma ResponseStoresNothing(sent: seq<Pdu>, k: nat, room: seq<byte>)
    requires |sent| == k || (|sent| == k + 1 && sent[k].Response?)
    ensures Reassemble(sent, room) == Reassemble(sent[..k], room)
  {
    assert |sent| == k ==> sent[..k] == sent;
  }

  /** A whole READ: the Data-In phase of a task and the initiator that stores what arrives. */
  method Read(task: Task, room: seq<byte>) returns (got: seq<byte>)
    requires task.onTx && task.Fits() && task.offset == 0 && |room| == task.length
    modifies task, task.buf
    ensures got == Sent(old(task.buf[..]), 0, task.length, task.maxXmit)
    ensures got == old(task.buf[..task.length]) <==>
              forall p: nat :: p < task.length && Covered(p, task.maxXmit) ==> old(task.buf[p]) == 0
    ensures task.maxXmit % PAD_WORD_LEN == 0 || task.length <= task.maxXmit ==> got == old(task.buf[..task.length])
  {
    hide Sent, WholeTransfer, Segments, Leaves, Covered;
    ghost var c := task.buf[..];
    ghost var firstSn, collapse := task.expR2tsn, task.good && !task.bidi && task.length > 0;
    var sent := task.TransmitAll();
    got := Reassemble(sent, room);
    ghost var k := Segments(task.length, task.maxXmit);
    ResponseStoresNothing(sent, k, room);
    WholeTransferReassembles(sent[..k], Sent(c, 0, task.length, task.maxXmit), task.maxXmit, firstSn, collapse, room);
    SentIff(c, task.length, task.maxXmit);
    AlwaysSent(c, task.length, task.maxXmit);
  }

  /** A READ of 1026 bytes by an initiator that takes 513 in a PDU: the three zeros behind the
      first half stand where the second half starts. */
  lemma OddReadLosesByte(c: seq<byte>)
    requires |c| == 1026 + PAD_ROOM && c[513] != 0
    ensures Sent(c, 0, 1026, 513)[513] == 0 && Sent(c, 0, 1026, 513) != c[..1026]
  {
    OddSegments(c, 1026, 513);
  }
}
