/** The data phase of one WRITE: immediate data, unsolicited Data-Out and R2T-solicited
    Data-Out (RFC 7143 sections 11.7 and 11.8). */
module WriteTransfer {
  import opened Bytes

  /** Where the initiator is: still sending unsolicited data, waiting for the target, or
      answering an R2T up to byte hi. */
  datatype Phase = Sending | Waiting | Answering(hi: nat)

  datatype Kind = Immediate | Unsolicited | Solicited

  datatype Piece = Piece(lo: nat, hi: nat, kind: Kind)

  datatype R2t = R2t(sn: nat, offset: nat, length: nat)

  /** The fields of the task, the initiator's phase, and what has happened: how many bytes
      have arrived, in which pieces, which R2Ts were sent and how often the command has
      been queued for execution. */
  datatype Transfer = Transfer(
    total: nat,
    offset: nat,
    r2tCount: int,
    unsol: bool,
    pending: bool,
    inTx: nat,
    queued: nat,
    buffer: seq<byte>,
    phase: Phase,
    received: nat,
    pieces: seq<Piece>,
    r2ts: seq<R2t>)

  datatype Event =
    | Turn                                                        // CmdSN order reaches the command
    | DataOut(offset: nat, bytes: seq<byte>, final: bool)         // one Data-Out PDU
    | SendR2t                                                     // the tx list reaches the task

  /** iscsi_scsi_cmd_execute for a WRITE. */
  function Execute(s: Transfer): Transfer {
    if s.r2tCount != 0 then (if s.unsol then s else s.(inTx := s.inTx + 1))
    else s.(offset := 0, queued := s.queued + 1)
  }

  /** The command PDU: imm bytes of immediate data, F clear when unsolicited data follows,
      and whether it must first wait for its CmdSN. */
  function Begin(data: seq<byte>, room: seq<byte>, imm: nat, final: bool, ahead: bool): Transfer
    requires imm <= |data| == |room|
  {
    var s := Transfer(|data|, imm, |data| - imm, !final, ahead, 0, 0, Put(room, 0, data[..imm]),
                      if final then Waiting else Sending, imm, [Piece(0, imm, Immediate)], []);
    if ahead then s else Execute(s)
  }

  function MinBurst(s: Transfer, maxBurst: nat): nat {
    if 0 <= s.r2tCount < maxBurst then s.r2tCount else maxBurst
  }

  /** What the initiator may do, and when the target moves by itself. Only the Data-Out that
      ends the unsolicited data may be empty. */
  predicate Enabled(s: Transfer, data: seq<byte>, e: Event) {
    match e
    case Turn => s.pending
    case SendR2t => s.inTx > 0 && s.r2tCount != 0
    case DataOut(at, bytes, final) =>
      && !s.phase.Waiting? && at == s.received && (bytes != [] || (s.phase.Sending? && final))
      && at + |bytes| <= |data| && (s.phase.Answering? ==> at + |bytes| <= s.phase.hi)
      && bytes == data[at..at + |bytes|]
      && (s.phase.Answering? ==> (final <==> at + |bytes| == s.phase.hi))
      && (s.phase.Sending? && at + |bytes| == |data| ==> final)
  }

  function Step(s: Transfer, maxBurst: nat, e: Event): Transfer
    requires e.DataOut? ==> e.offset + |e.bytes| <= |s.buffer|
  {
    match e
    case Turn => Execute(s.(pending := false))
    case SendR2t =>
      s.(inTx := if s.inTx > 0 then s.inTx - 1 else 0,
         r2ts := s.r2ts + [R2t(|s.r2ts|, s.offset, MinBurst(s, maxBurst))],
         phase := Answering(s.offset + MinBurst(s, maxBurst)))
    case DataOut(at, bytes, final) =>
      var n := |bytes|;
      var s1 := s.(buffer := Put(s.buffer, at, bytes),
                   offset := s.offset + n, r2tCount := s.r2tCount - n, received := s.received + n,
                   pieces := s.pieces + [Piece(at, at + n, if s.phase.Sending? then Unsolicited else Solicited)],
                   phase := if final then Waiting else s.phase);
      if !final then s1
      else if s.phase.Sending? then
        var s2 := s1.(unsol := false);
        if s2.pending then s2 else Execute(s2)
      else Execute(s1)
  }

  /** Pieces that follow each other from lo to hi without gap or overlap. */
  predicate Tiles(pieces: seq<Piece>, lo: nat, hi: nat) {
    if pieces == [] then lo == hi
    else
      var last := pieces[|pieces| - 1];
      last.hi == hi && last.lo <= last.hi && Tiles(pieces[..|pieces| - 1], lo, last.lo)
  }

  /** The R2Ts sent so far ask for consecutive ranges of maxBurst bytes; only one that asks for
      the end of the transfer may ask for fewer. */
  predicate R2tsTile(r2ts: seq<R2t>, maxBurst: nat, total: nat) {
    && (forall i :: 0 <= i < |r2ts| ==> r2ts[i].sn == i && 0 < r2ts[i].length <= maxBurst)
    && (forall i :: 0 < i < |r2ts| ==> r2ts[i].offset == r2ts[i - 1].offset + r2ts[i - 1].length)
    && (forall i :: 0 <= i < |r2ts| ==> r2ts[i].offset + r2ts[i].length <= total)
    && (forall i :: 0 <= i < |r2ts| ==> r2ts[i].length == maxBurst || r2ts[i].offset + r2ts[i].length == total)
  }

  /** How many bytes came in answer to R2Ts. */
  function SolicitedBytes(pieces: seq<Piece>): int {
    if pieces == [] then 0
    else
      var last := pieces[|pieces| - 1];
      SolicitedBytes(pieces[..|pieces| - 1]) + if last.kind.Solicited? then last.hi - last.lo else 0
  }

  /** What came unasked ends where the first R2T starts. */
  predicate AskedFor(pieces: seq<Piece>, r2ts: seq<R2t>, received: nat) {
    if r2ts == [] then SolicitedBytes(pieces) == 0 else r2ts[0].offset + SolicitedBytes(pieces) == received
  }

  lemma {:induction false} R2tAt(r2ts: seq<R2t>, maxBurst: nat, total: nat, i: nat)
    requires R2tsTile(r2ts, maxBurst, total) && i < |r2ts|
    ensures r2ts[i].offset == r2ts[0].offset + i * maxBurst
  {
    if i > 0 {
      R2tAt(r2ts, maxBurst, total, i - 1);
      assert r2ts[i].offset < total;
      assert r2ts[i - 1].length == maxBurst;
      assert (i - 1) * maxBurst + maxBurst == i * maxBurst;
    }
  }

  /** n is bytes / burst rounded up. */
  predicate CeilingOf(n: nat, bytes: int, burst: nat) {
    (n - 1) * burst < bytes <= n * burst || n == bytes == 0
  }

  /** R2Ts that cover a range to the end of the transfer are as few as can be. */
  lemma R2tsCount(r2ts: seq<R2t>, maxBurst: nat, total: nat)
    requires R2tsTile(r2ts, maxBurst, total) && r2ts != []
    requires r2ts[|r2ts| - 1].offset + r2ts[|r2ts| - 1].length == total
    ensures CeilingOf(|r2ts|, total - r2ts[0].offset, maxBurst)
  {
    var i := |r2ts| - 1;
    R2tAt(r2ts, maxBurst, total, i);
    assert i * maxBurst + maxBurst == |r2ts| * maxBurst;
  }

  ghost predicate Inv(s: Transfer, data: seq<byte>, maxBurst: nat) {
    && s.total == |data| == |s.buffer| && s.received <= s.total
    && s.buffer[..s.received] == data[..s.received]
    && s.received + s.r2tCount == s.total
    && s.offset == (if s.queued > 0 then 0 else s.received)
    && Tiles(s.pieces, 0, s.received)
    && R2tsTile(s.r2ts, maxBurst, s.total) && AskedFor(s.pieces, s.r2ts, s.received)
    && (s.unsol <==> s.phase.Sending?)
    && (s.unsol ==> s.r2tCount > 0 && s.r2ts == [])
    && (match s.phase
        case Sending => s.inTx == 0 && s.queued == 0
        case Answering(hi) =>
          && !s.pending && s.inTx == 0 && s.queued == 0 && s.received < hi <= s.total
          && s.r2ts != [] && s.r2ts[|s.r2ts| - 1].offset + s.r2ts[|s.r2ts| - 1].length == hi
        case Waiting =>
          && (s.r2ts != [] ==> !s.pending && s.r2ts[|s.r2ts| - 1].offset + s.r2ts[|s.r2ts| - 1].length == s.received)
          && s.inTx == (if !s.pending && s.r2tCount != 0 then 1 else 0)
          && s.queued == (if !s.pending && s.r2tCount == 0 then 1 else 0))
  }

  lemma BeginKeeps(data: seq<byte>, room: seq<byte>, imm: nat, final: bool, ahead: bool, maxBurst: nat)
    requires imm <= |data| == |room| && (!final ==> imm < |data|)
    ensures Inv(Begin(data, room, imm, final, ahead), data, maxBurst)
  {
    var s := Begin(data, room, imm, final, ahead);
    assert s.buffer[..imm] == data[..imm];
    assert [Piece(0, imm, Immediate)][..0] == [];
    assert SolicitedBytes(s.pieces) == 0;
  }

  lemma PutGrows(buffer: seq<byte>, data: seq<byte>, at: nat, n: nat)
    requires at + n <= |data| == |buffer| && buffer[..at] == data[..at]
    ensures Put(buffer, at, data[at..at + n])[..at + n] == data[..at + n]
  {
    assert data[..at + n] == data[..at] + data[at..at + n];
  }

  lemma DataKeeps(s: Transfer, data: seq<byte>, maxBurst: nat, e: Event)
    requires maxBurst > 0 && Inv(s, data, maxBurst) && e.DataOut? && Enabled(s, data, e)
    ensures Inv(Step(s, maxBurst, e), data, maxBurst)
  {
    hide Put, R2tsTile;
    PutGrows(s.buffer, data, e.offset, |e.bytes|);
    var kind := if s.phase.Sending? then Unsolicited else Solicited;
    var piece := Piece(e.offset, e.offset + |e.bytes|, kind);
    assert (s.pieces + [piece])[..|s.pieces|] == s.pieces;
  }

  lemma SendKeeps(s: Transfer, data: seq<byte>, maxBurst: nat)
    requires maxBurst > 0 && Inv(s, data, maxBurst) && Enabled(s, data, SendR2t)
    ensures Inv(Step(s, maxBurst, SendR2t), data, maxBurst)
  {
    hide Tiles, Put, SolicitedBytes;
  }

  lemma StepKeeps(s: Transfer, data: seq<byte>, maxBurst: nat, e: Event)
    requires maxBurst > 0 && Inv(s, data, maxBurst) && Enabled(s, data, e)
    ensures e.DataOut? ==> e.offset + |e.bytes| <= |s.buffer|
    ensures Inv(Step(s, maxBurst, e), data, maxBurst)
  {
    match e
    case Turn =>
    case SendR2t => SendKeeps(s, data, maxBurst);
    case DataOut(_, _, _) => DataKeeps(s, data, maxBurst, e);
  }

  // ----- every run

  /** A run in which the initiator keeps to its rules. */
  predicate Follows(s: Transfer, data: seq<byte>, maxBurst: nat, events: seq<Event>)
    requires |s.buffer| == |data|
    decreases |events|
  {
    events != [] ==> Enabled(s, data, events[0]) && Follows(Step(s, maxBurst, events[0]), data, maxBurst, events[1..])
  }

  function Run(s: Transfer, data: seq<byte>, maxBurst: nat, events: seq<Event>): Transfer
    requires |s.buffer| == |data| && Follows(s, data, maxBurst, events)
    decreases |events|
  {
    if events == [] then s else Run(Step(s, maxBurst, events[0]), data, maxBurst, events[1..])
  }

  /** How much can still happen. */
  function Rank(s: Transfer): int {
    4 * (s.total - s.received) + (if s.pending then 2 else 0) + s.inTx + if s.phase.Sending? then 2 else 0
  }

  lemma StepDescends(s: Transfer, data: seq<byte>, maxBurst: nat, e: Event)
    requires maxBurst > 0 && Inv(s, data, maxBurst) && Enabled(s, data, e)
    ensures 0 <= Rank(Step(s, maxBurst, e)) < Rank(s)
  {
    hide Tiles, R2tsTile, Put;
    StepKeeps(s, data, maxBurst, e);
  }

  lemma LengthKept(s: Transfer, data: seq<byte>, maxBurst: nat)
    requires Inv(s, data, maxBurst)
    ensures |s.buffer| == |data|
  {
  }

  lemma {:induction false} RunKeeps(s: Transfer, data: seq<byte>, maxBurst: nat, events: seq<Event>)
    requires maxBurst > 0 && Inv(s, data, maxBurst) && Follows(s, data, maxBurst, events)
    ensures Inv(Run(s, data, maxBurst, events), data, maxBurst)
    ensures |events| <= Rank(s) - Rank(Run(s, data, maxBurst, events))
    decreases |events|
  {
    hide Inv, Rank, Step, Enabled;
    if events != [] {
      LengthKept(s, data, maxBurst);
      StepKeeps(s, data, maxBurst, events[0]);
      StepDescends(s, data, maxBurst, events[0]);
      LengthKept(Step(s, maxBurst, events[0]), data, maxBurst);
      RunKeeps(Step(s, maxBurst, events[0]), data, maxBurst, events[1..]);
    }
  }

  /** Until the command is queued something can always happen, so no WRITE gets stuck. */
  lemma NeverStuck(s: Transfer, data: seq<byte>, maxBurst: nat) returns (e: Event)
    requires maxBurst > 0 && Inv(s, data, maxBurst) && s.queued == 0
    ensures Enabled(s, data, e)
  {
    if s.pending {
      e := Turn;
    } else if s.phase.Waiting? {
      e := SendR2t;
    } else {
      var hi := if s.phase.Answering? then s.phase.hi else |data|;
      e := DataOut(s.received, data[s.received..hi], true);
    }
  }

  /** The accounting of a WRITE, and what the target has once the command is queued. */
  predicate Delivered(s: Transfer, data: seq<byte>, maxBurst: nat) {
    && s.received + s.r2tCount == |data|
    && s.offset == (if s.queued > 0 then 0 else s.received)
    && (s.pending ==> s.queued == 0 && s.r2ts == [])
    && Tiles(s.pieces, 0, s.received)
    && R2tsTile(s.r2ts, maxBurst, |data|)
    && (s.unsol ==> s.r2ts == [])
    && (s.queued > 0 ==> s.r2tCount == 0 && s.buffer == data && s.received == |data|
                         && CeilingOf(|s.r2ts|, SolicitedBytes(s.pieces), maxBurst))
  }

  lemma NoR2ts(maxBurst: nat)
    ensures CeilingOf(0, 0, maxBurst)
  {
  }

  lemma InvDelivers(s: Transfer, data: seq<byte>, maxBurst: nat)
    requires Inv(s, data, maxBurst)
    ensures Delivered(s, data, maxBurst) && s.queued <= 1
    ensures Rank(s) >= 0
  {
    hide Tiles, R2tsTile, CeilingOf;
    assert s.buffer == s.buffer[..|data|] && data == data[..|data|];
    if s.queued > 0 {
      if s.r2ts == [] {
        NoR2ts(maxBurst);
      } else {
        R2tsCount(s.r2ts, maxBurst, |data|);
      }
    }
  }

  /** A run whose command PDU has F set or leaves data to come. */
  lemma OrdinaryRun(data: seq<byte>, room: seq<byte>, imm: nat, final: bool, ahead: bool,
                    maxBurst: nat, events: seq<Event>)
    requires maxBurst > 0 && imm <= |data| == |room| && (!final ==> imm < |data|)
    requires Follows(Begin(data, room, imm, final, ahead), data, maxBurst, events)
    ensures var s := Run(Begin(data, room, imm, final, ahead), data, maxBurst, events);
            Delivered(s, data, maxBurst) && s.queued <= 1 && (s.queued == 0 ==> exists e :: Enabled(s, data, e))
    ensures |events| <= 4 * |data| + 4
  {
    hide Step, Follows, Enabled;
    var s0 := Begin(data, room, imm, final, ahead);
    BeginKeeps(data, room, imm, final, ahead, maxBurst);
    RunKeeps(s0, data, maxBurst, events);
    var s := Run(s0, data, maxBurst, events);
    hide Run;
    InvDelivers(s, data, maxBurst);
    if s.queued == 0 {
      var e := NeverStuck(s, data, maxBurst);
    }
  }

  // ----- a command PDU with all its data and F clear

  /** All data has come with the command PDU; at most an empty Data-Out is owed. */
  ghost predicate AllThere(s: Transfer, data: seq<byte>) {
    && s.total == s.received == |data| && s.buffer == data && s.r2tCount == 0
    && s.inTx == 0 && s.r2ts == [] && SolicitedBytes(s.pieces) == 0 && Tiles(s.pieces, 0, |data|)
    && !s.phase.Answering? && (s.unsol <==> s.phase.Sending?)
    && s.offset == if s.queued > 0 then 0 else |data|
  }

  lemma AllThereBegins(data: seq<byte>, room: seq<byte>, ahead: bool)
    requires |data| == |room|
    ensures AllThere(Begin(data, room, |data|, false, ahead), data)
  {
    assert data[..|data|] == data;
    assert [Piece(0, |data|, Immediate)][..0] == [];
  }

  /** A Data-Out comes when the command has had its turn. */
  predicate DataAfterTurn(ahead: bool, events: seq<Event>)
    decreases |events|
  {
    events != [] && ((!ahead && events[0].DataOut?) || DataAfterTurn(ahead && !events[0].Turn?, events[1..]))
  }

  lemma AllThereStep(s: Transfer, data: seq<byte>, maxBurst: nat, e: Event)
    requires AllThere(s, data) && Enabled(s, data, e)
    ensures e.DataOut? ==> e.offset + |e.bytes| <= |s.buffer|
    ensures AllThere(Step(s, maxBurst, e), data) && !e.SendR2t?
    ensures var t := Step(s, maxBurst, e);
            if e.Turn? then s.pending && !t.pending && t.phase == s.phase && t.queued == s.queued + 1
            else s.phase.Sending? && t.phase.Waiting? && t.pending == s.pending
                 && t.queued == s.queued + if s.pending then 0 else 1
  {
    if e.DataOut? {
      assert e.bytes == [] && Put(s.buffer, e.offset, []) == s.buffer;
      assert (s.pieces + [Piece(|data|, |data|, Unsolicited)])[..|s.pieces|] == s.pieces;
    }
  }

  lemma SameLength(s: Transfer, data: seq<byte>)
    requires AllThere(s, data)
    ensures |s.buffer| == |data|
  {
  }

  /** No Data-Out is enabled any more. */
  lemma {:induction false} NoMoreData(s: Transfer, data: seq<byte>, maxBurst: nat, events: seq<Event>, ahead: bool)
    requires |s.buffer| == |data| && AllThere(s, data) && s.phase.Waiting? && Follows(s, data, maxBurst, events)
    ensures !DataAfterTurn(ahead, events)
    decreases |events|
  {
    hide Enabled, Step, AllThere;
    if events != [] {
      AllThereStep(s, data, maxBurst, events[0]);
      SameLength(Step(s, maxBurst, events[0]), data);
      NoMoreData(Step(s, maxBurst, events[0]), data, maxBurst, events[1..], ahead && !events[0].Turn?);
    }
  }

  /** The command is queued at its turn, and once more by a Data-Out that comes later. */
  lemma {:induction false} AllThereRun(s: Transfer, data: seq<byte>, maxBurst: nat, events: seq<Event>, more: nat)
    requires |s.buffer| == |data| && AllThere(s, data) && Follows(s, data, maxBurst, events)
    requires s.queued == (if s.pending then 0 else 1) + more && (s.phase.Sending? ==> more == 0)
    ensures var t := Run(s, data, maxBurst, events);
            && AllThere(t, data) && (t.pending ==> s.pending && !DataAfterTurn(s.pending, events))
            && t.queued == (if t.pending then 0 else 1) + more + (if DataAfterTurn(s.pending, events) then 1 else 0)
            && |events| <= (if s.pending then 1 else 0) + (if s.phase.Sending? then 1 else 0)
    decreases |events|
  {
    hide Enabled, Step, AllThere;
    if events != [] {
      var e := events[0];
      AllThereStep(s, data, maxBurst, e);
      var t := Step(s, maxBurst, e);
      SameLength(t, data);
      if e.DataOut? {
        NoMoreData(t, data, maxBurst, events[1..], s.pending);
        AllThereRun(t, data, maxBurst, events[1..], if s.pending then more else more + 1);
      } else {
        AllThereRun(t, data, maxBurst, events[1..], more);
      }
    }
  }

  /** A run whose command PDU brings all data with F clear. */
  lemma AllImmediateRun(data: seq<byte>, room: seq<byte>, ahead: bool, maxBurst: nat, events: seq<Event>)
    requires |data| == |room|
    requires Follows(Begin(data, room, |data|, false, ahead), data, maxBurst, events)
    ensures var s := Run(Begin(data, room, |data|, false, ahead), data, maxBurst, events);
            && Delivered(s, data, maxBurst)
            && (s.queued <= 1 <==> !DataAfterTurn(ahead, events))
            && (s.queued == 0 ==> exists e :: Enabled(s, data, e))
    ensures |events| <= 2
  {
    hide Run, Follows, Step, Tiles, DataAfterTurn;
    AllThereBegins(data, room, ahead);
    AllThereRun(Begin(data, room, |data|, false, ahead), data, maxBurst, events, 0);
    var s := Run(Begin(data, room, |data|, false, ahead), data, maxBurst, events);
    if s.queued == 0 {
      assert s.pending;
      assert Enabled(s, data, Turn);
    }
  }

  /** Every run of a WRITE: bytes arrived plus bytes still wanted make the transfer length,
      the pieces tile what has arrived, no R2T goes out while unsolicited data is owed, each
      asks for at most MaxBurst bytes, and a command that is queued has r2t_count 0 and the
      initiator's data in its buffer. No run is longer than 4 * length + 4 events, and one
      that stops before the command is queued can go on. It is queued once, except when its
      PDU brings all data with F clear and the Data-Out this announces comes after its turn:
      the source does not check that F clear leaves data to come. */
  lemma WriteDelivers(data: seq<byte>, room: seq<byte>, imm: nat, final: bool, ahead: bool,
                      maxBurst: nat, events: seq<Event>)
    requires maxBurst > 0 && imm <= |data| == |room|
    requires Follows(Begin(data, room, imm, final, ahead), data, maxBurst, events)
    ensures var s := Run(Begin(data, room, imm, final, ahead), data, maxBurst, events);
            && Delivered(s, data, maxBurst)
            && (s.queued == 0 ==> exists e :: Enabled(s, data, e))
            && (s.queued <= 1 <==> final || imm < |data| || !DataAfterTurn(ahead, events))
    ensures |events| <= 4 * |data| + 4
  {
    hide Begin, Run, Follows, DataAfterTurn, Delivered, Enabled;
    if final || imm < |data| {
      OrdinaryRun(data, room, imm, final, ahead, maxBurst, events);
    } else {
      AllImmediateRun(data, room, ahead, maxBurst, events);
    }
  }

  lemma OneEvent(s: Transfer, data: seq<byte>, maxBurst: nat, e: Event)
    requires |s.buffer| == |data| && Enabled(s, data, e)
    ensures Follows(s, data, maxBurst, [e]) && Run(s, data, maxBurst, [e]) == Step(s, maxBurst, e)
  {
    assert [e][1..] == [];
  }

  lemma TwoEvents(s: Transfer, data: seq<byte>, maxBurst: nat, e: Event, f: Event)
    requires |s.buffer| == |data| && Enabled(s, data, e)
    requires |Step(s, maxBurst, e).buffer| == |data| && Enabled(Step(s, maxBurst, e), data, f)
    ensures Follows(s, data, maxBurst, [e, f])
      && Run(s, data, maxBurst, [e, f]) == Step(Step(s, maxBurst, e), maxBurst, f)
  {
    hide Step;
    assert [e, f][1..] == [f];
    OneEvent(Step(s, maxBurst, e), data, maxBurst, f);
  }

  /** Both orders happen: the empty Data-Out before the turn leaves the command queued once,
      behind it twice, and a command in turn is queued twice. */
  lemma FullImmediateWithoutFinal(data: seq<byte>, room: seq<byte>, maxBurst: nat)
    requires |data| == |room|
    ensures var empty := DataOut(|data|, [], true);
            var now, later := Begin(data, room, |data|, false, false), Begin(data, room, |data|, false, true);
            && Follows(now, data, maxBurst, [empty]) && Run(now, data, maxBurst, [empty]).queued == 2
            && Follows(later, data, maxBurst, [Turn, empty]) && Run(later, data, maxBurst, [Turn, empty]).queued == 2
            && Follows(later, data, maxBurst, [empty, Turn]) && Run(later, data, maxBurst, [empty, Turn]).queued == 1
  {
    var empty := DataOut(|data|, [], true);
    var now, later := Begin(data, room, |data|, false, false), Begin(data, room, |data|, false, true);
    assert data[|data|..|data|] == [];
    OneEvent(now, data, maxBurst, empty);
    TwoEvents(later, data, maxBurst, Turn, empty);
    TwoEvents(later, data, maxBurst, empty, Turn);
  }

  // ----- the code

  /** The task of one WRITE command on one connection. */
  class Task {
    var total: nat
    var offset: nat
    var r2tCount: int
    var unsolCount: bool
    var pending: bool
    var expR2tsn: nat
    var txList: nat          // entries of this task in tx_clist
    var queued: nat          // calls of iscsi_target_cmd_queue
    var data: array<byte>

    ghost predicate Shows(s: Transfer)
      reads this, data
    {
      && total == s.total && offset == s.offset && r2tCount == s.r2tCount && unsolCount == s.unsol
      && pending == s.pending && txList == s.inTx && queued == s.queued
      && expR2tsn == |s.r2ts| && data[..] == s.buffer
    }

    /** iscsi_scsi_cmd_execute */
    method ScsiCmdExecute(ghost s: Transfer)
      requires Shows(s)
      modifies `txList, `offset, `queued
      ensures Shows(Execute(s))
    {
      if r2tCount != 0 {
        if !unsolCount {
          txList := txList + 1;
        }
      } else {
        offset := 0;
        queued := queued + 1;
      }
    }

    /** memory written by the receive loop at task->data + at */
    method Store(at: nat, bytes: seq<byte>)
      requires at + |bytes| <= data.Length
      modifies data
      ensures data[..] == Put(old(data[..]), at, bytes)
    {
      forall i | at <= i < at + |bytes| {
        data[i] := bytes[i - at];
      }
    }

    /** iscsi_scsi_cmd_rx_start, the immediate data and iscsi_task_queue. */
    constructor (length: nat, buf: array<byte>, immediate: seq<byte>, final: bool, ahead: bool)
      requires |immediate| <= length == buf.Length
      modifies buf
      ensures data == buf
      ensures forall all: seq<byte> :: |all| == length && immediate == all[..|immediate|] ==>
                Shows(Begin(all, old(buf[..]), |immediate|, final, ahead))
    {
      total, offset, r2tCount := length, |immediate|, length - |immediate|;
      unsolCount, pending, expR2tsn, txList, queued := !final, ahead, 0, 0, 0;
      data := buf;
      new;
      Store(0, immediate);
      if !ahead {
        ghost var all := immediate + seq(length - |immediate|, _ => 0);
        assert all[..|immediate|] == immediate;
        ScsiCmdExecute(Begin(all, old(buf[..]), |immediate|, final, true).(pending := false));
      }
    }

    /** iscsi_data_out_rx_start, the data, and iscsi_data_out_rx_done. */
    method DataOutPdu(reservedTag: bool, at: nat, bytes: seq<byte>, final: bool, ghost s: Transfer)
      requires Shows(s) && at + |bytes| <= data.Length
      requires reservedTag == s.phase.Sending?
      modifies this, data
      ensures data == old(data) && Shows(Step(s, 0, DataOut(at, bytes, final)))
    {
      Store(at, bytes);
      offset := offset + |bytes|;
      r2tCount := r2tCount - |bytes|;
      ghost var kind := if s.phase.Sending? then Unsolicited else Solicited;
      ghost var s1 := s.(buffer := Put(s.buffer, at, bytes), offset := offset, r2tCount := r2tCount,
                         received := s.received + |bytes|, pieces := s.pieces + [Piece(at, at + |bytes|, kind)],
                         phase := if final then Waiting else s.phase);
      if reservedTag {
        if final {
          unsolCount := false;
          if !pending {
            ScsiCmdExecute(s1.(unsol := false));
          }
        }
      } else if final {
        ScsiCmdExecute(s1);
      }
    }

    /** The drain loop of iscsi_task_queue reaches the task. */
    method LeavePending(ghost s: Transfer)
      requires Shows(s) && pending
      modifies this
      ensures data == old(data) && Shows(Step(s, 0, Turn))
    {
      pending := false;
      ScsiCmdExecute(s.(pending := false));
    }

    /** iscsi_task_tx_start and iscsi_r2t_build for a task with data still to come;
        iscsi_scsi_cmd_tx_done then leaves it off the list. */
    method SendR2tPdu(maxBurst: nat, ghost s: Transfer) returns (r: R2t)
      requires Shows(s) && txList > 0 && r2tCount > 0
      modifies this
      ensures r.offset == offset && r.offset + r.length <= offset + r2tCount
      ensures if r2tCount < maxBurst then r.offset + r.length == offset + r2tCount else r.length == maxBurst
      ensures data == old(data) && Shows(Step(s, maxBurst, SendR2t))
      ensures Step(s, maxBurst, SendR2t).r2ts == s.r2ts + [r]
    {
      txList := txList - 1;
      r := R2t(expR2tsn, offset, if r2tCount < maxBurst then r2tCount else maxBurst);
      expR2tsn := expR2tsn + 1;
    }
  }
}
