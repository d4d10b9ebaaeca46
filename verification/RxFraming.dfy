/** The resumable receive state machine of a connection: however the socket cuts the
    byte stream, the PDUs delivered are those of the one-shot parser. */
module RxFraming {
  import opened Bytes
  import opened Crc32c
  import opened PduFormat

  datatype RxState =
    | RxBhs | RxInitAhs | RxAhs
    | RxInitHdigest | RxHdigest | RxCheckHdigest
    | RxInitData | RxData
    | RxInitDdigest | RxDdigest | RxCheckDdigest
    | RxEnd

  /** What successive reads of the socket meet: bytes, EAGAIN or EINTR, another error,
      end of stream. */
  datatype ReadEvent = Arrived(bytes: seq<byte>) | Again | Failed | Eof

  /** All bytes the reads can ever return, cuts forgotten. */
  function Stream(events: seq<ReadEvent>): seq<byte> {
    if events == [] || events[0].Eof? then []
    else (if events[0].Arrived? then events[0].bytes else []) + Stream(events[1..])
  }

  function Weight(events: seq<ReadEvent>): nat {
    if events == [] then 0
    else 1 + (if events[0].Arrived? then |events[0].bytes| else 0) + Weight(events[1..])
  }

  lemma StreamTail(events: seq<ReadEvent>, bytes: seq<byte>)
    ensures Stream([Arrived(bytes)] + events) == bytes + Stream(events)
    ensures Weight([Arrived(bytes)] + events) == 1 + |bytes| + Weight(events)
  {
    assert ([Arrived(bytes)] + events)[1..] == events;
  }

  lemma Assoc(a: seq<byte>, b: seq<byte>, c: seq<byte>)
    ensures a + b + c == a + (b + c)
    ensures c == [] ==> a + b + c == a + b && b + c == b
  {
  }

  lemma Regroup(a: seq<byte>, b: seq<byte>, c: seq<byte>, d: seq<byte>)
    ensures a + b + (c + d) == a + (b + c) + d
  {
  }

  class Connection {
    const sv: Server
    const pad: nat

    var rxState: RxState
    var rxSize: nat
    var bhs: seq<byte>
    var ahs: seq<byte>
    var data: seq<byte>
    var digest: seq<byte>
    var closed: bool
    var delivered: seq<Pdu>
    var input: seq<ReadEvent>

    ghost var parsed: seq<byte>   // the bytes of the delivered PDUs
    ghost var raw: seq<byte>      // the bytes of the PDU being received
    ghost var rejected: bool      // closed for cause
    ghost var eof: bool           // closed by the initiator

    ghost function Total(): seq<byte>
      reads this
    {
      parsed + raw + Stream(input)
    }

    ghost function Md(): Mode
      reads this
    {
      sv.mode(delivered)
    }

    ghost function Padded(): nat
      requires pad > 0 && |bhs| == BHS_SIZE
      reads this
    {
      RoundUp(DataLength(bhs), pad)
    }

    ghost function Head(): seq<byte>
      reads this
    {
      HeadBytes(Md(), bhs, ahs)
    }

    /** The header has been received and accepted. */
    ghost predicate HeadDone()
      reads this
    {
      |bhs| == BHS_SIZE && HeaderAdmitted(sv, delivered, bhs) && |ahs| == AhsLength(bhs)
    }

    /** Where the bytes of the current PDU sit in each state of the machine. */
    ghost predicate Layout()
      requires pad > 0
      reads this
    {
      match rxState
      case RxBhs => raw == bhs && |bhs| + rxSize == BHS_SIZE && ahs == [] && data == []
      case RxInitAhs => raw == bhs && |bhs| == BHS_SIZE && rxSize == 0 && ahs == [] && data == []
      case RxAhs => |bhs| == BHS_SIZE && HeaderAdmitted(sv, delivered, bhs) && raw == bhs + ahs
                    && |ahs| + rxSize == AhsLength(bhs) && data == []
      case RxInitHdigest => HeadDone() && Md().Hdigest() && raw == bhs + ahs && data == []
      case RxHdigest => HeadDone() && Md().Hdigest() && raw == bhs + ahs + digest && |digest| + rxSize == 4
        && data == []
      case RxCheckHdigest => HeadDone() && Md().Hdigest() && raw == bhs + ahs + digest && |digest| == 4 && data == []
      case RxInitData => HeadDone() && raw == Head() && data == []
      case RxData => HeadDone() && raw == Head() + data && |data| + rxSize == Padded()
        && DataFits(Md(), |ahs|, Padded())
      case RxInitDdigest => HeadDone() && raw == Head() + data && |data| == Padded() > 0
                            && Md().Ddigest() && DataFits(Md(), |ahs|, Padded())
      case RxDdigest => HeadDone() && raw == Head() + data + digest && |data| == Padded() > 0
                        && Md().Ddigest() && |digest| + rxSize == 4 && DataFits(Md(), |ahs|, Padded())
      case RxCheckDdigest => HeadDone() && raw == Head() + data + digest && |data| == Padded() > 0
                             && Md().Ddigest() && |digest| == 4 && DataFits(Md(), |ahs|, Padded())
      case RxEnd => OneShot(sv, pad, delivered, raw) == Frame(Pdu(bhs, ahs, data), |raw|)
    }

    /** Holds between any two steps inside the handler, before the PDU is delivered. */
    ghost predicate Receiving()
      reads this
    {
      && pad > 0
      && ParseAll(sv, pad, [], parsed) == Parsed(delivered, Open([]))
      && closed == (rejected || eof)
      && (rxState in {RxBhs, RxAhs, RxHdigest, RxData, RxDdigest} ==> rxSize > 0)
      && (!rxState.RxBhs? ==> |bhs| == BHS_SIZE)
      && (eof ==> input == [])
      && (if rejected then OneShot(sv, pad, delivered, raw) == Reject else Layout())
    }

    /** The delivered PDUs are the frames of the bytes consumed so far. */
    ghost predicate Faithful()
      requires pad > 0
      reads this
    {
      ParseAll(sv, pad, [], parsed + raw) == Parsed(delivered, if rejected then Closed else Open(raw))
    }

    /** Holds between calls of the handler. RxEnd at rest means a login reply is being sent. */
    ghost predicate Valid()
      reads this
    {
      && pad > 0
      && closed == (rejected || eof)
      && (eof ==> input == [])
      && Faithful()
      && (!closed ==> rxState in {RxBhs, RxAhs, RxInitHdigest, RxHdigest, RxData, RxDdigest, RxEnd})
      && (!closed && !rxState.RxEnd? ==> Receiving())
      && (!closed && rxState.RxEnd? ==> raw == [] && ParseAll(sv, pad, [], parsed) == Parsed(delivered, Open([])))
    }

    constructor (sv: Server, pad: nat, input: seq<ReadEvent>)
      requires pad > 0
      ensures Valid() && !closed && Total() == Stream(input) && this.input == input
      ensures this.sv == sv && this.pad == pad && delivered == [] && !eof && !rejected && !rxState.RxEnd?
    {
      this.sv, this.pad, this.input := sv, pad, input;
      rxState, rxSize := RxBhs, BHS_SIZE;
      bhs, ahs, data, digest := [], [], [], [];
      closed, delivered := false, [];
      parsed, raw, rejected, eof := [], [], false, false;
    }

    /** What every step of the handler leaves alone. */
    twostate predicate Kept()
      reads this
    {
      && parsed == old(parsed) && delivered == old(delivered) && Total() == old(Total())
      && (rejected || !old(rejected))
      && Weight(input) <= Weight(old(input))
      && (Eof in input ==> Eof in old(input))
      && (eof && !old(eof) ==> Eof in old(input))
    }

    /** A read step of the handler: nothing lost, and progress if any event was waiting. */
    twostate predicate ReadStep()
      reads this
    {
      Kept() && (old(input) != [] ==> Weight(input) < Weight(old(input)))
    }

    /** conn_read_pdu: wait for the next header. */
    method ReadPdu()
      requires pad > 0 && !closed && !rejected && !eof && raw == []
      requires ParseAll(sv, pad, [], parsed) == Parsed(delivered, Open([]))
      modifies `rxState, `rxSize, `bhs, `ahs, `data
      ensures Valid() && rxState.RxBhs?
    {
      hide OneShot, ParseAll, HeaderAdmitted, RoundUp, DigestBytes;
      rxState, rxSize := RxBhs, BHS_SIZE;
      bhs, ahs, data := [], [], [];
      assert parsed + raw == parsed;
    }

    /** One read of the socket for at most size bytes. */
    method EpRead(size: nat) returns (ret: int, got: seq<byte>)
      requires size > 0 && !eof
      modifies `input, `closed, `eof
      ensures Stream(old(input)) == got + Stream(input)
      ensures if old(input) == [] then input == [] else Weight(input) < Weight(old(input))
      ensures ret > 0 ==> |got| == ret <= size && !eof && closed == old(closed)
      ensures ret <= 0 ==> got == [] && closed == (old(closed) || eof)
      ensures eof ==> ret == 0 && input == []
      ensures eof ==> Eof in old(input)
      ensures Eof in input ==> Eof in old(input)
    {
      ret, got := 0, [];
      if input != [] {
        match input[0] {
          case Again =>
            input := input[1..];
          case Failed =>
            ret := -1;
            input := input[1..];
          case Eof =>
            input := [];
            closed, eof := true, true;
          case Arrived(bytes) =>
            ret := if |bytes| < size then |bytes| else size;
            got := bytes[..ret];
            StreamTail(input[1..], bytes[ret..]);
            assert got + bytes[ret..] == bytes;
            input := if ret == |bytes| then input[1..] else [Arrived(bytes[ret..])] + input[1..];
        }
      }
    }

    /** Where the bytes of a read go. */
    method Store(bytes: seq<byte>)
      modifies `bhs, `ahs, `data, `digest
      ensures bhs == if rxState.RxBhs? then old(bhs) + bytes else old(bhs)
      ensures ahs == if rxState.RxAhs? then old(ahs) + bytes else old(ahs)
      ensures data == if rxState.RxData? then old(data) + bytes else old(data)
      ensures digest == if rxState in {RxBhs, RxAhs, RxData} then old(digest) else old(digest) + bytes
    {
      if rxState.RxBhs? {
        bhs := bhs + bytes;
      } else if rxState.RxAhs? {
        ahs := ahs + bytes;
      } else if rxState.RxData? {
        data := data + bytes;
      } else {
        digest := digest + bytes;
      }
    }

    /** The read of do_recv, counted as consumed. */
    method TakeBytes() returns (ret: int, got: seq<byte>)
      requires rxSize > 0 && !eof
      modifies `closed, `input, `raw, `eof
      ensures ReadStep() && raw == old(raw) + got
      ensures ret > 0 ==> |got| == ret <= rxSize && !eof && closed == old(closed)
      ensures ret <= 0 ==> got == [] && closed == (old(closed) || eof)
      ensures eof ==> ret == 0 && input == []
    {
      hide Stream, Weight;
      ret, got := EpRead(rxSize);
      Regroup(parsed, raw, got, Stream(input));
      raw := raw + got;
    }

    /** do_recv: what one read returns goes where the current state reads to. */
    method DoRecv(next: RxState) returns (ret: int, ghost got: seq<byte>)
      requires rxState in {RxBhs, RxAhs, RxHdigest, RxData, RxDdigest} && rxSize > 0
      requires !eof
      modifies `rxState, `rxSize, `bhs, `ahs, `data, `digest, `closed, `input, `raw, `eof
      ensures ReadStep() && raw == old(raw) + got
      ensures ret > 0 ==> |got| == ret <= old(rxSize) == rxSize + ret && !eof && closed == old(closed)
      ensures ret <= 0 ==> got == [] && rxSize == old(rxSize) && closed == (old(closed) || eof)
      ensures eof ==> ret == 0 && input == []
      ensures rxState == if rxSize == 0 then next else old(rxState)
      ensures bhs == if old(rxState).RxBhs? then old(bhs) + got else old(bhs)
      ensures ahs == if old(rxState).RxAhs? then old(ahs) + got else old(ahs)
      ensures data == if old(rxState).RxData? then old(data) + got else old(data)
      ensures digest == if old(rxState) in {RxHdigest, RxDdigest} then old(digest) + got else old(digest)
    {
      hide Stream, Weight;
      var bytes: seq<byte>;
      ret, bytes := TakeBytes();
      got := bytes;
      Store(bytes);
      if ret > 0 {
        rxSize := rxSize - ret;
        if rxSize == 0 {
          rxState := next;
        }
      }
    }

    method RecvBhs() returns (go: bool)
      requires Receiving() && !closed && rxState.RxBhs?
      modifies this
      ensures Receiving() && ReadStep() && !rejected
      ensures if go then !closed && rxState.RxInitAhs? else rxState.RxBhs?
    {
      hide OneShot, ParseAll, HeaderAdmitted, RoundUp, DigestBytes;
      ghost var ret, got := DoRecv(RxInitAhs);
      go := rxState.RxInitAhs?;
    }

    /** IOSTATE_RX_INIT_AHS */
    method InitAhs() returns (go: bool)
      requires Receiving() && !closed && rxState.RxInitAhs?
      modifies `rxState, `rxSize, `closed, `rejected
      ensures Receiving() && Kept() && closed == rejected
      ensures if go then !closed && rxState in {RxAhs, RxInitData} else rejected || rxState.RxInitHdigest?
    {
      hide OneShot, ParseAll, HeaderAdmitted, RoundUp, DigestBytes;
      OneShotStart(sv, pad, delivered, bhs);
      if !HeaderAdmitted(sv, delivered, bhs) {
        closed, rejected := true, true;
        return false;
      }
      rxSize := AhsLength(bhs);
      assert bhs + ahs == bhs;
      if rxSize > 0 {
        rxState := RxAhs;
        return true;
      }
      rxState := if sv.mode(delivered).Hdigest() then RxInitHdigest else RxInitData;
      return rxState.RxInitData?;
    }

    method RecvAhs() returns (go: bool)
      requires Receiving() && !closed && rxState.RxAhs?
      modifies this
      ensures Receiving() && ReadStep() && !rejected
      ensures if go then !closed && rxState in {RxInitHdigest, RxInitData} else rxState.RxAhs?
    {
      hide OneShot, ParseAll, HeaderAdmitted, RoundUp, DigestBytes;
      ghost var before := ahs;
      ghost var ret, got := DoRecv(if sv.mode(delivered).Hdigest() then RxInitHdigest else RxInitData);
      Assoc(bhs, before, got);
      Assoc(bhs, ahs, []);
      go := !rxState.RxAhs?;
    }

    method InitHdigest()
      requires Receiving() && !closed && rxState.RxInitHdigest?
      modifies `rxState, `rxSize, `digest
      ensures Receiving() && rxState.RxHdigest?
    {
      hide OneShot, ParseAll, HeaderAdmitted, RoundUp, DigestBytes, AfterAhs;
      digest, rxSize, rxState := [], 4, RxHdigest;
      assert bhs + ahs + digest == bhs + ahs;
    }

    method GetHdigest()
      requires Receiving() && !closed && rxState.RxHdigest?
      modifies this
      ensures Receiving() && ReadStep() && !rejected && closed == eof
      ensures rxState.RxHdigest? || (rxState.RxCheckHdigest? && !eof)
    {
      hide OneShot, ParseAll, HeaderAdmitted, RoundUp, DigestBytes, AfterAhs;
      ghost var before := digest;
      ghost var ret, got := DoRecv(RxCheckHdigest);
      Assoc(bhs + ahs, before, got);
    }

    method CheckHdigest()
      requires Receiving() && !closed && rxState.RxCheckHdigest?
      modifies `rxState, `closed, `rejected
      ensures Receiving() && Kept() && !eof && closed == rejected && rxState.RxInitData?
    {
      hide OneShot, ParseAll, HeaderAdmitted, RoundUp, DigestBytes, AfterAhs;
      if digest != DigestBytes(bhs + ahs) {
        closed, rejected := true, true;
        OneShotHead(sv, pad, delivered, bhs, ahs, digest);
        AfterAhsDigest(Md(), pad, bhs, ahs, digest, []);
        Assoc(bhs + ahs, digest, []);
      }
      rxState := RxInitData;
    }

    /** IOSTATE_RX_INIT_HDIGEST to IOSTATE_RX_CHECK_HDIGEST. A bad digest closes the
        connection, but the handler still goes on to the data state. */
    method RecvHdigest() returns (go: bool)
      requires Receiving() && !closed && rxState in {RxInitHdigest, RxHdigest}
      modifies this
      ensures Receiving() && ReadStep() && closed == (eof || rejected)
      ensures if go then !eof && rxState.RxInitData? else !rejected && rxState.RxHdigest?
    {
      hide OneShot, ParseAll, HeaderAdmitted, RoundUp, DigestBytes, AfterAhs;
      if rxState.RxInitHdigest? {
        InitHdigest();
      }
      GetHdigest();
      if !rxState.RxCheckHdigest? {
        return false;
      }
      CheckHdigest();
      return true;
    }

    /** IOSTATE_RX_INIT_DATA */
    method InitData() returns (go: bool)
      requires Receiving() && !eof && rxState.RxInitData?
      modifies `rxState, `rxSize, `closed, `rejected
      ensures Receiving() && Kept() && !eof
      ensures if go then rxState.RxData? else rejected || rxState.RxEnd?
    {
      hide OneShot, ParseAll, HeaderAdmitted, RoundUp, DigestBytes, HeadBytes;
      if !rejected {
        assert Head() + data + [] == Head() + data == Head();
        OneShotAssembled(sv, pad, delivered, bhs, ahs, data, []);
      }
      rxSize := RoundUp(DataLength(bhs), pad);
      if rxSize == 0 {
        rxState := RxEnd;
        return false;
      }
      rxState := RxData;
      if (closed || !sv.mode(delivered).scsi) && AhsLength(bhs) + rxSize > INCOMING_BUFSIZE {
        closed, rejected := true, true;
        return false;
      }
      return true;
    }

    /** IOSTATE_RX_DATA */
    method RecvData() returns (go: bool)
      requires Receiving() && !eof && rxState.RxData?
      modifies this
      ensures Receiving() && ReadStep()
      ensures if go then !eof && rxState.RxInitDdigest? else rejected || rxState.RxData? || (rxState.RxEnd? && !eof)
    {
      hide OneShot, ParseAll, HeaderAdmitted, RoundUp, DigestBytes, HeadBytes, DataFits;
      ghost var before, was := data, raw;
      ghost var ret, got := DoRecv(if sv.mode(delivered).Ddigest() then RxInitDdigest else RxEnd);
      if rejected {
        OneShotStable(sv, pad, delivered, was, got);
      } else {
        Assoc(Head(), before, got);
        Assoc(Head(), data, []);
        OneShotAssembled(sv, pad, delivered, bhs, ahs, data, []);
      }
      return rxState.RxInitDdigest?;
    }

    method InitDdigest()
      requires Receiving() && !eof && rxState.RxInitDdigest?
      modifies `rxState, `rxSize, `digest
      ensures Receiving() && rxState.RxDdigest?
    {
      hide OneShot, ParseAll, HeaderAdmitted, RoundUp, DigestBytes, HeadBytes, DataFits;
      digest, rxSize, rxState := [], 4, RxDdigest;
      Assoc(Head(), data, []);
    }

    /** IOSTATE_RX_INIT_DDIGEST and IOSTATE_RX_DDIGEST */
    method RecvDdigest() returns (go: bool)
      requires Receiving() && !eof && rxState in {RxInitDdigest, RxDdigest}
      modifies this
      ensures Receiving() && ReadStep() && rejected == old(rejected)
      ensures if go then !eof && rxState.RxCheckDdigest? else rejected || rxState.RxDdigest?
    {
      hide OneShot, ParseAll, HeaderAdmitted, RoundUp, DigestBytes, HeadBytes, DataFits;
      if rxState.RxInitDdigest? {
        InitDdigest();
      }
      ghost var before, was := digest, raw;
      ghost var ret, got := DoRecv(RxCheckDdigest);
      if rejected {
        OneShotStable(sv, pad, delivered, was, got);
      } else {
        Assoc(Head() + data, before, got);
      }
      return rxState.RxCheckDdigest?;
    }

    /** IOSTATE_RX_CHECK_DDIGEST */
    method CheckDdigest()
      requires Receiving() && !eof && rxState.RxCheckDdigest?
      modifies `rxState, `closed, `rejected
      ensures Receiving() && Kept() && !eof && rxState.RxEnd?
    {
      hide OneShot, ParseAll, HeaderAdmitted, RoundUp, DigestBytes, HeadBytes, DataFits;
      if !rejected {
        OneShotAssembled(sv, pad, delivered, bhs, ahs, data, digest);
      }
      rxState := RxEnd;
      if digest != DigestBytes(data) {
        closed, rejected := true, true;
      }
    }

    /** The end of the handler: a complete PDU on an open connection is executed, once. */
    method Deliver()
      requires Receiving() && !closed && rxState.RxEnd?
      modifies this
      ensures Valid() && parsed + raw == old(parsed + raw) && input == old(input) && eof == old(eof)
      ensures delivered == old(delivered) + [Pdu(old(bhs), old(ahs), old(data))]
    {
      hide OneShot, HeaderAdmitted, RoundUp, DigestBytes, HeadBytes, DataFits;
      ParseAllSplit(sv, pad, [], parsed, raw);
      assert [] + raw == raw && raw[|raw|..] == [];
      OneShotStart(sv, pad, delivered + [Pdu(bhs, ahs, data)], []);
      var scsi := sv.mode(delivered).scsi;
      var ok := sv.finish(delivered, Pdu(bhs, ahs, data));
      delivered := delivered + [Pdu(bhs, ahs, data)];
      if !ok {
        closed, rejected := true, true;
      } else {
        parsed, raw := parsed + raw, [];
        assert parsed + raw == parsed;
        if scsi {
          ReadPdu();
        }
      }
    }

    lemma NothingYet()
      requires Receiving() && !rejected
      requires rxState in {RxBhs, RxAhs, RxInitHdigest, RxHdigest, RxData, RxDdigest}
      ensures OneShot(sv, pad, delivered, raw) == NeedMore
    {
      hide OneShot, ParseAll, RoundUp, DigestBytes, HeaderAdmitted, DataFits, AfterAhs, HeadBytes;
      match rxState {
        case RxBhs =>
          OneShotStart(sv, pad, delivered, raw);
        case RxAhs =>
          assert bhs + ahs + [] == raw;
          OneShotHead(sv, pad, delivered, bhs, ahs, []);
        case RxData =>
          assert Head() + data + [] == raw;
          OneShotAssembled(sv, pad, delivered, bhs, ahs, data, []);
        case RxDdigest =>
          OneShotAssembled(sv, pad, delivered, bhs, ahs, data, digest);
        case RxInitHdigest =>
          assert bhs + ahs + [] == raw == bhs + ahs + [] + [];
          OneShotHead(sv, pad, delivered, bhs, ahs, []);
          AfterAhsDigest(Md(), pad, bhs, ahs, [], []);
        case RxHdigest =>
          var dig := digest;
          assert bhs + ahs + dig == raw == bhs + ahs + dig + [];
          OneShotHead(sv, pad, delivered, bhs, ahs, dig);
          AfterAhsDigest(Md(), pad, bhs, ahs, dig, []);
        case _ =>
      }
    }

    /** A pause in the middle of a PDU loses nothing. */
    lemma AtRest()
      requires Receiving()
      requires rejected || rxState in {RxBhs, RxAhs, RxInitHdigest, RxHdigest, RxData, RxDdigest}
      ensures Valid()
    {
      hide RoundUp, DigestBytes, HeaderAdmitted, DataFits;
      ParseAllSplit(sv, pad, [], parsed, raw);
      assert [] + raw == raw;
      if !rejected {
        NothingYet();
      }
    }

    /** iscsi_rx_handler: one call, from any resting state. Each block of the switch runs
        if the machine has reached its state, and go says whether the call goes on. */
    method RxHandler()
      requires Valid() && !closed && !rxState.RxEnd?
      modifies this
      ensures Valid() && Total() == old(Total())
      ensures old(input) != [] ==> Weight(input) < Weight(old(input))
      ensures (Eof in input ==> Eof in old(input)) && (eof ==> Eof in old(input))
      ensures old(delivered) <= delivered
    {
      hide Layout, Faithful, OneShot, ParseAll, Stream, Weight;
      var go := true;
      if rxState.RxBhs? {
        go := RecvBhs();
      }
      if go && rxState.RxInitAhs? {
        go := InitAhs();
      }
      if go && rxState.RxAhs? {
        go := RecvAhs();
      }
      if go && rxState in {RxInitHdigest, RxHdigest} {
        go := RecvHdigest();
      }
      if go && rxState.RxInitData? {
        go := InitData();
      }
      if go && rxState.RxData? {
        go := RecvData();
      }
      if go && rxState in {RxInitDdigest, RxDdigest} {
        go := RecvDdigest();
      }
      if go && rxState.RxCheckDdigest? {
        CheckDdigest();
      }
      if rxState.RxEnd? && !closed {
        Deliver();
      } else {
        AtRest();
      }
    }

    /** The event loop of a connection, until no read is left or it is closed. A login
        reply that has been sent ends with conn_read_pdu. */
    method Receive()
      requires Valid() && !closed
      modifies this
      ensures Valid() && Total() == old(Total()) && (closed || input == [])
      ensures var p := ParseAll(sv, pad, [], old(Total()));
              delivered == p.frames && (p.tail.Closed? ==> closed)
      ensures closed ==> Eof in old(input) || ParseAll(sv, pad, [], old(Total())).tail.Closed?
    {
      hide ParseAll;
      while input != [] && !closed
        invariant Valid() && Total() == old(Total())
        invariant Eof in input ==> Eof in old(input)
        invariant eof ==> Eof in old(input)
        decreases Weight(input)
      {
        if rxState.RxEnd? {
          ReadPdu();
        }
        RxHandler();
      }
      ParseAllSplit(sv, pad, [], parsed + raw, Stream(input));
      assert parsed + raw + Stream(input) == Total();
      if !rejected {
        assert raw + Stream(input) == raw;
        assert parsed + raw == Total();
      }
    }
  }

  /** What a fresh connection delivers depends on the bytes alone, not on how the reads
      cut them, and it closes for cause exactly when the parser does. */
  method ReceiveStream(sv: Server, pad: nat, input: seq<ReadEvent>) returns (delivered: seq<Pdu>, closed: bool)
    requires pad > 0 && Eof !in input
    ensures var p := ParseAll(sv, pad, [], Stream(input));
            delivered == p.frames && closed == p.tail.Closed?
  {
    var conn := new Connection(sv, pad, input);
    conn.Receive();
    delivered, closed := conn.delivered, conn.closed;
  }
}
