/** The resumable transmit state machine, for PDUs without an AHS, and the round trip
    through the receiver's parser. */
module TxFraming {
  import opened Bytes
  import opened Crc32c
  import opened Padding
  import opened PduFormat

  datatype Rsp = Rsp(bhs: seq<byte>, data: seq<byte>)

  lemma PadRounds(n: nat)
    ensures n + PadLen(n) == RoundUp(n, PAD_WORD_LEN)
  {
  }

  function Padded(data: seq<byte>): (r: seq<byte>)
    ensures |r| == RoundUp(|data|, PAD_WORD_LEN) && data <= r
  {
    PadRounds(|data|);
    data + Zeros(PadLen(|data|))
  }

  function DataDigest(m: Mode, data: seq<byte>): seq<byte> {
    if m.Ddigest() && data != [] then DigestBytes(Padded(data)) else []
  }

  /** The bytes of one PDU on the wire. */
  function Wire(m: Mode, rsp: Rsp): seq<byte> {
    HeadBytes(m, rsp.bhs, []) + Padded(rsp.data) + DataDigest(m, rsp.data)
  }

  datatype TxState =
    | TxBhs | TxInitAhs | TxInitHdigest | TxHdigest
    | TxInitData | TxData | TxInitDdigest | TxDdigest | TxEnd

  /** What successive writes of the socket do: accept some bytes, EAGAIN or EINTR, or fail. */
  datatype WriteEvent = Accepted(count: nat) | Again | Failed

  lemma WireOfNothing(m: Mode, rsp: Rsp)
    requires rsp.data == []
    ensures Wire(m, rsp) == HeadBytes(m, rsp.bhs, [])
  {
    hide HeadBytes;
    assert Padded([]) == [];
  }

  /** Zeros written behind the data in a buffer make it the padded data. */
  lemma PaddedIs(was: seq<byte>, at: nat, size: nat)
    requires at + size + PadLen(size) <= |was|
    ensures Put(was, at + size, Zeros(PadLen(size)))[at..at + size + PadLen(size)] == Padded(was[at..at + size])
  {
  }

  function Rank(s: TxState): nat {
    match s
    case TxBhs => 0 case TxInitAhs => 1 case TxInitHdigest => 2 case TxHdigest => 3
    case TxInitData => 4 case TxData => 5 case TxInitDdigest => 6 case TxDdigest => 7 case TxEnd => 8
  }

  /** How far the current PDU has got in each state: out has been sent, buf is about to be. */
  predicate Stage(m: Mode, rsp: Rsp, st: TxState, out: seq<byte>, buf: seq<byte>) {
    match st
    case TxBhs => out + buf == rsp.bhs
    case TxInitAhs => out == rsp.bhs
    case TxInitHdigest => m.Hdigest() && out == rsp.bhs
    case TxHdigest => m.Hdigest() && out + buf == HeadBytes(m, rsp.bhs, [])
    case TxInitData => out == HeadBytes(m, rsp.bhs, [])
    case TxData => rsp.data != [] && out + buf == HeadBytes(m, rsp.bhs, []) + Padded(rsp.data)
    case TxInitDdigest => m.Ddigest() && rsp.data != [] && out == HeadBytes(m, rsp.bhs, []) + Padded(rsp.data)
    case TxDdigest => out + buf == Wire(m, rsp)
    case TxEnd => out == Wire(m, rsp)
  }

  /** The state do_send is told to go on to. */
  function NextState(m: Mode, st: TxState): TxState {
    if st.TxBhs? then TxInitAhs
    else if st.TxHdigest? then TxInitData
    else if st.TxData? && m.Ddigest() then TxInitDdigest
    else TxEnd
  }

  lemma HeadStarts(m: Mode, bhs: seq<byte>)
    ensures bhs <= HeadBytes(m, bhs, [])
    ensures !m.Hdigest() ==> HeadBytes(m, bhs, []) == bhs
    ensures m.Hdigest() ==> bhs + DigestBytes(bhs) == HeadBytes(m, bhs, [])
  {
    hide DigestBytes;
    assert bhs + [] == bhs;
  }

  lemma StageStarts(m: Mode, bhs: seq<byte>, data: seq<byte>)
    ensures Stage(m, Rsp(bhs, data), TxBhs, [], bhs)
  {
    assert [] + bhs == bhs;
  }

  lemma StagePrefix(m: Mode, rsp: Rsp, st: TxState, out: seq<byte>, buf: seq<byte>)
    requires Stage(m, rsp, st, out, buf) && st in {TxBhs, TxHdigest, TxData, TxDdigest}
    ensures out + buf <= Wire(m, rsp)
  {
    hide DigestBytes, Padded, HeadBytes;
    HeadStarts(m, rsp.bhs);
  }

  lemma StageSent(m: Mode, rsp: Rsp, st: TxState, out: seq<byte>, buf: seq<byte>)
    requires Stage(m, rsp, st, out, buf) && st in {TxBhs, TxHdigest, TxData, TxDdigest}
    ensures Stage(m, rsp, NextState(m, st), out + buf, [])
  {
    hide DigestBytes, Padded, HeadBytes;
    assert DataDigest(m, rsp.data) == [] ==> Wire(m, rsp) == HeadBytes(m, rsp.bhs, []) + Padded(rsp.data);
  }

  lemma StageHead(m: Mode, rsp: Rsp, st: TxState, out: seq<byte>, buf: seq<byte>)
    requires Stage(m, rsp, st, out, buf)
    ensures st.TxInitAhs? ==> Stage(m, rsp, if m.Hdigest() then TxInitHdigest else TxInitData, out, buf)
    ensures st.TxInitHdigest? ==> Stage(m, rsp, TxHdigest, out, DigestBytes(rsp.bhs))
    ensures st.TxInitDdigest? ==> Stage(m, rsp, TxDdigest, out, DigestBytes(Padded(rsp.data)))
  {
    hide DigestBytes, Padded, HeadBytes;
    HeadStarts(m, rsp.bhs);
  }

  lemma StageData(m: Mode, rsp: Rsp, out: seq<byte>, buf: seq<byte>)
    requires Stage(m, rsp, TxInitData, out, buf)
    ensures if rsp.data == [] then Stage(m, rsp, TxEnd, out, buf) else Stage(m, rsp, TxData, out, Padded(rsp.data))
  {
    hide HeadBytes, Padded, Wire;
    if rsp.data == [] {
      WireOfNothing(m, rsp);
    }
  }

  lemma StageEnd(m: Mode, rsp: Rsp, out: seq<byte>, buf: seq<byte>)
    requires Stage(m, rsp, TxEnd, out, buf)
    ensures out == Wire(m, rsp)
  {
  }

  class Sender {
    const mode: Mode
    var bhs: seq<byte>
    var data: array<byte>       // the buffer the data of the response is in
    var at: nat
    var size: nat
    var txState: TxState
    var txBuffer: seq<byte>     // what tx_buffer and tx_size still cover
    var closed: bool
    var script: seq<WriteEvent>
    var sent: seq<byte>
    ghost var base: nat         // where the current PDU starts in sent
    ghost var was: seq<byte>    // the buffer when the response was built
    ghost var rsp: Rsp

    constructor (mode: Mode, script: seq<WriteEvent>)
      ensures this.mode == mode && this.script == script && sent == [] && !closed && txState.TxEnd?
      ensures base == 0
    {
      this.mode, this.script := mode, script;
      bhs, data, at, size, txState, txBuffer := [], new byte[0], 0, 0, TxEnd, [];
      sent, closed, base, was, rsp := [], false, 0, [], Rsp([], []);
    }

    /** The buffer is as it was, or it has the padding behind the data. */
    ghost predicate InBuffer(padded: bool)
      reads `bhs, `data, `at, `size, `was, `rsp, data
    {
      && at + size + PadLen(size) <= |was| && rsp == Rsp(bhs, was[at..at + size])
      && data[..] == if padded then Put(was, at + size, Zeros(PadLen(size))) else was
    }

    ghost predicate Valid()
      reads this, data
    {
      && base <= |sent|
      && (if closed then sent[base..] <= Wire(mode, rsp)
          else InBuffer(Rank(txState) > Rank(TxInitData)) && Stage(mode, rsp, txState, sent[base..], txBuffer))
    }

    /** conn_write_pdu and the building of a response. */
    method Start(bhs: seq<byte>, data: array<byte>, at: nat, size: nat)
      requires !closed && at + size + PadLen(size) <= data.Length
      modifies this
      ensures Valid() && txState.TxBhs? && rsp == Rsp(bhs, data[at..at + size]) && was == data[..] && base == |sent|
      ensures this.data == data && this.at == at && this.size == size
      ensures closed == old(closed) && script == old(script) && sent == old(sent)
    {
      hide Stage, PadLen, Put, Wire, Zeros;
      ghost var c := data[..];
      assert c[at..at + size] == data[at..at + size];
      this.bhs, this.data, this.at, this.size := bhs, data, at, size;
      txState, txBuffer, base := TxBhs, bhs, |sent|;
      was, rsp := c, Rsp(bhs, c[at..at + size]);
      assert InBuffer(false);
      hide InBuffer;
      StageStarts(mode, bhs, rsp.data);
      assert sent[base..] == [];
    }

    /** do_send: writes until the buffer is empty or a write fails for good. */
    method DoSend(next: TxState) returns (ok: bool)
      requires !closed && base <= |sent|
      modifies `txState, `txBuffer, `closed, `script, `sent
      ensures base <= |sent| && old(sent) <= sent
      ensures sent[base..] + txBuffer == old(sent[base..] + txBuffer)
      ensures ok == !closed && (ok ==> txBuffer == [] && txState == next)
      ensures !ok ==> txState == old(txState) && Failed in old(script)
      ensures Failed in script ==> Failed in old(script)
    {
      ghost var whole := sent[base..] + txBuffer;
      while true
        invariant !closed && base <= |sent| && old(sent) <= sent && sent[base..] + txBuffer == whole
        invariant txState == old(txState)
        invariant Failed in script ==> Failed in old(script)
        decreases |script|, |txBuffer|
      {
        var event := if script == [] then Accepted(|txBuffer|) else script[0];
        if event.Failed? {
          closed := true;
          return false;
        }
        script := if script == [] then [] else script[1..];
        if event.Accepted? {
          var n := if event.count < |txBuffer| then event.count else |txBuffer|;
          assert sent[base..] + txBuffer == (sent + txBuffer[..n])[base..] + txBuffer[n..];
          sent, txBuffer := sent + txBuffer[..n], txBuffer[n..];
          if txBuffer == [] {
            txState := next;
            return true;
          }
        }
      }
    }

    /** The zeros go into the buffer. */
    method Pad()
      requires InBuffer(false)
      modifies `txBuffer, data
      ensures InBuffer(true) && txBuffer == Padded(rsp.data)
    {
      hide Padded, Put, PadLen, Zeros;
      PaddedIs(was, at, size);
      var padded := PadInPlace(data, at, size);
      ghost var now := data[..];
      txBuffer := data[at..at + padded];
      assert txBuffer == now[at..at + padded];
    }

    lemma NothingToPad()
      requires InBuffer(false) && size == 0
      ensures InBuffer(true)
    {
      assert Put(was, at, Zeros(0)) == was;
    }

    /** IOSTATE_TX_INIT_DATA: the padding is written behind the data in the buffer. */
    method InitData()
      requires Valid() && !closed && txState.TxInitData?
      modifies `txState, `txBuffer, data
      ensures Valid() && txState == if rsp.data == [] then TxEnd else TxData
    {
      hide Stage, Padded, Wire, PadLen, Put;
      StageData(mode, rsp, sent[base..], txBuffer);
      assert |rsp.data| == size;
      if size == 0 {
        NothingToPad();
        hide InBuffer;
        txState := TxEnd;
      } else {
        hide InBuffer;
        Pad();
        txState := TxData;
      }
    }

    predicate Sending()
      reads this
    {
      txState in {TxBhs, TxHdigest, TxData, TxDdigest}
    }

    /** One sending state of the handler. */
    method Send() returns (ok: bool)
      requires Valid() && !closed && Sending()
      modifies `txState, `txBuffer, `closed, `script, `sent
      ensures Valid() && old(sent) <= sent && ok == !closed
      ensures ok ==> txState == NextState(mode, old(txState))
      ensures !ok ==> Failed in old(script)
      ensures Failed in script ==> Failed in old(script)
    {
      hide Stage, Wire, InBuffer;
      ghost var out, goal := sent[base..], sent[base..] + txBuffer;
      StagePrefix(mode, rsp, txState, out, txBuffer);
      StageSent(mode, rsp, txState, out, txBuffer);
      ok := DoSend(NextState(mode, txState));
      if ok {
        assert sent[base..] + txBuffer == sent[base..];
      } else {
        assert sent[base..] <= goal;
      }
    }

    /** The states that only prepare the next buffer. */
    method Prepare()
      requires Valid() && !closed && txState in {TxInitAhs, TxInitHdigest, TxInitDdigest}
      modifies `txState, `txBuffer
      ensures Valid()
      ensures txState == match old(txState)
                         case TxInitAhs => if mode.Hdigest() then TxInitHdigest else TxInitData
                         case TxInitHdigest => TxHdigest
                         case _ => TxDdigest
    {
      hide Stage, DigestBytes, Padded, PadLen, Put;
      StageHead(mode, rsp, txState, sent[base..], txBuffer);
      match txState
      case TxInitAhs =>
        hide InBuffer;
        txState := if mode.Hdigest() then TxInitHdigest else TxInitData;
      case TxInitHdigest =>
        assert bhs == rsp.bhs;
        hide InBuffer;
        txBuffer, txState := DigestBytes(bhs), TxHdigest;
      case TxInitDdigest =>
        PaddedIs(was, at, size);
        assert data[at..at + size + PadLen(size)] == data[..][at..at + size + PadLen(size)] == Padded(rsp.data);
        hide InBuffer;
        txBuffer, txState := DigestBytes(data[at..at + size + PadLen(size)]), TxDdigest;
    }

    /** iscsi_tx_handler: one call. As in the source, it returns to the event loop after
        the header and goes on from there when called again. */
    method TxHandler()
      requires Valid() && !closed && !txState.TxEnd?
      modifies `txState, `txBuffer, `closed, `script, `sent, data
      ensures Valid() && old(sent) <= sent
      ensures closed ==> Failed in old(script)
      ensures Failed in script ==> Failed in old(script)
      ensures !closed ==> Rank(txState) > Rank(old(txState))
    {
      hide Valid;
      var ok := true;
      if txState.TxBhs? {
        ok := Send();
      }
      if ok && txState.TxInitAhs? {
        Prepare();
        return;
      }
      if ok && txState.TxInitHdigest? {
        Prepare();
      }
      if ok && txState.TxHdigest? {
        ok := Send();
      }
      if ok && txState.TxInitData? {
        InitData();
      }
      if ok && txState.TxData? {
        ok := Send();
      }
      if ok && txState.TxInitDdigest? {
        Prepare();
      }
      if ok && txState.TxDdigest? {
        ok := Send();
      }
    }

    /** A whole response: under any partial writes the bytes sent are those of Wire, or a
        beginning of them if the socket fails; the buffer has the padding behind the data. */
    method Transmit(bhs: seq<byte>, data: array<byte>, at: nat, size: nat)
      requires !closed && at + size + PadLen(size) <= data.Length
      modifies this, data
      ensures var rsp := Rsp(bhs, old(data[at..at + size]));
              && (!closed ==> sent == old(sent) + Wire(mode, rsp))
              && (closed ==> Failed in old(script) && old(sent) <= sent <= old(sent) + Wire(mode, rsp))
      ensures !closed ==> data[..] == Put(old(data[..]), at + size, Zeros(PadLen(size)))
      ensures Failed in script ==> Failed in old(script)
    {
      hide Wire, Stage, Put, PadLen;
      Start(bhs, data, at, size);
      ghost var rsp := this.rsp;
      while !closed && !txState.TxEnd?
        invariant Valid() && this.rsp == rsp && base == |old(sent)| && old(sent) <= sent
        invariant this.data == data && this.at == at && this.size == size && was == old(data[..])
        invariant closed ==> Failed in old(script)
        invariant Failed in script ==> Failed in old(script)
        decreases !closed, 8 - Rank(txState)
      {
        TxHandler();
      }
      if !closed {
        StageEnd(mode, rsp, sent[base..], txBuffer);
      }
      assert sent == old(sent) + sent[base..];
    }
  }

  // ----- the receiver reads back what was sent

  /** A response an initiator with the same settings accepts, given what it has seen. */
  predicate Sendable(sv: Server, hist: seq<Pdu>, rsp: Rsp) {
    && |rsp.bhs| == BHS_SIZE && rsp.bhs[4] == 0 && SaysLength(rsp.bhs, |rsp.data|)
    && (if sv.mode(hist).scsi then sv.start(hist, rsp.bhs) else |Padded(rsp.data)| <= INCOMING_BUFSIZE)
  }

  function Received(rsp: Rsp): Pdu {
    Pdu(rsp.bhs, [], Padded(rsp.data))
  }

  /** One PDU: parsing what the sender wrote gives its header and its padded data. */
  lemma WireParses(sv: Server, hist: seq<Pdu>, rsp: Rsp, rest: seq<byte>)
    requires Sendable(sv, hist, rsp)
    ensures OneShot(sv, PAD_WORD_LEN, hist, Wire(sv.mode(hist), rsp) + rest)
         == Frame(Received(rsp), |Wire(sv.mode(hist), rsp)|)
  {
    hide DigestBytes, OneShot, HeadBytes, RoundUp, SaysLength;
    var m := sv.mode(hist);
    var w := Wire(m, rsp);
    var dig := DataDigest(m, rsp.data);
    DataLengthIff(rsp.bhs, |rsp.data|);
    OneShotAssembled(sv, PAD_WORD_LEN, hist, rsp.bhs, [], Padded(rsp.data), dig);
    assert dig == [] ==> HeadBytes(m, rsp.bhs, []) + Padded(rsp.data) == w;
    OneShotStable(sv, PAD_WORD_LEN, hist, w, rest);
  }

  /** Every response of the list is sendable when its turn comes, and accepted. */
  predicate AllSendable(sv: Server, hist: seq<Pdu>, rsps: seq<Rsp>)
    decreases |rsps|
  {
    rsps != [] ==>
      && Sendable(sv, hist, rsps[0])
      && sv.finish(hist, Received(rsps[0]))
      && AllSendable(sv, hist + [Received(rsps[0])], rsps[1..])
  }

  function WireAll(sv: Server, hist: seq<Pdu>, rsps: seq<Rsp>): seq<byte>
    decreases |rsps|
  {
    if rsps == [] then []
    else Wire(sv.mode(hist), rsps[0]) + WireAll(sv, hist + [Received(rsps[0])], rsps[1..])
  }

  function ReceivedAll(rsps: seq<Rsp>): seq<Pdu> {
    seq(|rsps|, i requires 0 <= i < |rsps| => Received(rsps[i]))
  }

  lemma ReceivedFirst(hist: seq<Pdu>, rsps: seq<Rsp>)
    requires rsps != []
    ensures hist + [Received(rsps[0])] + ReceivedAll(rsps[1..]) == hist + ReceivedAll(rsps)
  {
    hide Padded;
  }

  /** A whole conversation: the frames of the stream are the PDUs sent, in order, none
      lost, none merged, nothing left over. */
  lemma {:induction false} StreamParses(sv: Server, hist: seq<Pdu>, rsps: seq<Rsp>)
    requires AllSendable(sv, hist, rsps)
    ensures ParseAll(sv, PAD_WORD_LEN, hist, WireAll(sv, hist, rsps)) == Parsed(hist + ReceivedAll(rsps), Open([]))
    decreases |rsps|
  {
    hide Wire, Sendable, DigestBytes;
    if rsps == [] {
      OneShotStart(sv, PAD_WORD_LEN, hist, []);
      assert hist + ReceivedAll(rsps) == hist;
    } else {
      hide OneShot, Padded;
      hide HeaderAdmitted, DataFits, RoundUp;
      var p := Received(rsps[0]);
      var w := Wire(sv.mode(hist), rsps[0]);
      var rest := WireAll(sv, hist + [p], rsps[1..]);
      WireParses(sv, hist, rsps[0], rest);
      assert (w + rest)[|w|..] == rest;
      StreamParses(sv, hist + [p], rsps[1..]);
      ReceivedFirst(hist, rsps);
    }
  }
}
