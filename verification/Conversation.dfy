/** The transmit machine at one end of a connection and the receive machine at the other. */
module Conversation {
  import opened Bytes
  import opened Padding
  import opened PduFormat
  import opened RxFraming
  import opened TxFraming

  /** The transmit machine, response by response; the mode may change with the history, as it
      does when the login is over. */
  method SendAll(sv: Server, rsps: seq<Rsp>, script: seq<WriteEvent>) returns (sent: seq<byte>)
    requires AllSendable(sv, [], rsps) && WriteEvent.Failed !in script
    ensures sent == WireAll(sv, [], rsps)
  {
    hide Wire, Sendable, Padded;
    var hist: seq<Pdu> := [];
    var rest, left := rsps, script;
    sent := [];
    while rest != []
      invariant AllSendable(sv, hist, rest) && WriteEvent.Failed !in left
      invariant sent + WireAll(sv, hist, rest) == WireAll(sv, [], rsps)
      decreases |rest|
    {
      var sender := new Sender(sv.mode(hist), left);
      var data, n := rest[0].data, |rest[0].data|;
      var buf := new byte[n + PAD_ROOM](i requires 0 <= i => if i < n then data[i] else 0);
      assert buf[0..n] == data;
      sender.Transmit(rest[0].bhs, buf, 0, n);
      sent := sent + sender.sent;
      left := sender.script;
      hist, rest := hist + [Received(rest[0])], rest[1..];
    }
  }

  /** The responses are sent one after the other, each in the mode the history calls for, and
      received through reads that cut the bytes in any way: what is delivered are the PDUs that
      were sent, all of them, in order, with their data padded; the connection stays open. */
  method SendAndReceive(sv: Server, rsps: seq<Rsp>, script: seq<WriteEvent>, input: seq<ReadEvent>)
    returns (sent: seq<byte>, delivered: seq<Pdu>, closed: bool)
    requires AllSendable(sv, [], rsps) && WriteEvent.Failed !in script && ReadEvent.Eof !in input
    ensures Stream(input) == sent ==> delivered == ReceivedAll(rsps) && !closed
    ensures sent == WireAll(sv, [], rsps)
  {
    sent := SendAll(sv, rsps, script);
    delivered, closed := ReceiveStream(sv, PAD_WORD_LEN, input);
    StreamParses(sv, [], rsps);
    assert [] + ReceivedAll(rsps) == ReceivedAll(rsps);
  }
}
