/** Text negotiation: printing and parsing of key=value pairs, and the fragmentation of a
    long text response (RFC 7143 sections 6.1, 11.10 and 11.11). */
module TextKeys {
  import opened Bytes
  import opened Padding

  const EQUALS: byte := 0x3D
  const NUL: byte := 0
  const RESERVED_TAG := 0xFFFF_FFFF

  datatype Pair = Pair(key: seq<byte>, value: seq<byte>)

  function Print(p: Pair): seq<byte> {
    p.key + [EQUALS] + p.value + [NUL]
  }

  function PrintAll(pairs: seq<Pair>): seq<byte> {
    if pairs == [] then [] else Print(pairs[0]) + PrintAll(pairs[1..])
  }

  /** Position of the first c in s, or its length. */
  function FirstOf(s: seq<byte>, c: byte): (i: nat)
    ensures i <= |s|
    ensures forall j :: 0 <= j < i ==> s[j] != c
    ensures i < |s| ==> s[i] == c
  {
    if s == [] || s[0] == c then 0 else 1 + FirstOf(s[1..], c)
  }

  datatype Found = NoKey | Found(pair: Pair, rest: seq<byte>)

  /** The first pair of s and what follows it. */
  function Next(s: seq<byte>): (f: Found)
    ensures f.Found? ==> |f.rest| < |s|
  {
    var i := FirstOf(s, EQUALS);
    if i == |s| then NoKey else
    var t := s[i + 1..];
    var j := FirstOf(t, NUL);
    if j == |t| then NoKey else
    Found(Pair(s[..i], t[..j]), t[j + 1..])
  }

  lemma CutAt(s: seq<byte>, i: nat)
    requires i < |s|
    ensures s == s[..i] + [s[i]] + s[i + 1..]
  {
  }

  /** What is found is a printed pair, cut off the front. */
  lemma NextMeans(s: seq<byte>)
    requires Next(s).Found?
    ensures s == Print(Next(s).pair) + Next(s).rest
    ensures EQUALS !in Next(s).pair.key && NUL !in Next(s).pair.value
  {
    var i := FirstOf(s, EQUALS);
    var t := s[i + 1..];
    var j := FirstOf(t, NUL);
    CutAt(s, i);
    CutAt(t, j);
    hide FirstOf;
    var key, value, rest := s[..i], t[..j], t[j + 1..];
    assert key + [EQUALS] + (value + [NUL] + rest) == key + [EQUALS] + value + [NUL] + rest;
  }

  function ParseAll(s: seq<byte>): seq<Pair>
    decreases |s|
  {
    var f := Next(s);
    if f.NoKey? then [] else [f.pair] + ParseAll(f.rest)
  }

  /** What next_key leaves over at the end. */
  function Leftover(s: seq<byte>): seq<byte>
    decreases |s|
  {
    var f := Next(s);
    if f.NoKey? then s else Leftover(f.rest)
  }

  /** A pair of C strings. */
  predicate Strings(p: Pair) {
    NUL !in p.key && NUL !in p.value
  }

  lemma FirstOfAt(s: seq<byte>, c: byte, i: nat)
    requires i < |s| && s[i] == c && forall j :: 0 <= j < i ==> s[j] != c
    ensures FirstOf(s, c) == i
  {
    assert FirstOf(s, c) <= i;
  }

  lemma NextOfPrint(p: Pair, rest: seq<byte>)
    requires EQUALS !in p.key && NUL !in p.value
    ensures Next(Print(p) + rest) == Found(p, rest)
  {
    var s := Print(p) + rest;
    var i := |p.key|;
    assert s[..i] == p.key;
    FirstOfAt(s, EQUALS, i);
    var t := s[i + 1..];
    assert t == p.value + [NUL] + rest;
    var j := |p.value|;
    assert t[..j] == p.value;
    FirstOfAt(t, NUL, j);
    assert t[j + 1..] == rest;
  }

  lemma NextOfNothing()
    ensures Next([]) == NoKey
  {
  }

  lemma {:induction false} ParsePrinted(pairs: seq<Pair>)
    requires forall p :: p in pairs ==> Strings(p) && EQUALS !in p.key
    ensures ParseAll(PrintAll(pairs)) == pairs && Leftover(PrintAll(pairs)) == []
  {
    hide Next, Print;
    if pairs == [] {
      NextOfNothing();
    }
    if pairs != [] {
      NextOfPrint(pairs[0], PrintAll(pairs[1..]));
      ParsePrinted(pairs[1..]);
    }
  }

  lemma {:induction false} ParsedKeysAreClean(s: seq<byte>)
    ensures forall p :: p in ParseAll(s) ==> EQUALS !in p.key && NUL !in p.value
    decreases |s|
  {
    if Next(s).Found? {
      NextMeans(s);
      ParsedKeysAreClean(Next(s).rest);
    }
  }

  /** Printing a list of pairs and parsing it back gives the list exactly when no key has
      an equals sign in it. */
  lemma RoundTripIff(pairs: seq<Pair>)
    requires forall p :: p in pairs ==> Strings(p)
    ensures ParseAll(PrintAll(pairs)) == pairs <==> forall p :: p in pairs ==> EQUALS !in p.key
  {
    ParsedKeysAreClean(PrintAll(pairs));
    if forall p :: p in pairs ==> EQUALS !in p.key {
      ParsePrinted(pairs);
    }
  }

  /** Parsing loses nothing: the pairs printed again, and the leftover, are the input. */
  lemma {:induction false} PrintParsed(s: seq<byte>)
    ensures PrintAll(ParseAll(s)) + Leftover(s) == s
    decreases |s|
  {
    var f := Next(s);
    if f.Found? {
      NextMeans(s);
      PrintParsed(f.rest);
      assert PrintAll(ParseAll(s)) + Leftover(s) == Print(f.pair) + (PrintAll(ParseAll(f.rest)) + Leftover(f.rest));
    }
  }

  // ----- the printer

  class Response {
    const fullFeature: bool       // STATE_FULL: MaxRecvDataSegmentLength limits the response
    const maxXmit: nat
    const textRequest: bool       // the request being answered is a Text Request
    var buffer: seq<byte>         // rsp_buffer, up to rsp.datasize
    var bufferSize: nat

    constructor (fullFeature: bool, maxXmit: nat, textRequest: bool, bufferSize: nat)
      ensures this.fullFeature == fullFeature && this.maxXmit == maxXmit && this.textRequest == textRequest
      ensures buffer == [] && this.bufferSize == bufferSize
    {
      this.fullFeature, this.maxXmit, this.textRequest := fullFeature, maxXmit, textRequest;
      buffer, this.bufferSize := [], bufferSize;
    }

    /** text_key_add: a pair goes in whole or is dropped, and nothing is dropped from the
        answer to a Text Request. */
    method KeyAdd(p: Pair) returns (dropped: bool)
      requires |buffer| <= bufferSize
      modifies this
      ensures |buffer| <= bufferSize
      ensures buffer == if dropped then old(buffer) else old(buffer) + Print(p)
      ensures bufferSize == if |buffer| > old(bufferSize) then |buffer| else old(bufferSize)
      ensures dropped <==>
        !textRequest && |old(buffer)| + |Print(p)| > (if fullFeature then maxXmit else old(bufferSize))
    {
      var len := |p.key| + |p.value| + 2;
      var maxLen := if fullFeature then maxXmit else bufferSize;
      if |buffer| + len > maxLen && !textRequest {
        return true;
      }
      if |buffer| + len > bufferSize {
        bufferSize := |buffer| + len;
      }
      buffer := buffer + p.key;
      buffer := buffer + [EQUALS];
      buffer := buffer + p.value + [NUL];
      assert buffer == old(buffer) + Print(p);
      return false;
    }
  }

  // ----- the parser

  lemma NextWithoutEquals(s: seq<byte>)
    requires FirstOf(s, EQUALS) == |s|
    ensures Next(s) == NoKey
  {
  }

  lemma NextAt(s: seq<byte>, t: seq<byte>, i: nat, j: nat)
    requires i < |s| && i == FirstOf(s, EQUALS) && t == s[i + 1..] && j == FirstOf(t, NUL)
    ensures j <= |t|
    ensures Next(s) == if j == |t| then NoKey else Found(Pair(s[..i], t[..j]), t[j + 1..])
  {
    hide FirstOf;
  }

  /** The key, the value and the rest are ranges of the buffer. */
  lemma NextInPlace(was: seq<byte>, data: nat, size: nat, keyEnd: nat, valueEnd: nat)
    requires data <= keyEnd < valueEnd < data + size <= |was|
    requires keyEnd - data == FirstOf(was[data..data + size], EQUALS)
    requires valueEnd - (keyEnd + 1) == FirstOf(was[keyEnd + 1..data + size], NUL)
    ensures var now := was[keyEnd := NUL];
            && Next(was[data..data + size]) ==
               Found(Pair(now[data..keyEnd], now[keyEnd + 1..valueEnd]), now[valueEnd + 1..data + size])
            && now[valueEnd] == NUL
  {
    hide FirstOf, Next;
    var now, s, t := was[keyEnd := NUL], was[data..data + size], was[keyEnd + 1..data + size];
    assert t == s[keyEnd - data + 1..];
    NextAt(s, t, keyEnd - data, valueEnd - (keyEnd + 1));
    assert s[..keyEnd - data] == now[data..keyEnd];
    assert t[..valueEnd - (keyEnd + 1)] == now[keyEnd + 1..valueEnd];
    assert t[valueEnd - (keyEnd + 1) + 1..] == now[valueEnd + 1..data + size];
  }

  /** The scanning loop that next_key runs twice: from p on, left bytes, to the first c. */
  method Scan(buf: array<byte>, p: nat, left: nat, c: byte) returns (q: nat, rest: nat)
    requires p + left <= buf.Length
    ensures p <= q && q + rest == p + left && q - p == FirstOf(buf[p..p + left], c)
  {
    q, rest := p, left;
    while rest > 0 && buf[q] != c
      invariant p <= q && q + rest == p + left && 0 <= rest
      invariant forall j :: p <= j < q ==> buf[j] != c
    {
      q, rest := q + 1, rest - 1;
    }
    if rest > 0 {
      FirstOfAt(buf[p..p + left], c, q - p);
    }
  }

  /** next_key on the bytes of buf from data on, size of them: the equals sign is
      overwritten with a NUL, and the key and the value are returned as ranges of buf. */
  method NextKey(buf: array<byte>, data: nat, size: nat)
    returns (found: bool, keyEnd: nat, value: nat, valueEnd: nat, data': nat, size': nat)
    requires data + size <= buf.Length
    modifies buf
    ensures found <==> Next(old(buf[data..data + size])).Found?
    ensures found ==>
              && data <= keyEnd < value <= valueEnd < data' <= data' + size' == data + size
              && Next(old(buf[data..data + size])) ==
                Found(Pair(buf[data..keyEnd], buf[value..valueEnd]), buf[data'..data' + size'])
              && buf[..] == old(buf[..])[keyEnd := NUL] && buf[valueEnd] == NUL
  {
    hide FirstOf, Next;
    ghost var was := buf[..];
    ghost var s := was[data..data + size];
    assert buf[data..data + size] == s;
    found, value, valueEnd, data', size' := false, data, data, data, size;
    var left;
    keyEnd, left := Scan(buf, data, size, EQUALS);
    if left == 0 {
      NextWithoutEquals(s);
      return;
    }
    buf[keyEnd] := NUL;
    value := keyEnd + 1;
    assert buf[value..value + (left - 1)] == was[value..data + size] == s[value - data..];
    valueEnd, left := Scan(buf, value, left - 1, NUL);
    NextAt(s, was[value..data + size], keyEnd - data, valueEnd - value);
    if left == 0 {
      return;
    }
    data', size' := valueEnd + 1, left - 1;
    found := true;
    NextInPlace(was, data, size, keyEnd, valueEnd);
    ghost var now := was[keyEnd := NUL];
    assert buf[..] == now;
    assert buf[data..keyEnd] == now[data..keyEnd] && buf[value..valueEnd] == now[value..valueEnd];
    assert buf[data'..data' + size'] == now[data'..data' + size'];
    assert buf[valueEnd] == now[valueEnd];
  }

  // ----- fragments of a text response

  datatype Fragment = Fragment(data: seq<byte>, final: bool, ttt: int)

  class TextExchange {
    const maxLen: nat
    var buf: array<byte>    // rsp_buffer, with what lies behind it
    var at: nat             // text_rsp_buffer
    var size: nat           // text_datasize
    var ttt: int

    /** The paddings have room. */
    predicate Valid()
      reads this
    {
      0 <= ttt <= RESERVED_TAG && at + size + PAD_ROOM <= buf.Length
    }

    constructor (maxLen: nat, ttt: int)
      requires 0 <= ttt <= RESERVED_TAG
      ensures this.maxLen == maxLen && size == 0 && this.ttt == ttt && Valid() && fresh(buf)
    {
      this.maxLen, this.ttt, at, size := maxLen, ttt, 0, 0;
      buf := new byte[PAD_ROOM];
    }

    /** cmnd_exec_text: answer is what text_scan_text prints for a fresh request. A request
        with a tag that is not the one expected is rejected. The fragment is where
        text_rsp_buffer points to. */
    method ExecText(reqTtt: int, answer: seq<byte>) returns (rejected: bool, f: Fragment)
      requires Valid()
      modifies this
      ensures Valid()
      ensures rejected <==> reqTtt != RESERVED_TAG && (old(size) == 0 || old(ttt) != reqTtt)
      ensures rejected ==> buf == old(buf) && at == old(at) && size == old(size) && ttt == old(ttt)
      ensures reqTtt == RESERVED_TAG ==> fresh(buf) && buf[..] == answer + Zeros(PAD_ROOM)
      ensures reqTtt != RESERVED_TAG ==> buf == old(buf)
      ensures !rejected ==>
                var start, whole := if reqTtt == RESERVED_TAG then 0 else old(at),
                                    if reqTtt == RESERVED_TAG then |answer| else old(size);
                && |f.data| == Min(maxLen, whole) && at == start + |f.data| && size == whole - |f.data|
                && f.data == buf[start..at] && f.final == (whole <= maxLen) && f.ttt == ttt
                && (f.final <==> ttt == RESERVED_TAG)
                && (!f.final && reqTtt != RESERVED_TAG ==> ttt == reqTtt)
    {
      rejected, f := false, Fragment([], false, 0);
      if reqTtt == RESERVED_TAG {
        var n := |answer|;
        buf := new byte[n + PAD_ROOM](i requires 0 <= i => if i < n then answer[i] else 0);
        assert buf[..] == answer + Zeros(PAD_ROOM);
        at, size := 0, n;
        if size > maxLen {
          ttt := (ttt + 1) % 0x1_0000_0000;
          if ttt == RESERVED_TAG {
            ttt := (ttt + 1) % 0x1_0000_0000;
          }
        } else {
          ttt := RESERVED_TAG;
        }
      } else if size == 0 || ttt != reqTtt {
        return true, f;
      }
      var final := false;
      if size <= maxLen {
        final := true;
        ttt := RESERVED_TAG;
      }
      var n := Min(maxLen, size);
      f := Fragment(buf[at..at + n], final, ttt);
      at := at + n;
      size := size - n;
    }

    /** The transmit machine pads the fragment, n bytes up to text_rsp_buffer, where it is. */
    method Transmit(n: nat)
      requires Valid() && n <= at
      modifies buf
      ensures buf[..] == Put(old(buf[..]), at, Zeros(PadLen(n)))
    {
      var padded := PadInPlace(buf, at - n, n);
    }
  }

  function Joined(fs: seq<Fragment>): seq<byte> {
    if fs == [] then [] else Joined(fs[..|fs| - 1]) + fs[|fs| - 1].data
  }

  lemma JoinedOn(fs: seq<Fragment>, f: Fragment)
    ensures Joined(fs + [f]) == Joined(fs) + f.data
  {
    assert (fs + [f])[..|fs|] == fs;
  }

  /** Fragments that are not the last one. */
  predicate AllFull(fs: seq<Fragment>, maxLen: nat) {
    forall i :: 0 <= i < |fs| ==> |fs[i].data| == maxLen && !fs[i].final && fs[i].ttt != RESERVED_TAG
  }

  lemma FullOn(fs: seq<Fragment>, f: Fragment, maxLen: nat)
    requires AllFull(fs, maxLen) && |f.data| == maxLen && !f.final && f.ttt != RESERVED_TAG
    ensures AllFull(fs + [f], maxLen)
  {
  }

  /** What is left to send of the response once a fragment has gone out. */
  lemma FragmentSent(c: seq<byte>, start: nat, whole: nat, m: nat)
    requires m > 0 && start + whole + PAD_ROOM <= |c|
    ensures var n := Min(m, whole);
            var d := Put(c, start + n, Zeros(PadLen(n)));
            Sent(c, start, start + whole, m) == c[start..start + n] + Sent(d, start + n, start + whole, m)
  {
    hide Put;
    var n := Min(m, whole);
    if whole == 0 {
      assert c[start..start] == [] && Sent(c, start, start, m) == [];
    } else {
      SentNext(c, start, start + whole, m);
    }
  }

  /** What is left of the response, as it will go out. */
  ghost function Rest(x: TextExchange): seq<byte>
    requires x.maxLen > 0 && x.Valid()
    reads x, x.buf
  {
    Sent(x.buf[..], x.at, x.at + x.size, x.maxLen)
  }

  /** A first Text Request, answered and sent. */
  method Ask(x: TextExchange, answer: seq<byte>) returns (f: Fragment)
    requires x.maxLen > 0 && x.Valid()
    modifies x
    ensures x.Valid() && fresh(x.buf) && |Rest(x)| == x.size
    ensures f.data + Rest(x) == Sent(answer + Zeros(PAD_ROOM), 0, |answer|, x.maxLen)
    ensures |f.data| <= x.maxLen && f.ttt == x.ttt && f.final == (|answer| <= x.maxLen)
    ensures f.final <==> x.ttt == RESERVED_TAG
    ensures f.final ==> x.size == 0
    ensures !f.final ==> x.size > 0 && |f.data| == x.maxLen
  {
    hide Sent, Put;
    var rejected;
    rejected, f := x.ExecText(RESERVED_TAG, answer);
    ghost var c := x.buf[..];
    FragmentSent(c, 0, |answer|, x.maxLen);
    assert f.data == c[0..x.at];
    x.Transmit(|f.data|);
  }

  /** The initiator goes on with the tag it was given. */
  method Continue(x: TextExchange) returns (f: Fragment)
    requires x.maxLen > 0 && x.Valid() && x.ttt != RESERVED_TAG && x.size > 0
    modifies x, x.buf
    ensures x.Valid() && x.buf == old(x.buf) && |Rest(x)| == x.size < old(x.size)
    ensures old(Rest(x)) == f.data + Rest(x)
    ensures 0 < |f.data| <= x.maxLen && f.ttt == x.ttt
    ensures f.final <==> x.size == 0
    ensures f.final ==> x.ttt == RESERVED_TAG
    ensures !f.final ==> x.ttt == old(x.ttt) && |f.data| == x.maxLen
  {
    hide Sent, Put;
    ghost var c, start, whole := x.buf[..], x.at, x.size;
    FragmentSent(c, start, whole, x.maxLen);
    var rejected;
    rejected, f := x.ExecText(x.ttt, []);
    assert f.data == c[start..x.at];
    x.Transmit(|f.data|);
  }

  /** In the middle of an exchange: last is the latest fragment, those before are in front. */
  ghost predicate Going(front: seq<Fragment>, last: Fragment, rest: seq<byte>, ttt: int, maxLen: nat,
                        answer: seq<byte>) {
    && 0 <= ttt <= RESERVED_TAG && last.ttt == ttt && |last.data| <= maxLen
    && Joined(front) + last.data + rest == answer && AllFull(front, maxLen)
    && (last.final ==> rest == [] && ttt == RESERVED_TAG)
    && (front != [] ==> last.data != [])
    && (!last.final ==> rest != [] && ttt != RESERVED_TAG && |last.data| == maxLen)
  }

  lemma GoingFirst(last: Fragment, rest: seq<byte>, ttt: int, maxLen: nat)
    requires 0 <= ttt <= RESERVED_TAG && last.ttt == ttt && |last.data| <= maxLen
    requires last.final ==> rest == [] && ttt == RESERVED_TAG
    requires !last.final ==> rest != [] && ttt != RESERVED_TAG && |last.data| == maxLen
    ensures Going([], last, rest, ttt, maxLen, last.data + rest)
  {
    assert Joined([]) + last.data == last.data;
  }

  /** The latest fragment becomes one of those before. */
  lemma GoingOn(front: seq<Fragment>, last: Fragment, rest: seq<byte>, ttt: int, maxLen: nat, answer: seq<byte>)
    requires Going(front, last, rest, ttt, maxLen, answer) && !last.final
    ensures Joined(front + [last]) + rest == answer && AllFull(front + [last], maxLen)
    ensures 0 <= ttt < RESERVED_TAG && rest != []
  {
    hide Joined, AllFull;
    JoinedOn(front, last);
    FullOn(front, last, maxLen);
  }

  lemma GoingBack(front: seq<Fragment>, last: Fragment, before: seq<byte>, rest: seq<byte>, ttt: int, maxLen: nat,
                  answer: seq<byte>)
    requires Joined(front) + before == answer && AllFull(front, maxLen) && before == last.data + rest
    requires 0 <= ttt <= RESERVED_TAG && last.ttt == ttt && 0 < |last.data| <= maxLen
    requires last.final ==> rest == [] && ttt == RESERVED_TAG
    requires !last.final ==> rest != [] && ttt != RESERVED_TAG && |last.data| == maxLen
    ensures Going(front, last, rest, ttt, maxLen, answer)
  {
    hide Joined, AllFull;
  }

  lemma GoingEnds(front: seq<Fragment>, last: Fragment, rest: seq<byte>, ttt: int, maxLen: nat, answer: seq<byte>)
    requires Going(front, last, rest, ttt, maxLen, answer) && last.final
    ensures Joined(front) + last.data == answer && AllFull(front, maxLen)
    ensures |last.data| <= maxLen && last.ttt == RESERVED_TAG && (front != [] ==> last.data != [])
  {
    hide Joined, AllFull;
  }

  lemma AnswerFront(answer: seq<byte>)
    ensures (answer + Zeros(PAD_ROOM))[..|answer|] == answer
    ensures forall p: nat :: p < |answer| ==> (answer + Zeros(PAD_ROOM))[p] == answer[p]
  {
  }

  /** A whole exchange: the initiator asks with the reserved tag and then with each tag it
      is given. None of its requests is rejected, each fragment but the last is full and
      carries a tag to go on with, and FINAL is on the last alone. The fragments make up the
      response, exactly if it has zeros already where the padding of an earlier fragment is
      written. */
  method Exchange(maxLen: nat, ttt: int, answer: seq<byte>) returns (front: seq<Fragment>, last: Fragment)
    requires maxLen > 0 && 0 <= ttt <= RESERVED_TAG
    ensures Joined(front) + last.data == Sent(answer + Zeros(PAD_ROOM), 0, |answer|, maxLen)
    ensures Joined(front) + last.data == answer <==>
              forall p: nat :: p < |answer| && Covered(p, maxLen) ==> answer[p] == 0
    ensures AllFull(front, maxLen) && |last.data| <= maxLen && last.final && last.ttt == RESERVED_TAG
    ensures front != [] ==> last.data != []
  {
    hide Joined, AllFull, Going, Sent, Covered;
    front := [];
    var x := new TextExchange(maxLen, ttt);
    ghost var c := answer + Zeros(PAD_ROOM);
    last := Ask(x, answer);
    GoingFirst(last, Rest(x), x.ttt, maxLen);
    while !last.final
      invariant x.Valid() && x.maxLen == maxLen && fresh(x.buf) && |Rest(x)| == x.size
      invariant Going(front, last, Rest(x), x.ttt, maxLen, Sent(c, 0, |answer|, maxLen))
      decreases x.size + if last.final then 0 else 1
    {
      GoingOn(front, last, Rest(x), x.ttt, maxLen, Sent(c, 0, |answer|, maxLen));
      front := front + [last];
      ghost var before := Rest(x);
      last := Continue(x);
      GoingBack(front, last, before, Rest(x), x.ttt, maxLen, Sent(c, 0, |answer|, maxLen));
    }
    GoingEnds(front, last, Rest(x), x.ttt, maxLen, Sent(c, 0, |answer|, maxLen));
    SentIff(c, |answer|, maxLen);
    AnswerFront(answer);
  }

  /** Every response arrives as it was printed, exactly if the fragments are a multiple of four
      bytes long or one is enough. */
  lemma AllAnswersArriveIff(n: nat, maxLen: nat)
    requires maxLen > 0
    ensures (forall answer: seq<byte> :: |answer| == n ==> Sent(answer + Zeros(PAD_ROOM), 0, n, maxLen) == answer) <==>
              maxLen % PAD_WORD_LEN == 0 || n <= maxLen
  {
    hide Sent;
    if maxLen % PAD_WORD_LEN == 0 || n <= maxLen {
      forall answer: seq<byte> | |answer| == n
        ensures Sent(answer + Zeros(PAD_ROOM), 0, n, maxLen) == answer
      {
        AlwaysSent(answer + Zeros(PAD_ROOM), n, maxLen);
        AnswerFront(answer);
      }
    } else {
      var answer: seq<byte> := seq(n, _ => 1);
      OddSegments(answer + Zeros(PAD_ROOM), n, maxLen);
      AnswerFront(answer);
    }
  }

  /** A printed response in which a value crosses the boundary between two fragments of 513
      bytes: the second one starts with zeros, so that the value ends where the first ends. */
  lemma OddFragmentCutsValue(p: Pair)
    requires |p.key| + 1 <= 513 < |p.key| + 1 + |p.value| && p.value[513 - |p.key| - 1] != NUL
    ensures var answer := Print(p);
            Sent(answer + Zeros(PAD_ROOM), 0, |answer|, 513)[513] == NUL && answer[513] != NUL
  {
    hide Sent;
    var answer := Print(p);
    AnswerFront(answer);
    OddSegments(answer + Zeros(PAD_ROOM), |answer|, 513);
  }
}
