/** Padding in place: the transmit machine writes the zeros behind the data of a PDU into the
    buffer the data is in, and what that does to data sent from one buffer in segments. */
module Padding {
  import opened Bytes

  const PAD_WORD_LEN := 4
  const PAD_ROOM := PAD_WORD_LEN - 1

  /** How many zeros follow n bytes. */
  function PadLen(n: nat): (k: nat)
    ensures k <= PAD_ROOM
  {
    (PAD_WORD_LEN - n % PAD_WORD_LEN) % PAD_WORD_LEN
  }

  lemma PutZero(b: seq<byte>, at: nat, k: nat)
    requires at + k < |b|
    ensures Put(b, at, Zeros(k))[at + k := 0] == Put(b, at, Zeros(k + 1))
  {
  }

  /** The memset of IOSTATE_TX_INIT_DATA, behind n bytes of data at offset at. */
  method PadInPlace(buf: array<byte>, at: nat, n: nat) returns (size: nat)
    requires at + n + PadLen(n) <= buf.Length
    modifies buf
    ensures size == n + PadLen(n)
    ensures buf[..] == Put(old(buf[..]), at + n, Zeros(PadLen(n)))
  {
    size := n;
    var pad := n % PAD_WORD_LEN;
    assert Put(buf[..], at + n, Zeros(0)) == buf[..];
    if pad != 0 {
      pad := PAD_WORD_LEN - pad;
      var i := 0;
      while i < pad
        invariant 0 <= i <= pad
        invariant buf[..] == Put(old(buf[..]), at + n, Zeros(i))
      {
        PutZero(old(buf[..]), at + n, i);
        buf[at + n + i] := 0;
        i := i + 1;
      }
      size := size + pad;
    }
  }

  // ----- segments of one buffer

  /** The buffer after a segment of k bytes at offset at has been sent. */
  function Wiped(c: seq<byte>, at: nat, k: nat): (r: seq<byte>)
    requires at + k + PAD_ROOM <= |c|
    ensures |r| == |c|
  {
    Put(c, at + k, Zeros(PadLen(k)))
  }

  /** What goes out when bytes at to n of a buffer are sent in segments of m bytes, each padded
      in place before the next one is cut. c is the buffer with what lies behind it. */
  function Sent(c: seq<byte>, at: nat, n: nat, m: nat): (r: seq<byte>)
    requires m > 0 && at <= n && n + PAD_ROOM <= |c|
    ensures |r| == n - at
    decreases n - at
  {
    if at == n then []
    else
      var k := Min(m, n - at);
      c[at..at + k] + Sent(Wiped(c, at, k), at + k, n, m)
  }

  /** And what the buffer holds at the end. */
  function Leaves(c: seq<byte>, at: nat, n: nat, m: nat): (r: seq<byte>)
    requires m > 0 && at <= n && n + PAD_ROOM <= |c|
    ensures |r| == |c|
    decreases n - at
  {
    if at == n then c
    else
      var k := Min(m, n - at);
      Leaves(Wiped(c, at, k), at + k, n, m)
  }

  /** The byte at p comes behind a segment boundary and so close to it that the padding of the
      segment before covers it. */
  predicate Covered(p: nat, m: nat)
    requires m > 0
  {
    p >= m && p % m < PadLen(m)
  }

  /** With the offset a multiple of m: x bytes on the remainder is x, and from m on that of
      the next segment. */
  lemma Offset(j: nat, m: nat, x: nat)
    requires m > 0 && x < m
    ensures (m * j + x) % m == x
  {
    ModUnique(m * j + x, m, j, x);
  }

  lemma WipedAt(c: seq<byte>, at: nat, k: nat, p: nat)
    requires at + k + PAD_ROOM <= |c| && p < |c|
    ensures Wiped(c, at, k)[p] == if at + k <= p < at + k + PadLen(k) then 0 else c[p]
  {
  }

  lemma SentNext(c: seq<byte>, at: nat, n: nat, m: nat)
    requires m > 0 && at < n && n + PAD_ROOM <= |c|
    ensures var k := Min(m, n - at);
            Sent(c, at, n, m) == c[at..at + k] + Sent(Wiped(c, at, k), at + k, n, m)
  {
    hide Wiped;
  }

  lemma InHead(c: seq<byte>, at: nat, to: nat, tail: seq<byte>, p: nat)
    requires at <= p < to <= |c|
    ensures (c[at..to] + tail)[p - at] == c[p]
  {
  }

  lemma InTail(head: seq<byte>, tail: seq<byte>, i: nat)
    requires |head| <= i < |head| + |tail|
    ensures (head + tail)[i] == tail[i - |head|]
  {
  }

  lemma SentHead(c: seq<byte>, at: nat, n: nat, m: nat, p: nat)
    requires m > 0 && at <= p < n && p < at + m && n + PAD_ROOM <= |c|
    ensures Sent(c, at, n, m)[p - at] == c[p]
  {
    SentNext(c, at, n, m);
    hide Wiped, Sent, PadLen;
    var k := Min(m, n - at);
    InHead(c, at, at + k, Sent(Wiped(c, at, k), at + k, n, m), p);
  }

  lemma SentFull(c: seq<byte>, at: nat, n: nat, m: nat)
    requires m > 0 && at + m < n && n + PAD_ROOM <= |c|
    ensures Sent(c, at, n, m) == c[at..at + m] + Sent(Wiped(c, at, m), at + m, n, m)
  {
    hide Wiped;
    assert Min(m, n - at) == m;
  }

  lemma SentTail(c: seq<byte>, at: nat, n: nat, m: nat, p: nat)
    requires m > 0 && at + m <= p < n && n + PAD_ROOM <= |c|
    ensures Sent(c, at, n, m)[p - at] == Sent(Wiped(c, at, m), at + m, n, m)[p - at - m]
  {
    hide Wiped, Sent, PadLen;
    var head, tail := c[at..at + m], Sent(Wiped(c, at, m), at + m, n, m);
    assert Sent(c, at, n, m) == head + tail by {
      SentFull(c, at, n, m);
    }
    InTail(head, tail, p - at);
  }

  /** Of the bytes not sent yet, those that an earlier padding covers go out as zeros, and the
      others as they are. */
  lemma {:induction false} SentFrom(c: seq<byte>, j: nat, n: nat, m: nat, p: nat)
    requires m > 0 && m * j <= p < n && n + PAD_ROOM <= |c|
    ensures Sent(c, m * j, n, m)[p - m * j] == if p >= m * j + m && p % m < PadLen(m) then 0 else c[p]
    decreases n - m * j
  {
    hide Sent, Wiped, PadLen;
    var at := m * j;
    if p < at + m {
      SentHead(c, at, n, m, p);
    } else {
      SentTail(c, at, n, m, p);
      assert at + m == m * (j + 1);
      SentFrom(Wiped(c, at, m), j + 1, n, m, p);
      WipedAt(c, at, m, p);
      if p < at + m + m {
        Offset(j + 1, m, p - (at + m));
      }
    }
  }

  /** What arrives, byte by byte. */
  lemma SentAt(c: seq<byte>, n: nat, m: nat, p: nat)
    requires m > 0 && p < n && n + PAD_ROOM <= |c|
    ensures Sent(c, 0, n, m)[p] == if Covered(p, m) then 0 else c[p]
  {
    assert m * 0 == 0;
    SentFrom(c, 0, n, m, p);
  }

  /** The buffer arrives as it was, exactly if it has zeros already where they are written. */
  lemma SentIff(c: seq<byte>, n: nat, m: nat)
    requires m > 0 && n + PAD_ROOM <= |c|
    ensures Sent(c, 0, n, m) == c[..n] <==> forall p: nat :: p < n && Covered(p, m) ==> c[p] == 0
  {
    forall p: nat | p < n
      ensures Sent(c, 0, n, m)[p] == if Covered(p, m) then 0 else c[p]
    {
      SentAt(c, n, m, p);
    }
    hide Sent, Covered;
    if Sent(c, 0, n, m) == c[..n] {
      forall p: nat | p < n && Covered(p, m)
        ensures c[p] == 0
      {
        assert c[..n][p] == c[p];
      }
    }
  }

  lemma FirstCovered(m: nat)
    requires m > 0 && m % PAD_WORD_LEN != 0
    ensures Covered(m, m)
  {
    assert m * 1 == m;
    Offset(1, m, 0);
  }

  /** Segments of a length that is no multiple of four lose the first byte behind the first
      boundary, unless it is zero. */
  lemma OddSegments(c: seq<byte>, n: nat, m: nat)
    requires 0 < m < n && m % PAD_WORD_LEN != 0 && n + PAD_ROOM <= |c| && c[m] != 0
    ensures Sent(c, 0, n, m)[m] == 0 && Sent(c, 0, n, m) != c[..n]
  {
    FirstCovered(m);
    SentAt(c, n, m, m);
    assert c[..n][m] == c[m];
  }

  lemma NotCovered(p: nat, m: nat)
    requires m > 0 && (m % PAD_WORD_LEN == 0 || p < m)
    ensures !Covered(p, m)
  {
    if p >= m {
      assert PadLen(m) == 0;
    }
  }

  /** With segments of a multiple of four bytes, or with one, no padding covers data. */
  lemma AlwaysSent(c: seq<byte>, n: nat, m: nat)
    requires m > 0 && n + PAD_ROOM <= |c|
    ensures m % PAD_WORD_LEN == 0 || n <= m ==> Sent(c, 0, n, m) == c[..n]
  {
    SentIff(c, n, m);
    hide Sent, Covered;
    if m % PAD_WORD_LEN == 0 || n <= m {
      forall p: nat | p < n
        ensures !Covered(p, m)
      {
        NotCovered(p, m);
      }
    }
  }

  /** Every buffer of n bytes arrives as it was, exactly if the segments are a multiple of four
      bytes long or one is enough. */
  lemma AllSentIff(n: nat, m: nat)
    requires m > 0
    ensures (forall c: seq<byte> :: |c| == n + PAD_ROOM ==> Sent(c, 0, n, m) == c[..n]) <==>
              m % PAD_WORD_LEN == 0 || n <= m
  {
    hide Sent;
    if m % PAD_WORD_LEN == 0 || n <= m {
      forall c: seq<byte> | |c| == n + PAD_ROOM
        ensures Sent(c, 0, n, m) == c[..n]
      {
        AlwaysSent(c, n, m);
      }
    } else {
      var c: seq<byte> := seq(n + PAD_ROOM, _ => 1);
      OddSegments(c, n, m);
    }
  }
}
