/** A whole list of text keys, printed by text_key_add and parsed by next_key. */
module TextLoops {
  import opened Bytes
  import opened TextKeys

  /** The pairs that go into a response of used bytes: all of them in the answer to a Text
      Request; else one that would go over the limit is left out, and later shorter ones may
      still go in. */
  function Kept(all: bool, pairs: seq<Pair>, used: nat, limit: nat): seq<Pair> {
    if pairs == [] then []
    else if !all && used + |Print(pairs[0])| > limit then Kept(all, pairs[1..], used, limit)
    else [pairs[0]] + Kept(all, pairs[1..], used + |Print(pairs[0])|, limit)
  }

  lemma {:induction false} AllKept(pairs: seq<Pair>, used: nat, limit: nat)
    ensures Kept(true, pairs, used, limit) == pairs
  {
    if pairs != [] {
      AllKept(pairs[1..], used + |Print(pairs[0])|, limit);
    }
  }

  lemma KeptNext(all: bool, kept: seq<Pair>, rest: seq<Pair>, used: nat, limit: nat)
    requires rest != []
    ensures !all && used + |Print(rest[0])| > limit ==>
              kept + Kept(all, rest[1..], used, limit) == kept + Kept(all, rest, used, limit)
    ensures all || used + |Print(rest[0])| <= limit ==>
              (kept + [rest[0]]) + Kept(all, rest[1..], used + |Print(rest[0])|, limit) ==
                kept + Kept(all, rest, used, limit)
  {
    hide Print;
  }

  lemma KeptNone(all: bool, kept: seq<Pair>, used: nat, limit: nat)
    ensures kept + Kept(all, [], used, limit) == kept
  {
  }

  lemma {:induction false} PrintAllAppend(a: seq<Pair>, b: seq<Pair>)
    ensures PrintAll(a + b) == PrintAll(a) + PrintAll(b)
  {
    hide Print;
    if a == [] {
      assert [] + b == b;
    } else {
      assert (a + b)[1..] == a[1..] + b;
      PrintAllAppend(a[1..], b);
    }
  }

  lemma PrintOne(p: Pair)
    ensures PrintAll([p]) == Print(p)
  {
    assert [p][1..] == [];
  }

  lemma PrintMore(was: seq<byte>, kept: seq<Pair>, p: Pair)
    ensures was + PrintAll(kept) + Print(p) == was + PrintAll(kept + [p])
  {
    hide Print;
    PrintAllAppend(kept, [p]);
    PrintOne(p);
  }

  lemma PrintNothing(was: seq<byte>)
    ensures was + PrintAll([]) == was
  {
  }

  /** text_key_add for each pair in turn. */
  method AddAll(r: Response, pairs: seq<Pair>) returns (kept: seq<Pair>)
    requires |r.buffer| <= r.bufferSize
    modifies r
    ensures r.buffer == old(r.buffer) + PrintAll(kept)
    ensures kept == Kept(r.textRequest, pairs, |old(r.buffer)|, if r.fullFeature then r.maxXmit else old(r.bufferSize))
  {
    hide Print, PrintAll, Kept;
    ghost var was, limit := r.buffer, if r.fullFeature then r.maxXmit else r.bufferSize;
    kept := [];
    var rest := pairs;
    PrintNothing(was);
    while rest != []
      invariant |r.buffer| <= r.bufferSize && r.buffer == was + PrintAll(kept)
      invariant !r.textRequest && !r.fullFeature ==> r.bufferSize == limit
      invariant kept + Kept(r.textRequest, rest, |r.buffer|, limit) == Kept(r.textRequest, pairs, |was|, limit)
      decreases |rest|
    {
      KeptNext(r.textRequest, kept, rest, |r.buffer|, limit);
      PrintMore(was, kept, rest[0]);
      var dropped := r.KeyAdd(rest[0]);
      if !dropped {
        kept := kept + [rest[0]];
      }
      rest := rest[1..];
    }
    KeptNone(r.textRequest, kept, |r.buffer|, limit);
  }

  /** next_key until it finds no pair. */
  method NextAll(buf: array<byte>, data: nat, size: nat) returns (pairs: seq<Pair>, left: nat)
    requires data + size <= buf.Length
    modifies buf
    ensures pairs == ParseAll(old(buf[data..data + size]))
    ensures left == |Leftover(old(buf[data..data + size]))|
  {
    hide Next;
    ghost var s := buf[data..data + size];
    var at: nat := data;
    left := size;
    pairs := [];
    var more := true;
    while more
      invariant at + left <= buf.Length
      invariant more ==>
        pairs + ParseAll(buf[at..at + left]) == ParseAll(s) && Leftover(buf[at..at + left]) == Leftover(s)
      invariant !more ==> pairs == ParseAll(s) && left == |Leftover(s)|
      decreases more, left
    {
      ghost var was := buf[at..at + left];
      var found, keyEnd, value, valueEnd, at', left' := NextKey(buf, at, left);
      if found {
        pairs := pairs + [Pair(buf[at..keyEnd], buf[value..valueEnd])];
        at, left := at', left';
      } else {
        more := false;
      }
    }
  }

  /** Printed without a limit into a response and parsed in place, a list of pairs of C strings
      comes back as it was, exactly if no key has an equals sign in it. */
  method PrintAndParse(pairs: seq<Pair>, bufferSize: nat) returns (got: seq<Pair>, left: nat)
    requires forall p :: p in pairs ==> Strings(p)
    ensures got == pairs <==> forall p :: p in pairs ==> EQUALS !in p.key
    ensures got == pairs ==> left == 0
  {
    hide PrintAll, ParseAll, Leftover, Kept;
    var r := new Response(false, 0, true, bufferSize);
    var kept := AddAll(r, pairs);
    AllKept(pairs, 0, bufferSize);
    var printed := r.buffer;
    assert printed == PrintAll(pairs);
    var buf := new byte[|printed|](i requires 0 <= i < |printed| => printed[i]);
    assert buf[0..|printed|] == printed;
    got, left := NextAll(buf, 0, |printed|);
    RoundTripIff(pairs);
    if got == pairs {
      ParsePrinted(pairs);
    }
  }
}
