/** What becomes of a running ORDERED command beside HEAD OF QUEUE commands. */
module OrderedTasks {
  import opened TaskSet

  // ----- the blocked flag, read off the log

  /** The last entry of an ORDERED or HEAD command is its start. */
  predicate LastMark(log: seq<Entry>) {
    log != [] &&
    var e := log[|log| - 1];
    if Blocks(e.cmd.attribute) then e.Start? else LastMark(log[..|log| - 1])
  }

  lemma MarkNext(log: seq<Entry>, e: Entry)
    ensures LastMark(log + [e]) == if Blocks(e.cmd.attribute) then e.Start? else LastMark(log)
  {
    assert (log + [e])[..|log|] == log;
  }

  /** Since the first ORDERED or HEAD entry at or behind i there is a last one, j. */
  lemma {:induction false} MarkAt(log: seq<Entry>, i: nat) returns (j: nat)
    requires i < |log| && Blocks(log[i].cmd.attribute)
    ensures i <= j < |log| && Blocks(log[j].cmd.attribute) && LastMark(log) == log[j].Start?
    ensures forall k :: j < k < |log| ==> !Blocks(log[k].cmd.attribute)
  {
    if Blocks(log[|log| - 1].cmd.attribute) {
      j := |log| - 1;
    } else {
      j := MarkAt(log[..|log| - 1], i);
    }
  }

  lemma {:induction false} LastIs(log: seq<Entry>, j: nat)
    requires j < |log| && Blocks(log[j].cmd.attribute) && forall k :: j < k < |log| ==> !Blocks(log[k].cmd.attribute)
    ensures LastMark(log) == log[j].Start?
  {
    var i := MarkAt(log, j);
  }

  predicate Marked(s: State) {
    s.blocked == LastMark(s.log)
  }

  lemma StartMarked(s: State, c: Command)
    requires Marked(s)
    ensures Marked(Started(s, c))
  {
    MarkNext(s.log, Start(c));
  }

  lemma {:induction false} DrainMarked(s: State)
    requires Marked(s)
    ensures Marked(Drain(s))
    decreases |s.queue|
  {
    if s.queue != [] && MayStart(s, s.queue[0].attribute) {
      StartMarked(s.(queue := s.queue[1..]), s.queue[0]);
      DrainMarked(Started(s.(queue := s.queue[1..]), s.queue[0]));
    }
  }

  lemma ApplyMarked(s: State, e: Event)
    requires Marked(s) && Possible(s, e)
    ensures Marked(Apply(s, e))
  {
    hide LastMark;
    match e
    case Arrive(a) =>
      StartMarked(s.(arrived := s.arrived + [Command(|s.arrived|, Known(a))]), Command(|s.arrived|, Known(a)));
    case Done(c) =>
      MarkNext(s.log, Complete(c));
      DrainMarked(Finished(s, c));
  }

  // ----- ORDERED commands never run together

  /** While an ORDERED command runs, no other ORDERED one starts or completes. */
  ghost predicate Exclusive(s: State) {
    forall i, j :: 0 <= i < j < |s.log| && s.log[i].Start? && s.log[i].cmd.attribute == Ordered
                   && s.log[i].cmd in s.running ==>
      s.log[j].cmd.attribute != Ordered
  }

  lemma AtMostOnce(s: State, c: Command)
    requires Queued(s)
    ensures multiset(s.arrived)[c] <= 1
  {
    if c in s.arrived {
      var k :| 0 <= k < |s.arrived| && s.arrived[k] == c;
      Distinct(s.arrived, k);
    }
  }

  lemma StartExclusive(s: State, c: Command)
    requires Exclusive(s) && s.active == |s.running| && MayStart(s, c.attribute) && c.attribute != Other
    requires InHand(s, c) && Queued(s)
    ensures Exclusive(Started(s, c))
  {
    AtMostOnce(s, c);
    assert Start(c) !in s.log;
    hide InHand, Queued;
  }

  lemma NotBoth(s: State, c: Command, d: Command)
    requires Exclusive(s) && Conserved(s) && Queued(s) && c.attribute == Ordered && d.attribute == Ordered
    requires c in s.running
    ensures d !in s.running - multiset{c}
  {
    AtMostOnce(s, c);
    assert multiset(s.log)[Start(c)] > 0;
    if d in s.running && d != c {
      assert multiset(s.log)[Start(d)] > 0;
      var i :| 0 <= i < |s.log| && s.log[i] == Start(c);
      var j :| 0 <= j < |s.log| && s.log[j] == Start(d);
    }
  }

  lemma FinishedExclusive(s: State, c: Command)
    requires Exclusive(s) && Core(s) && c in s.running
    ensures Exclusive(Finished(s, c))
  {
    var t := Finished(s, c);
    hide Fenced, BlockedHasCause, Conserved, Queued;
    forall i, j | 0 <= i < j < |t.log| && t.log[i].Start? && t.log[i].cmd.attribute == Ordered
      && t.log[i].cmd in t.running
      ensures t.log[j].cmd.attribute != Ordered
    {
      if j == |s.log| && c.attribute == Ordered {
        NotBoth(s, c, t.log[i].cmd);
      }
    }
  }

  lemma SameLogExclusive(s: State, t: State)
    requires Exclusive(s) && t.log == s.log && t.running == s.running
    ensures Exclusive(t)
  {
  }

  lemma {:induction false} DrainExclusive(s: State)
    requires Exclusive(s) && Core(s)
    ensures Exclusive(Drain(s))
    decreases |s.queue|
  {
    hide Exclusive, Conserved, Queued, Fenced, BlockedHasCause, InHand;
    if s.queue != [] && MayStart(s, s.queue[0].attribute) {
      var t := s.(queue := s.queue[1..]);
      TailInHand(s);
      NoOtherQueued(s);
      SameLogExclusive(s, t);
      StartExclusive(t, s.queue[0]);
      StartKeeps(t, s.queue[0]);
      DrainExclusive(Started(t, s.queue[0]));
    }
  }

  lemma ApplyExclusive(s: State, e: Event)
    requires Exclusive(s) && Inv(s) && Possible(s, e)
    ensures Exclusive(Apply(s, e))
  {
    hide Exclusive, Conserved, Queued, Fenced, BlockedHasCause, InHand;
    match e
    case Arrive(a) =>
      var c := Command(|s.arrived|, Known(a));
      var t := s.(arrived := s.arrived + [c]);
      NewArrival(s, a);
      SameLogExclusive(s, t);
      if MayStart(s, c.attribute) {
        StartExclusive(t, c);
      } else {
        SameLogExclusive(s, Arrived(s, a));
      }
    case Done(c) =>
      FinishedExclusive(s, c);
      FinishedKeeps(s, c);
      DrainExclusive(Finished(s, c));
  }

  lemma {:induction false} RunMarked(s: State, events: seq<Event>)
    requires Inv(s) && Marked(s) && Exclusive(s) && IsRun(s, events)
    ensures Marked(Run(s, events)) && Exclusive(Run(s, events))
    decreases |events|
  {
    hide Inv, Marked, Exclusive, Apply, Possible;
    if events != [] {
      ApplyKeeps(s, events[0]);
      ApplyMarked(s, events[0]);
      ApplyExclusive(s, events[0]);
      RunMarked(Apply(s, events[0]), events[1..]);
    }
  }

  lemma ReachableMarked(s: State)
    requires Reachable(s)
    ensures Inv(s) && Marked(s) && Exclusive(s)
  {
    hide Inv, Run, IsRun;
    ReachableInv(s);
    var events :| Leads(events, s);
    EmptyInv();
    RunMarked(Empty, events);
  }

  /** In every run the queue is blocked exactly if the last ORDERED or HEAD command that
      started or completed is one that started, whether it still runs or not. */
  lemma BlockedIff(s: State)
    requires Reachable(s)
    ensures s.blocked <==> LastMark(s.log)
  {
    hide Reachable, Inv, Exclusive;
    ReachableMarked(s);
  }

  /** A HEAD command completed after c started, and no ORDERED or HEAD command has started
      or completed since. */
  ghost predicate HeadDoneSince(log: seq<Entry>, c: Command) {
    exists i, j :: 0 <= i < j < |log| && log[i] == Start(c) && log[j].Complete? && log[j].cmd.attribute == Head
                   && forall k :: j < k < |log| ==> !Blocks(log[k].cmd.attribute)
  }

  lemma NewIsNotRunning(s: State, a: Attribute)
    requires Inv(s)
    ensures Command(|s.arrived|, a) !in s.running
  {
    var d := Command(|s.arrived|, a);
    assert d !in s.arrived;
    assert multiset(s.arrived)[d] == 0;
  }

  lemma StartLogged(s: State, c: Command) returns (i: nat)
    requires Inv(s) && c in s.running
    ensures i < |s.log| && s.log[i] == Start(c)
  {
    assert multiset(s.log)[Start(c)] > 0;
    i :| 0 <= i < |s.log| && s.log[i] == Start(c);
  }

  lemma UnmarkedIff(s: State, c: Command)
    requires Inv(s) && Exclusive(s) && c in s.running && c.attribute == Ordered
    ensures !LastMark(s.log) <==> HeadDoneSince(s.log, c)
  {
    hide LastMark, Inv;
    var i := StartLogged(s, c);
    var j := MarkAt(s.log, i);
    if !LastMark(s.log) {
      assert s.log[j].cmd.attribute != Ordered;
    }
    if HeadDoneSince(s.log, c) {
      var x, y :| 0 <= x < y < |s.log| && s.log[x] == Start(c) && s.log[y].Complete? && s.log[y].cmd.attribute == Head
                  && forall k :: y < k < |s.log| ==> !Blocks(s.log[k].cmd.attribute);
      LastIs(s.log, y);
    }
  }

  /** Beside a running ORDERED command an arriving SIMPLE one starts exactly if a HEAD command
      has completed in the meantime and nothing has blocked the queue again. */
  lemma SimpleStartsBesideIff(s: State, c: Command)
    requires Reachable(s) && c in s.running && c.attribute == Ordered
    ensures Command(|s.arrived|, Simple) in Apply(s, Arrive(Simple)).running <==> !LastMark(s.log)
    ensures Command(|s.arrived|, Simple) in Apply(s, Arrive(Simple)).running <==> HeadDoneSince(s.log, c)
  {
    hide Reachable, LastMark, HeadDoneSince, Exclusive, Inv;
    ReachableMarked(s);
    NewIsNotRunning(s, Simple);
    UnmarkedIff(s, c);
  }

  /** An attribute the code does not know is that of an ORDERED command. */
  lemma UnknownIsOrdered(s: State)
    ensures Apply(s, Arrive(Other)) == Apply(s, Arrive(Ordered))
  {
  }

  /** Which arrivals start at once, in every reachable state: HEAD commands always, SIMPLE ones
      unless the last mark blocks, ORDERED ones and those of unknown attributes if nothing
      runs. An arrival that does not start waits behind all that wait. */
  lemma StartsIff(s: State, a: Attribute)
    requires Reachable(s)
    ensures var c := Command(|s.arrived|, if a == Other then Ordered else a);
            var t := Apply(s, Arrive(a));
            var starts := match a case Simple => !LastMark(s.log) case Head => true case _ => s.running == multiset{};
            && t.arrived == s.arrived + [c]
            && t.running == (if starts then s.running + multiset{c} else s.running)
            && t.queue == (if starts then s.queue else s.queue + [c])
  {
    hide Reachable, LastMark, Exclusive;
    ReachableMarked(s);
    hide Conserved, Queued, Fenced;
    assert s.running != multiset{} ==> s.active > 0;
  }

  // ----- when an ORDERED command is the only one that runs

  predicate Alone(s: State) {
    forall c :: c in s.running && c.attribute == Ordered ==> s.running == multiset{c}
  }

  predicate AloneMarked(s: State) {
    Alone(s) && forall c :: c in s.running && c.attribute == Ordered ==> s.blocked
  }

  /** A HEAD command that arrives while an ORDERED one runs. */
  predicate Joins(s: State, e: Event) {
    e == Arrive(Head) && exists c :: c in s.running && c.attribute == Ordered
  }

  lemma {:induction false} DrainAlone(s: State)
    requires AloneMarked(s) && s.active == |s.running| && forall c :: c in s.queue ==> c.attribute in {Simple, Ordered}
    ensures AloneMarked(Drain(s))
    decreases |s.queue|
  {
    if s.queue != [] && MayStart(s, s.queue[0].attribute) {
      DrainAlone(Started(s.(queue := s.queue[1..]), s.queue[0]));
    }
  }

  lemma QueuedKinds(s: State)
    requires Inv(s)
    ensures s.active == |s.running| && forall c :: c in s.queue ==> c.attribute in {Simple, Ordered}
  {
  }

  lemma ArriveAlone(s: State, a: Attribute)
    requires AloneMarked(s) && s.active == |s.running|
    ensures Alone(Arrived(s, a)) <==> !Joins(s, Arrive(a))
    ensures !Joins(s, Arrive(a)) ==> AloneMarked(Arrived(s, a))
  {
    if Joins(s, Arrive(a)) {
      var c :| c in s.running && c.attribute == Ordered;
      var t := Arrived(s, a);
      assert t.running[c] > 0 && |t.running| == 2;
    }
  }

  lemma JoinIff(s: State, e: Event)
    requires Inv(s) && AloneMarked(s) && Possible(s, e)
    ensures Alone(Apply(s, e)) <==> !Joins(s, e)
    ensures !Joins(s, e) ==> AloneMarked(Apply(s, e))
  {
    QueuedKinds(s);
    hide Inv;
    match e
    case Arrive(a) => ArriveAlone(s, a);
    case Done(c) => DrainAlone(Finished(s, c));
  }

  /** In every state of the run a running ORDERED command is alone. */
  predicate AlwaysAlone(s: State, events: seq<Event>)
    decreases |events|
  {
    Alone(s) && (events == [] || (Possible(s, events[0]) && AlwaysAlone(Apply(s, events[0]), events[1..])))
  }

  predicate NoneJoins(s: State, events: seq<Event>)
    decreases |events|
  {
    events == [] || (Possible(s, events[0]) && !Joins(s, events[0]) && NoneJoins(Apply(s, events[0]), events[1..]))
  }

  lemma NotAloneNow(s: State, events: seq<Event>)
    requires !Alone(s)
    ensures !AlwaysAlone(s, events)
  {
  }

  lemma {:induction false} RunAlone(s: State, events: seq<Event>)
    requires Inv(s) && AloneMarked(s) && IsRun(s, events)
    ensures AlwaysAlone(s, events) <==> NoneJoins(s, events)
    ensures NoneJoins(s, events) ==> Alone(Run(s, events))
    decreases |events|
  {
    hide Inv, Joins, Apply, Possible, Alone;
    assert Alone(s);
    if events != [] {
      ApplyKeeps(s, events[0]);
      JoinIff(s, events[0]);
      if !Joins(s, events[0]) {
        RunAlone(Apply(s, events[0]), events[1..]);
      } else {
        NotAloneNow(Apply(s, events[0]), events[1..]);
      }
    }
  }

  /** Throughout a run every running ORDERED command is the only one that runs, exactly if no
      HEAD command arrives while an ORDERED one runs. */
  lemma OrderedAloneIff(events: seq<Event>)
    requires IsRun(Empty, events)
    ensures AlwaysAlone(Empty, events) <==> NoneJoins(Empty, events)
  {
    hide Run, IsRun, Inv, AlwaysAlone, NoneJoins;
    EmptyInv();
    RunAlone(Empty, events);
  }

  lemma {:induction false} NoHeadNoneJoins(s: State, events: seq<Event>)
    requires IsRun(s, events) && Arrive(Head) !in events
    ensures NoneJoins(s, events)
    decreases |events|
  {
    hide Apply, Possible;
    if events != [] {
      NoHeadNoneJoins(Apply(s, events[0]), events[1..]);
    }
  }

  /** Without HEAD OF QUEUE commands a running ORDERED command is the only one that runs. */
  lemma OrderedRunsAlone(events: seq<Event>, s: State, c: Command)
    requires Leads(events, s) && Arrive(Head) !in events
    requires c in s.running && c.attribute == Ordered
    ensures s.running == multiset{c}
  {
    hide Run, IsRun, Inv, AlwaysAlone, NoneJoins;
    EmptyInv();
    NoHeadNoneJoins(Empty, events);
    RunAlone(Empty, events);
  }

  lemma HeadBesideOrdered()
    ensures var c0, c1 := Command(0, Ordered), Command(1, Head);
            Reachable(State(2, true, [], multiset{c0, c1}, [c0, c1], [Start(c0), Start(c1)]))
  {
    hide Reachable;
    var c0, c1 := Command(0, Ordered), Command(1, Head);
    var s1 := State(1, true, [], multiset{c0}, [c0], [Start(c0)]);
    EmptyReachable();
    NextReachable(Empty, Arrive(Ordered), s1);
    NextReachable(s1, Arrive(Head), State(2, true, [], multiset{c0, c1}, [c0, c1], [Start(c0), Start(c1)]));
  }

  /** With one it need not be, as a run shows: a HEAD command that is done takes the mark away that an ORDERED
      command still needs, and a SIMPLE command starts beside it. */
  lemma HeadUnblocksOrdered()
    ensures var c0, c1, c2 := Command(0, Ordered), Command(1, Head), Command(2, Simple);
            Reachable(State(2, false, [], multiset{c0, c2}, [c0, c1, c2],
                            [Start(c0), Start(c1), Complete(c1), Start(c2)]))
  {
    hide Reachable, Drain;
    var c0, c1, c2 := Command(0, Ordered), Command(1, Head), Command(2, Simple);
    var s2 := State(2, true, [], multiset{c0, c1}, [c0, c1], [Start(c0), Start(c1)]);
    var s3 := State(1, false, [], multiset{c0}, [c0, c1], [Start(c0), Start(c1), Complete(c1)]);
    HeadBesideOrdered();
    assert Finished(s2, c1) == s3;
    NothingToDrain(s3);
    NextReachable(s2, Done(c1), s3);
    NextReachable(s3, Arrive(Simple),
                  State(2, false, [], multiset{c0, c2}, [c0, c1, c2], [Start(c0), Start(c1), Complete(c1), Start(c2)]));
  }
}
