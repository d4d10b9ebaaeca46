/** The task set of a logical unit: which commands start on arrival, which wait in the queue,
    and which of the waiting ones start when a command is done. */
module TaskSet {
  datatype Attribute = Simple | Ordered | Head | Other

  /** number: the order of arrival. */
  datatype Command = Command(number: nat, attribute: Attribute)

  datatype Entry = Start(cmd: Command) | Complete(cmd: Command)

  datatype State = State(
    active: int,
    blocked: bool,
    queue: seq<Command>,
    running: multiset<Command>,
    arrived: seq<Command>,
    log: seq<Entry>)

  datatype Event = Arrive(attribute: Attribute) | Done(cmd: Command)

  const Empty := State(0, false, [], multiset{}, [], [])

  /** An attribute the code does not know is treated as ORDERED from then on. */
  function Known(a: Attribute): Attribute {
    if a == Other then Ordered else a
  }

  predicate Blocks(a: Attribute) {
    a == Ordered || a == Head
  }

  predicate MayStart(s: State, a: Attribute) {
    match a
    case Simple => !s.blocked
    case Head => true
    case _ => !s.blocked && s.active == 0
  }

  function Started(s: State, c: Command): State {
    s.(active := s.active + 1, blocked := s.blocked || Blocks(c.attribute),
       running := s.running + multiset{c}, log := s.log + [Start(c)])
  }

  function Drain(s: State): State
    decreases |s.queue|
  {
    if s.queue != [] && MayStart(s, s.queue[0].attribute)
    then Drain(Started(s.(queue := s.queue[1..]), s.queue[0]))
    else s
  }

  predicate Possible(s: State, e: Event) {
    e.Arrive? || e.cmd in s.running
  }

  function Arrived(s: State, a: Attribute): State {
    var c := Command(|s.arrived|, Known(a));
    var s1 := s.(arrived := s.arrived + [c]);
    if MayStart(s, c.attribute) then Started(s1, c) else s1.(queue := s.queue + [c])
  }

  function Finished(s: State, c: Command): State {
    s.(active := s.active - 1, blocked := s.blocked && !Blocks(c.attribute),
       running := s.running - multiset{c}, log := s.log + [Complete(c)])
  }

  function Apply(s: State, e: Event): State
    requires Possible(s, e)
  {
    match e
    case Arrive(a) => Arrived(s, a)
    case Done(c) => Drain(Finished(s, c))
  }

  predicate IsRun(s: State, events: seq<Event>)
    decreases |events|
  {
    events == [] || (Possible(s, events[0]) && IsRun(Apply(s, events[0]), events[1..]))
  }

  function Run(s: State, events: seq<Event>): State
    requires IsRun(s, events)
    decreases |events|
  {
    if events == [] then s else Run(Apply(s, events[0]), events[1..])
  }

  // ----- the invariant

  /** Every command that arrived is waiting or was started once, and a started command is
      running or was completed once. */
  ghost predicate Conserved(s: State) {
    forall c: Command ::
      && multiset(s.arrived)[c] == multiset(s.queue)[c] + multiset(s.log)[Start(c)]
      && multiset(s.log)[Start(c)] == s.running[c] + multiset(s.log)[Complete(c)]
  }

  ghost predicate Queued(s: State) {
    && (forall i :: 0 <= i < |s.arrived| ==> s.arrived[i].number == i)
    && (forall i :: 0 <= i < |s.queue| ==> s.queue[i].attribute in {Simple, Ordered} && s.queue[i].number < |s.arrived|)
    && (forall i, j :: 0 <= i < j < |s.queue| ==> s.queue[i].number < s.queue[j].number)
  }

  ghost predicate FenceAt(s: State, i: nat)
    requires i < |s.log|
  {
    s.log[i].Start? && s.log[i].cmd.attribute == Ordered ==>
      forall k :: 0 <= k < s.log[i].cmd.number && k < |s.arrived| ==> Complete(s.arrived[k]) in s.log[..i]
  }

  /** When an ORDERED command starts, every command that arrived before it is complete. */
  ghost predicate Fenced(s: State) {
    forall i :: 0 <= i < |s.log| ==> FenceAt(s, i)
  }

  ghost predicate BlockedHasCause(s: State) {
    s.blocked ==> exists c :: c in s.running && Blocks(c.attribute)
  }

  ghost predicate Core(s: State) {
    s.active == |s.running| && BlockedHasCause(s) && Conserved(s) && Queued(s) && Fenced(s)
  }

  /** The first waiting command may not start yet, so nothing waits while nothing runs. */
  ghost predicate Inv(s: State) {
    Core(s) && (s.queue != [] ==> !MayStart(s, s.queue[0].attribute))
  }

  // ----- starting one command

  /** The command is neither waiting nor started yet. */
  ghost predicate InHand(s: State, c: Command) {
    forall d: Command ::
      && multiset(s.arrived)[d] == multiset(s.queue)[d] + (if d == c then 1 else 0) + multiset(s.log)[Start(d)]
      && multiset(s.log)[Start(d)] == s.running[d] + multiset(s.log)[Complete(d)]
  }

  lemma LogGrows(log: seq<Entry>, e: Entry, d: Entry)
    ensures multiset(log + [e])[d] == multiset(log)[d] + if d == e then 1 else 0
  {
  }

  lemma StartConserves(s: State, c: Command)
    requires InHand(s, c)
    ensures Conserved(Started(s, c))
  {
    var t := Started(s, c);
    forall d: Command
      ensures multiset(t.arrived)[d] == multiset(t.queue)[d] + multiset(t.log)[Start(d)]
      ensures multiset(t.log)[Start(d)] == t.running[d] + multiset(t.log)[Complete(d)]
    {
      LogGrows(s.log, Start(c), Start(d));
      LogGrows(s.log, Start(c), Complete(d));
    }
  }

  lemma StartBlocks(s: State, c: Command)
    requires BlockedHasCause(s)
    ensures BlockedHasCause(Started(s, c))
  {
    var t := Started(s, c);
    assert c in t.running;
    if s.blocked {
      var b :| b in s.running && Blocks(b.attribute);
      assert b in t.running;
    }
  }

  lemma FenceStays(s: State, e: Entry, t: State)
    requires Fenced(s) && t.log == s.log + [e] && t.arrived == s.arrived && FenceAt(t, |s.log|)
    ensures Fenced(t)
  {
    forall i | 0 <= i < |t.log|
      ensures FenceAt(t, i)
    {
      if i < |s.log| {
        assert FenceAt(s, i);
        assert t.log[i] == s.log[i] && t.log[..i] == s.log[..i];
      }
    }
  }

  lemma EarlierComplete(s: State, c: Command, k: nat)
    requires s.running == multiset{} && Queued(s) && k < |s.arrived| && k < c.number
    requires InHand(s, c)
    requires forall d :: d in s.queue ==> c.number < d.number
    ensures Complete(s.arrived[k]) in s.log
  {
    var d := s.arrived[k];
    assert multiset(s.arrived)[d] > 0;
    assert d !in s.queue && d != c;
    assert multiset(s.queue)[d] == 0;
    assert multiset(s.log)[Complete(d)] > 0;
  }

  lemma StartKeeps(s: State, c: Command)
    requires s.active == |s.running| && BlockedHasCause(s) && Queued(s) && Fenced(s) && InHand(s, c)
    requires MayStart(s, c.attribute) && c.attribute != Other
    requires c.attribute == Ordered ==> forall d :: d in s.queue ==> c.number < d.number
    ensures Core(Started(s, c))
  {
    hide Fenced, BlockedHasCause, InHand, Conserved;
    var t := Started(s, c);
    StartConserves(s, c);
    StartBlocks(s, c);
    assert FenceAt(t, |s.log|) by {
      assert t.log[..|s.log|] == s.log;
      if c.attribute == Ordered {
        forall k | 0 <= k < c.number && k < |s.arrived|
          ensures Complete(s.arrived[k]) in s.log
        {
          EarlierComplete(s, c, k);
        }
      }
    }
    FenceStays(s, Start(c), t);
  }

  // ----- the steps keep the invariant

  lemma TailConserves(s: State)
    requires Conserved(s) && s.queue != []
    ensures InHand(s.(queue := s.queue[1..]), s.queue[0])
  {
    var t := s.(queue := s.queue[1..]);
    assert s.queue == [s.queue[0]] + t.queue;
    forall d: Command
      ensures multiset(s.queue)[d] == multiset(t.queue)[d] + if d == s.queue[0] then 1 else 0
    {
    }
  }

  lemma SameLogSameFence(s: State, t: State)
    requires Fenced(s) && t.log == s.log && t.arrived == s.arrived
    requires BlockedHasCause(s) && t.blocked == s.blocked && t.running == s.running
    ensures Fenced(t) && BlockedHasCause(t)
  {
    forall i | 0 <= i < |t.log|
      ensures FenceAt(t, i)
    {
      assert FenceAt(s, i);
    }
  }

  lemma TailInHand(s: State)
    requires Core(s) && s.queue != []
    ensures var t := s.(queue := s.queue[1..]);
            InHand(t, s.queue[0]) && Queued(t) && Fenced(t) && BlockedHasCause(t)
    ensures forall d :: d in s.queue[1..] ==> s.queue[0].number < d.number
  {
    hide Fenced, BlockedHasCause, Conserved, InHand;
    TailConserves(s);
    SameLogSameFence(s, s.(queue := s.queue[1..]));
  }

  lemma NoOtherQueued(s: State)
    requires Queued(s) && s.queue != []
    ensures s.queue[0].attribute in {Simple, Ordered}
  {
  }

  lemma {:induction false} DrainKeeps(s: State)
    requires Core(s)
    ensures Inv(Drain(s)) && Drain(s).arrived == s.arrived
    decreases |s.queue|
  {
    hide Fenced, BlockedHasCause, InHand, Conserved, Queued;
    if s.queue != [] && MayStart(s, s.queue[0].attribute) {
      TailInHand(s);
      assert s.queue[0].attribute != Other by { NoOtherQueued(s); }
      StartKeeps(s.(queue := s.queue[1..]), s.queue[0]);
      DrainKeeps(Started(s.(queue := s.queue[1..]), s.queue[0]));
    }
  }

  lemma NoOthers(s: State)
    requires Inv(s)
    ensures forall i :: 0 <= i < |s.queue| ==> s.queue[i].attribute != Other
  {
  }

  lemma OneLess(a: multiset<Command>, c: Command, d: Command)
    requires c in a
    ensures (a - multiset{c})[d] == a[d] - if d == c then 1 else 0
  {
  }

  lemma FinishedConserves(s: State, c: Command)
    requires Conserved(s) && c in s.running
    ensures Conserved(Finished(s, c))
  {
    var t := Finished(s, c);
    forall d: Command
      ensures multiset(t.arrived)[d] == multiset(t.queue)[d] + multiset(t.log)[Start(d)]
      ensures multiset(t.log)[Start(d)] == t.running[d] + multiset(t.log)[Complete(d)]
    {
      LogGrows(s.log, Complete(c), Start(d));
      LogGrows(s.log, Complete(c), Complete(d));
      OneLess(s.running, c, d);
    }
  }

  lemma SameQueue(s: State, t: State)
    requires Queued(s) && t.queue == s.queue && t.arrived == s.arrived
    ensures Queued(t)
  {
  }

  lemma FinishedBlocks(s: State, c: Command)
    requires BlockedHasCause(s) && c in s.running
    ensures BlockedHasCause(Finished(s, c))
  {
    var t := Finished(s, c);
    if t.blocked {
      var b :| b in s.running && Blocks(b.attribute);
      assert b in t.running;
    }
  }

  lemma FinishedKeeps(s: State, c: Command)
    requires Core(s) && c in s.running
    ensures Core(Finished(s, c))
  {
    hide Conserved, Fenced, Queued;
    FinishedConserves(s, c);
    FinishedBlocks(s, c);
    assert Queued(Finished(s, c)) by { SameQueue(s, Finished(s, c)); }
    hide BlockedHasCause;
    FenceStays(s, Complete(c), Finished(s, c));
  }

  lemma OneMore(cs: seq<Command>, c: Command, d: Command)
    ensures multiset(cs + [c])[d] == multiset(cs)[d] + if d == c then 1 else 0
  {
  }

  lemma NewInHand(s: State, c: Command)
    requires Conserved(s)
    ensures InHand(s.(arrived := s.arrived + [c]), c)
  {
    forall d: Command
      ensures multiset(s.arrived + [c])[d] ==
        multiset(s.queue)[d] + (if d == c then 1 else 0) + multiset(s.log)[Start(d)]
    {
      OneMore(s.arrived, c, d);
    }
  }

  lemma LoggedArrived(s: State, i: nat)
    requires Conserved(s) && Queued(s) && i < |s.log| && s.log[i].Start?
    ensures s.log[i].cmd.number < |s.arrived|
  {
    assert multiset(s.log)[s.log[i]] > 0;
    assert s.log[i].cmd in multiset(s.arrived);
  }

  lemma NewFenced(s: State, c: Command)
    requires Conserved(s) && Queued(s) && Fenced(s)
    ensures Fenced(s.(arrived := s.arrived + [c]))
  {
    var t := s.(arrived := s.arrived + [c]);
    hide Conserved, Queued;
    forall i | 0 <= i < |t.log|
      ensures FenceAt(t, i)
    {
      assert FenceAt(s, i);
      if t.log[i].Start? {
        LoggedArrived(s, i);
      }
    }
  }

  lemma NewArrival(s: State, a: Attribute)
    requires Core(s)
    ensures var c := Command(|s.arrived|, Known(a));
            var t := s.(arrived := s.arrived + [c]);
            && InHand(t, c) && Queued(t) && Fenced(t) && BlockedHasCause(t)
            && (forall d :: d in s.queue ==> d.number < c.number)
  {
    var c := Command(|s.arrived|, Known(a));
    var t := s.(arrived := s.arrived + [c]);
    NewInHand(s, c);
    NewFenced(s, c);
    hide Conserved, Fenced, InHand;
  }

  lemma QueueConserves(s: State, c: Command)
    requires InHand(s, c)
    ensures Conserved(s.(queue := s.queue + [c]))
  {
    var t := s.(queue := s.queue + [c]);
    forall d: Command
      ensures multiset(t.arrived)[d] == multiset(t.queue)[d] + multiset(t.log)[Start(d)]
    {
      OneMore(s.queue, c, d);
    }
  }

  lemma EnqueueKeeps(s: State, c: Command)
    requires BlockedHasCause(s) && Queued(s) && Fenced(s) && InHand(s, c)
    requires c.attribute in {Simple, Ordered} && c.number < |s.arrived|
    requires forall d :: d in s.queue ==> d.number < c.number
    ensures var t := s.(queue := s.queue + [c]);
            BlockedHasCause(t) && Conserved(t) && Queued(t) && Fenced(t)
  {
    QueueConserves(s, c);
    SameLogSameFence(s, s.(queue := s.queue + [c]));
    hide Conserved, Fenced, BlockedHasCause, InHand;
  }

  lemma NoneWaits(s: State)
    requires Inv(s) && MayStart(s, Ordered)
    ensures s.queue == []
  {
  }

  lemma StartedOnArrival(s: State, a: Attribute)
    requires Inv(s) && MayStart(s, Known(a))
    ensures Inv(Arrived(s, a))
  {
    hide Fenced, BlockedHasCause, InHand, Conserved, Queued;
    var c := Command(|s.arrived|, Known(a));
    var t := s.(arrived := s.arrived + [c]);
    NewArrival(s, a);
    if c.attribute == Ordered {
      NoneWaits(s);
    }
    StartKeeps(t, c);
  }

  lemma QueuedOnArrival(s: State, a: Attribute)
    requires Inv(s) && !MayStart(s, Known(a))
    ensures Inv(Arrived(s, a))
  {
    hide Fenced, BlockedHasCause, InHand, Conserved, Queued;
    var c := Command(|s.arrived|, Known(a));
    NewArrival(s, a);
    EnqueueKeeps(s.(arrived := s.arrived + [c]), c);
  }

  lemma ArrivedKeeps(s: State, a: Attribute)
    requires Inv(s)
    ensures Inv(Arrived(s, a))
  {
    hide Core, Inv;
    if MayStart(s, Known(a)) {
      StartedOnArrival(s, a);
    } else {
      QueuedOnArrival(s, a);
    }
  }

  lemma ApplyKeeps(s: State, e: Event)
    requires Inv(s) && Possible(s, e)
    ensures Inv(Apply(s, e))
  {
    hide Core;
    if e.Arrive? {
      ArrivedKeeps(s, e.attribute);
    } else {
      assert Core(s);
      FinishedKeeps(s, e.cmd);
      DrainKeeps(Finished(s, e.cmd));
    }
  }

  /** Every run keeps the invariant. */
  lemma {:induction false} RunKeeps(s: State, events: seq<Event>)
    requires Inv(s) && IsRun(s, events)
    ensures Inv(Run(s, events))
    decreases |events|
  {
    hide Inv, Core;
    if events != [] {
      ApplyKeeps(s, events[0]);
      RunKeeps(Apply(s, events[0]), events[1..]);
    }
  }

  lemma EmptyInv()
    ensures Inv(Empty)
  {
  }

  // ----- what follows for every run from the empty task set

  /** These events, on the empty task set, lead to s. */
  predicate Leads(events: seq<Event>, s: State) {
    IsRun(Empty, events) && Run(Empty, events) == s
  }

  ghost predicate Reachable(s: State) {
    exists events :: Leads(events, s)
  }

  lemma {:induction false} RunSnoc(s: State, events: seq<Event>, e: Event)
    requires IsRun(s, events) && Possible(Run(s, events), e)
    ensures IsRun(s, events + [e]) && Run(s, events + [e]) == Apply(Run(s, events), e)
    decreases |events|
  {
    hide Apply, Possible;
    if events == [] {
      assert ([] + [e])[1..] == [];
    } else {
      assert (events + [e])[1..] == events[1..] + [e];
      RunSnoc(Apply(s, events[0]), events[1..], e);
    }
  }

  lemma ReachableNext(s: State, e: Event)
    requires Reachable(s) && Possible(s, e)
    ensures Reachable(Apply(s, e))
  {
    hide Apply, Run, IsRun, Possible;
    var events :| Leads(events, s);
    RunSnoc(Empty, events, e);
    assert Leads(events + [e], Apply(s, e));
  }

  lemma EmptyReachable()
    ensures Reachable(Empty)
  {
    assert Leads([], Empty);
  }

  lemma ReachableInv(s: State)
    requires Reachable(s)
    ensures Inv(s)
  {
    hide Inv, Run, IsRun;
    var events :| Leads(events, s);
    EmptyInv();
    RunKeeps(Empty, events);
  }

  /** Commands that are not complete yet. */
  function Waiting(s: State): nat {
    |s.queue| + |s.running|
  }

  lemma {:induction false} DrainWaiting(s: State)
    ensures Waiting(Drain(s)) == Waiting(s)
    decreases |s.queue|
  {
    if s.queue != [] && MayStart(s, s.queue[0].attribute) {
      DrainWaiting(Started(s.(queue := s.queue[1..]), s.queue[0]));
    }
  }

  /** Commands that were started or wait are never lost: while one waits, one runs, so a
      completion is still to come, and each completion leaves one command fewer. */
  lemma NoStall(s: State)
    requires Reachable(s)
    ensures s.active == |s.running|
    ensures s.queue != [] ==> s.running != multiset{}
    ensures s.blocked ==> exists c :: c in s.running && Blocks(c.attribute)
    ensures forall c :: c in s.running ==> Waiting(Apply(s, Done(c))) == Waiting(s) - 1
  {
    hide Reachable, Conserved, Queued, Fenced;
    ReachableInv(s);
    forall c | c in s.running
      ensures Waiting(Apply(s, Done(c))) == Waiting(s) - 1
    {
      DrainWaiting(Finished(s, c));
    }
  }

  /** Whatever else runs, an ORDERED command starts only when everything that arrived before
      it is complete. */
  lemma OrderedIsFence(s: State, i: nat, k: nat)
    requires Reachable(s)
    requires i < |s.log| && s.log[i].Start? && s.log[i].cmd.attribute == Ordered && k < s.log[i].cmd.number
    ensures k < |s.arrived| && s.arrived[k].number == k && Complete(s.arrived[k]) in s.log[..i]
  {
    hide Reachable, Conserved, BlockedHasCause;
    ReachableInv(s);
    LoggedArrived(s, i);
    assert FenceAt(s, i);
  }

  lemma Distinct(cs: seq<Command>, k: nat)
    requires forall i :: 0 <= i < |cs| ==> cs[i].number == i
    requires k < |cs|
    ensures multiset(cs)[cs[k]] == 1
  {
    var a, b := cs[..k], cs[k + 1..];
    assert cs == a + [cs[k]] + b;
    assert cs[k] !in a && cs[k] !in b;
  }

  /** Every arrived command waits, runs or is complete, in exactly one of the three, and none
      is started or completed twice. */
  lemma ExactlyOnce(s: State, k: nat)
    requires Reachable(s) && k < |s.arrived|
    ensures var c := s.arrived[k];
            && multiset(s.queue)[c] + s.running[c] + multiset(s.log)[Complete(c)] == 1
            && multiset(s.queue)[c] + multiset(s.log)[Start(c)] == 1
  {
    hide Reachable, Fenced, BlockedHasCause;
    ReachableInv(s);
    Distinct(s.arrived, k);
  }

  lemma NothingToDrain(s: State)
    requires s.queue == []
    ensures Drain(s) == s
  {
  }

  lemma NextReachable(s: State, e: Event, t: State)
    requires Reachable(s) && Possible(s, e)
    requires t == match e case Arrive(a) => Arrived(s, a) case Done(c) => Drain(Finished(s, c))
    ensures Reachable(t)
  {
    hide Reachable;
    ReachableNext(s, e);
  }

  // ----- the order of starts

  function Starts(log: seq<Entry>): seq<Command> {
    if log == [] then []
    else Starts(log[..|log| - 1]) + if log[|log| - 1].Start? then [log[|log| - 1].cmd] else []
  }

  lemma StartsNext(log: seq<Entry>, e: Entry)
    ensures Starts(log + [e]) == Starts(log) + if e.Start? then [e.cmd] else []
  {
    assert (log + [e])[..|log|] == log;
  }

  lemma HeadMoves(a: seq<Command>, q: seq<Command>)
    requires q != []
    ensures a <= a + [q[0]] && (a + [q[0]]) + q[1..] == a + q
  {
  }

  /** A completion starts a front part of the queue, in queue order, as far as it may. */
  lemma {:induction false} DrainInOrder(s: State)
    ensures Starts(Drain(s).log) + Drain(s).queue == Starts(s.log) + s.queue
    ensures Starts(s.log) <= Starts(Drain(s).log)
    decreases |s.queue|
  {
    hide Starts;
    if s.queue != [] && MayStart(s, s.queue[0].attribute) {
      StartsNext(s.log, Start(s.queue[0]));
      HeadMoves(Starts(s.log), s.queue);
      DrainInOrder(Started(s.(queue := s.queue[1..]), s.queue[0]));
    }
  }

  predicate InOrder(s: State) {
    Starts(s.log) + s.queue == s.arrived
  }

  /** A command that starts on arrival while others wait. */
  predicate Overtakes(s: State, e: Event) {
    e.Arrive? && s.queue != [] && MayStart(s, Known(e.attribute))
  }

  predicate NoneOvertakes(s: State, events: seq<Event>)
    decreases |events|
  {
    events == []
    || (Possible(s, events[0]) && !Overtakes(s, events[0])
        && NoneOvertakes(Apply(s, events[0]), events[1..]))
  }

  /** Some command started before its turn. */
  ghost predicate OutOfOrder(s: State) {
    exists i :: 0 <= i < |Starts(s.log)| && i < |s.arrived| && Starts(s.log)[i] != s.arrived[i]
  }

  lemma {:induction false} DrainArrived(s: State)
    ensures Drain(s).arrived == s.arrived
    decreases |s.queue|
  {
    if s.queue != [] && MayStart(s, s.queue[0].attribute) {
      DrainArrived(Started(s.(queue := s.queue[1..]), s.queue[0]));
    }
  }

  lemma StartsGrow(s: State, e: Event)
    requires Possible(s, e)
    ensures Starts(s.log) <= Starts(Apply(s, e).log) && s.arrived <= Apply(s, e).arrived
  {
    match e
    case Done(c) =>
      StartsNext(s.log, Complete(c));
      DrainInOrder(Finished(s, c));
      DrainArrived(Finished(s, c));
    case Arrive(a) =>
      StartsNext(s.log, Start(Command(|s.arrived|, Known(a))));
  }

  lemma DoneOrder(s: State, c: Command)
    requires c in s.running && InOrder(s)
    ensures InOrder(Apply(s, Done(c)))
  {
    StartsNext(s.log, Complete(c));
    DrainInOrder(Finished(s, c));
    DrainArrived(Finished(s, c));
  }

  lemma Overtaken(s: State, t: State, c: Command)
    requires Queued(s) && InOrder(s) && s.queue != [] && c.number == |s.arrived|
    requires t.arrived == s.arrived + [c] && Starts(t.log) == Starts(s.log) + [c]
    ensures OutOfOrder(t)
  {
    hide Starts;
    var i := |Starts(s.log)|;
    assert s.arrived[i] == s.queue[0] && t.arrived[i] == s.queue[0];
    assert Starts(t.log)[i] == c;
  }

  lemma ArriveOrder(s: State, a: Attribute)
    requires Queued(s) && InOrder(s)
    ensures !Overtakes(s, Arrive(a)) ==> InOrder(Arrived(s, a))
    ensures Overtakes(s, Arrive(a)) ==> OutOfOrder(Arrived(s, a))
  {
    hide Starts, Queued, OutOfOrder;
    var c := Command(|s.arrived|, Known(a));
    StartsNext(s.log, Start(c));
    if !MayStart(s, c.attribute) {
      assert Starts(s.log) + (s.queue + [c]) == s.arrived + [c];
    } else if s.queue == [] {
      assert (Starts(s.log) + [c]) + [] == s.arrived + [c];
    } else {
      Overtaken(s, Arrived(s, a), c);
    }
  }

  lemma StepOrder(s: State, e: Event)
    requires Inv(s) && Possible(s, e)
    ensures InOrder(s) && !Overtakes(s, e) ==> InOrder(Apply(s, e))
    ensures InOrder(s) && Overtakes(s, e) ==> OutOfOrder(Apply(s, e))
    ensures OutOfOrder(s) ==> OutOfOrder(Apply(s, e))
  {
    hide Conserved, Fenced, BlockedHasCause, InOrder, Queued, Arrived, Finished, Drain, Starts;
    StartsGrow(s, e);
    if OutOfOrder(s) {
      var i :| 0 <= i < |Starts(s.log)| && i < |s.arrived| && Starts(s.log)[i] != s.arrived[i];
      assert Starts(Apply(s, e).log)[i] != Apply(s, e).arrived[i];
    }
    if InOrder(s) {
      match e
      case Done(c) => DoneOrder(s, c);
      case Arrive(a) => ArriveOrder(s, a);
    }
  }

  lemma {:induction false} RunOrder(s: State, events: seq<Event>)
    requires Inv(s) && IsRun(s, events)
    ensures InOrder(s) && NoneOvertakes(s, events) ==> InOrder(Run(s, events))
    ensures InOrder(s) && !NoneOvertakes(s, events) ==> OutOfOrder(Run(s, events))
    ensures OutOfOrder(s) ==> OutOfOrder(Run(s, events))
    decreases |events|
  {
    hide Inv, InOrder, OutOfOrder, Overtakes, Apply;
    if events != [] {
      ApplyKeeps(s, events[0]);
      StepOrder(s, events[0]);
      RunOrder(Apply(s, events[0]), events[1..]);
    }
  }

  /** Commands start in the order they arrive, exactly if none starts on arrival while
      others wait. */
  lemma ArrivalOrderIff(events: seq<Event>, s: State)
    requires Leads(events, s)
    ensures InOrder(s) <==> NoneOvertakes(Empty, events)
  {
    hide Run, IsRun, NoneOvertakes, Inv;
    EmptyInv();
    RunOrder(Empty, events);
  }

  /** Which a SIMPLE command does: it passes an ORDERED one that waits for another SIMPLE. */
  lemma SimplePassesOrdered()
    ensures var c0, c1, c2 := Command(0, Simple), Command(1, Ordered), Command(2, Simple);
            Reachable(State(2, false, [c1], multiset{c0, c2}, [c0, c1, c2], [Start(c0), Start(c2)]))
  {
    hide Reachable;
    var c0, c1, c2 := Command(0, Simple), Command(1, Ordered), Command(2, Simple);
    var s1 := State(1, false, [], multiset{c0}, [c0], [Start(c0)]);
    var s2 := State(1, false, [c1], multiset{c0}, [c0, c1], [Start(c0)]);
    EmptyReachable();
    NextReachable(Empty, Arrive(Simple), s1);
    NextReachable(s1, Arrive(Ordered), s2);
    NextReachable(s2, Arrive(Simple), State(2, false, [c1], multiset{c0, c2}, [c0, c1, c2], [Start(c0), Start(c2)]));
  }

  // ----- the code

  lemma StartedIs(s: State, c: Command, t: State)
    requires t.active == s.active + 1 && t.blocked == (s.blocked || Blocks(c.attribute)) && t.queue == s.queue
    requires t.running == s.running + multiset{c} && t.arrived == s.arrived && t.log == s.log + [Start(c)]
    ensures t == Started(s, c)
  {
  }

  lemma FinishedIs(s: State, c: Command, t: State)
    requires t.active == s.active - 1 && t.blocked == (s.blocked && !Blocks(c.attribute)) && t.queue == s.queue
    requires t.running == s.running - multiset{c} && t.arrived == s.arrived && t.log == s.log + [Complete(c)]
    ensures t == Finished(s, c)
  {
  }

  lemma ArrivedIs(s: State, a: Attribute, t: State)
    requires var c := Command(|s.arrived|, Known(a));
             t == if MayStart(s, a) then Started(s.(arrived := s.arrived + [c]), c)
                  else s.(arrived := s.arrived + [c], queue := s.queue + [c])
    ensures t == Arrived(s, a)
  {
    hide Started;
  }

  class Queue {
    var active: int
    var blocked: bool
    var queue: seq<Command>
    ghost var running: multiset<Command>
    ghost var arrived: seq<Command>
    ghost var log: seq<Entry>

    ghost function View(): State
      reads this
    {
      State(active, blocked, queue, running, arrived, log)
    }

    constructor ()
      ensures View() == Empty && Inv(View())
    {
      hide Inv;
      EmptyInv();
      active, blocked, queue := 0, false, [];
      running, arrived, log := multiset{}, [], [];
    }

    /** cmd_enabled; it also gives an unknown attribute its meaning. */
    method CmdEnabled(c: Command) returns (enabled: bool, d: Command)
      ensures enabled == MayStart(View(), c.attribute)
      ensures d == c.(attribute := Known(c.attribute))
    {
      enabled, d := false, c;
      match c.attribute {
        case Simple =>
          if !blocked {
            enabled := true;
          }
        case Ordered =>
          if !blocked && active == 0 {
            enabled := true;
          }
        case Head =>
          enabled := true;
        case Other =>
          d := c.(attribute := Ordered);
          if !blocked && active == 0 {
            enabled := true;
          }
      }
    }

    /** scsi_cmd_perform and cmd_post_perform. */
    method Perform(c: Command)
      modifies this
      ensures View() == Started(old(View()), c)
    {
      hide Started;
      ghost var s := View();
      active := active + 1;
      match c.attribute {
        case Ordered => blocked := true;
        case Head => blocked := true;
        case _ =>
      }
      running := running + multiset{c};
      log := log + [Start(c)];
      StartedIs(s, c, View());
    }

    /** target_cmd_perform */
    method TargetCmdPerform(cmd: Command)
      requires Inv(View()) && cmd.number == |arrived|
      modifies this
      ensures Inv(View()) && View() == Apply(old(View()), Arrive(cmd.attribute))
    {
      hide Inv, Arrived, Started;
      ApplyKeeps(View(), Arrive(cmd.attribute));
      var enabled, c := CmdEnabled(cmd);
      arrived := arrived + [c];
      if enabled {
        Perform(c);
      } else {
        queue := queue + [c];
      }
      ArrivedIs(old(View()), cmd.attribute, View());
    }

    /** post_cmd_done */
    method PostCmdDone()
      requires forall i :: 0 <= i < |queue| ==> queue[i].attribute != Other
      modifies this
      ensures View() == Drain(old(View()))
    {
      while queue != []
        invariant Drain(View()) == Drain(old(View()))
        invariant forall i :: 0 <= i < |queue| ==> queue[i].attribute != Other
        decreases |queue|
      {
        var enabled, c := CmdEnabled(queue[0]);
        if !enabled {
          return;
        }
        queue := queue[1..];
        Perform(c);
      }
    }

    method Finish(c: Command)
      modifies this
      ensures View() == Finished(old(View()), c)
    {
      hide Finished;
      ghost var s := View();
      active := active - 1;
      match c.attribute {
        case Ordered => blocked := false;
        case Head => blocked := false;
        case _ =>
      }
      running := running - multiset{c};
      log := log + [Complete(c)];
      FinishedIs(s, c, View());
    }

    /** __cmd_done */
    method CmdDone(c: Command)
      requires Inv(View()) && c in running
      modifies this
      ensures Inv(View()) && View() == Apply(old(View()), Done(c))
    {
      hide Inv, Drain;
      ApplyKeeps(View(), Done(c));
      NoOthers(View());
      Finish(c);
      PostCmdDone();
    }
  }
}
