/** The hand-over of commands from the main thread to worker threads and, through an ack
    thread, back again. The list between the ack thread and the main thread has no lock: one
    token that goes round through two pipes guards it. Each step is one the threads can be
    interrupted around; they interleave in any way. */
module CompletionPipe {
  datatype AckAt = AckReads | AckWaits | AckMoves | AckWrites
  datatype MainAt = MainElsewhere | MainDrains | MainWrites

  /** A scsi command, told apart by its address. */
  datatype Command = Command(address: nat)

  /** working: what the worker threads have in hand, in the order they took it. */
  datatype State = State(
    workers: nat,
    pending: seq<Command>, working: seq<Command>, finished: seq<Command>, ack: seq<Command>, completed: seq<Command>,
    submitted: seq<Command>,
    commandPipe: nat, donePipe: nat, ackAt: AckAt, mainAt: MainAt)

  /** bs_init_notify_thread leaves the token in the command pipe. */
  function Start(workers: nat): State {
    State(workers, [], [], [], [], [], [], 1, 0, AckReads, MainElsewhere)
  }

  datatype Step =
    | Submit(c: Command)      // bs_thread_cmd_submit
    | Take              // a worker takes the first pending command
    | Finish(i: nat)    // a worker is done with what it has in hand
    | AckRead           // the ack thread gets the token
    | AckLock           // it finds finished commands and locks their list
    | AckMove           // it moves one of them
    | AckUnlock
    | AckWrite          // it passes the token on
    | MainRead          // the main thread gets the token
    | MainComplete      // it completes one command
    | MainDrained
    | MainWrite         // it passes the token on

  predicate Possible(s: State, e: Step) {
    match e
    case Submit(_) => true
    case Take => s.pending != [] && |s.working| < s.workers
    case Finish(i) => i < |s.working| && s.ackAt != AckMoves
    case AckRead => s.ackAt == AckReads && s.commandPipe > 0
    case AckLock => s.ackAt == AckWaits && s.finished != []
    case AckMove => s.ackAt == AckMoves && s.finished != []
    case AckUnlock => s.ackAt == AckMoves && s.finished == []
    case AckWrite => s.ackAt == AckWrites
    case MainRead => s.mainAt == MainElsewhere && s.donePipe > 0
    case MainComplete => s.mainAt == MainDrains && s.ack != []
    case MainDrained => s.mainAt == MainDrains && s.ack == []
    case MainWrite => s.mainAt == MainWrites
  }

  function Apply(s: State, e: Step): State
    requires Possible(s, e)
  {
    match e
    case Submit(c) => s.(pending := s.pending + [c], submitted := s.submitted + [c])
    case Take => s.(pending := s.pending[1..], working := s.working + [s.pending[0]])
    case Finish(i) => s.(working := s.working[..i] + s.working[i + 1..], finished := s.finished + [s.working[i]])
    case AckRead => s.(commandPipe := s.commandPipe - 1, ackAt := AckWaits)
    case AckLock => s.(ackAt := AckMoves)
    case AckMove => s.(finished := s.finished[1..], ack := s.ack + [s.finished[0]])
    case AckUnlock => s.(ackAt := AckWrites)
    case AckWrite => s.(donePipe := s.donePipe + 1, ackAt := AckReads)
    case MainRead => s.(donePipe := s.donePipe - 1, mainAt := MainDrains)
    case MainComplete => s.(ack := s.ack[1..], completed := s.completed + [s.ack[0]])
    case MainDrained => s.(mainAt := MainWrites)
    case MainWrite => s.(commandPipe := s.commandPipe + 1, mainAt := MainElsewhere)
  }

  // ----- the invariant

  function Tokens(s: State): nat {
    s.commandPipe + s.donePipe + (if s.ackAt == AckReads then 0 else 1) + (if s.mainAt == MainElsewhere then 0 else 1)
  }

  /** One token in all, and the ack list is empty unless the ack thread has filled it and the
      main thread has not emptied it yet. */
  predicate Handover(s: State) {
    && Tokens(s) == 1
    && (s.ack != [] ==> s.ackAt in {AckMoves, AckWrites} || s.donePipe > 0 || s.mainAt == MainDrains)
    && (s.ackAt == AckMoves && s.finished == [] ==> s.ack != [])
  }

  ghost predicate Conserved(s: State) {
    multiset(s.submitted) == multiset(s.pending) + multiset(s.working) + multiset(s.finished)
                             + multiset(s.ack) + multiset(s.completed)
  }

  /** With a single worker nothing overtakes. */
  predicate OneByOne(s: State) {
    s.workers <= 1 ==>
      |s.working| <= 1 && s.submitted == s.completed + (s.ack + (s.finished + (s.working + s.pending)))
  }

  ghost predicate Inv(s: State) {
    Handover(s) && Conserved(s) && OneByOne(s)
  }

  lemma HandoverKept(s: State, e: Step)
    requires Handover(s) && Possible(s, e)
    ensures Handover(Apply(s, e))
  {
  }

  lemma HeadTail(xs: seq<Command>)
    requires xs != []
    ensures xs == [xs[0]] + xs[1..] && multiset(xs) == multiset{xs[0]} + multiset(xs[1..])
  {
    assert xs == [xs[0]] + xs[1..];
  }

  lemma OneOut(xs: seq<Command>, i: nat)
    requires i < |xs|
    ensures multiset(xs) == multiset{xs[i]} + multiset(xs[..i] + xs[i + 1..])
  {
    assert xs == xs[..i] + ([xs[i]] + xs[i + 1..]);
  }

  lemma WorkConserved(s: State, e: Step)
    requires Conserved(s) && Possible(s, e) && (e.Take? || e.Finish?)
    ensures Conserved(Apply(s, e))
  {
    if e.Take? {
      HeadTail(s.pending);
    } else {
      OneOut(s.working, e.i);
    }
  }

  lemma AckConserved(s: State, e: Step)
    requires Conserved(s) && Possible(s, e) && (e.AckMove? || e.MainComplete?)
    ensures Conserved(Apply(s, e))
  {
    if e.AckMove? {
      HeadTail(s.finished);
    } else {
      HeadTail(s.ack);
    }
  }

  lemma ConservedKept(s: State, e: Step)
    requires Conserved(s) && Possible(s, e)
    ensures Conserved(Apply(s, e))
  {
    if e.Take? || e.Finish? {
      WorkConserved(s, e);
    } else if e.AckMove? || e.MainComplete? {
      AckConserved(s, e);
    }
  }

  lemma WorkOneByOne(s: State, e: Step)
    requires OneByOne(s) && Possible(s, e) && (e.Take? || e.Finish?)
    ensures OneByOne(Apply(s, e))
  {
    if s.workers <= 1 {
      if e.Take? {
        HeadTail(s.pending);
        assert s.working == [];
      } else {
        assert s.working == [s.working[0]] && s.working[..e.i] + s.working[e.i + 1..] == [];
        assert s.finished + (s.working + s.pending) == (s.finished + s.working) + ([] + s.pending);
      }
    }
  }

  lemma MoveHead(a: seq<Command>, b: seq<Command>, c: seq<Command>)
    requires b != []
    ensures (a + [b[0]]) + (b[1..] + c) == a + (b + c)
  {
    HeadTail(b);
  }

  lemma AckOneByOne(s: State, e: Step)
    requires OneByOne(s) && Possible(s, e) && (e.AckMove? || e.MainComplete?)
    ensures OneByOne(Apply(s, e))
  {
    if e.AckMove? {
      MoveHead(s.ack, s.finished, s.working + s.pending);
    } else {
      MoveHead(s.completed, s.ack, s.finished + (s.working + s.pending));
    }
  }

  lemma Regroup(a: seq<Command>, b: seq<Command>, c: seq<Command>, d: seq<Command>, e: seq<Command>, x: Command)
    ensures (a + (b + (c + (d + e)))) + [x] == a + (b + (c + (d + (e + [x]))))
  {
  }

  lemma OneByOneKept(s: State, e: Step)
    requires OneByOne(s) && Possible(s, e)
    ensures OneByOne(Apply(s, e))
  {
    match e
    case Submit(c) => Regroup(s.completed, s.ack, s.finished, s.working, s.pending, c);
    case Take => WorkOneByOne(s, e);
    case Finish(_) => WorkOneByOne(s, e);
    case AckMove => AckOneByOne(s, e);
    case MainComplete => AckOneByOne(s, e);
    case _ =>
  }

  lemma StartInv(workers: nat)
    ensures Inv(Start(workers))
  {
  }

  lemma ApplyKeeps(s: State, e: Step)
    requires Inv(s) && Possible(s, e)
    ensures Inv(Apply(s, e))
  {
    hide Handover, Conserved, OneByOne, Apply, Possible;
    HandoverKept(s, e);
    ConservedKept(s, e);
    OneByOneKept(s, e);
  }

  // ----- every interleaving

  predicate Leads(s: State, steps: seq<Step>, t: State)
    decreases |steps|
  {
    if steps == [] then s == t
    else Possible(s, steps[0]) && Leads(Apply(s, steps[0]), steps[1..], t)
  }

  lemma {:induction false} RunKeeps(s: State, steps: seq<Step>, t: State)
    requires Inv(s) && Leads(s, steps, t)
    ensures Inv(t) && t.workers == s.workers
    decreases |steps|
  {
    hide Inv, Possible;
    if steps != [] {
      ApplyKeeps(s, steps[0]);
      RunKeeps(Apply(s, steps[0]), steps[1..], t);
    }
  }

  ghost predicate Reachable(workers: nat, s: State) {
    exists steps: seq<Step> :: Leads(Start(workers), steps, s)
  }

  lemma ReachableInv(workers: nat, s: State)
    requires Reachable(workers, s)
    ensures Inv(s) && s.workers == workers
  {
    hide Inv, Leads;
    var steps: seq<Step> :| Leads(Start(workers), steps, s);
    StartInv(workers);
    RunKeeps(Start(workers), steps, s);
  }

  /** There is one token, so the two threads never use the ack list at the same time. */
  lemma OneToken(workers: nat, s: State)
    requires Reachable(workers, s)
    ensures Tokens(s) == 1
    ensures !(s.ackAt == AckMoves && s.mainAt == MainDrains)
    ensures s.mainAt == MainDrains ==> !Possible(s, AckMove) && !Possible(s, AckLock)
    ensures s.ackAt == AckMoves ==> !Possible(s, MainComplete) && !Possible(s, MainRead)
  {
    hide Reachable, Conserved, OneByOne;
    ReachableInv(workers, s);
  }

  /** Every submission is in exactly one place, and a completed command was completed as
      often as it was submitted and is nowhere else. */
  lemma ExactlyOnePlace(workers: nat, s: State, c: Command)
    requires Reachable(workers, s)
    ensures multiset(s.submitted)[c] == multiset(s.pending)[c] + multiset(s.working)[c] + multiset(s.finished)[c]
                                        + multiset(s.ack)[c] + multiset(s.completed)[c]
  {
    hide Reachable, Handover, OneByOne;
    ReachableInv(workers, s);
  }

  /** One worker: commands complete in the order they were submitted. */
  lemma InOrder(s: State)
    requires Reachable(1, s)
    ensures s.completed <= s.submitted
    ensures s.submitted == s.completed + (s.ack + (s.finished + (s.working + s.pending)))
  {
    hide Reachable, Handover, Conserved;
    ReachableInv(1, s);
  }

  // ----- progress

  /** Where the token is on its way round, counted down to where it needs a finished command. */
  function Distance(s: State): nat {
    if s.ackAt == AckMoves then (if s.finished == [] then 7 else 0)
    else if s.ackAt == AckWrites then 6
    else if s.donePipe > 0 then 5
    else if s.mainAt == MainDrains then 4
    else if s.mainAt == MainWrites then 3
    else if s.ackAt == AckReads then 2
    else 1
  }

  function Potential(s: State): nat {
    10 * (4 * |s.pending| + 3 * |s.working| + 2 * |s.finished| + |s.ack|) + Distance(s)
  }

  lemma StepDescends(s: State, e: Step)
    requires Handover(s) && Possible(s, e) && !e.Submit?
    ensures Potential(Apply(s, e)) < Potential(s)
  {
  }

  /** Nothing stalls: while a command is not completed some thread can take a step. */
  lemma NeverStuck(workers: nat, s: State)
    requires Reachable(workers, s) && workers > 0
    requires forall e: Step :: !e.Submit? ==> !Possible(s, e)
    ensures multiset(s.completed) == multiset(s.submitted)
  {
    hide Reachable, OneByOne;
    ReachableInv(workers, s);
    assert !Possible(s, Take) && !Possible(s, Finish(0)) && !Possible(s, AckRead) && !Possible(s, AckLock);
    assert !Possible(s, AckMove) && !Possible(s, AckUnlock) && !Possible(s, AckWrite) && !Possible(s, MainRead);
    assert !Possible(s, MainComplete) && !Possible(s, MainDrained) && !Possible(s, MainWrite);
    assert s.working == [] && s.pending == [] && s.finished == [] && s.ack == [];
  }

  lemma HandoverOf(s: State)
    requires Inv(s)
    ensures Handover(s)
  {
  }

  /** And however the threads interleave, without further submissions they take only so many
      steps: then everything is completed. */
  lemma {:induction false} EveryRunEnds(s: State, steps: seq<Step>, t: State)
    requires Inv(s) && Leads(s, steps, t) && forall i :: 0 <= i < |steps| ==> !steps[i].Submit?
    ensures |steps| + Potential(t) <= Potential(s)
    decreases |steps|
  {
    hide Inv, Apply, Potential, Handover, Possible;
    if steps != [] {
      HandoverOf(s);
      StepDescends(s, steps[0]);
      ApplyKeeps(s, steps[0]);
      EveryRunEnds(Apply(s, steps[0]), steps[1..], t);
    }
  }

  // ----- the code

  lemma {:induction false} LeadsOn(s: State, steps: seq<Step>, t: State, e: Step)
    requires Leads(s, steps, t) && Possible(t, e)
    ensures Leads(s, steps + [e], Apply(t, e))
    decreases |steps|
  {
    hide Apply, Possible;
    if steps == [] {
      assert ([] + [e])[1..] == [];
    } else {
      assert (steps + [e])[1..] == steps[1..] + [e];
      LeadsOn(Apply(s, steps[0]), steps[1..], t, e);
    }
  }

  lemma LeadsNowhere(s: State)
    ensures Leads(s, [], s)
  {
  }

  lemma HeadMoves(a: seq<Command>, b: seq<Command>)
    requires b != []
    ensures (a + [b[0]]) + b[1..] == a + b
  {
  }

  class Notifier {
    const workers: nat
    var pending: seq<Command>
    var working: seq<Command>
    var finished: seq<Command>
    var ack: seq<Command>
    var completed: seq<Command>
    ghost var submitted: seq<Command>
    var commandPipe: nat
    var donePipe: nat
    var ackAt: AckAt
    var mainAt: MainAt

    ghost function View(): State
      reads this
    {
      State(workers, pending, working, finished, ack, completed, submitted, commandPipe, donePipe, ackAt, mainAt)
    }

    /** bs_init_notify_thread and bs_thread_open. */
    constructor (workers: nat)
      ensures View() == Start(workers)
    {
      this.workers := workers;
      pending, working, finished, ack, completed, submitted := [], [], [], [], [], [];
      commandPipe, donePipe, ackAt, mainAt := 1, 0, AckReads, MainElsewhere;
    }

    /** bs_thread_cmd_submit */
    method CmdSubmit(c: Command)
      modifies this
      ensures View() == Apply(old(View()), Submit(c))
    {
      pending := pending + [c];
      submitted := submitted + [c];
    }

    /** bs_thread_worker_fn up to the request itself. */
    method WorkerTake() returns (c: Command)
      requires Possible(View(), Take)
      modifies this
      ensures View() == Apply(old(View()), Take) && c == old(pending[0])
    {
      c := pending[0];
      pending := pending[1..];
      working := working + [c];
    }

    /** bs_thread_worker_fn from the end of the request on. */
    method WorkerFinish(i: nat)
      requires Possible(View(), Finish(i))
      modifies this
      ensures View() == Apply(old(View()), Finish(i))
    {
      finished := finished + [working[i]];
      working := working[..i] + working[i + 1..];
    }

    /** bs_thread_ack_fn with the token in its pipe and commands on the finished list. */
    method AckRound() returns (ghost steps: seq<Step>)
      requires Possible(View(), AckRead) && finished != []
      modifies this
      ensures Leads(old(View()), steps, View())
      ensures finished == [] && ack == old(ack + finished) && ackAt == AckReads && donePipe == old(donePipe) + 1
      ensures commandPipe == old(commandPipe) - 1 && mainAt == old(mainAt)
      ensures pending == old(pending) && working == old(working) && completed == old(completed)
    {
      hide Leads;
      steps := [];
      LeadsNowhere(View());
      LeadsOn(old(View()), steps, View(), AckRead);
      commandPipe, ackAt, steps := commandPipe - 1, AckWaits, steps + [AckRead];
      LeadsOn(old(View()), steps, View(), AckLock);
      ackAt, steps := AckMoves, steps + [AckLock];
      while finished != []
        invariant Leads(old(View()), steps, View())
        invariant ack + finished == old(ack + finished) && ackAt == AckMoves && donePipe == old(donePipe)
        invariant commandPipe == old(commandPipe) - 1 && mainAt == old(mainAt)
        invariant pending == old(pending) && working == old(working) && completed == old(completed)
        decreases |finished|
      {
        LeadsOn(old(View()), steps, View(), AckMove);
        HeadMoves(ack, finished);
        var c := finished[0];
        finished := finished[1..];
        ack := ack + [c];
        steps := steps + [AckMove];
      }
      LeadsOn(old(View()), steps, View(), AckUnlock);
      ackAt, steps := AckWrites, steps + [AckUnlock];
      LeadsOn(old(View()), steps, View(), AckWrite);
      donePipe, ackAt, steps := donePipe + 1, AckReads, steps + [AckWrite];
    }

    /** bs_thread_request_done */
    method RequestDone() returns (ghost steps: seq<Step>)
      requires Possible(View(), MainRead)
      modifies this
      ensures Leads(old(View()), steps, View())
      ensures ack == [] && completed == old(completed + ack) && mainAt == MainElsewhere
      ensures donePipe == old(donePipe) - 1 && commandPipe == old(commandPipe) + 1 && ackAt == old(ackAt)
      ensures pending == old(pending) && working == old(working) && finished == old(finished)
    {
      hide Leads;
      steps := [];
      LeadsNowhere(View());
      LeadsOn(old(View()), steps, View(), MainRead);
      donePipe, mainAt, steps := donePipe - 1, MainDrains, steps + [MainRead];
      while ack != []
        invariant Leads(old(View()), steps, View())
        invariant completed + ack == old(completed + ack) && mainAt == MainDrains && donePipe == old(donePipe) - 1
        invariant commandPipe == old(commandPipe) && ackAt == old(ackAt)
        invariant pending == old(pending) && working == old(working) && finished == old(finished)
        decreases |ack|
      {
        LeadsOn(old(View()), steps, View(), MainComplete);
        HeadMoves(completed, ack);
        var c := ack[0];
        ack := ack[1..];
        completed := completed + [c];
        steps := steps + [MainComplete];
      }
      LeadsOn(old(View()), steps, View(), MainDrained);
      mainAt, steps := MainWrites, steps + [MainDrained];
      LeadsOn(old(View()), steps, View(), MainWrite);
      commandPipe, mainAt, steps := commandPipe + 1, MainElsewhere, steps + [MainWrite];
    }
  }
}
