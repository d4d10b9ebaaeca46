/** Batches of commands for the kernel's asynchronous I/O: each device has a wait list and at
    most iodepth commands in the kernel, and devices with waiting commands are on one list. */
module AioBatch {
  const AIO_MAX_IODEPTH := 128
  const EAGAIN := 11

  datatype Command = Command(id: nat)

  /** A command that left the wait list, for the kernel or because io_submit failed. */
  datatype Left = Left(cmd: Command, accepted: bool)

  datatype Device = Device(
    wait: seq<Command>,
    nwaiting: int,
    npending: int,
    arrived: seq<Command>,          // in the order of bs_aio_cmd_submit
    left: seq<Left>,                // in the order of io_submit
    inFlight: multiset<Command>,
    done: multiset<Command>)

  const Idle := Device([], 0, 0, [], [], multiset{}, multiset{})

  datatype Event =
    | Arrive(cmd: Command)
    | Batch(answer: int)            // bs_aio_submit_dev_batch; what io_submit answers
    | Complete(cmds: seq<Command>)  // what one io_getevents hands over

  function Min(a: int, b: int): int {
    if a < b then a else b
  }

  /** How many commands one batch takes from the wait list. */
  function Room(d: Device): int {
    Min(AIO_MAX_IODEPTH - d.npending, d.nwaiting)
  }

  /** How many leave the wait list for good, and whether the kernel has them: an error other
      than EAGAIN drops the whole batch. */
  function Taken(n: nat, answer: int): nat
    requires answer <= n
  {
    if answer >= 0 then answer else if answer == -EAGAIN then 0 else n
  }

  function AllLeft(cmds: seq<Command>, accepted: bool): (r: seq<Left>)
    ensures |r| == |cmds| && forall i :: 0 <= i < |r| ==> r[i] == Left(cmds[i], accepted)
  {
    seq(|cmds|, i requires 0 <= i < |cmds| => Left(cmds[i], accepted))
  }

  predicate Possible(d: Device, e: Event) {
    match e
    case Arrive(_) => true
    case Batch(answer) => 0 <= Room(d) <= |d.wait| && answer <= Room(d)
    case Complete(cmds) => multiset(cmds) <= d.inFlight
  }

  function Batched(d: Device, answer: int): Device
    requires Possible(d, Batch(answer))
  {
    var k := Taken(Room(d), answer);
    var ok := answer >= 0;
    d.(wait := d.wait[k..], nwaiting := d.nwaiting - k,
       npending := if ok then d.npending + k else d.npending,
       left := d.left + AllLeft(d.wait[..k], ok),
       inFlight := if ok then d.inFlight + multiset(d.wait[..k]) else d.inFlight)
  }

  function Apply(d: Device, e: Event): Device
    requires Possible(d, e)
  {
    match e
    case Arrive(c) => d.(wait := d.wait + [c], nwaiting := d.nwaiting + 1, arrived := d.arrived + [c])
    case Batch(answer) => Batched(d, answer)
    case Complete(cmds) =>
      d.(npending := d.npending - |cmds|, inFlight := d.inFlight - multiset(cmds), done := d.done + multiset(cmds))
  }

  // ----- the invariant

  function Commands(left: seq<Left>): (r: seq<Command>)
    ensures |r| == |left|
  {
    if left == [] then [] else Commands(left[..|left| - 1]) + [left[|left| - 1].cmd]
  }

  /** What the kernel was given, in order. */
  function Kernel(left: seq<Left>): seq<Command> {
    if left == [] then []
    else Kernel(left[..|left| - 1]) + if left[|left| - 1].accepted then [left[|left| - 1].cmd] else []
  }

  ghost predicate Inv(d: Device) {
    && d.nwaiting == |d.wait|
    && d.npending == |d.inFlight| <= AIO_MAX_IODEPTH
    && d.arrived == Commands(d.left) + d.wait
    && multiset(Kernel(d.left)) == d.inFlight + d.done
  }

  lemma OneMore(left: seq<Left>, l: Left)
    ensures Commands(left + [l]) == Commands(left) + [l.cmd]
    ensures Kernel(left + [l]) == Kernel(left) + if l.accepted then [l.cmd] else []
  {
    assert (left + [l])[..|left|] == left;
  }

  lemma AllLeftOneMore(left: seq<Left>, cmds: seq<Command>, c: Command, accepted: bool)
    ensures left + AllLeft(cmds + [c], accepted) == (left + AllLeft(cmds, accepted)) + [Left(c, accepted)]
  {
  }

  lemma {:induction false} CommandsAppend(left: seq<Left>, cmds: seq<Command>, accepted: bool)
    ensures Commands(left + AllLeft(cmds, accepted)) == Commands(left) + cmds
    ensures Kernel(left + AllLeft(cmds, accepted)) == Kernel(left) + if accepted then cmds else []
  {
    hide Commands, Kernel;
    if cmds == [] {
      assert left + AllLeft(cmds, accepted) == left;
    } else {
      var front, c := cmds[..|cmds| - 1], cmds[|cmds| - 1];
      assert cmds == front + [c];
      CommandsAppend(left, front, accepted);
      AllLeftOneMore(left, front, c, accepted);
      OneMore(left + AllLeft(front, accepted), Left(c, accepted));
    }
  }

  lemma NoneMore(a: seq<Command>)
    ensures a + [] == a
  {
  }

  lemma LeaveFront(a: seq<Command>, wait: seq<Command>, k: nat)
    requires k <= |wait|
    ensures (a + wait[..k]) + wait[k..] == a + wait
  {
  }

  lemma KernelGets(kernel: seq<Command>, cmds: seq<Command>, inFlight: multiset<Command>, done: multiset<Command>)
    requires multiset(kernel) == inFlight + done
    ensures multiset(kernel + cmds) == (inFlight + multiset(cmds)) + done
    ensures |inFlight + multiset(cmds)| == |inFlight| + |cmds|
  {
  }

  lemma BatchKeeps(d: Device, answer: int)
    requires Inv(d) && Possible(d, Batch(answer))
    ensures Inv(Batched(d, answer))
  {
    hide Commands, Kernel, AllLeft;
    var k := Taken(Room(d), answer);
    CommandsAppend(d.left, d.wait[..k], answer >= 0);
    LeaveFront(Commands(d.left), d.wait, k);
    if answer >= 0 {
      KernelGets(Kernel(d.left), d.wait[..k], d.inFlight, d.done);
    } else {
      NoneMore(Kernel(d.left));
    }
  }

  lemma SizeLess(a: multiset<Command>, b: multiset<Command>)
    requires b <= a
    ensures |a - b| == |a| - |b|
  {
    assert a == (a - b) + b;
  }

  lemma ApplyKeeps(d: Device, e: Event)
    requires Inv(d) && Possible(d, e)
    ensures Inv(Apply(d, e))
  {
    hide Commands, Kernel, Batched;
    match e
    case Arrive(c) => assert Commands(d.left) + (d.wait + [c]) == (Commands(d.left) + d.wait) + [c];
    case Batch(answer) => BatchKeeps(d, answer);
    case Complete(cmds) => SizeLess(d.inFlight, multiset(cmds));
  }

  // ----- every run of a device

  predicate Leads(d: Device, events: seq<Event>, t: Device)
    decreases |events|
  {
    if events == [] then d == t
    else Possible(d, events[0]) && Leads(Apply(d, events[0]), events[1..], t)
  }

  lemma {:induction false} RunKeeps(d: Device, events: seq<Event>, t: Device)
    requires Inv(d) && Leads(d, events, t)
    ensures Inv(t)
    decreases |events|
  {
    hide Inv, Apply, Possible;
    if events != [] {
      ApplyKeeps(d, events[0]);
      RunKeeps(Apply(d, events[0]), events[1..], t);
    }
  }

  ghost predicate Reachable(d: Device) {
    exists events :: Leads(Idle, events, d)
  }

  lemma IdleInv()
    ensures Inv(Idle)
  {
  }

  lemma ReachableInv(d: Device)
    requires Reachable(d)
    ensures Inv(d)
  {
    hide Inv, Leads;
    var events :| Leads(Idle, events, d);
    assert Inv(Idle) by { IdleInv(); }
    RunKeeps(Idle, events, d);
  }

  /** a is b with some elements left out. */
  predicate Subsequence(a: seq<Command>, b: seq<Command>) {
    a == [] || (b != [] && (Subsequence(a, b[..|b| - 1])
                            || (a[|a| - 1] == b[|b| - 1] && Subsequence(a[..|a| - 1], b[..|b| - 1]))))
  }

  lemma {:induction false} KernelInOrder(left: seq<Left>)
    ensures Subsequence(Kernel(left), Commands(left))
  {
    if left != [] {
      KernelInOrder(left[..|left| - 1]);
      var k, c := Kernel(left), Commands(left);
      assert c[..|c| - 1] == Commands(left[..|left| - 1]);
      assert c != [];
      if left[|left| - 1].accepted {
        assert k[..|k| - 1] == Kernel(left[..|left| - 1]) && k[|k| - 1] == c[|c| - 1];
      } else {
        assert k == Kernel(left[..|left| - 1]);
      }
    }
  }

  /** The counters are right and the depth is kept; commands leave in the order they came, the
      kernel gets a subsequence of that order, and every command it got is in flight or done. */
  lemma CountersAndOrder(d: Device)
    requires Reachable(d)
    ensures d.nwaiting == |d.wait| && d.npending == |d.inFlight| <= AIO_MAX_IODEPTH
    ensures d.arrived == Commands(d.left) + d.wait && Subsequence(Kernel(d.left), Commands(d.left))
    ensures multiset(Kernel(d.left)) == d.inFlight + d.done
  {
    hide Reachable, Subsequence;
    ReachableInv(d);
    KernelInOrder(d.left);
  }

  /** An answer of io_submit that makes the batch drop commands. */
  predicate Drops(d: Device, e: Event) {
    e.Batch? && e.answer < 0 && e.answer != -EAGAIN && Room(d) > 0
  }

  predicate NoneDrops(d: Device, events: seq<Event>)
    decreases |events|
  {
    events == [] || (Possible(d, events[0]) && !Drops(d, events[0]) && NoneDrops(Apply(d, events[0]), events[1..]))
  }

  predicate AllAccepted(left: seq<Left>) {
    forall i :: 0 <= i < |left| ==> left[i].accepted
  }

  lemma StepAccepted(d: Device, e: Event)
    requires Possible(d, e)
    ensures AllAccepted(Apply(d, e).left) <==> AllAccepted(d.left) && !Drops(d, e)
  {
    if e.Batch? {
      var more := AllLeft(d.wait[..Taken(Room(d), e.answer)], e.answer >= 0);
      assert Apply(d, e).left == d.left + more;
      if AllAccepted(d.left + more) {
        assert forall i :: 0 <= i < |d.left| ==> (d.left + more)[i] == d.left[i];
        assert |more| > 0 ==> (d.left + more)[|d.left|] == more[0];
      }
    }
  }

  lemma {:induction false} RunAccepted(d: Device, events: seq<Event>, t: Device)
    requires Leads(d, events, t)
    ensures AllAccepted(t.left) <==> AllAccepted(d.left) && NoneDrops(d, events)
    decreases |events|
  {
    hide Apply, Possible, AllAccepted, Drops;
    if events != [] {
      StepAccepted(d, events[0]);
      RunAccepted(Apply(d, events[0]), events[1..], t);
    }
  }

  lemma {:induction false} AcceptedIff(left: seq<Left>)
    ensures |Kernel(left)| <= |Commands(left)|
    ensures Kernel(left) == Commands(left) <==> AllAccepted(left)
    ensures |Kernel(left)| == |Commands(left)| <==> AllAccepted(left)
  {
    if left != [] {
      var front := left[..|left| - 1];
      AcceptedIff(front);
      assert left == front + [left[|left| - 1]];
      assert AllAccepted(left) <==> AllAccepted(front) && left[|left| - 1].accepted;
    }
  }

  lemma ArrivedOf(d: Device)
    requires Inv(d)
    ensures d.arrived == Commands(d.left) + d.wait
  {
  }

  lemma NothingLeft()
    ensures AllAccepted([])
  {
  }

  /** Every command reaches the kernel, in the order of arrival, exactly if no batch that held
      commands was answered with an error other than EAGAIN. */
  lemma AllReachKernelIff(events: seq<Event>, d: Device)
    requires Leads(Idle, events, d)
    ensures d.arrived == Kernel(d.left) + d.wait <==> NoneDrops(Idle, events)
  {
    hide Leads, NoneDrops, Kernel, Commands, Inv, AllAccepted;
    IdleInv();
    RunKeeps(Idle, events, d);
    RunAccepted(Idle, events, d);
    AcceptedIff(d.left);
    assert d.arrived == Commands(d.left) + d.wait by { ArrivedOf(d); }
    assert AllAccepted(Idle.left) by { NothingLeft(); }
    if |Kernel(d.left)| < |Commands(d.left)| {
      assert |Kernel(d.left) + d.wait| < |d.arrived|;
    }
  }

  /** The kernel gets as many commands as it says it took, those that waited longest; on EAGAIN
      all keep waiting, and on another error those of the batch wait no more. */
  lemma KernelTakes(d: Device, answer: int)
    requires Inv(d) && Possible(d, Batch(answer))
    ensures var t := Apply(d, Batch(answer));
            && (answer >= 0 ==> Kernel(t.left) == Kernel(d.left) + d.wait[..answer] && t.wait == d.wait[answer..])
            && (answer < 0 ==> Kernel(t.left) == Kernel(d.left))
            && (answer == -11 ==> t.wait == d.wait)
            && (answer < 0 && answer != -11 ==> t.wait == d.wait[Room(d)..])
  {
    hide Commands, Kernel, AllLeft;
    CommandsAppend(d.left, d.wait[..Taken(Room(d), answer)], answer >= 0);
    NoneMore(Kernel(d.left));
  }

  /** What the answers of a run add up to. */
  function Granted(events: seq<Event>): nat {
    if events == [] then 0
    else (if events[0].Batch? && events[0].answer > 0 then events[0].answer else 0) + Granted(events[1..])
  }

  lemma StepGrants(d: Device, e: Event)
    requires Inv(d) && Possible(d, e)
    ensures |Kernel(Apply(d, e).left)|
         == |Kernel(d.left)| + if e.Batch? && e.answer > 0 then e.answer else 0
  {
    if e.Batch? {
      KernelTakes(d, e.answer);
    }
  }

  /** In every run the kernel has been given as many commands as it said it took. */
  lemma {:induction false} RunGrants(d: Device, events: seq<Event>, t: Device)
    requires Inv(d) && Leads(d, events, t)
    ensures |Kernel(t.left)| == |Kernel(d.left)| + Granted(events)
    decreases |events|
  {
    hide Inv, Apply, Possible, Kernel;
    if events != [] {
      ApplyKeeps(d, events[0]);
      StepGrants(d, events[0]);
      RunGrants(Apply(d, events[0]), events[1..], t);
    }
  }

  /** A batch the kernel takes in full leaves nothing waiting or the kernel's queue full. */
  lemma FullBatch(d: Device)
    requires Inv(d)
    ensures Possible(d, Batch(Room(d)))
    ensures var t := Apply(d, Batch(Room(d)));
            t.wait == [] || t.npending == AIO_MAX_IODEPTH
  {
  }

  // ----- the code

  lemma BatchPossible(d: Device)
    requires Inv(d)
    ensures 0 <= Room(d) <= |d.wait| && d.nwaiting >= 0 && d.npending <= AIO_MAX_IODEPTH
  {
  }

  lemma BatchOfNone(d: Device)
    requires Inv(d) && Room(d) == 0
    ensures Possible(d, Batch(0)) && Apply(d, Batch(0)) == d && !Drops(d, Batch(0))
  {
    assert d.wait[0..] == d.wait && d.wait[..0] == [];
    assert d.left + AllLeft([], true) == d.left;
    assert d.inFlight + multiset([]) == d.inFlight;
  }

  lemma DropIs(d: Device, answer: int, t: Device)
    requires Inv(d) && Room(d) > 0 && answer < 0 && answer != -EAGAIN && Room(d) <= |d.wait|
    requires t.wait == d.wait[Room(d)..] && t.nwaiting == d.nwaiting - Room(d) && t.npending == d.npending
    requires t.left == d.left + AllLeft(d.wait[..Room(d)], false)
    requires t.arrived == d.arrived && t.inFlight == d.inFlight && t.done == d.done
    ensures Possible(d, Batch(answer)) && Drops(d, Batch(answer))
    ensures t == Apply(d, Batch(answer)) && Inv(t)
  {
    hide AllLeft;
    ApplyKeeps(d, Batch(answer));
    hide Inv;
  }

  lemma Restored(wait: seq<Command>, n: nat, k: nat)
    requires k <= n <= |wait|
    ensures wait[..n][k..] + wait[n..] == wait[k..] && wait[..n][..k] == wait[..k]
  {
  }

  lemma AcceptIs(d: Device, answer: int, t: Device)
    requires Inv(d) && 0 < Room(d) <= |d.wait| && answer <= Room(d) && (answer >= 0 || answer == -EAGAIN)
    requires var k := if answer < 0 then 0 else answer;
             var batch := d.wait[..Room(d)];
             && t.wait == batch[k..] + d.wait[Room(d)..] && t.arrived == d.arrived && t.done == d.done
             && t.npending == d.npending + k && t.nwaiting == d.nwaiting - k
             && t.left == d.left + AllLeft(batch[..k], answer >= 0)
             && t.inFlight == d.inFlight + multiset(batch[..k])
    ensures Possible(d, Batch(answer)) && !Drops(d, Batch(answer))
    ensures t == Apply(d, Batch(answer)) && Inv(t)
  {
    hide AllLeft;
    ApplyKeeps(d, Batch(answer));
    Restored(d.wait, Room(d), if answer < 0 then 0 else answer);
    assert multiset(d.wait[..0]) == multiset{};
    hide Inv;
  }

  /** What the kernel answers to io_submit: how many it took from the front, or an error. */
  method IoSubmit(n: nat) returns (answer: int)
    ensures answer <= n
  {
    answer :| answer <= n;
  }

  /** One batch, answered this way, led from was to now. */
  predicate OneBatch(was: Device, answer: int, now: Device) {
    Possible(was, Batch(answer)) && now == Apply(was, Batch(answer))
  }

  /** Where a pass over the list leaves a device: one batch if commands waited. */
  ghost predicate AfterBatch(was: Device, now: Device) {
    if was.nwaiting > 0 then exists answer :: OneBatch(was, answer, now) else now == was
  }

  /** Every device. */
  type World = map<AioInfo, Device>

  /** Where bs_aio_cmd_submit leaves the devices, once the command waits. */
  ghost predicate Submitted(w: World, x: AioInfo, last: bool, err: int, w': World)
    requires x in w && w'.Keys == w.Keys
  {
    if last then
      && (forall d :: d in w ==> AfterBatch(w[d], w'[d]) || (err != 0 && w'[d] == w[d]))
      && (err != 0 ==> exists d :: d in w && Drops(w[d], Batch(err)) && OneBatch(w[d], err, w'[d]))
    else if w[x].nwaiting == AIO_MAX_IODEPTH - w[x].npending then w' == w[x := w'[x]] && AfterBatch(w[x], w'[x])
    else w' == w && err == 0
  }

  class AioInfo {
    var cmdWaitList: seq<Command>
    var nwaiting: int
    var npending: int
    ghost var arrived: seq<Command>
    ghost var left: seq<Left>
    var inFlight: multiset<Command>   // what the kernel holds
    ghost var done: multiset<Command>

    ghost function View(): Device
      reads this
    {
      Device(cmdWaitList, nwaiting, npending, arrived, left, inFlight, done)
    }

    constructor ()
      ensures View() == Idle
    {
      cmdWaitList, nwaiting, npending := [], 0, 0;
      arrived, left, inFlight, done := [], [], multiset{}, multiset{};
    }

    method Append(cmd: Command)
      requires nwaiting >= 0
      modifies this
      ensures View() == Apply(old(View()), Arrive(cmd)) && nwaiting > 0
    {
      cmdWaitList := cmdWaitList + [cmd];
      nwaiting := nwaiting + 1;
      arrived := arrived + [cmd];
    }

    /** The first n commands of the wait list go to the array for io_submit. */
    method Fetch(n: nat) returns (batch: seq<Command>)
      requires n <= |cmdWaitList|
      modifies `cmdWaitList
      ensures batch == old(cmdWaitList[..n]) && cmdWaitList == old(cmdWaitList[n..])
    {
      batch := [];
      while |batch| < n
        invariant |batch| <= n && batch == old(cmdWaitList[..|batch|]) && cmdWaitList == old(cmdWaitList[|batch|..])
      {
        batch := batch + [cmdWaitList[0]];
        cmdWaitList := cmdWaitList[1..];
      }
    }

    /** Those the kernel did not take go back to the front, the last one first. */
    method PushBack(batch: seq<Command>, nsuccess: nat)
      requires nsuccess <= |batch|
      modifies `cmdWaitList
      ensures cmdWaitList == batch[nsuccess..] + old(cmdWaitList)
    {
      var i := |batch|;
      assert batch[i..] + old(cmdWaitList) == old(cmdWaitList);
      while i > nsuccess
        invariant nsuccess <= i <= |batch| && cmdWaitList == batch[i..] + old(cmdWaitList)
      {
        i := i - 1;
        cmdWaitList := [batch[i]] + cmdWaitList;
        assert batch[i..] == [batch[i]] + batch[i + 1..];
      }
    }

    /** The kernel took commands from the front of the batch, with EAGAIN none. */
    method Submitted(batch: seq<Command>, answer: int)
      requires answer <= |batch| && (answer >= 0 || answer == -EAGAIN)
      modifies this
      ensures var k := if answer < 0 then 0 else answer;
              && cmdWaitList == batch[k..] + old(cmdWaitList) && arrived == old(arrived) && done == old(done)
              && npending == old(npending) + k && nwaiting == old(nwaiting) - k
              && left == old(left) + AllLeft(batch[..k], answer >= 0)
              && inFlight == old(inFlight) + multiset(batch[..k])
    {
      hide AllLeft;
      var nsuccess := if answer < 0 then 0 else answer;
      if nsuccess < |batch| {
        PushBack(batch, nsuccess);
      } else {
        assert batch[nsuccess..] + cmdWaitList == cmdWaitList;
      }
      npending := npending + nsuccess;
      nwaiting := nwaiting - nsuccess;
      left := left + AllLeft(batch[..nsuccess], answer >= 0);
      inFlight := inFlight + multiset(batch[..nsuccess]);
    }

    /** An error other than EAGAIN: the commands of the batch are given up. */
    method Drop(batch: seq<Command>)
      modifies `nwaiting, `left
      ensures nwaiting == old(nwaiting) - |batch| && left == old(left) + AllLeft(batch, false)
    {
      var i := |batch|;
      while i > 0
        invariant 0 <= i <= |batch| && nwaiting == old(nwaiting) - (|batch| - i) && left == old(left)
      {
        i := i - 1;
        nwaiting := nwaiting - 1;
      }
      left := left + AllLeft(batch, false);
    }

    /** A batch of n commands, n > 0. */
    method SubmitSome(n: nat) returns (err: int, ghost answer: int)
      requires Inv(View()) && n == Room(View()) > 0 && n <= |cmdWaitList|
      modifies this
      ensures answer <= old(Room(View())) && Possible(old(View()), Batch(answer))
      ensures View() == Apply(old(View()), Batch(answer)) && Inv(View())
      ensures err == if Drops(old(View()), Batch(answer)) then answer else 0
    {
      hide Inv, AllLeft, Apply, Drops, Room, Possible;
      ghost var was := View();
      var batch := Fetch(n);
      var nsuccess := IoSubmit(n);
      if nsuccess < 0 && nsuccess != -EAGAIN {
        Drop(batch);
        DropIs(was, nsuccess, View());
        return nsuccess, nsuccess;
      }
      Submitted(batch, nsuccess);
      AcceptIs(was, nsuccess, View());
      return 0, nsuccess;
    }

    /** bs_aio_submit_dev_batch up to the device list. */
    method SubmitBatch() returns (err: int, ghost answer: int)
      requires Inv(View())
      modifies this
      ensures answer <= old(Room(View())) && Possible(old(View()), Batch(answer))
      ensures View() == Apply(old(View()), Batch(answer)) && Inv(View())
      ensures err == if Drops(old(View()), Batch(answer)) then answer else 0
    {
      ghost var was := View();
      BatchPossible(was);
      hide Inv, AllLeft, Apply, Drops;
      var nsubmit := AIO_MAX_IODEPTH - npending;
      if nsubmit > nwaiting {
        nsubmit := nwaiting;
      }
      assert nsubmit == Room(was);
      hide Room, Possible;
      if nsubmit == 0 {
        BatchOfNone(was);
        return 0, 0;
      }
      err, answer := SubmitSome(nsubmit);
    }

    /** One io_getevents, and bs_aio_complete_one for each of its events. */
    method EventsDone(cmds: seq<Command>)
      requires Possible(View(), Complete(cmds))
      modifies `npending, `inFlight, `done
      ensures View() == Apply(old(View()), Complete(cmds))
    {
      npending := npending - |cmds|;
      inFlight := inFlight - multiset(cmds);
      done := done + multiset(cmds);
    }
  }

  /** list_del */
  function Without(list: seq<AioInfo>, info: AioInfo): seq<AioInfo> {
    if list == [] then []
    else if list[0] == info then list[1..]
    else [list[0]] + Without(list[1..], info)
  }

  predicate Distinct(list: seq<AioInfo>) {
    forall i, j :: 0 <= i < j < |list| ==> list[i] != list[j]
  }

  lemma DistinctCons(x: AioInfo, list: seq<AioInfo>)
    requires Distinct(list) && x !in list
    ensures Distinct([x] + list)
  {
  }

  lemma {:induction false} WithoutIs(list: seq<AioInfo>, info: AioInfo)
    requires Distinct(list)
    ensures Distinct(Without(list, info))
    ensures forall x :: x in Without(list, info) <==> x in list && x != info
  {
    if list != [] {
      assert list == [list[0]] + list[1..];
      if list[0] != info {
        WithoutIs(list[1..], info);
        DistinctCons(list[0], Without(list[1..], info));
      }
    }
  }

  lemma NotBefore(list: seq<AioInfo>, i: nat)
    requires Distinct(list) && i < |list|
    ensures list[i] !in list[..i] && forall j :: 0 <= j < |list| && j != i ==> list[j] != list[i]
    ensures list[..i + 1] == list[..i] + [list[i]]
  {
  }

  lemma AfterOne(was: Device, answer: int, now: Device)
    requires OneBatch(was, answer, now) && was.nwaiting > 0
    ensures AfterBatch(was, now)
  {
    hide OneBatch;
  }

  lemma AfterNone(was: Device)
    requires was.nwaiting <= 0
    ensures AfterBatch(was, was)
  {
  }

  lemma DistinctSnoc(list: seq<AioInfo>, x: AioInfo)
    requires Distinct(list) && x !in list
    ensures Distinct(list + [x])
  {
  }

  lemma WaitCount(d: Device)
    requires Inv(d)
    ensures d.nwaiting >= 0
  {
  }

  /** These devices had one batch each, answered in this way; the others did not change. */
  ghost predicate Batches(was: World, devs: seq<AioInfo>, answers: seq<int>, now: World) {
    && now.Keys == was.Keys && |answers| == |devs|
    && (forall i :: 0 <= i < |devs| ==> devs[i] in was && OneBatch(was[devs[i]], answers[i], now[devs[i]]))
    && forall d :: d in was && d !in devs ==> now[d] == was[d]
  }

  lemma NoBatches(was: World, devs: seq<AioInfo>)
    requires devs == []
    ensures Batches(was, devs, [], was)
  {
  }

  lemma NotYet(was: World, devs: seq<AioInfo>, answers: seq<int>, now: World, d: AioInfo)
    requires Batches(was, devs, answers, now) && d in was && d !in devs
    ensures d in now && now[d] == was[d]
  {
  }

  lemma BatchesMore(was: World, devs: seq<AioInfo>, answers: seq<int>, now: World, d: AioInfo, answer: int, now': World)
    requires Batches(was, devs, answers, now) && d in was && d !in devs
    requires now'.Keys == was.Keys && now' == now[d := now'[d]] && OneBatch(now[d], answer, now'[d])
    ensures Batches(was, devs + [d], answers + [answer], now')
  {
    hide OneBatch;
  }

  /** What a command submits while its completion is reported: target_cmd_io_done. */
  datatype Request = Request(info: AioInfo, cmd: Command, last: bool)

  datatype Step =
    | Got(cmds: seq<Command>)               // one io_getevents of the device
    | Submit(request: Request, err: int)    // bs_aio_cmd_submit
    | Final                                 // the batch at the end

  /** The first half of bs_aio_cmd_submit: the command waits. */
  function Waits(w: World, request: Request): World
    requires request.info in w
  {
    w[request.info := Apply(w[request.info], Arrive(request.cmd))]
  }

  lemma AllSubmitted(w: World, devs: seq<AioInfo>, answers: seq<int>, err: int, w': World, x: AioInfo)
    requires x in w && |answers| <= |devs| && Batches(w, devs[..|answers|], answers, w')
    requires forall d :: d in devs ==> d in w
    requires forall d :: d in w ==> if d in devs then w[d].nwaiting > 0 else w[d].nwaiting <= 0
    requires if err == 0 then |answers| == |devs|
             else 0 < |answers| && answers[|answers| - 1] == err && Drops(w[devs[|answers| - 1]], Batch(err))
    ensures Submitted(w, x, true, err, w')
  {
    hide OneBatch, AfterBatch, Drops;
    forall d | d in w
      ensures AfterBatch(w[d], w'[d]) || (err != 0 && w'[d] == w[d])
    {
      if d in devs[..|answers|] {
        var i :| 0 <= i < |answers| && devs[i] == d;
        AfterOne(w[d], answers[i], w'[d]);
      } else if err == 0 {
        assert devs[..|devs|] == devs;
        AfterNone(w[d]);
      }
    }
    if err != 0 {
      var d := devs[|answers| - 1];
      assert OneBatch(w[d], err, w'[d]);
    }
  }

  ghost predicate SubmitStep(w: World, request: Request, err: int, w': World) {
    && request.info in w && w'.Keys == w.Keys
    && Submitted(Waits(w, request), request.info, request.last, err, w')
  }

  ghost predicate Stepped(info: AioInfo, w: World, step: Step, w': World) {
    && info in w && w'.Keys == w.Keys
    && match step
       case Got(cmds) =>
         && 0 < |cmds| <= AIO_MAX_IODEPTH && Possible(w[info], Complete(cmds))
         && w' == w[info := Apply(w[info], Complete(cmds))]
       case Submit(request, err) => SubmitStep(w, request, err, w')
       case Final => w' == w[info := w'[info]] && AfterBatch(w[info], w'[info])
  }

  /** The devices before, between and after the steps of one bs_aio_get_completions. */
  ghost predicate Follow(info: AioInfo, worlds: seq<World>, steps: seq<Step>) {
    && |worlds| == |steps| + 1
    && forall i :: 0 <= i < |steps| ==> Stepped(info, worlds[i], steps[i], worlds[i + 1])
  }

  predicate NoFinal(steps: seq<Step>) {
    forall i :: 0 <= i < |steps| ==> !steps[i].Final?
  }

  lemma GotStepped(info: AioInfo, w: World, cmds: seq<Command>, w': World)
    requires info in w && 0 < |cmds| <= AIO_MAX_IODEPTH && Possible(w[info], Complete(cmds))
    requires w' == w[info := Apply(w[info], Complete(cmds))]
    ensures Stepped(info, w, Got(cmds), w')
  {
  }

  lemma NoneFinal(steps: seq<Step>)
    requires NoFinal(steps)
    ensures steps == [] || (!steps[|steps| - 1].Final? && NoFinal(steps[..|steps| - 1]))
  {
  }

  lemma FollowMore(info: AioInfo, worlds: seq<World>, steps: seq<Step>, step: Step, w: World)
    requires Follow(info, worlds, steps) && Stepped(info, worlds[|steps|], step, w)
    ensures Follow(info, worlds + [w], steps + [step])
    ensures (worlds + [w])[|steps + [step]|] == w
    ensures NoFinal(steps) && !step.Final? ==> NoFinal(steps + [step])
  {
    hide Stepped;
  }

  /** How many commands were handed over. */
  function Handed(steps: seq<Step>): nat {
    if steps == [] then 0
    else Handed(steps[..|steps| - 1]) + match steps[|steps| - 1] case Got(cmds) => |cmds| case _ => 0
  }

  lemma FollowNone(info: AioInfo, w: World)
    ensures Follow(info, [w], []) && NoFinal([]) && Handed([]) == 0
  {
  }

  lemma HandedMore(steps: seq<Step>, step: Step)
    ensures Handed(steps + [step]) == Handed(steps) + match step case Got(cmds) => |cmds| case _ => 0
  {
    assert (steps + [step])[..|steps|] == steps;
  }

  lemma LeadsBatch(d: Device, answer: int, t: Device)
    requires OneBatch(d, answer, t)
    ensures Leads(d, [Batch(answer)], t)
  {
    assert Leads(t, [Batch(answer)][1..], t);
  }

  lemma LeadsAfterBatch(d: Device, t: Device) returns (events: seq<Event>)
    requires AfterBatch(d, t)
    ensures Leads(d, events, t)
  {
    if d.nwaiting > 0 {
      var answer :| OneBatch(d, answer, t);
      LeadsBatch(d, answer, t);
      events := [Batch(answer)];
    } else {
      events := [];
    }
  }

  lemma LeadsFirst(d: Device, e: Event, events: seq<Event>, t: Device)
    requires Possible(d, e) && Leads(Apply(d, e), events, t)
    ensures Leads(d, [e] + events, t)
  {
    assert ([e] + events)[1..] == events;
  }

  lemma {:induction false} LeadsJoin(d: Device, a: seq<Event>, m: Device, b: seq<Event>, t: Device)
    requires Leads(d, a, m) && Leads(m, b, t)
    ensures Leads(d, a + b, t)
    decreases |a|
  {
    hide Possible, Apply;
    if a == [] {
      assert a + b == b;
    } else {
      assert (a + b)[1..] == a[1..] + b;
      LeadsJoin(Apply(d, a[0]), a[1..], m, b, t);
    }
  }

  lemma ArriveLeads(d: Device, cmd: Command, events: seq<Event>, t: Device)
    requires Leads(Apply(d, Arrive(cmd)), events, t)
    ensures Leads(d, [Arrive(cmd)] + events, t)
  {
    LeadsFirst(d, Arrive(cmd), events, t);
  }

  lemma SubmitLeads(w: World, request: Request, err: int, w': World, d: AioInfo) returns (events: seq<Event>)
    requires SubmitStep(w, request, err, w') && d in w
    ensures Leads(w[d], events, w'[d])
  {
    hide AfterBatch, Apply;
    var a := Waits(w, request);
    events := [];
    if w'[d] != a[d] {
      events := LeadsAfterBatch(a[d], w'[d]);
    }
    if d == request.info {
      ArriveLeads(w[d], request.cmd, events, w'[d]);
      events := [Arrive(request.cmd)] + events;
    }
  }

  /** What one step does to any device is a run of that device. */
  lemma StepLeads(info: AioInfo, w: World, step: Step, w': World, d: AioInfo) returns (events: seq<Event>)
    requires Stepped(info, w, step, w') && d in w
    ensures Leads(w[d], events, w'[d])
  {
    hide AfterBatch, Possible, Apply, SubmitStep;
    match step
    case Got(cmds) =>
      events := [];
      if d == info {
        LeadsFirst(w[d], Complete(cmds), [], w'[d]);
        events := [Complete(cmds)] + [];
      }
    case Final =>
      events := [];
      if d == info {
        events := LeadsAfterBatch(w[d], w'[d]);
      }
    case Submit(request, err) => events := SubmitLeads(w, request, err, w', d);
  }

  lemma SameDevices(info: AioInfo, w: World, step: Step, w': World)
    requires Stepped(info, w, step, w')
    ensures w'.Keys == w.Keys
  {
  }

  /** All the steps together take every device, whatever is submitted between the completions,
      from one reachable state to another. */
  lemma {:induction false} AllReachable(info: AioInfo, worlds: seq<World>, steps: seq<Step>, d: AioInfo)
    requires Follow(info, worlds, steps) && d in worlds[0] && Reachable(worlds[0][d])
    ensures d in worlds[|steps|] && Reachable(worlds[|steps|][d])
  {
    hide Stepped, Leads;
    if steps != [] {
      var n := |steps| - 1;
      AllReachable(info, worlds[..n + 1], steps[..n], d);
      assert Stepped(info, worlds[n], steps[n], worlds[n + 1]);
      SameDevices(info, worlds[n], steps[n], worlds[n + 1]);
      var before :| Leads(Idle, before, worlds[n][d]);
      var events := StepLeads(info, worlds[n], steps[n], worlds[n + 1], d);
      LeadsJoin(Idle, before, worlds[n][d], events, worlds[n + 1][d]);
    }
  }

  /** A command that is not the last of its group goes to the kernel, with all that wait before
      it, only if it is the one that fills the depth; else it waits and nothing else happens. */
  lemma NotLastIff(w: World, request: Request, err: int, w': World)
    requires SubmitStep(w, request, err, w') && !request.last && Inv(w[request.info])
    ensures forall d :: d in w && d != request.info ==> w'[d] == w[d]
    ensures var was, now := w[request.info], w'[request.info];
            if |was.wait| + |was.inFlight| + 1 == 128 then
              exists answer :: OneBatch(Apply(was, Arrive(request.cmd)), answer, now)
            else
              && err == 0 && now.wait == was.wait + [request.cmd]
              && now.left == was.left && now.inFlight == was.inFlight && now.done == was.done
  {
    hide Batched, OneBatch;
  }

  /** The kernel's queue is full, or what waits does not fill it. */
  predicate HasRoom(d: Device) {
    |d.inFlight| == 128 || |d.wait| + |d.inFlight| < 128
  }

  /** A batch that is taken in full makes room. */
  lemma FullBatchHasRoom(d: Device)
    requires Inv(d)
    ensures Possible(d, Batch(Room(d))) && HasRoom(Apply(d, Batch(Room(d))))
  {
    hide Kernel, Commands;
    FullBatch(d);
    BatchKeeps(d, Room(d));
  }

  /** The command with which a submission that is not the last of its group makes a batch is the
      first that leaves no room, and taken in full the batch leaves nothing waiting. */
  lemma BatchWhenNeeded(d: Device, cmd: Command)
    requires Inv(d) && HasRoom(d)
    ensures var a := Apply(d, Arrive(cmd));
            if |d.wait| + |d.inFlight| + 1 != 128 then HasRoom(a)
            else
              && !HasRoom(a) && Possible(a, Batch(Room(a)))
              && Apply(a, Batch(Room(a))).wait == [] && |Apply(a, Batch(Room(a))).inFlight| == 128
  {
    hide Kernel, Commands;
    var a := Apply(d, Arrive(cmd));
    ApplyKeeps(d, Arrive(cmd));
    if |d.wait| + |d.inFlight| + 1 == 128 {
      FullBatch(a);
      BatchKeeps(a, Room(a));
    }
  }

  /** All devices and the list of those with waiting commands. */
  class Devices {
    var list: seq<AioInfo>
    var all: set<AioInfo>    // those opened with this backing store

    ghost predicate Valid()
      reads this, all
    {
      && Distinct(list)
      && (forall d :: d in list ==> d in all)
      && (forall d :: d in all ==> Inv(d.View()) && (d in list <==> d.nwaiting > 0))
    }

    ghost function World(): World
      reads this, all
    {
      map d | d in all :: d.View()
    }

    /** Only one device changed, and its wait list did not. */
    twostate lemma StillValid(info: AioInfo)
      requires old(Valid()) && list == old(list) && all == old(all) && info in all && unchanged(all - {info})
      requires Inv(info.View()) && info.nwaiting == old(info.nwaiting)
      ensures Valid()
    {
      hide Inv, Distinct;
      forall d | d in all
        ensures Inv(d.View()) && (d in list <==> d.nwaiting > 0)
      {
        assert d != info ==> d.View() == old(d.View());
      }
    }

    /** Only one device changed. */
    twostate lemma OneChanged(info: AioInfo)
      requires all == old(all) && info in all && unchanged(all - {info})
      ensures World() == old(World())[info := info.View()]
    {
    }

    constructor ()
      ensures Valid() && list == [] && all == {}
    {
      list, all := [], {};
    }

    /** bs_aio_submit_dev_batch */
    method SubmitDevBatch(info: AioInfo) returns (err: int, ghost answer: int)
      requires Valid() && info in list
      modifies `list, info
      ensures Valid()
      ensures OneBatch(old(info.View()), answer, info.View())
      ensures err == if Drops(old(info.View()), Batch(answer)) then answer else 0
      ensures list == if info.nwaiting > 0 then old(list) else Without(old(list), info)
      ensures forall x :: x != info ==> (x in list <==> x in old(list))
    {
      hide Inv, Distinct, Without, Apply, Drops, Possible, Room;
      err, answer := info.SubmitBatch();
      WithoutIs(list, info);
      WaitCount(info.View());
      if info.nwaiting == 0 {
        list := Without(list, info);
      }
      forall d | d in all
        ensures Inv(d.View()) && (d in list <==> d.nwaiting > 0)
      {
        assert d != info ==> d.View() == old(d.View());
      }
    }

    /** bs_aio_submit_all_devs: the devices with waiting commands get one batch each, in list
        order, up to the first error. */
    method SubmitAllDevs() returns (err: int, ghost answers: seq<int>)
      requires Valid()
      modifies this, all
      ensures Valid() && all == old(all) && |answers| <= |old(list)|
      ensures err == 0 ==> |answers| == |old(list)|
      ensures err != 0 ==>
        0 < |answers| && answers[|answers| - 1] == err
        && Drops(old(World())[old(list)[|answers| - 1]], Batch(err))
      ensures Batches(old(World()), old(list)[..|answers|], answers, World())
    {
      hide Inv, Without, Drops, OneBatch, Distinct, Batches;
      var devs := list;
      var i := 0;
      answers := [];
      err := 0;
      NoBatches(World(), devs[..0]);
      while i < |devs|
        invariant Valid() && all == old(all) && i == |answers| <= |devs| && err == 0 && Distinct(devs)
        invariant forall j :: 0 <= j < |devs| ==> devs[j] in all && (i <= j ==> devs[j] in list)
        invariant Batches(old(World()), devs[..i], answers, World())
      {
        ghost var answer;
        NotBefore(devs, i);
        NotYet(old(World()), devs[..i], answers, World(), devs[i]);
        label before:
        err, answer := SubmitDevBatch(devs[i]);
        OneChanged@before(devs[i]);
        BatchesMore(old(World()), devs[..i], answers, old@before(World()), devs[i], answer, World());
        answers := answers + [answer];
        i := i + 1;
        if err != 0 {
          return;
        }
      }
    }

    /** bs_aio_init and bs_aio_open: another device, with nothing to do. */
    method AddDevice() returns (info: AioInfo)
      requires Valid()
      modifies this
      ensures Valid() && fresh(info) && info.View() == Idle && all == old(all) + {info} && list == old(list)
    {
      hide Distinct, Inv;
      info := new AioInfo();
      IdleInv();
      all := all + {info};
    }

    /** The first half of bs_aio_cmd_submit: the command waits, its device is on the list. */
    method Enqueue(info: AioInfo, cmd: Command)
      requires Valid() && info in all
      modifies `list, info
      ensures Valid() && info in list && info.View() == Apply(old(info.View()), Arrive(cmd))
    {
      hide Inv, Distinct, Apply;
      ApplyKeeps(info.View(), Arrive(cmd));
      WaitCount(info.View());
      if info.nwaiting == 0 {
        DistinctSnoc(list, info);
        list := list + [info];
      }
      info.Append(cmd);
    }

    /** The last command of a group submits for all devices. */
    method CmdSubmitLast(info: AioInfo, cmd: Command) returns (err: int)
      requires Valid() && info in all
      modifies this, all
      ensures Valid() && all == old(all)
      ensures Submitted(Waits(old(World()), Request(info, cmd, true)), info, true, err, World())
    {
      hide Inv, Distinct, Apply, Submitted, Batches, Drops;
      Enqueue(info, cmd);
      OneChanged(info);
      ghost var was, devs := World(), list;
      assert was == Waits(old(World()), Request(info, cmd, true));
      assert forall d :: d in was ==> if d in devs then was[d].nwaiting > 0 else was[d].nwaiting <= 0;
      hide Valid;
      ghost var answers;
      err, answers := SubmitAllDevs();
      AllSubmitted(was, devs, answers, err, World(), info);
    }

    /** Another command submits for its own device once that can fill the kernel's queue. */
    method CmdSubmitMore(info: AioInfo, cmd: Command) returns (err: int)
      requires Valid() && info in all
      modifies this, info
      ensures Valid() && all == old(all)
      ensures Submitted(Waits(old(World()), Request(info, cmd, false)), info, false, err, World())
    {
      hide Inv, Distinct, OneBatch, AfterBatch, Apply, Drops;
      Enqueue(info, cmd);
      ghost var was := World();
      OneChanged(info);
      label enqueued:
      if info.nwaiting == AIO_MAX_IODEPTH - info.npending {
        ghost var answer;
        err, answer := SubmitDevBatch(info);
        AfterOne(was[info], answer, info.View());
        OneChanged@enqueued(info);
        return err;
      }
      return 0;
    }

    /** bs_aio_cmd_submit */
    method CmdSubmit(request: Request) returns (err: int)
      requires Valid() && request.info in all
      modifies this, all
      ensures Valid() && all == old(all)
      ensures SubmitStep(old(World()), request, err, World())
    {
      hide Inv, Distinct, Submitted, Waits;
      if request.last {
        err := CmdSubmitLast(request.info, request.cmd);
      } else {
        err := CmdSubmitMore(request.info, request.cmd);
      }
    }

    /** What the initiators do on the completion of a command is not known here: any commands
        may be submitted, to any device. */
    method TargetCmdIoDone(cmd: Command) returns (requests: seq<Request>)
      ensures forall r :: r in requests ==> r.info in all
    {
      ghost var none: seq<Request> := [];
      assert forall r :: r in none ==> r.info in all;
      requests :| forall r :: r in requests ==> r.info in all;
    }

    /** io_getevents: some commands the kernel holds, at most n, or none if it fails. */
    method IoGetevents(info: AioInfo, n: nat) returns (cmds: seq<Command>)
      ensures |cmds| <= n && multiset(cmds) <= info.inFlight
    {
      ghost var none: seq<Command> := [];
      assert |none| <= n && multiset(none) <= info.inFlight;
      cmds :| |cmds| <= n && multiset(cmds) <= info.inFlight;
    }

    /** The batch at the end of bs_aio_get_completions. */
    method SubmitWaiting(info: AioInfo)
      requires Valid() && info in all
      modifies this, info
      ensures Valid() && all == old(all) && Stepped(info, old(World()), Final, World())
    {
      hide Inv, Distinct, Apply, AfterBatch, OneBatch, Possible;
      ghost var now := info.View();
      if info.nwaiting > 0 {
        var err, answer := SubmitDevBatch(info);
        AfterOne(now, answer, info.View());
      } else {
        AfterNone(now);
      }
      OneChanged(info);
    }

    /** One io_getevents of the device. */
    method CompleteSome(info: AioInfo, cmds: seq<Command>)
      requires Valid() && info in all && 0 < |cmds| <= AIO_MAX_IODEPTH && Possible(info.View(), Complete(cmds))
      modifies info
      ensures Valid() && Stepped(info, old(World()), Got(cmds), World())
    {
      ApplyKeeps(info.View(), Complete(cmds));
      hide Inv, Distinct, Apply, Possible, Stepped, Valid;
      info.EventsDone(cmds);
      StillValid(info);
      OneChanged(info);
      GotStepped(info, old(World()), cmds, World());
    }

    /** The steps so far led here and end within the delivery of completions. */
    ghost predicate Under(info: AioInfo, worlds: seq<World>, steps: seq<Step>)
      reads this, all
    {
      Follow(info, worlds, steps) && worlds[|steps|] == World() && NoFinal(steps)
    }

    /** bs_aio_complete_one for one event. */
    method CompleteOne(info: AioInfo, cmd: Command, ghost worlds: seq<World>, ghost steps: seq<Step>)
      returns (ghost worlds': seq<World>, ghost steps': seq<Step>)
      requires Valid() && info in all && Under(info, worlds, steps)
      modifies this, all
      ensures Valid() && all == old(all) && Under(info, worlds', steps')
      ensures worlds <= worlds' && steps <= steps' && Handed(steps') == Handed(steps)
    {
      hide Inv, Distinct, SubmitStep, Handed, NoFinal;
      worlds', steps' := worlds, steps;
      var requests := TargetCmdIoDone(cmd);
      var i := 0;
      while i < |requests|
        invariant Valid() && all == old(all) && Under(info, worlds', steps')
        invariant worlds <= worlds' && steps <= steps' && Handed(steps') == Handed(steps)
      {
        var err := CmdSubmit(requests[i]);
        ghost var step := Submit(requests[i], err);
        FollowMore(info, worlds', steps', step, World());
        HandedMore(steps', step);
        worlds', steps' := worlds' + [World()], steps' + [step];
        i := i + 1;
      }
    }

    /** One io_getevents, and bs_aio_complete_one for each of its events. */
    method OneRound(info: AioInfo, cmds: seq<Command>, ghost worlds: seq<World>, ghost steps: seq<Step>)
      returns (ghost worlds': seq<World>, ghost steps': seq<Step>)
      requires Valid() && info in all && Under(info, worlds, steps)
      requires 0 < |cmds| <= AIO_MAX_IODEPTH && multiset(cmds) <= info.inFlight
      modifies this, all
      ensures Valid() && all == old(all) && Under(info, worlds', steps')
      ensures worlds <= worlds' && steps + [Got(cmds)] <= steps'
      ensures Handed(steps') == Handed(steps) + |cmds|
    {
      hide Inv, Distinct, Handed, Stepped, NoFinal;
      CompleteSome(info, cmds);
      FollowMore(info, worlds, steps, Got(cmds), World());
      HandedMore(steps, Got(cmds));
      worlds', steps' := worlds + [World()], steps + [Got(cmds)];
      ghost var handed := Handed(steps');
      var i := 0;
      while i < |cmds|
        invariant Valid() && all == old(all) && Under(info, worlds', steps')
        invariant worlds <= worlds' && steps + [Got(cmds)] <= steps' && Handed(steps') == handed
      {
        worlds', steps' := CompleteOne(info, cmds[i], worlds', steps');
        i := i + 1;
      }
    }

    /** bs_aio_get_completions: ncomplete from the eventfd, then what each io_getevents hands
        over until that many are complete, or it fails; then what waits is submitted. */
    method GetCompletions(info: AioInfo, ncomplete: nat) returns (ghost worlds: seq<World>, ghost steps: seq<Step>)
      requires Valid() && info in all
      modifies this, all
      ensures Valid() && all == old(all)
      ensures Follow(info, worlds, steps) && worlds[0] == old(World()) && worlds[|steps|] == World()
      ensures Handed(steps) <= ncomplete && (steps != [] ==> !steps[0].Submit?)
      ensures Handed(steps) == ncomplete <==> steps != [] && steps[|steps| - 1].Final?
      ensures steps == [] || NoFinal(steps[..|steps| - 1])
    {
      hide Inv, Distinct, Handed, Stepped, NoFinal;
      worlds, steps := [World()], [];
      FollowNone(info, World());
      var left := ncomplete;
      while left > 0
        invariant Valid() && all == old(all) && Under(info, worlds, steps)
        invariant 0 <= left == ncomplete - Handed(steps) && (steps != [] ==> !steps[0].Submit?)
        invariant worlds != [] && worlds[0] == old(World())
      {
        var cmds := IoGetevents(info, if left < AIO_MAX_IODEPTH then left else AIO_MAX_IODEPTH);
        if cmds == [] {
          NoneFinal(steps);
          return;
        }
        worlds, steps := OneRound(info, cmds, worlds, steps);
        left := left - |cmds|;
      }
      SubmitWaiting(info);
      FollowMore(info, worlds, steps, Final, World());
      HandedMore(steps, Final);
      assert (steps + [Final])[..|steps|] == steps;
      worlds, steps := worlds + [World()], steps + [Final];
    }
  }
}
