/** CmdSN reordering: commands arrive in any order and execute in CmdSN order, with
    32-bit serial arithmetic (RFC 7143 section 4.2.2.1). */
module CmdSn {
  const MOD := 0x1_0000_0000
  const HALF := 0x8000_0000

  type uint32 = x: int | 0 <= x < MOD

  /** Unsigned 32-bit subtraction. */
  function Sub(a: int, b: int): uint32 {
    (a - b) % MOD
  }

  /** The comparison of util.h: the difference is negative as a signed 32-bit number. */
  predicate Before(a: uint32, b: uint32) {
    Sub(a, b) >= HALF
  }

  datatype Task = Task(id: nat, cmdSn: uint32, immediate: bool)

  /** The session: ExpCmdSN, the pending list, and what has been executed, in order. */
  datatype Session = Session(expCmdSn: uint32, pending: seq<Task>, executed: seq<Task>, urgent: seq<Task>)

  /** Position of the first entry that sn comes before. */
  function Slot(pending: seq<Task>, sn: uint32): (i: nat)
    ensures i <= |pending|
    ensures forall j :: 0 <= j < i ==> !Before(sn, pending[j].cmdSn)
    ensures i < |pending| ==> Before(sn, pending[i].cmdSn)
  {
    if pending == [] || Before(sn, pending[0].cmdSn) then 0 else 1 + Slot(pending[1..], sn)
  }

  /** list_add_tail in front of the entry at position i. */
  function Insert<T>(list: seq<T>, i: nat, x: T): (r: seq<T>)
    requires i <= |list|
    ensures |r| == |list| + 1 && r[i] == x
    ensures forall k :: 0 <= k < i ==> r[k] == list[k]
    ensures forall k :: i < k < |r| ==> r[k] == list[k - 1]
  {
    list[..i] + [x] + list[i..]
  }

  /** The CmdSN of command number v. */
  function Sn(start: uint32, v: nat): uint32 {
    (start + v) % MOD
  }

  function Execute(s: Session, t: Task): Session {
    s.(expCmdSn := Sn(s.expCmdSn, 1), executed := s.executed + [t])
  }

  function Drain(s: Session): Session
    decreases |s.pending|
  {
    if s.pending != [] && s.pending[0].cmdSn == s.expCmdSn
    then Drain(Execute(s.(pending := s.pending[1..]), s.pending[0]))
    else s
  }

  predicate Accepted(s: Session, t: Task) {
    t.immediate || !Before(t.cmdSn, s.expCmdSn)
  }

  function Queue(s: Session, t: Task): Session {
    if t.immediate then s.(urgent := s.urgent + [t])
    else if t.cmdSn == s.expCmdSn then Drain(Execute(s, t))
    else if Before(t.cmdSn, s.expCmdSn) then s
    else s.(pending := Insert(s.pending, Slot(s.pending, t.cmdSn), t))
  }

  // ----- the code

  class SessionQueue {
    var expCmdSn: uint32
    var pending: seq<Task>
    var executed: seq<Task>
    var urgent: seq<Task>

    function View(): Session
      reads this
    {
      Session(expCmdSn, pending, executed, urgent)
    }

    /** iscsi_task_queue; err is -EINVAL. */
    method TaskQueue(t: Task) returns (err: bool)
      modifies this
      ensures View() == Queue(old(View()), t)
      ensures err == !Accepted(old(View()), t)
    {
      err := false;
      if t.immediate {
        urgent := urgent + [t];
        return;
      }
      var cmdSn := t.cmdSn;
      if cmdSn == expCmdSn {
        var task := t;
        var more := true;
        while more
          invariant if more then cmdSn == expCmdSn == task.cmdSn
                      && Drain(Execute(View(), task)) == Queue(old(View()), t)
                    else View() == Queue(old(View()), t)
          decreases more, |pending|
        {
          cmdSn := Sn(cmdSn, 1);
          expCmdSn := cmdSn;
          executed := executed + [task];
          if pending == [] || pending[0].cmdSn != cmdSn {
            more := false;
          } else {
            task := pending[0];
            pending := pending[1..];
          }
        }
      } else if Before(cmdSn, expCmdSn) {
        return true;
      } else {
        var i := 0;
        while i < |pending| && !Before(cmdSn, pending[i].cmdSn)
          invariant 0 <= i <= |pending|
          invariant Slot(pending, cmdSn) == i + Slot(pending[i..], cmdSn)
        {
          i := i + 1;
        }
        pending := Insert(pending, i, t);
      }
    }
  }

  // ----- arithmetic of the window

  lemma SubMod(x: int, y: int)
    ensures Sub(x % MOD, y % MOD) == (x - y) % MOD
  {
    var p, q := x / MOD, y / MOD;
    assert x % MOD - y % MOD == x - y - (p - q) * MOD;
    assert (x - y - (p - q) * MOD) % MOD == (x - y) % MOD;
  }

  lemma SubAhead(start: uint32, a: nat, b: nat)
    requires b <= a < b + MOD
    ensures Sub(Sn(start, a), Sn(start, b)) == a - b
  {
    SubMod(start + a, start + b);
  }

  lemma BeforeInWindow(start: uint32, a: nat, b: nat, n: nat)
    requires n <= a < n + HALF && n <= b < n + HALF
    ensures Before(Sn(start, a), Sn(start, b)) <==> a < b
    ensures Sn(start, a) == Sn(start, b) <==> a == b
  {
    SubMod(start + a, start + b);
    if a < b {
      assert (a - b) % MOD == a - b + MOD;
    }
  }

  // ----- every run

  /** Command number v counts from the first command of the session, without wrapping. */
  predicate Numbered(start: uint32, t: Task, v: nat) {
    !t.immediate && t.cmdSn == Sn(start, v)
  }

  predicate Increasing(vs: seq<nat>) {
    forall i, j :: 0 <= i < j < |vs| ==> vs[i] < vs[j]
  }

  /** The pending tasks are those numbered vs, from low on. */
  predicate Waiting(pending: seq<Task>, m: map<nat, Task>, vs: seq<nat>, low: nat) {
    |vs| == |pending| && forall i :: 0 <= i < |vs| ==> low <= vs[i] && vs[i] in m && m[vs[i]] == pending[i]
  }

  /** Every command that has arrived either has executed or is waiting, inside the window. */
  ghost predicate Known(start: uint32, m: map<nat, Task>, n: nat, vs: seq<nat>) {
    forall v :: v in m ==> Numbered(start, m[v], v) && (v < n || v in vs) && v < n + HALF
  }

  /** m: the commands that have arrived, by number; vs: the numbers of the pending ones,
      none below low. */
  ghost predicate InvFrom(s: Session, start: uint32, m: map<nat, Task>, vs: seq<nat>, low: nat) {
    var n := |s.executed|;
    && s.expCmdSn == Sn(start, n)
    && (forall k :: 0 <= k < n ==> k in m && m[k] == s.executed[k])
    && Waiting(s.pending, m, vs, low)
    && Increasing(vs)
    && Known(start, m, n, vs)
  }

  ghost predicate Inv(s: Session, start: uint32, m: map<nat, Task>, vs: seq<nat>) {
    InvFrom(s, start, m, vs, |s.executed| + 1)
  }

  /** In the middle of the drain loop command n may be the first pending one. */
  ghost predicate Draining(s: Session, start: uint32, m: map<nat, Task>, vs: seq<nat>) {
    InvFrom(s, start, m, vs, |s.executed|)
  }

  lemma NextExpected(start: uint32, n: nat)
    ensures Sn(Sn(start, n), 1) == Sn(start, n + 1)
  {
  }

  lemma FirstPending(s: Session, start: uint32, m: map<nat, Task>, vs: seq<nat>)
    requires Draining(s, start, m, vs) && s.pending != []
    ensures |vs| == |s.pending| && vs[0] in m && m[vs[0]] == s.pending[0]
    ensures s.pending[0].cmdSn == s.expCmdSn <==> vs[0] == |s.executed|
  {
    hide Sn;
    BeforeInWindow(start, vs[0], |s.executed|, |s.executed|);
  }

  lemma KnownTail(start: uint32, m: map<nat, Task>, n: nat, vs: seq<nat>)
    requires Known(start, m, n, vs) && vs != [] && vs[0] == n
    ensures Known(start, m, n + 1, vs[1..])
  {
    hide Numbered;
    assert forall v :: v in vs ==> v == vs[0] || v in vs[1..];
  }

  lemma ExecuteFirst(s: Session, start: uint32, m: map<nat, Task>, vs: seq<nat>)
    requires Draining(s, start, m, vs) && s.pending != [] && s.pending[0].cmdSn == s.expCmdSn
    ensures |vs| > 0 && Draining(Execute(s.(pending := s.pending[1..]), s.pending[0]), start, m, vs[1..])
  {
    FirstPending(s, start, m, vs);
    NextExpected(start, |s.executed|);
    hide Sn, Known;
    KnownTail(start, m, |s.executed|, vs);
  }

  lemma GapAhead(s: Session, start: uint32, m: map<nat, Task>, vs: seq<nat>)
    requires Draining(s, start, m, vs) && (s.pending == [] || s.pending[0].cmdSn != s.expCmdSn)
    ensures Inv(s, start, m, vs)
  {
    hide Sn;
    if s.pending != [] {
      FirstPending(s, start, m, vs);
    }
  }

  /** The drain stops at the first gap, with the invariant back in place. */
  lemma {:induction false} DrainKeeps(s: Session, start: uint32, m: map<nat, Task>, vs: seq<nat>) returns (ws: seq<nat>)
    requires Draining(s, start, m, vs)
    ensures Inv(Drain(s), start, m, ws)
    decreases |s.pending|
  {
    hide InvFrom;
    if s.pending != [] && s.pending[0].cmdSn == s.expCmdSn {
      ExecuteFirst(s, start, m, vs);
      ws := DrainKeeps(Execute(s.(pending := s.pending[1..]), s.pending[0]), start, m, vs[1..]);
    } else {
      GapAhead(s, start, m, vs);
      ws := vs;
    }
  }

  lemma DrainFrame(s: Session)
    ensures Drain(s).urgent == s.urgent
    ensures multiset(Drain(s).executed) + multiset(Drain(s).pending) == multiset(s.executed) + multiset(s.pending)
    decreases |s.pending|
  {
    if s.pending != [] && s.pending[0].cmdSn == s.expCmdSn {
      assert s.pending == [s.pending[0]] + s.pending[1..];
      DrainFrame(Execute(s.(pending := s.pending[1..]), s.pending[0]));
    }
  }

  lemma InsertIncreasing(vs: seq<nat>, v: nat, i: nat)
    requires Increasing(vs) && i <= |vs|
    requires i > 0 ==> vs[i - 1] < v
    requires i < |vs| ==> v < vs[i]
    ensures Increasing(Insert(vs, i, v))
  {
    hide Insert;
  }

  lemma InsertKnown(start: uint32, m: map<nat, Task>, n: nat, vs: seq<nat>, t: Task, v: nat, i: nat)
    requires Known(start, m, n, vs) && i <= |vs| && Numbered(start, t, v) && v < n + HALF
    ensures Known(start, m[v := t], n, Insert(vs, i, v))
  {
    hide Numbered;
    var ws := Insert(vs, i, v);
    assert ws[i] == v;
    assert forall x :: x in vs ==> x in vs[..i] || x in vs[i..];
  }

  lemma InsertKeeps(s: Session, start: uint32, m: map<nat, Task>, vs: seq<nat>, t: Task, v: nat, i: nat)
    requires Inv(s, start, m, vs) && i <= |vs|
    requires Numbered(start, t, v) && v !in m && |s.executed| < v < |s.executed| + HALF
    requires i > 0 ==> vs[i - 1] < v
    requires i < |vs| ==> v < vs[i]
    ensures Inv(s.(pending := Insert(s.pending, i, t)), start, m[v := t], Insert(vs, i, v))
  {
    hide Numbered, Insert, Sn, Known, Increasing;
    InsertIncreasing(vs, v, i);
    InsertKnown(start, m, |s.executed|, vs, t, v, i);
  }

  /** A new command inside the window is taken, and the invariant goes on. */
  lemma ArrivalKeeps(s: Session, start: uint32, m: map<nat, Task>, vs: seq<nat>, t: Task, v: nat) returns (ws: seq<nat>)
    requires Inv(s, start, m, vs)
    requires Numbered(start, t, v) && v !in m && |s.executed| <= v < |s.executed| + HALF
    ensures Accepted(s, t)
    ensures Inv(Queue(s, t), start, m[v := t], ws)
  {
    hide Insert, Sn, Before, Drain;
    var n := |s.executed|;
    BeforeInWindow(start, v, n, n);
    if v == n {
      NextExpected(start, n);
      ws := DrainKeeps(Execute(s, t), start, m[v := t], vs);
    } else {
      var i := Slot(s.pending, t.cmdSn);
      if i < |vs| {
        BeforeInWindow(start, v, vs[i], n);
      }
      if i > 0 {
        BeforeInWindow(start, v, vs[i - 1], n);
      }
      InsertKeeps(s, start, m, vs, t, v, i);
      ws := Insert(vs, i, v);
    }
  }

  datatype Arrival = Arrival(task: Task, v: nat)

  /** The session after a list of arrivals. */
  function Run(s: Session, arrivals: seq<Arrival>): Session {
    if arrivals == [] then s else Queue(Run(s, arrivals[..|arrivals| - 1]), arrivals[|arrivals| - 1].task)
  }

  function ByNumber(arrivals: seq<Arrival>): map<nat, Task> {
    if arrivals == [] then map[]
    else ByNumber(arrivals[..|arrivals| - 1])[arrivals[|arrivals| - 1].v := arrivals[|arrivals| - 1].task]
  }

  function Fresh(start: uint32): Session {
    Session(start, [], [], [])
  }

  /** Every arrival carries a number not used before, at most 2^31 - 1 ahead of ExpCmdSN. */
  predicate InWindow(start: uint32, arrivals: seq<Arrival>) {
    arrivals != [] ==>
      var front, a := arrivals[..|arrivals| - 1], arrivals[|arrivals| - 1];
      var n := |Run(Fresh(start), front).executed|;
      InWindow(start, front) && Numbered(start, a.task, a.v) && a.v !in ByNumber(front) && n <= a.v < n + HALF
  }

  lemma {:induction false} RunKeeps(start: uint32, arrivals: seq<Arrival>) returns (vs: seq<nat>)
    requires InWindow(start, arrivals)
    ensures Inv(Run(Fresh(start), arrivals), start, ByNumber(arrivals), vs)
  {
    if arrivals == [] {
      vs := [];
    } else {
      var front, a := arrivals[..|arrivals| - 1], arrivals[|arrivals| - 1];
      var ws := RunKeeps(start, front);
      vs := ArrivalKeeps(Run(Fresh(start), front), start, ByNumber(front), ws, a.task, a.v);
    }
  }

  /** The list is strictly ahead of ExpCmdSN and strictly increasing. */
  ghost predicate Ordered(s: Session) {
    && (forall i :: 0 <= i < |s.pending| ==> 0 < Sub(s.pending[i].cmdSn, s.expCmdSn) < HALF)
    && (forall i, j :: 0 <= i < j < |s.pending| ==>
          Sub(s.pending[i].cmdSn, s.expCmdSn) < Sub(s.pending[j].cmdSn, s.expCmdSn))
  }

  lemma {:induction false} Counted(keys: set<nat>, n: nat, vs: seq<nat>)
    requires forall k :: 0 <= k < n ==> k in keys
    requires forall i :: 0 <= i < |vs| ==> vs[i] in keys && vs[i] > n
    requires forall i, j :: 0 <= i < j < |vs| ==> vs[i] < vs[j]
    requires forall v :: v in keys ==> v < n || v in vs
    ensures |keys| == n + |vs|
  {
    if |vs| > 0 {
      var last := vs[|vs| - 1];
      Counted(keys - {last}, n, vs[..|vs| - 1]);
    } else if n > 0 {
      Counted(keys - {n - 1}, n - 1, vs);
    } else {
      assert keys == {};
    }
  }

  lemma InvMeans(s: Session, start: uint32, m: map<nat, Task>, vs: seq<nat>)
    requires Inv(s, start, m, vs)
    ensures |s.executed| !in m && |m| == |s.executed| + |s.pending|
    ensures forall t :: t in s.pending <==> exists v :: v in m && v > |s.executed| && m[v] == t
    ensures Ordered(s)
  {
    hide Sub, Sn;
    var n := |s.executed|;
    forall i | 0 <= i < |vs|
      ensures Sub(s.pending[i].cmdSn, s.expCmdSn) == vs[i] - n
    {
      SubAhead(start, vs[i], n);
    }
    forall t | t in s.pending
      ensures exists v :: v in m && v > n && m[v] == t
    {
      var i :| 0 <= i < |vs| && s.pending[i] == t;
      assert m[vs[i]] == t;
    }
    Counted(m.Keys, n, vs);
    assert |m| == |m.Keys|;
  }

  /** In every run: the commands executed are 0, 1, 2, ... without a gap, each once, up to
      the first number that has not arrived; ExpCmdSN is the start plus their count; the
      rest wait in increasing order strictly after ExpCmdSN. */
  lemma ExecutesInOrder(start: uint32, arrivals: seq<Arrival>)
    requires InWindow(start, arrivals)
    ensures var s := Run(Fresh(start), arrivals);
            var n := |s.executed|;
            var m := ByNumber(arrivals);
            && s.expCmdSn == Sn(start, n)
            && (forall k :: 0 <= k < n ==> k in m && s.executed[k] == m[k])
            && n !in m
            && |m| == n + |s.pending|
            && (forall t :: t in s.pending <==> exists v :: v in m && v > n && m[v] == t)
            && Ordered(s)
  {
    hide Run, ByNumber, InWindow, Sn, Sub;
    var vs := RunKeeps(start, arrivals);
    InvMeans(Run(Fresh(start), arrivals), start, ByNumber(arrivals), vs);
  }

  /** Once numbers 0 .. count-1 have all arrived, in whatever order, all have executed in
      order and nothing is pending. */
  lemma AllArrivedAllExecuted(start: uint32, arrivals: seq<Arrival>, count: nat)
    requires InWindow(start, arrivals)
    requires forall v :: v in ByNumber(arrivals) <==> v < count
    ensures var s := Run(Fresh(start), arrivals);
            s.pending == [] && |s.executed| == count && s.expCmdSn == Sn(start, count)
            && forall k :: 0 <= k < count ==> s.executed[k] == ByNumber(arrivals)[k]
  {
    ExecutesInOrder(start, arrivals);
    var s := Run(Fresh(start), arrivals);
    var n := |s.executed|;
    assert n !in ByNumber(arrivals);
    assert n > 0 ==> n - 1 in ByNumber(arrivals);
    Counted(ByNumber(arrivals).Keys, n, []);
    assert |ByNumber(arrivals)| == |ByNumber(arrivals).Keys|;
  }

  // ----- immediate commands and refused ones

  lemma InsertConserves(list: seq<Task>, i: nat, t: Task)
    requires i <= |list|
    ensures multiset(Insert(list, i, t)) == multiset(list) + multiset{t}
  {
    assert list == list[..i] + list[i..];
  }

  lemma SubIs(a: uint32, b: uint32)
    ensures Sub(a, b) == if a < b then a - b + MOD else a - b
  {
  }

  /** An arrival is refused exactly if its CmdSN is one to 2^31 behind ExpCmdSN and it is not
      immediate; a refused one changes nothing, and any other is from then on among those
      executed, pending or executed at once, as is all that was there. */
  lemma ArrivalConserved(s: Session, t: Task)
    ensures Accepted(s, t) <==> t.immediate || !(1 <= Sub(s.expCmdSn, t.cmdSn) <= HALF)
    ensures var s' := Queue(s, t);
            if Accepted(s, t) then
              multiset(s'.executed) + multiset(s'.pending) + multiset(s'.urgent)
              == multiset(s.executed) + multiset(s.pending) + multiset(s.urgent) + multiset{t}
            else s' == s
  {
    hide Slot, Insert;
    SubIs(t.cmdSn, s.expCmdSn);
    SubIs(s.expCmdSn, t.cmdSn);
    if t.immediate {
    } else if t.cmdSn == s.expCmdSn {
      DrainFrame(Execute(s, t));
    } else {
      InsertConserves(s.pending, Slot(s.pending, t.cmdSn), t);
    }
  }

  /** The session after a list of tasks with any numbers, immediate or not. */
  function RunTasks(s: Session, tasks: seq<Task>): Session {
    if tasks == [] then s else Queue(RunTasks(s, tasks[..|tasks| - 1]), tasks[|tasks| - 1])
  }

  /** The tasks that are immediate, or those that are not, in order. */
  function Picked(tasks: seq<Task>, immediate: bool): (r: seq<Task>)
    ensures forall t :: t in r ==> t in tasks && t.immediate == immediate
  {
    if tasks == [] then []
    else
      var last := tasks[|tasks| - 1];
      Picked(tasks[..|tasks| - 1], immediate) + if last.immediate == immediate then [last] else []
  }

  lemma DrainApart(s: Session, urgent: seq<Task>)
    ensures Drain(s.(urgent := urgent)) == Drain(s).(urgent := urgent)
    decreases |s.pending|
  {
    if s.pending != [] && s.pending[0].cmdSn == s.expCmdSn {
      DrainApart(Execute(s.(pending := s.pending[1..]), s.pending[0]), urgent);
    }
  }

  lemma UrgentApart(s: Session, t: Task, urgent: seq<Task>)
    requires !t.immediate
    ensures Queue(s.(urgent := urgent), t) == Queue(s, t).(urgent := urgent) && Queue(s, t).urgent == s.urgent
  {
    if t.cmdSn == s.expCmdSn {
      DrainFrame(Execute(s, t));
      DrainApart(Execute(s, t), urgent);
    }
  }

  lemma PickedMore(tasks: seq<Task>, t: Task, immediate: bool)
    ensures Picked(tasks + [t], immediate) == Picked(tasks, immediate) + if t.immediate == immediate then [t] else []
  {
    assert (tasks + [t])[..|tasks|] == tasks;
  }

  lemma RunMore(s: Session, tasks: seq<Task>, t: Task)
    ensures RunTasks(s, tasks + [t]) == Queue(RunTasks(s, tasks), t)
  {
    assert (tasks + [t])[..|tasks|] == tasks;
  }

  lemma QueueImmediate(s: Session, t: Task)
    requires t.immediate
    ensures Queue(s, t) == s.(urgent := s.urgent + [t])
  {
  }

  lemma AsideStep(others: Session, urgent: seq<Task>, t: Task)
    ensures t.immediate ==> Queue(others.(urgent := urgent), t) == others.(urgent := urgent + [t])
    ensures !t.immediate ==>
      Queue(others.(urgent := urgent), t) == Queue(others, t).(urgent := urgent)
      && Queue(others, t).urgent == others.urgent
  {
    if t.immediate {
      QueueImmediate(others.(urgent := urgent), t);
    } else {
      UrgentApart(others, t, urgent);
    }
  }

  lemma NoTasks(s: Session)
    ensures RunTasks(s, []) == s && Picked([], true) == Picked([], false) == [] && s.urgent + [] == s.urgent
  {
  }

  /** Whatever arrives, immediate commands are executed at once, in the order they come, and the
      others fare as if there were none. */
  lemma {:induction false} ImmediateAside(s: Session, tasks: seq<Task>)
    ensures RunTasks(s, tasks) == RunTasks(s, Picked(tasks, false)).(urgent := s.urgent + Picked(tasks, true))
    ensures RunTasks(s, Picked(tasks, false)).urgent == s.urgent
  {
    hide Queue, RunTasks, Picked;
    if tasks == [] {
      NoTasks(s);
    } else {
      var front, t := tasks[..|tasks| - 1], tasks[|tasks| - 1];
      assert tasks == front + [t];
      ImmediateAside(s, front);
      PickedMore(front, t, true);
      PickedMore(front, t, false);
      var others, urgent := Picked(front, false), Picked(front, true);
      RunMore(s, front, t);
      RunMore(s, others, t);
      AsideStep(RunTasks(s, others), s.urgent + urgent, t);
      assert (s.urgent + urgent) + [t] == s.urgent + (urgent + [t]);
      assert others + [] == others && urgent + [] == urgent;
    }
  }

  // ----- a CmdSN that is already pending

  lemma NotBefore(a: uint32, e: uint32)
    requires !Before(a, e) && a != e
    ensures 0 < Sub(a, e) < HALF
  {
  }

  lemma SubShift(a: uint32, b: uint32, e: uint32)
    ensures Sub(a, b) == Sub(Sub(a, e), Sub(b, e))
  {
    hide Sub;
    SubIs(a, b);
    SubIs(a, e);
    SubIs(b, e);
    SubIs(Sub(a, e), Sub(b, e));
  }

  lemma SubSmall(x: uint32, y: uint32)
    requires x < HALF && y < HALF
    ensures Sub(x, y) >= HALF <==> x < y
    ensures Sub(x, y) == 0 <==> x == y
  {
  }

  lemma SubZero(a: uint32, b: uint32)
    ensures Sub(a, b) == 0 <==> a == b
  {
  }

  lemma Distance(a: uint32, b: uint32, e: uint32)
    requires Sub(a, e) < HALF && Sub(b, e) < HALF
    ensures Before(a, b) <==> Sub(a, e) < Sub(b, e)
    ensures a == b <==> Sub(a, e) == Sub(b, e)
  {
    SubShift(a, b, e);
    hide Sub;
    SubSmall(Sub(a, e), Sub(b, e));
    SubZero(a, b);
  }

  /** What Slot compares are the distances from ExpCmdSN. */
  lemma SlotDistances(s: Session, t: Task)
    requires Ordered(s) && !t.immediate && Accepted(s, t) && t.cmdSn != s.expCmdSn
    ensures 0 < Sub(t.cmdSn, s.expCmdSn) < HALF
    ensures Queue(s, t) == s.(pending := Insert(s.pending, Slot(s.pending, t.cmdSn), t))
    ensures forall j :: 0 <= j < |s.pending| ==>
              (Before(t.cmdSn, s.pending[j].cmdSn) <==> Sub(t.cmdSn, s.expCmdSn) < Sub(s.pending[j].cmdSn, s.expCmdSn))
    ensures forall j :: 0 <= j < |s.pending| ==>
              (t.cmdSn == s.pending[j].cmdSn <==> Sub(t.cmdSn, s.expCmdSn) == Sub(s.pending[j].cmdSn, s.expCmdSn))
  {
    hide Before, Sub, Insert;
    NotBefore(t.cmdSn, s.expCmdSn);
    forall j | 0 <= j < |s.pending|
      ensures Before(t.cmdSn, s.pending[j].cmdSn) <==> Sub(t.cmdSn, s.expCmdSn) < Sub(s.pending[j].cmdSn, s.expCmdSn)
      ensures t.cmdSn == s.pending[j].cmdSn <==> Sub(t.cmdSn, s.expCmdSn) == Sub(s.pending[j].cmdSn, s.expCmdSn)
    {
      Distance(t.cmdSn, s.pending[j].cmdSn, s.expCmdSn);
    }
  }

  lemma DuplicateBreaksOrder(s: Session, t: Task, p: Task)
    requires Ordered(s) && !t.immediate && Accepted(s, t) && t.cmdSn != s.expCmdSn
    requires p in s.pending && p.cmdSn == t.cmdSn
    ensures !Ordered(Queue(s, t))
  {
    hide Before, Sub, Insert;
    SlotDistances(s, t);
    var i := Slot(s.pending, t.cmdSn);
    var j :| 0 <= j < |s.pending| && s.pending[j] == p;
    assert j < i;
    assert Insert(s.pending, i, t)[j] == p && Insert(s.pending, i, t)[i] == t;
  }

  lemma InsertKeepsOrder(s: Session, t: Task, i: nat)
    requires Ordered(s) && i <= |s.pending| && 0 < Sub(t.cmdSn, s.expCmdSn) < HALF
    requires forall j :: 0 <= j < i ==> Sub(s.pending[j].cmdSn, s.expCmdSn) < Sub(t.cmdSn, s.expCmdSn)
    requires forall j :: i <= j < |s.pending| ==> Sub(t.cmdSn, s.expCmdSn) < Sub(s.pending[j].cmdSn, s.expCmdSn)
    ensures Ordered(s.(pending := Insert(s.pending, i, t)))
  {
    hide Sub, Insert;
    var q := Insert(s.pending, i, t);
    forall x, y | 0 <= x < y < |q|
      ensures Sub(q[x].cmdSn, s.expCmdSn) < Sub(q[y].cmdSn, s.expCmdSn)
    {
      assert x < i ==> q[x] == s.pending[x];
      assert x > i ==> q[x] == s.pending[x - 1];
      assert y < i ==> q[y] == s.pending[y];
      assert y > i ==> q[y] == s.pending[y - 1];
    }
  }

  lemma NewKeepsOrder(s: Session, t: Task)
    requires Ordered(s) && !t.immediate && Accepted(s, t) && t.cmdSn != s.expCmdSn
    requires forall p :: p in s.pending ==> p.cmdSn != t.cmdSn
    ensures Ordered(Queue(s, t))
  {
    SlotDistances(s, t);
    hide Before, Sub, Insert, Queue, Accepted;
    var i := Slot(s.pending, t.cmdSn);
    forall j | 0 <= j < |s.pending|
      ensures s.pending[j].cmdSn != t.cmdSn
    {
      assert s.pending[j] in s.pending;
    }
    hide Slot;
    InsertKeepsOrder(s, t, i);
  }

  /** A command that has to wait leaves the list in order exactly when its CmdSN is not in
      the list already: the source does not look for duplicates. */
  lemma WaitingKeepsOrder(s: Session, t: Task)
    requires Ordered(s) && !t.immediate && Accepted(s, t) && t.cmdSn != s.expCmdSn
    ensures Ordered(Queue(s, t)) <==> forall p :: p in s.pending ==> p.cmdSn != t.cmdSn
  {
    hide Before, Sub, Insert, Queue, Ordered, Accepted;
    if p :| p in s.pending && p.cmdSn == t.cmdSn {
      DuplicateBreaksOrder(s, t, p);
    } else {
      NewKeepsOrder(s, t);
    }
  }

  /** A pending command that ExpCmdSN has passed stays first in the list and keeps every
      other pending command from executing. */
  lemma StaleHeadBlocks(s: Session, t: Task)
    requires s.pending != [] && 0 < Sub(s.expCmdSn, s.pending[0].cmdSn) < HALF - 1
    requires !t.immediate && Sub(t.cmdSn, s.pending[0].cmdSn) < HALF
    ensures var s' := Queue(s, t);
            s'.pending != [] && s'.pending[0] == s.pending[0]
            && s'.executed == s.executed + (if t.cmdSn == s.expCmdSn then [t] else [])
  {
    var head := s.pending[0].cmdSn;
    if t.cmdSn == s.expCmdSn {
      assert Sub(Sn(s.expCmdSn, 1), head) == Sub(s.expCmdSn, head) + 1;
      assert Sub(head, head) == 0;
    }
  }

  /** The duplicate does happen: 6 arrives twice before 5, then 8 and 7; command 8 has
      arrived, every earlier one has executed, and it never executes. */
  lemma DuplicateStalls()
    ensures var t5, t6, t6', t7, t8 := Task(1, 5, false), Task(2, 6, false), Task(3, 6, false), Task(4, 7, false),
                                     Task(5, 8, false);
            var s := Queue(Queue(Queue(Queue(Queue(Fresh(5), t6), t6'), t5), t8), t7);
            s.executed == [t5, t6, t7] && s.expCmdSn == 8 && s.pending == [t6', t8]
  {
    var t5, t6, t6', t7, t8 := Task(1, 5, false), Task(2, 6, false), Task(3, 6, false), Task(4, 7, false),
                                     Task(5, 8, false);
    var s1 := Queue(Fresh(5), t6);
    assert s1.pending == [t6];
    var s2 := Queue(s1, t6');
    assert Slot([t6], 6) == 1;
    assert s2.pending == [t6, t6'];
    var s3 := Queue(s2, t5);
    var e5 := Execute(s2, t5);
    var e6 := Execute(e5.(pending := [t6']), t6);
    assert e5.pending[1..] == [t6'] && Drain(e5) == Drain(e6) == e6;
    assert s3 == Session(7, [t6'], [t5, t6], []);
    var s4 := Queue(s3, t8);
    assert Slot([t6'], 8) == 1;
    assert s4.pending == [t6', t8];
  }
}
