/** What a CmdSN that is already waiting does to the rest of the session. */
module DuplicateSn {
  import opened CmdSn

  /** Sorted, equal numbers allowed. */
  predicate Sorted(vs: seq<nat>) {
    forall i, j :: 0 <= i < j < |vs| ==> vs[i] <= vs[j]
  }

  /** The number serial comparisons are relative to: the first waiting one if ExpCmdSN, number
      n, has passed it, else n. */
  function Base(vs: seq<nat>, n: nat): nat {
    if vs != [] && vs[0] < n then vs[0] else n
  }

  /** The pending tasks carry the numbers vs. */
  predicate Carry(start: uint32, pending: seq<Task>, vs: seq<nat>) {
    |vs| == |pending| && forall i :: 0 <= i < |vs| ==> Numbered(start, pending[i], vs[i])
  }

  /** In the middle of the drain loop command n may be the first pending one. */
  ghost predicate Draining(s: Session, start: uint32, vs: seq<nat>) {
    var n := |s.executed|;
    && s.expCmdSn == Sn(start, n)
    && Carry(start, s.pending, vs)
    && Sorted(vs)
    && n <= Base(vs, n) + HALF
    && forall i :: 0 <= i < |vs| ==> vs[i] < Base(vs, n) + HALF
  }

  ghost predicate Shape(s: Session, start: uint32, vs: seq<nat>) {
    Draining(s, start, vs) && (vs != [] ==> vs[0] != |s.executed|)
  }

  ghost predicate Twice(vs: seq<nat>, d: nat) {
    exists i, j :: 0 <= i < j < |vs| && vs[i] == d == vs[j]
  }

  /** The head is stale, or will be when ExpCmdSN, number n, has passed d. */
  ghost predicate Blocked(vs: seq<nat>, d: nat, n: nat) {
    (vs != [] && vs[0] < n) || (n <= d && Twice(vs, d))
  }

  lemma SameSn(start: uint32, a: nat, b: nat)
    requires a < b + MOD && b < a + MOD
    ensures Sn(start, a) == Sn(start, b) <==> a == b
  {
    if b <= a {
      SubAhead(start, a, b);
    } else {
      SubAhead(start, b, a);
    }
  }

  lemma HeadIsNext(s: Session, start: uint32, vs: seq<nat>)
    requires Draining(s, start, vs) && s.pending != []
    ensures |vs| > 0 && (s.pending[0].cmdSn == s.expCmdSn <==> vs[0] == |s.executed|)
  {
    hide Sn;
    SameSn(start, vs[0], |s.executed|);
  }

  lemma NothingPending(s: Session, start: uint32, vs: seq<nat>)
    requires Draining(s, start, vs) && s.pending == []
    ensures vs == []
  {
  }

  lemma TakeTwice(vs: seq<nat>, d: nat)
    requires Sorted(vs) && vs != [] && Twice(vs, d)
    ensures if d == vs[0] then |vs| > 1 && vs[1..][0] == d else Twice(vs[1..], d)
  {
    var i, j :| 0 <= i < j < |vs| && vs[i] == d == vs[j];
    if d != vs[0] {
      assert vs[1..][i - 1] == d && vs[1..][j - 1] == d;
    } else {
      assert vs[0] <= vs[1] && (j > 1 ==> vs[1] <= vs[j]);
    }
  }

  lemma TakeHead(s: Session, start: uint32, vs: seq<nat>, d: nat)
    requires Draining(s, start, vs) && vs != [] && vs[0] == |s.executed| && s.pending != []
    ensures Draining(Execute(s.(pending := s.pending[1..]), s.pending[0]), start, vs[1..])
    ensures Blocked(vs, d, |s.executed|) ==> Blocked(vs[1..], d, |s.executed| + 1)
  {
    NextExpected(start, |s.executed|);
    hide Sn;
    if Blocked(vs, d, |s.executed|) {
      TakeTwice(vs, d);
    }
  }

  lemma {:induction false} DrainShape(s: Session, start: uint32, vs: seq<nat>, d: nat) returns (ws: seq<nat>)
    requires Draining(s, start, vs)
    ensures Shape(Drain(s), start, ws)
    ensures Blocked(vs, d, |s.executed|) ==> Blocked(ws, d, |Drain(s).executed|)
    decreases |s.pending|
  {
    hide Draining, Blocked;
    if s.pending != [] {
      HeadIsNext(s, start, vs);
      if vs[0] == |s.executed| {
        TakeHead(s, start, vs, d);
        ws := DrainShape(Execute(s.(pending := s.pending[1..]), s.pending[0]), start, vs[1..], d);
      } else {
        ws := vs;
      }
    } else {
      NothingPending(s, start, vs);
      ws := vs;
    }
  }

  // ----- one arrival

  /** The arrival is in the window, and less than 2^31 ahead of a stale head. */
  predicate Reaches(vs: seq<nat>, n: nat, v: nat) {
    n <= v < Base(vs, n) + HALF
  }

  lemma Comparisons(s: Session, start: uint32, vs: seq<nat>, t: Task, v: nat)
    requires Draining(s, start, vs) && Numbered(start, t, v) && Reaches(vs, |s.executed|, v)
    ensures forall i :: 0 <= i < |vs| ==> (Before(t.cmdSn, s.pending[i].cmdSn) <==> v < vs[i])
    ensures t.cmdSn == s.expCmdSn <==> v == |s.executed|
    ensures !Before(t.cmdSn, s.expCmdSn)
  {
    var n := |s.executed|;
    hide Sn, Before;
    SameSn(start, v, n);
    BeforeInWindow(start, v, n, n);
    forall i | 0 <= i < |vs|
      ensures Before(t.cmdSn, s.pending[i].cmdSn) <==> v < vs[i]
    {
      assert Base(vs, n) <= vs[0] <= vs[i];
      BeforeInWindow(start, v, vs[i], Base(vs, n));
    }
  }

  lemma InsertSorted(vs: seq<nat>, i: nat, v: nat)
    requires Sorted(vs) && i <= |vs|
    requires forall j :: 0 <= j < i ==> vs[j] <= v
    requires i < |vs| ==> v < vs[i]
    ensures Sorted(Insert(vs, i, v)) && forall d :: Twice(vs, d) ==> Twice(Insert(vs, i, v), d)
    ensures v in vs ==> Twice(Insert(vs, i, v), v)
  {
    hide Insert;
    var ws := Insert(vs, i, v);
    forall d | Twice(vs, d)
      ensures Twice(ws, d)
    {
      var x, y :| 0 <= x < y < |vs| && vs[x] == d == vs[y];
      assert ws[if x < i then x else x + 1] == d && ws[if y < i then y else y + 1] == d;
    }
    if v in vs {
      var x :| 0 <= x < |vs| && vs[x] == v;
      assert x < i;
      assert ws[x] == v && ws[i] == v;
    }
  }

  lemma SlotOf(pending: seq<Task>, vs: seq<nat>, t: Task, v: nat, i: nat)
    requires |vs| == |pending| && i <= |vs|
    requires forall j :: 0 <= j < |vs| ==> (Before(t.cmdSn, pending[j].cmdSn) <==> v < vs[j])
    requires forall j :: 0 <= j < i ==> !Before(t.cmdSn, pending[j].cmdSn)
    requires i < |pending| ==> Before(t.cmdSn, pending[i].cmdSn)
    ensures (forall j :: 0 <= j < i ==> vs[j] <= v) && (i < |vs| ==> v < vs[i])
  {
  }

  lemma Inserted(pending: seq<Task>, i: nat, t: Task)
    requires i <= |pending|
    ensures t in Insert(pending, i, t) && forall p :: p in pending ==> p in Insert(pending, i, t)
  {
    assert pending == pending[..i] + pending[i..];
  }

  lemma InsertShape(s: Session, start: uint32, vs: seq<nat>, t: Task, v: nat, i: nat)
    requires Shape(s, start, vs) && Numbered(start, t, v) && Reaches(vs, |s.executed|, v) && v > |s.executed|
    requires i <= |vs| && Sorted(Insert(vs, i, v)) && (i < |vs| ==> v < vs[i])
    ensures Shape(s.(pending := Insert(s.pending, i, t)), start, Insert(vs, i, v))
    ensures vs != [] && vs[0] < |s.executed| ==> Insert(vs, i, v)[0] == vs[0]
  {
    hide Insert, Numbered;
  }

  lemma Wait(s: Session, start: uint32, vs: seq<nat>, t: Task, v: nat, d: nat) returns (ws: seq<nat>)
    requires Shape(s, start, vs) && Numbered(start, t, v) && Reaches(vs, |s.executed|, v) && v > |s.executed|
    ensures Shape(Queue(s, t), start, ws) && Queue(s, t).executed == s.executed
    ensures Blocked(vs, d, |s.executed|) ==> Blocked(ws, d, |s.executed|)
    ensures v in vs ==> Blocked(ws, v, |s.executed|)
    ensures t in Queue(s, t).pending && forall p :: p in s.pending ==> p in Queue(s, t).pending
  {
    Comparisons(s, start, vs, t, v);
    var i := Slot(s.pending, t.cmdSn);
    ws := Insert(vs, i, v);
    hide Slot, Sn, Before;
    SlotOf(s.pending, vs, t, v, i);
    InsertSorted(vs, i, v);
    Inserted(s.pending, i, t);
    InsertShape(s, start, vs, t, v, i);
  }

  lemma ExecuteShape(s: Session, start: uint32, vs: seq<nat>, t: Task, d: nat)
    requires Shape(s, start, vs) && Reaches(vs, |s.executed|, |s.executed|)
    ensures Draining(Execute(s, t), start, vs)
    ensures Blocked(vs, d, |s.executed|) ==> Blocked(vs, d, |s.executed| + 1)
  {
    NextExpected(start, |s.executed|);
    hide Sn;
  }

  lemma Next(s: Session, start: uint32, vs: seq<nat>, t: Task, d: nat) returns (ws: seq<nat>)
    requires Shape(s, start, vs) && Numbered(start, t, |s.executed|) && Reaches(vs, |s.executed|, |s.executed|)
    ensures Shape(Queue(s, t), start, ws)
    ensures Blocked(vs, d, |s.executed|) ==> Blocked(ws, d, |Queue(s, t).executed|)
  {
    Comparisons(s, start, vs, t, |s.executed|);
    ExecuteShape(s, start, vs, t, d);
    hide Shape, Draining, Blocked;
    ws := DrainShape(Execute(s, t), start, vs, d);
  }

  /** With a stale head an arrival that is the next one executes alone, and every other one
      waits behind it. */
  lemma NextAlone(s: Session, start: uint32, vs: seq<nat>, t: Task)
    requires Shape(s, start, vs) && vs != [] && vs[0] < |s.executed|
    requires Numbered(start, t, |s.executed|) && Reaches(vs, |s.executed|, |s.executed|)
    ensures Queue(s, t) == Execute(s, t)
  {
    Comparisons(s, start, vs, t, |s.executed|);
    NextExpected(start, |s.executed|);
    SameSn(start, vs[0], |s.executed| + 1);
    hide Sn;
    assert s.pending[0].cmdSn == Sn(start, vs[0]);
  }

  // ----- every run

  /** ExpCmdSN has passed the first pending command, by at most 2^31. */
  predicate Stale(s: Session) {
    s.pending != [] && 0 < Sub(s.expCmdSn, s.pending[0].cmdSn) <= HALF
  }

  /** The arrival carries a number in the window, used before or not, and with a stale head is
      less than 2^31 ahead of it. */
  predicate Admits(s: Session, start: uint32, a: Arrival) {
    && Numbered(start, a.task, a.v) && |s.executed| <= a.v < |s.executed| + HALF
    && (Stale(s) ==> Sub(a.task.cmdSn, s.pending[0].cmdSn) < HALF)
  }

  predicate AllAdmitted(start: uint32, arrivals: seq<Arrival>) {
    arrivals != [] ==>
      var front := arrivals[..|arrivals| - 1];
      AllAdmitted(start, front) && Admits(Run(Fresh(start), front), start, arrivals[|arrivals| - 1])
  }

  lemma StaleIs(s: Session, start: uint32, vs: seq<nat>)
    requires Shape(s, start, vs)
    ensures Stale(s) <==> vs != [] && vs[0] < |s.executed|
    ensures vs != [] ==> s.pending != [] && s.pending[0].cmdSn == Sn(start, vs[0])
  {
    if vs != [] {
      if vs[0] < |s.executed| {
        SubAhead(start, |s.executed|, vs[0]);
      } else {
        SubAhead(start, vs[0], |s.executed|);
        hide Sn;
        SubIs(s.expCmdSn, s.pending[0].cmdSn);
        SubIs(s.pending[0].cmdSn, s.expCmdSn);
      }
    }
  }

  lemma AdmitsReaches(s: Session, start: uint32, vs: seq<nat>, a: Arrival)
    requires Shape(s, start, vs) && Admits(s, start, a)
    ensures Reaches(vs, |s.executed|, a.v)
  {
    StaleIs(s, start, vs);
    if Stale(s) {
      SubAhead(start, a.v, vs[0]);
    }
  }

  lemma ArrivalShape(s: Session, start: uint32, vs: seq<nat>, a: Arrival, d: nat) returns (ws: seq<nat>)
    requires Shape(s, start, vs) && Admits(s, start, a)
    ensures Shape(Queue(s, a.task), start, ws)
    ensures Blocked(vs, d, |s.executed|) ==> Blocked(ws, d, |Queue(s, a.task).executed|)
    ensures a.v > |s.executed| && a.v in vs ==> Blocked(ws, a.v, |Queue(s, a.task).executed|)
  {
    AdmitsReaches(s, start, vs, a);
    hide Shape, Blocked;
    if a.v == |s.executed| {
      ws := Next(s, start, vs, a.task, d);
    } else {
      ws := Wait(s, start, vs, a.task, a.v, d);
    }
  }

  lemma {:induction false} RunShape(start: uint32, arrivals: seq<Arrival>) returns (vs: seq<nat>)
    requires AllAdmitted(start, arrivals)
    ensures Shape(Run(Fresh(start), arrivals), start, vs)
  {
    if arrivals == [] {
      vs := [];
    } else {
      hide Shape;
      var front := arrivals[..|arrivals| - 1];
      var ws := RunShape(start, front);
      vs := ArrivalShape(Run(Fresh(start), front), start, ws, arrivals[|arrivals| - 1], 0);
    }
  }

  /** A command that is already waiting arrives again. */
  predicate Repeats(s: Session, a: Arrival) {
    exists p :: p in s.pending && p.cmdSn == a.task.cmdSn
  }

  lemma RepeatBlocks(s: Session, start: uint32, vs: seq<nat>, a: Arrival) returns (ws: seq<nat>)
    requires Shape(s, start, vs) && Admits(s, start, a) && Repeats(s, a)
    ensures Shape(Queue(s, a.task), start, ws) && Blocked(ws, a.v, |Queue(s, a.task).executed|)
  {
    var n := |s.executed|;
    AdmitsReaches(s, start, vs, a);
    var p :| p in s.pending && p.cmdSn == a.task.cmdSn;
    var i :| 0 <= i < |vs| && s.pending[i] == p;
    SameSn(start, vs[i], a.v);
    hide Sn;
    assert vs[0] <= vs[i] == a.v && vs[i] in vs;
    ws := ArrivalShape(s, start, vs, a, a.v);
  }

  lemma {:induction false} StaysBlocked(start: uint32, front: seq<Arrival>, b: Arrival, rest: seq<Arrival>)
    returns (vs: seq<nat>)
    requires AllAdmitted(start, front + [b] + rest) && Repeats(Run(Fresh(start), front), b)
    ensures var s := Run(Fresh(start), front + [b] + rest);
            Shape(s, start, vs) && Blocked(vs, b.v, |s.executed|)
    decreases |rest|
  {
    hide Shape, Blocked, Repeats, Admits;
    if rest == [] {
      assert front + [b] + [] == front + [b] && (front + [b])[..|front|] == front;
      vs := RunShape(start, front);
      vs := RepeatBlocks(Run(Fresh(start), front), start, vs, b);
    } else {
      var all, last := front + [b] + rest, rest[|rest| - 1];
      assert all[..|all| - 1] == front + [b] + rest[..|rest| - 1] && all[|all| - 1] == last;
      vs := StaysBlocked(start, front, b, rest[..|rest| - 1]);
      vs := ArrivalShape(Run(Fresh(start), all[..|all| - 1]), start, vs, last, b.v);
    }
  }

  /** In every run: once a command that waits has arrived a second time and ExpCmdSN has passed
      its number, the head of the list is stale. From then on the next command executes
      when it arrives and no other does: no command that waits ever leaves the list. */
  lemma DuplicateBlocks(start: uint32, front: seq<Arrival>, b: Arrival, rest: seq<Arrival>, a: Arrival)
    requires AllAdmitted(start, front + [b] + rest) && Repeats(Run(Fresh(start), front), b)
    requires var s := Run(Fresh(start), front + [b] + rest);
             |s.executed| > b.v && Admits(s, start, a)
    ensures var s := Run(Fresh(start), front + [b] + rest);
            && Stale(s)
            && Queue(s, a.task).executed == s.executed + (if a.task.cmdSn == s.expCmdSn then [a.task] else [])
            && (a.task.cmdSn != s.expCmdSn ==> a.task in Queue(s, a.task).pending)
            && forall p :: p in s.pending ==> p in Queue(s, a.task).pending
  {
    hide Run, Repeats, AllAdmitted;
    var s := Run(Fresh(start), front + [b] + rest);
    var vs := StaysBlocked(start, front, b, rest);
    StaleIs(s, start, vs);
    AdmitsReaches(s, start, vs, a);
    SameSn(start, a.v, |s.executed|);
    hide Stale, Admits, Sn;
    if a.v == |s.executed| {
      NextAlone(s, start, vs, a.task);
    } else {
      var ws := Wait(s, start, vs, a.task, a.v, b.v);
    }
  }
}
