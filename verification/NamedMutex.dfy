/** The pool of named mutexes. Each critical section under the global lock is one step, taking
    the mutex itself another, and the steps of the calls interleave in any way. */
module NamedMutex {
  import opened Sets
  import opened Wrappers

  /** A lock call that is not unlocked yet: it uses a mutex and may hold it. */
  datatype Call = Call(name: string, mutex: nat, holds: bool)

  datatype Mutex = Mutex(count: int, key: string, owner: Option<nat>)

  datatype State = State(
    hash: map<string, nat>,
    free: seq<nat>,
    mutexes: seq<Mutex>,
    calls: map<nat, Call>)

  const Empty := State(map[], [], [], map[])

  datatype Event = Enter(id: nat, name: string) | Acquire(id: nat) | Unlock(id: nat)

  predicate Possible(s: State, e: Event) {
    match e
    case Enter(id, _) => id !in s.calls
    case Acquire(id) =>
      && id in s.calls && !s.calls[id].holds && s.calls[id].mutex < |s.mutexes|
      && s.mutexes[s.calls[id].mutex].owner == None
    case Unlock(id) => id in s.calls && s.calls[id].holds
  }

  /** The mutex a lock call for this name gets: the live one, else a free one, else a new one. */
  function Chosen(s: State, name: string): nat {
    if name in s.hash then s.hash[name] else if s.free != [] then s.free[0] else |s.mutexes|
  }

  function Entered(s: State, id: nat, name: string): State {
    var m := Chosen(s, name);
    var call := s.calls[id := Call(name, m, false)];
    if name in s.hash then
      if m < |s.mutexes| then
        s.(mutexes := s.mutexes[m := s.mutexes[m].(count := s.mutexes[m].count + 1)], calls := call)
      else s
    else if s.free != [] then
      if m < |s.mutexes| then
        State(s.hash[name := m], s.free[1..], s.mutexes[m := s.mutexes[m].(count := 1, key := name)], call)
      else s
    else
      State(s.hash[name := m], s.free, s.mutexes + [Mutex(1, name, None)], call)
  }

  function Acquired(s: State, id: nat): State
    requires Possible(s, Acquire(id))
  {
    var m := s.calls[id].mutex;
    s.(mutexes := s.mutexes[m := s.mutexes[m].(owner := Some(id))], calls := s.calls[id := s.calls[id].(holds := true)])
  }

  function Unlocked(s: State, id: nat): State
    requires Possible(s, Unlock(id))
  {
    var name := s.calls[id].name;
    if name in s.hash && s.hash[name] < |s.mutexes| then
      var m := s.hash[name];
      var count := s.mutexes[m].count - 1;
      State(if count == 0 then s.hash - {name} else s.hash,
            if count == 0 then s.free + [m] else s.free,
            s.mutexes[m := s.mutexes[m].(count := count, owner := None)],
            s.calls - {id})
    else s
  }

  function Apply(s: State, e: Event): State
    requires Possible(s, e)
  {
    match e
    case Enter(id, name) => Entered(s, id, name)
    case Acquire(id) => Acquired(s, id)
    case Unlock(id) => Unlocked(s, id)
  }

  // ----- the invariant

  /** The calls that hold a mutex or wait for it. */
  function Users(s: State, m: nat): set<nat> {
    set id | id in s.calls && s.calls[id].mutex == m
  }

  ghost predicate Named(s: State) {
    && (forall name :: name in s.hash ==> s.hash[name] < |s.mutexes| && s.mutexes[s.hash[name]].key == name)
    && (forall id :: id in s.calls ==> s.calls[id].name in s.hash && s.hash[s.calls[id].name] == s.calls[id].mutex)
  }

  ghost predicate Counted(s: State) {
    && (forall m :: 0 <= m < |s.mutexes| ==> s.mutexes[m].count == |Users(s, m)|)
    && (forall name :: name in s.hash && s.hash[name] < |s.mutexes| ==> s.mutexes[s.hash[name]].count > 0)
  }

  ghost predicate Owned(s: State) {
    forall id, m :: 0 <= m < |s.mutexes| ==>
      (s.mutexes[m].owner == Some(id) <==> id in s.calls && s.calls[id].holds && s.calls[id].mutex == m)
  }

  ghost predicate Pooled(s: State) {
    && (forall i :: 0 <= i < |s.free| ==> s.free[i] < |s.mutexes| && s.mutexes[s.free[i]].count == 0)
    && (forall i, j :: 0 <= i < j < |s.free| ==> s.free[i] != s.free[j])
    && (forall m :: 0 <= m < |s.mutexes| && s.mutexes[m].count == 0 ==> m in s.free)
  }

  ghost predicate Inv(s: State) {
    Named(s) && Counted(s) && Owned(s) && Pooled(s)
  }

  lemma EmptyInv()
    ensures Inv(Empty)
  {
  }

  // ----- a lock call enters

  lemma UsersBut(s: State, t: State, id: nat, m: nat)
    requires forall k :: k != id ==>
      (k in s.calls <==> k in t.calls) && (k in s.calls ==> s.calls[k].mutex == t.calls[k].mutex)
    ensures Users(t, m) == (Users(s, m) - {id}) + if id in t.calls && t.calls[id].mutex == m then {id} else {}
  {
  }

  lemma EnteredUsers(s: State, id: nat, name: string, m: nat)
    requires id !in s.calls && Named(s) && Pooled(s)
    ensures |Users(Entered(s, id, name), m)| == |Users(s, m)| + if m == Chosen(s, name) then 1 else 0
  {
    UsersBut(s, Entered(s, id, name), id, m);
    assert id !in Users(s, m);
  }

  /** A mutex from the free list, or a new one, is used by no call and live under no name. */
  lemma ChosenUnused(s: State, name: string)
    requires Inv(s) && name !in s.hash
    ensures var m := Chosen(s, name);
            && m <= |s.mutexes| && (m == |s.mutexes| <==> s.free == [])
            && (m < |s.mutexes| ==> s.mutexes[m].owner == None && s.mutexes[m].count == 0)
            && |Users(s, m)| == 0
            && (forall n :: n in s.hash ==> s.hash[n] != m)
            && (forall k :: k in s.calls ==> s.calls[k].mutex != m)
  {
    var m := Chosen(s, name);
    assert forall k :: k in s.calls && s.calls[k].mutex == m ==> k in Users(s, m);
    if s.free == [] {
      assert Users(s, m) == {};
    } else {
      assert s.mutexes[m].count == 0;
      assert Users(s, m) == {};
    }
  }

  lemma Parts(s: State)
    requires Inv(s)
    ensures Named(s) && Counted(s) && Owned(s) && Pooled(s)
  {
  }

  lemma EnterNamed(s: State, id: nat, name: string)
    requires Inv(s) && id !in s.calls
    ensures Named(Entered(s, id, name))
  {
    hide Counted, Owned, Pooled, Inv;
    assert Named(s) && Pooled(s) by { Parts(s); }
    if name !in s.hash {
      ChosenUnused(s, name);
    }
  }

  lemma EnterCounted(s: State, id: nat, name: string)
    requires Inv(s) && id !in s.calls
    ensures Counted(Entered(s, id, name))
  {
    hide Users;
    var t := Entered(s, id, name);
    if name !in s.hash {
      ChosenUnused(s, name);
    }
    forall m | 0 <= m < |t.mutexes|
      ensures t.mutexes[m].count == |Users(t, m)|
    {
      EnteredUsers(s, id, name, m);
    }
  }

  lemma EnterOwned(s: State, id: nat, name: string)
    requires Inv(s) && id !in s.calls
    ensures Owned(Entered(s, id, name))
  {
    hide Counted, Pooled;
    if name !in s.hash {
      ChosenUnused(s, name);
    }
  }

  lemma EnterPooled(s: State, id: nat, name: string)
    requires Inv(s) && id !in s.calls
    ensures Pooled(Entered(s, id, name))
  {
    hide Owned, Users;
    var t := Entered(s, id, name);
    if name !in s.hash {
      ChosenUnused(s, name);
      if s.free != [] {
        assert forall i :: 0 <= i < |t.free| ==> t.free[i] == s.free[i + 1];
        forall m | 0 <= m < |t.mutexes| && t.mutexes[m].count == 0
          ensures m in t.free
        {
          assert m in s.free && m != s.free[0];
          var i :| 0 <= i < |s.free| && s.free[i] == m;
          assert t.free[i - 1] == m;
        }
      }
    }
  }

  lemma EnterKeeps(s: State, id: nat, name: string)
    requires Inv(s) && id !in s.calls
    ensures Inv(Entered(s, id, name))
  {
    EnterNamed(s, id, name);
    EnterCounted(s, id, name);
    EnterOwned(s, id, name);
    EnterPooled(s, id, name);
    hide Named, Counted, Owned, Pooled;
  }

  // ----- a call takes its mutex

  lemma AcquireOthers(s: State, id: nat)
    requires Named(s) && Pooled(s) && Possible(s, Acquire(id))
    ensures Named(Acquired(s, id)) && Pooled(Acquired(s, id))
  {
  }

  lemma UsersOf(s: State, id: nat, m: nat)
    ensures id in Users(s, m) <==> id in s.calls && s.calls[id].mutex == m
  {
  }

  lemma AcquireCounted(s: State, id: nat)
    requires Counted(s) && Possible(s, Acquire(id))
    ensures Counted(Acquired(s, id))
  {
    hide Users;
    var t := Acquired(s, id);
    forall m: nat
      ensures Users(t, m) == Users(s, m)
    {
      UsersBut(s, t, id, m);
      UsersOf(s, id, m);
    }
  }

  lemma AcquireOwned(s: State, id: nat)
    requires Owned(s) && Possible(s, Acquire(id))
    ensures Owned(Acquired(s, id))
  {
  }

  lemma AcquireKeeps(s: State, id: nat)
    requires Inv(s) && Possible(s, Acquire(id))
    ensures Inv(Acquired(s, id))
  {
    AcquireCounted(s, id);
    AcquireOwned(s, id);
    AcquireOthers(s, id);
    hide Users, Counted, Owned, Named, Pooled;
  }

  // ----- a call unlocks

  lemma UnlockedUsers(s: State, id: nat, m: nat)
    requires Named(s) && Possible(s, Unlock(id))
    ensures |Users(Unlocked(s, id), m)| == |Users(s, m)| - if m == s.calls[id].mutex then 1 else 0
  {
    UsersBut(s, Unlocked(s, id), id, m);
    UsersOf(s, id, m);
  }

  lemma UnlockNamed(s: State, id: nat)
    requires Named(s) && Counted(s) && Possible(s, Unlock(id))
    ensures Named(Unlocked(s, id))
  {
    hide Users;
    var t := Unlocked(s, id);
    var m := s.calls[id].mutex;
    if t.mutexes[m].count == 0 {
      forall k | k in t.calls
        ensures t.calls[k].name != s.calls[id].name
      {
        if t.calls[k].name == s.calls[id].name {
          UsersOf(s, k, m);
          UsersOf(s, id, m);
          assert {k, id} <= Users(s, m);
          assert |{k, id}| == 2;
          SubsetSize({k, id}, Users(s, m));
        }
      }
    }
  }

  lemma UnlockCounted(s: State, id: nat)
    requires Named(s) && Counted(s) && Possible(s, Unlock(id))
    ensures Counted(Unlocked(s, id))
  {
    hide Users;
    var t := Unlocked(s, id);
    var m := s.calls[id].mutex;
    forall k | 0 <= k < |t.mutexes|
      ensures t.mutexes[k].count == |Users(t, k)|
    {
      UnlockedUsers(s, id, k);
    }
    forall name | name in t.hash && t.hash[name] < |t.mutexes|
      ensures t.mutexes[t.hash[name]].count > 0
    {
      assert name in s.hash && s.hash[name] == t.hash[name];
      if t.hash[name] == m {
        assert name == s.calls[id].name;
      }
    }
  }

  lemma UnlockOwned(s: State, id: nat)
    requires Named(s) && Owned(s) && Possible(s, Unlock(id))
    ensures Owned(Unlocked(s, id))
  {
    var t := Unlocked(s, id);
    assert s.mutexes[s.calls[id].mutex].owner == Some(id);
  }

  lemma UnlockPooled(s: State, id: nat)
    requires Named(s) && Counted(s) && Pooled(s) && Possible(s, Unlock(id))
    ensures Pooled(Unlocked(s, id))
  {
    hide Users;
    var t := Unlocked(s, id);
    var m := s.calls[id].mutex;
    assert s.mutexes[m].count > 0;
    assert forall i :: 0 <= i < |s.free| ==> t.free[i] == s.free[i] && s.free[i] != m;
    forall k | 0 <= k < |t.mutexes| && t.mutexes[k].count == 0
      ensures k in t.free
    {
      if k == m {
        assert t.free[|s.free|] == m;
      } else {
        assert k in s.free;
      }
    }
  }

  lemma UnlockKeeps(s: State, id: nat)
    requires Inv(s) && Possible(s, Unlock(id))
    ensures Inv(Unlocked(s, id))
  {
    UnlockNamed(s, id);
    UnlockCounted(s, id);
    UnlockOwned(s, id);
    UnlockPooled(s, id);
    hide Named, Counted, Owned, Pooled;
  }

  lemma ApplyKeeps(s: State, e: Event)
    requires Inv(s) && Possible(s, e)
    ensures Inv(Apply(s, e))
  {
    hide Inv;
    match e
    case Enter(id, name) => EnterKeeps(s, id, name);
    case Acquire(id) => AcquireKeeps(s, id);
    case Unlock(id) => UnlockKeeps(s, id);
  }

  // ----- every interleaving

  predicate Leads(s: State, events: seq<Event>, t: State)
    decreases |events|
  {
    if events == [] then s == t
    else Possible(s, events[0]) && Leads(Apply(s, events[0]), events[1..], t)
  }

  lemma {:induction false} RunKeeps(s: State, events: seq<Event>, t: State)
    requires Inv(s) && Leads(s, events, t)
    ensures Inv(t)
    decreases |events|
  {
    hide Inv, Apply;
    if events != [] {
      ApplyKeeps(s, events[0]);
      RunKeeps(Apply(s, events[0]), events[1..], t);
    }
  }

  ghost predicate Reachable(s: State) {
    exists events :: Leads(Empty, events, s)
  }

  lemma ReachableInv(s: State)
    requires Reachable(s)
    ensures Inv(s)
  {
    hide Inv, Leads;
    var events :| Leads(Empty, events, s);
    EmptyInv();
    RunKeeps(Empty, events, s);
  }

  /** Two calls for one name never hold its mutex together, and calls for different names
      never wait for each other. */
  lemma MutualExclusion(s: State, a: nat, b: nat)
    requires Reachable(s) && a in s.calls && b in s.calls && a != b
    ensures s.calls[a].name == s.calls[b].name <==> s.calls[a].mutex == s.calls[b].mutex
    ensures s.calls[a].holds && s.calls[b].holds ==> s.calls[a].name != s.calls[b].name
  {
    hide Reachable, Counted, Pooled;
    ReachableInv(s);
  }

  lemma OnceIn(xs: seq<nat>, x: nat)
    requires forall i, j :: 0 <= i < j < |xs| ==> xs[i] != xs[j]
    ensures multiset(xs)[x] <= 1
  {
    if i :| 0 <= i < |xs| && xs[i] == x {
      assert xs == xs[..i] + [x] + xs[i + 1..];
      assert x !in xs[..i] && x !in xs[i + 1..];
    }
  }

  /** An entry's count is its holder and its waiters; a mutex is on the free list, once,
      exactly if it has none, and then it is unlocked and live under no name. */
  lemma FreeIffIdle(s: State, m: nat)
    requires Reachable(s) && m < |s.mutexes|
    ensures s.mutexes[m].count == |Users(s, m)|
    ensures m in s.free <==> Users(s, m) == {}
    ensures m in s.free ==> s.mutexes[m].owner == None && forall name :: name in s.hash ==> s.hash[name] != m
    ensures multiset(s.free)[m] <= 1
  {
    hide Reachable;
    ReachableInv(s);
    if m in s.free {
      if s.mutexes[m].owner != None {
        UsersOf(s, s.mutexes[m].owner.value, m);
      }
    }
    OnceIn(s.free, m);
  }

  /** No unlock is lost: a call that waits can take its mutex or another call for its name
      holds it; and when all calls are over nothing is live and every mutex is free. */
  lemma NoLostLock(s: State)
    requires Reachable(s)
    ensures forall id :: id in s.calls && !s.calls[id].holds ==>
              Possible(s, Acquire(id))
              || exists k :: k in s.calls && k != id && s.calls[k].holds && s.calls[k].name == s.calls[id].name
    ensures s.calls == map[] ==> s.hash == map[] && forall m :: 0 <= m < |s.mutexes| ==> m in s.free
  {
    hide Reachable;
    ReachableInv(s);
    forall id | id in s.calls && !s.calls[id].holds && !Possible(s, Acquire(id))
      ensures exists k :: k in s.calls && k != id && s.calls[k].holds && s.calls[k].name == s.calls[id].name
    {
      var m := s.calls[id].mutex;
      var k := s.mutexes[m].owner.value;
      assert s.mutexes[m].owner == Some(k);
      assert s.mutexes[m].key == s.calls[k].name;
    }
    if s.calls == map[] {
      forall m | 0 <= m < |s.mutexes|
        ensures s.mutexes[m].count == 0
      {
        assert Users(s, m) == {};
      }
    }
  }

  /** Every mutex that was made is live or on the free list. */
  predicate Full(s: State) {
    |s.hash| + |s.free| == |s.mutexes|
  }

  function Max(a: nat, b: nat): nat {
    if a < b then b else a
  }

  /** The most names that are live at one time in the run. */
  function Peak(s: State, events: seq<Event>): nat
    decreases |events|
  {
    if events == [] || !Possible(s, events[0]) then |s.hash|
    else Max(|s.hash|, Peak(Apply(s, events[0]), events[1..]))
  }

  lemma NamedMore(hash: map<string, nat>, name: string, m: nat)
    requires name !in hash
    ensures |hash[name := m]| == |hash| + 1
  {
    assert hash[name := m] - {name} == hash;
  }

  lemma NamedLess(hash: map<string, nat>, name: string)
    requires name in hash
    ensures |hash - {name}| == |hash| - 1
  {
    assert (hash - {name})[name := hash[name]] == hash;
    NamedMore(hash - {name}, name, hash[name]);
  }

  lemma InRange(s: State)
    requires Inv(s)
    ensures s.free != [] ==> s.free[0] < |s.mutexes|
    ensures forall name :: name in s.hash ==> s.hash[name] < |s.mutexes|
  {
  }

  lemma EnterFull(s: State, id: nat, name: string)
    requires Inv(s) && Full(s) && id !in s.calls
    ensures var t := Entered(s, id, name);
            Full(t) && |t.mutexes| == Max(|s.mutexes|, |t.hash|)
  {
    hide Users, Counted, Owned, Pooled;
    if name !in s.hash {
      assert s.free != [] ==> s.free[0] < |s.mutexes| by { InRange(s); }
      NamedMore(s.hash, name, Chosen(s, name));
    }
    hide Inv;
  }

  lemma UnlockFull(s: State, id: nat)
    requires Inv(s) && Full(s) && Possible(s, Unlock(id))
    ensures var t := Unlocked(s, id);
            Full(t) && |t.mutexes| == |s.mutexes| == Max(|s.mutexes|, |t.hash|)
  {
    hide Users, Counted, Owned, Pooled;
    assert s.calls[id].name in s.hash;
    hide Inv;
    NamedLess(s.hash, s.calls[id].name);
  }

  /** A mutex is made only for a name that is not live when there is none to reuse. */
  lemma StepFull(s: State, e: Event)
    requires Inv(s) && Full(s) && Possible(s, e)
    ensures Full(Apply(s, e)) && |Apply(s, e).mutexes| == Max(|s.mutexes|, |Apply(s, e).hash|)
  {
    hide Inv, Entered, Unlocked;
    match e
    case Enter(id, name) => EnterFull(s, id, name);
    case Acquire(id) =>
    case Unlock(id) => UnlockFull(s, id);
  }

  lemma {:induction false} RunFull(s: State, events: seq<Event>, t: State)
    requires Inv(s) && Full(s) && Leads(s, events, t)
    ensures |t.mutexes| == Max(|s.mutexes|, Peak(s, events))
    decreases |events|
  {
    hide Inv, Apply, Possible;
    if events != [] {
      ApplyKeeps(s, events[0]);
      StepFull(s, events[0]);
      RunFull(Apply(s, events[0]), events[1..], t);
    }
  }

  /** Mutexes are reused: in every run there are as many as there were live names at the time
      when there were the most. */
  lemma PoolIsPeak(events: seq<Event>, s: State)
    requires Leads(Empty, events, s)
    ensures |s.mutexes| == Peak(Empty, events)
  {
    hide Inv, Leads, Apply, Possible;
    EmptyInv();
    RunFull(Empty, events, s);
  }

  lemma QueueOrder(free: seq<nat>, now: seq<nat>, i: nat, j: nat)
    requires i < j < |free| && (now == free || now == free[1..] || exists m :: now == free + [m])
    requires forall x, y :: 0 <= x < y < |free| ==> free[x] != free[y]
    ensures exists y :: 0 <= y < |now| && now[y] == free[j]
                        && (free[i] in now ==> exists x :: 0 <= x < y && now[x] == free[i])
    ensures forall k :: 0 <= k < |now| && now[k] !in free ==> k == |now| - 1
  {
    if now == free[1..] {
      assert now[j - 1] == free[j];
      assert i > 0 ==> now[i - 1] == free[i];
    } else {
      assert now[j] == free[j] && now[i] == free[i];
    }
  }

  /** The free list is a queue: what is freed goes behind all that is free, and of two free
      mutexes the one in front is taken first. */
  lemma FirstFreedFirstUsed(s: State, e: Event, i: nat, j: nat)
    requires Inv(s) && Possible(s, e) && i < j < |s.free|
    ensures var t := Apply(s, e);
            && (exists y :: 0 <= y < |t.free| && t.free[y] == s.free[j]
                            && (s.free[i] in t.free ==> exists x :: 0 <= x < y && t.free[x] == s.free[i]))
            && forall k :: 0 <= k < |t.free| && t.free[k] !in s.free ==> k == |t.free| - 1
  {
    hide Users, Counted, Owned, Named;
    QueueOrder(s.free, Apply(s, e).free, i, j);
  }

  // ----- the code

  lemma EnteredLiveIs(s: State, id: nat, name: string, t: State)
    requires name in s.hash && s.hash[name] < |s.mutexes|
    requires var m := s.hash[name];
             && t.hash == s.hash && t.free == s.free
             && t.mutexes == s.mutexes[m := s.mutexes[m].(count := s.mutexes[m].count + 1)]
             && t.calls == s.calls[id := Call(name, m, false)]
    ensures t == Entered(s, id, name)
  {
  }

  lemma EnteredNewIs(s: State, id: nat, name: string, m: nat, t: State)
    requires name !in s.hash && (s.free != [] ==> s.free[0] < |s.mutexes|)
    requires t.hash == s.hash[name := m] && t.calls == s.calls[id := Call(name, m, false)]
    requires if s.free != [] then m == s.free[0] && t.free == s.free[1..]
                                  && t.mutexes == s.mutexes[m := s.mutexes[m].(count := 1, key := name)]
             else m == |s.mutexes| && t.free == [] && t.mutexes == s.mutexes + [Mutex(1, name, None)]
    ensures t == Entered(s, id, name)
  {
  }

  lemma AcquiredIs(s: State, id: nat, t: State)
    requires Possible(s, Acquire(id))
    requires var m := s.calls[id].mutex;
             && t.hash == s.hash && t.free == s.free
             && t.mutexes == s.mutexes[m := s.mutexes[m].(owner := Some(id))]
             && t.calls == s.calls[id := s.calls[id].(holds := true)]
    ensures t == Acquired(s, id)
  {
  }

  lemma UnlockedIs(s: State, id: nat, t: State)
    requires Possible(s, Unlock(id)) && s.calls[id].name in s.hash && s.hash[s.calls[id].name] < |s.mutexes|
    requires var name := s.calls[id].name;
             var m := s.hash[name];
             var count := s.mutexes[m].count - 1;
             && t.hash == (if count == 0 then s.hash - {name} else s.hash)
             && t.free == (if count == 0 then s.free + [m] else s.free)
             && t.mutexes == s.mutexes[m := s.mutexes[m].(count := count, owner := None)]
             && t.calls == s.calls - {id}
    ensures t == Unlocked(s, id)
  {
  }

  class Pool {
    var hash: map<string, nat>
    var free: seq<nat>
    var mutexes: seq<Mutex>
    ghost var calls: map<nat, Call>

    ghost function View(): State
      reads this
    {
      State(hash, free, mutexes, calls)
    }

    constructor ()
      ensures View() == Empty
    {
      hash, free, mutexes, calls := map[], [], [], map[];
    }

    method EnterLive(ghost id: nat, name: string) returns (m: nat)
      requires name in hash && hash[name] < |mutexes|
      modifies `mutexes, `calls
      ensures View() == Entered(old(View()), id, name) && m == hash[name] && calls[id] == Call(name, m, false)
    {
      hide Entered;
      ghost var s := View();
      m := hash[name];
      mutexes := mutexes[m := mutexes[m].(count := mutexes[m].count + 1)];
      calls := calls[id := Call(name, m, false)];
      EnteredLiveIs(s, id, name, View());
    }

    /** A name that is not live gets the first mutex of the free list, or a new one, with the
        count of one user. */
    method Register(name: string) returns (m: nat)
      requires free != [] ==> free[0] < |mutexes|
      modifies `hash, `free, `mutexes
      ensures hash == old(hash)[name := m]
      ensures if old(free) != []
              then m == old(free[0]) && free == old(free[1..])
                   && mutexes == old(mutexes)[m := old(mutexes[free[0]]).(count := 1, key := name)]
              else m == |old(mutexes)| && free == [] && mutexes == old(mutexes) + [Mutex(1, name, None)]
    {
      if free != [] {
        m := free[0];
        free := free[1..];
        mutexes := mutexes[m := mutexes[m].(count := 1, key := name)];
      } else {
        m := |mutexes|;
        mutexes := mutexes + [Mutex(1, name, None)];
      }
      hash := hash[name := m];
    }

    method EnterNew(ghost id: nat, name: string) returns (m: nat)
      requires name !in hash && (free != [] ==> free[0] < |mutexes|)
      modifies this
      ensures View() == Entered(old(View()), id, name) && m < |mutexes| && calls[id] == Call(name, m, false)
    {
      hide Entered;
      ghost var s := View();
      m := Register(name);
      calls := calls[id := Call(name, m, false)];
      EnteredNewIs(s, id, name, m, View());
    }

    /** css_mutex_lock under the global lock. */
    method LockEnter(ghost id: nat, name: string) returns (m: nat)
      requires Inv(View()) && id !in calls
      modifies this
      ensures View() == Apply(old(View()), Enter(id, name)) && Inv(View())
      ensures m < |mutexes| && calls[id] == Call(name, m, false)
    {
      EnterKeeps(View(), id, name);
      InRange(View());
      hide Inv, Entered;
      if name in hash {
        m := EnterLive(id, name);
      } else {
        m := EnterNew(id, name);
      }
    }

    /** css_mutex_lock after it: the mutex that was found is taken. */
    method LockAcquire(id: nat, m: nat)
      requires Inv(View()) && Possible(View(), Acquire(id)) && calls[id].mutex == m
      modifies this
      ensures View() == Apply(old(View()), Acquire(id)) && Inv(View())
    {
      hide Inv, Acquired;
      ghost var s := View();
      AcquireKeeps(s, id);
      mutexes := mutexes[m := mutexes[m].(owner := Some(id))];
      calls := calls[id := calls[id].(holds := true)];
      AcquiredIs(s, id, View());
    }

    method Retire(name: string, m: nat)
      modifies `hash, `free
      ensures hash == old(hash) - {name} && free == old(free) + [m]
    {
      hash := hash - {name};
      free := free + [m];
    }

    method UnlockLive(ghost id: nat, name: string)
      requires Inv(View()) && name in hash && Possible(View(), Unlock(id)) && calls[id].name == name
      modifies this
      ensures View() == Unlocked(old(View()), id) && Inv(View())
    {
      hide Inv, Unlocked;
      ghost var s := View();
      UnlockKeeps(s, id);
      InRange(s);
      var m := hash[name];
      var count := mutexes[m].count - 1;
      mutexes := mutexes[m := mutexes[m].(count := count, owner := None)];
      if count == 0 {
        Retire(name, m);
      }
      calls := calls - {id};
      UnlockedIs(s, id, View());
    }

    /** css_mutex_unlock; a name that is not live is refused. */
    method MutexUnlock(ghost id: nat, name: string) returns (ret: int)
      requires Inv(View())
      requires name in hash ==> Possible(View(), Unlock(id)) && calls[id].name == name
      modifies this
      ensures old(name in hash) ==> ret == 0 && View() == Apply(old(View()), Unlock(id)) && Inv(View())
      ensures old(name !in hash) ==> ret == -1 && View() == old(View())
    {
      hide Inv, Possible, Unlocked;
      if name !in hash {
        return -1;
      }
      UnlockLive(id, name);
      return 0;
    }
  }
}
