/** Persistent reservations (SPC-3 section 5.6): registrations, the holder, and what each
    service action of PERSISTENT RESERVE OUT does to them. */
module Reservations {
  import opened Wrappers

  const WRITE_EXCLUSIVE := 0x01
  const EXCLUSIVE_ACCESS := 0x03
  const WRITE_EXCLUSIVE_REGONLY := 0x05
  const EXCLUSIVE_ACCESS_REGONLY := 0x06
  const WRITE_EXCLUSIVE_ALLREG := 0x07
  const EXCLUSIVE_ACCESS_ALLREG := 0x08
  const LU_SCOPE := 0

  type uint64 = x: int | 0 <= x < 0x1_0000_0000_0000_0000
  type uint32 = x: int | 0 <= x < 0x1_0000_0000
  type nibble = x: int | 0 <= x < 16

  datatype Nexus = Nexus(itnId: nat, ctime: int)

  predicate AllRegistrants(prType: nibble) {
    prType == WRITE_EXCLUSIVE_ALLREG || prType == EXCLUSIVE_ACCESS_ALLREG
  }

  datatype Reg = Reg(nexus: Nexus, key: uint64, scope: nibble, prType: nibble)

  /** holder names the nexus of the registration the holder pointer refers to. */
  datatype PrState = PrState(regs: seq<Reg>, holder: Option<Nexus>, generation: uint32)

  datatype Status = Good | Conflict | Check

  /** The service actions; ok is the outcome of the parameter checks they all start with. */
  datatype Op =
    | Register(ok: bool, nexus: Nexus, force: bool, key: uint64, saKey: uint64)
    | Reserve(ok: bool, nexus: Nexus, scope: nibble, prType: nibble)
    | Release(ok: bool, nexus: Nexus, key: uint64, scope: nibble, prType: nibble)
    | Clear(ok: bool, nexus: Nexus, key: uint64)
    | Preempt(ok: bool, nexus: Nexus, key: uint64, saKey: uint64, scope: nibble, prType: nibble)

  function Find(regs: seq<Reg>, nexus: Nexus): (i: nat)
    ensures i <= |regs|
    ensures i < |regs| ==> regs[i].nexus == nexus
    ensures forall j :: 0 <= j < i ==> regs[j].nexus != nexus
  {
    if regs == [] || regs[0].nexus == nexus then 0 else 1 + Find(regs[1..], nexus)
  }

  predicate Registered(s: PrState, nexus: Nexus) {
    Find(s.regs, nexus) < |s.regs|
  }

  function RegOf(s: PrState, nexus: Nexus): Reg
    requires Registered(s, nexus)
  {
    s.regs[Find(s.regs, nexus)]
  }

  /** The holder pointer refers to a live registration. */
  predicate HasHolder(s: PrState) {
    s.holder.Some? && Registered(s, s.holder.value)
  }

  function Holder(s: PrState): Reg
    requires HasHolder(s)
  {
    RegOf(s, s.holder.value)
  }

  predicate IsHolder(s: PrState, nexus: Nexus)
    requires HasHolder(s)
  {
    AllRegistrants(Holder(s).prType) || s.holder.value == nexus
  }

  function Remove(regs: seq<Reg>, i: nat): seq<Reg>
    requires i < |regs|
  {
    regs[..i] + regs[i + 1..]
  }

  function Mark(regs: seq<Reg>, nexus: Nexus, scope: nibble, prType: nibble): (r: seq<Reg>)
    ensures |r| == |regs|
  {
    var i := Find(regs, nexus);
    if i < |regs| then regs[i := regs[i].(scope := scope, prType := prType)] else regs
  }

  /** The registrations PREEMPT leaves: its sender, and all that it does not name. */
  function Survivors(regs: seq<Reg>, me: Nexus, saKey: uint64, all: bool): (r: seq<Reg>)
    ensures forall x :: x in r <==> x in regs && (x.nexus == me || (x.key != saKey && !all))
    ensures |r| <= |regs|
  {
    if regs == [] then []
    else if regs[0].nexus != me && (regs[0].key == saKey || all) then Survivors(regs[1..], me, saKey, all)
    else [regs[0]] + Survivors(regs[1..], me, saKey, all)
  }

  function Next(generation: uint32): uint32 {
    (generation + 1) % 0x1_0000_0000
  }

  /** __unregister_and_clean */
  function Unregister(s: PrState, nexus: Nexus): PrState
    requires Registered(s, nexus)
  {
    var regs := Remove(s.regs, Find(s.regs, nexus));
    if !HasHolder(s) || !IsHolder(s, nexus) then s.(regs := regs)
    else
      var h := Holder(s);
      if !AllRegistrants(h.prType) || regs == [] then
        PrState(regs, None, Next(s.generation))
      else
        s.(regs := regs[0 := regs[0].(scope := h.scope, prType := h.prType)], holder := Some(regs[0].nexus))
  }

  function DoRegister(s: PrState, op: Op): (PrState, Status)
    requires op.Register?
  {
    if !op.ok then (s, Check)
    else if Registered(s, op.nexus) then
      var i := Find(s.regs, op.nexus);
      if !op.force && s.regs[i].key != op.key then (s, Conflict)
      else
        var s' := if op.saKey != 0 then s.(regs := s.regs[i := s.regs[i].(key := op.saKey)])
                  else Unregister(s, op.nexus);
        (s'.(generation := Next(s'.generation)), Good)
    else if !op.force && op.key != 0 then (s, Conflict)
    else
      var regs := if op.saKey != 0 then s.regs + [Reg(op.nexus, op.saKey, 0, 0)] else s.regs;
      (s.(regs := regs, generation := Next(s.generation)), Good)
  }

  predicate KnownType(prType: nibble) {
    prType in {WRITE_EXCLUSIVE, EXCLUSIVE_ACCESS, WRITE_EXCLUSIVE_REGONLY, EXCLUSIVE_ACCESS_REGONLY,
               WRITE_EXCLUSIVE_ALLREG, EXCLUSIVE_ACCESS_ALLREG}
  }

  function DoReserve(s: PrState, op: Op): (PrState, Status)
    requires op.Reserve?
  {
    if !op.ok || !KnownType(op.prType) || op.scope != LU_SCOPE then (s, Check)
    else if !Registered(s, op.nexus) then (s, Conflict)
    else if HasHolder(s) then
      var h := Holder(s);
      (s, if IsHolder(s, op.nexus) && h.prType == op.prType && h.scope == op.scope then Good else Conflict)
    else (s.(regs := Mark(s.regs, op.nexus, op.scope, op.prType), holder := Some(op.nexus)), Good)
  }

  function DoRelease(s: PrState, op: Op): (PrState, Status)
    requires op.Release?
  {
    if !op.ok then (s, Check)
    else if !Registered(s, op.nexus) then (s, Conflict)
    else if !HasHolder(s) || !IsHolder(s, op.nexus) then (s, Good)
    else if op.key != RegOf(s, op.nexus).key then (s, Conflict)
    else if Holder(s).scope != op.scope || Holder(s).prType != op.prType then (s, Check)
    else (s.(regs := Mark(s.regs, op.nexus, 0, 0), holder := None), Good)
  }

  function DoClear(s: PrState, op: Op): (PrState, Status)
    requires op.Clear?
  {
    if !op.ok then (s, Check)
    else if !Registered(s, op.nexus) || RegOf(s, op.nexus).key != op.key then (s, Conflict)
    else (PrState([], None, Next(s.generation)), Good)
  }

  predicate KeyExists(regs: seq<Reg>, key: uint64) {
    exists r :: r in regs && r.key == key
  }

  function DoPreempt(s: PrState, op: Op): (PrState, Status)
    requires op.Preempt?
  {
    if !op.ok then (s, Check)
    else if !Registered(s, op.nexus) || RegOf(s, op.nexus).key != op.key then (s, Conflict)
    else if op.saKey != 0 && !KeyExists(s.regs, op.saKey) then (s, Conflict)
    else if HasHolder(s) && !AllRegistrants(Holder(s).prType) && Holder(s).key != op.saKey && op.saKey == 0 then
      (s, Check)
    else
      var all := HasHolder(s) && AllRegistrants(Holder(s).prType) && op.saKey == 0;
      var takes := HasHolder(s) && (all || (!AllRegistrants(Holder(s).prType) && Holder(s).key == op.saKey));
      var regs := if takes then Mark(s.regs, op.nexus, op.scope, op.prType) else s.regs;
      (PrState(Survivors(regs, op.nexus, op.saKey, all),
               if takes then Some(op.nexus) else s.holder,
               Next(s.generation)), Good)
  }

  function Apply(s: PrState, op: Op): (PrState, Status) {
    match op
    case Register(_, _, _, _, _) => DoRegister(s, op)
    case Reserve(_, _, _, _) => DoReserve(s, op)
    case Release(_, _, _, _, _) => DoRelease(s, op)
    case Clear(_, _, _) => DoClear(s, op)
    case Preempt(_, _, _, _, _, _) => DoPreempt(s, op)
  }

  // ----- the invariant of every run

  predicate OnePerNexus(regs: seq<Reg>) {
    forall i, j :: 0 <= i < j < |regs| ==> regs[i].nexus != regs[j].nexus
  }

  predicate RegsInv(regs: seq<Reg>) {
    OnePerNexus(regs) && forall r :: r in regs ==> r.key != 0
  }

  /** One registration a nexus, no zero key, and the holder pointer is null or live. */
  predicate Inv(s: PrState) {
    && RegsInv(s.regs)
    && (s.holder.Some? ==> Registered(s, s.holder.value))
  }

  /** PREEMPT under an all-registrants reservation, naming the key of a recorded holder
      that is not the sender: the holder is freed and stays recorded. */
  predicate Dangles(s: PrState, op: Op) {
    && op.Preempt? && op.ok
    && Registered(s, op.nexus) && RegOf(s, op.nexus).key == op.key
    && HasHolder(s) && AllRegistrants(Holder(s).prType)
    && op.saKey != 0 && Holder(s).key == op.saKey && s.holder.value != op.nexus
  }

  lemma {:induction false} FindThere(regs: seq<Reg>, r: Reg)
    requires r in regs
    ensures Find(regs, r.nexus) < |regs|
  {
    var i :| 0 <= i < |regs| && regs[i] == r;
    assert Find(regs, r.nexus) <= i;
  }

  /** With one registration a nexus, Find gives the registration itself. */
  lemma FindIs(regs: seq<Reg>, i: nat)
    requires OnePerNexus(regs) && i < |regs|
    ensures Find(regs, regs[i].nexus) == i
  {
    FindThere(regs, regs[i]);
  }

  lemma {:induction false} SurvivorsOnePerNexus(regs: seq<Reg>, me: Nexus, saKey: uint64, all: bool)
    requires OnePerNexus(regs)
    ensures OnePerNexus(Survivors(regs, me, saKey, all))
  {
    if regs != [] {
      SurvivorsOnePerNexus(regs[1..], me, saKey, all);
      var rest := Survivors(regs[1..], me, saKey, all);
      forall x | x in rest
        ensures x.nexus != regs[0].nexus
      {
        var j :| 0 <= j < |regs[1..]| && regs[1..][j] == x;
        assert regs[j + 1] == x;
      }
    }
  }

  lemma MarkFields(regs: seq<Reg>, nexus: Nexus, scope: nibble, prType: nibble)
    ensures forall i :: 0 <= i < |regs| ==>
              var r := Mark(regs, nexus, scope, prType)[i];
              r.nexus == regs[i].nexus && r.key == regs[i].key
  {
  }

  lemma SameFind(a: seq<Reg>, b: seq<Reg>, nexus: Nexus)
    requires |a| == |b| && forall i :: 0 <= i < |a| ==> b[i].nexus == a[i].nexus
    requires OnePerNexus(a)
    ensures OnePerNexus(b) && Find(b, nexus) == Find(a, nexus)
  {
    if Find(a, nexus) < |a| {
      FindIs(b, Find(a, nexus));
    } else if Find(b, nexus) < |a| {
      FindIs(a, Find(b, nexus));
    }
  }

  lemma MarkKeeps(regs: seq<Reg>, nexus: Nexus, scope: nibble, prType: nibble)
    requires OnePerNexus(regs)
    ensures OnePerNexus(Mark(regs, nexus, scope, prType))
    ensures forall i :: 0 <= i < |regs| ==>
              var r := Mark(regs, nexus, scope, prType)[i];
              r.nexus == regs[i].nexus && r.key == regs[i].key
    ensures forall n :: Find(Mark(regs, nexus, scope, prType), n) == Find(regs, n)
  {
    hide Mark, Find, OnePerNexus;
    MarkFields(regs, nexus, scope, prType);
    SameFind(regs, Mark(regs, nexus, scope, prType), nexus);
    forall n
      ensures Find(Mark(regs, nexus, scope, prType), n) == Find(regs, n)
    {
      SameFind(regs, Mark(regs, nexus, scope, prType), n);
    }
  }

  lemma RemoveKeeps(regs: seq<Reg>, i: nat)
    requires OnePerNexus(regs) && i < |regs|
    ensures OnePerNexus(Remove(regs, i))
    ensures forall r :: r in Remove(regs, i) ==> r in regs
    ensures forall r :: r in regs && r != regs[i] ==> Find(Remove(regs, i), r.nexus) < |Remove(regs, i)|
  {
    var left := Remove(regs, i);
    forall r | r in regs && r != regs[i]
      ensures Find(left, r.nexus) < |left|
    {
      var h :| 0 <= h < |regs| && regs[h] == r;
      assert left[if h < i then h else h - 1] == r;
      FindThere(left, r);
    }
  }

  lemma HandOverKeeps(regs: seq<Reg>, h: Reg)
    requires RegsInv(regs) && regs != []
    ensures RegsInv(regs[0 := regs[0].(scope := h.scope, prType := h.prType)])
    ensures Find(regs[0 := regs[0].(scope := h.scope, prType := h.prType)], regs[0].nexus) == 0
  {
    var now := regs[0 := regs[0].(scope := h.scope, prType := h.prType)];
    assert now[0].nexus == regs[0].nexus;
    forall r | r in now
      ensures r.key != 0
    {
      var i :| 0 <= i < |now| && now[i] == r;
      assert regs[i] in regs;
    }
  }

  lemma UnregisterKeepsInv(s: PrState, nexus: Nexus)
    requires Inv(s) && Registered(s, nexus)
    ensures Inv(Unregister(s, nexus))
  {
    hide Remove, OnePerNexus;
    var regs := Remove(s.regs, Find(s.regs, nexus));
    RemoveKeeps(s.regs, Find(s.regs, nexus));
    if HasHolder(s) && s.holder.value != nexus {
      assert Holder(s) in s.regs;
    }
    if regs != [] {
      HandOverKeeps(regs, if HasHolder(s) then Holder(s) else regs[0]);
    }
  }

  lemma RegisterKeepsInv(s: PrState, op: Op)
    requires Inv(s) && op.Register?
    ensures Inv(DoRegister(s, op).0)
  {
    var i := Find(s.regs, op.nexus);
    if op.ok && Registered(s, op.nexus) && (op.force || s.regs[i].key == op.key) {
      if op.saKey != 0 {
        var regs := s.regs[i := s.regs[i].(key := op.saKey)];
        if s.holder.Some? {
          FindIs(regs, Find(s.regs, s.holder.value));
        }
      } else {
        UnregisterKeepsInv(s, op.nexus);
      }
    } else if s.holder.Some? {
      var regs := s.regs + [Reg(op.nexus, op.saKey, 0, 0)];
      FindThere(regs, Holder(s));
    }
  }

  lemma ReserveReleaseKeepInv(s: PrState, op: Op)
    requires Inv(s) && (op.Reserve? || op.Release?)
    ensures Inv(Apply(s, op).0)
  {
    MarkKeeps(s.regs, op.nexus, op.scope, op.prType);
    MarkKeeps(s.regs, op.nexus, 0, 0);
  }

  /** Whether a registrant is still one after PREEMPT depends on its own registration. */
  lemma SurvivorsFind(regs: seq<Reg>, me: Nexus, saKey: uint64, all: bool, i: nat)
    requires OnePerNexus(regs) && i < |regs|
    ensures var left := Survivors(regs, me, saKey, all);
            Find(left, regs[i].nexus) < |left| <==> regs[i].nexus == me || (regs[i].key != saKey && !all)
  {
    var left := Survivors(regs, me, saKey, all);
    if regs[i] in left {
      FindThere(left, regs[i]);
    }
  }

  lemma SurvivorsKeepRegs(regs: seq<Reg>, me: Nexus, saKey: uint64, all: bool)
    requires RegsInv(regs)
    ensures RegsInv(Survivors(regs, me, saKey, all))
  {
    SurvivorsOnePerNexus(regs, me, saKey, all);
  }

  lemma MarkKeepsRegs(regs: seq<Reg>, nexus: Nexus, scope: nibble, prType: nibble)
    requires RegsInv(regs)
    ensures RegsInv(Mark(regs, nexus, scope, prType))
  {
    MarkKeeps(regs, nexus, scope, prType);
  }

  lemma PreemptKeepsInv(s: PrState, op: Op)
    requires Inv(s) && op.Preempt?
    ensures Inv(DoPreempt(s, op).0) <==> !Dangles(s, op)
  {
    hide Mark, Survivors, OnePerNexus;
    if DoPreempt(s, op).1.Good? {
      var me := Find(s.regs, op.nexus);
      var marked := Mark(s.regs, op.nexus, op.scope, op.prType);
      MarkKeepsRegs(s.regs, op.nexus, op.scope, op.prType);
      MarkKeeps(s.regs, op.nexus, op.scope, op.prType);
      if HasHolder(s) {
        var all := AllRegistrants(Holder(s).prType) && op.saKey == 0;
        var h := Find(s.regs, s.holder.value);
        SurvivorsKeepRegs(s.regs, op.nexus, op.saKey, all);
        SurvivorsKeepRegs(marked, op.nexus, op.saKey, all);
        SurvivorsFind(marked, op.nexus, op.saKey, all, me);
        SurvivorsFind(s.regs, op.nexus, op.saKey, all, h);
      } else {
        SurvivorsKeepRegs(s.regs, op.nexus, op.saKey, false);
      }
    }
  }

  /** The invariant survives every service action except the one PREEMPT, and that one
      always breaks it. */
  lemma InvIffNotDangling(s: PrState, op: Op)
    requires Inv(s)
    ensures Inv(Apply(s, op).0) <==> !Dangles(s, op)
  {
    match op
    case Register(_, _, _, _, _) => RegisterKeepsInv(s, op);
    case Reserve(_, _, _, _) => ReserveReleaseKeepInv(s, op);
    case Release(_, _, _, _, _) => ReserveReleaseKeepInv(s, op);
    case Clear(_, _, _) =>
    case Preempt(_, _, _, _, _, _) => PreemptKeepsInv(s, op);
  }

  function Run(s: PrState, ops: seq<Op>): PrState
    decreases |ops|
  {
    if ops == [] then s else Run(Apply(s, ops[0]).0, ops[1..])
  }

  /** No step of the run is the dangling PREEMPT. */
  predicate Sound(s: PrState, ops: seq<Op>)
    decreases |ops|
  {
    ops != [] ==> !Dangles(s, ops[0]) && Sound(Apply(s, ops[0]).0, ops[1..])
  }

  lemma {:induction false} InvInEveryRun(s: PrState, ops: seq<Op>)
    requires Inv(s) && Sound(s, ops)
    ensures Inv(Run(s, ops))
    decreases |ops|
  {
    if ops != [] {
      InvIffNotDangling(s, ops[0]);
      InvInEveryRun(Apply(s, ops[0]).0, ops[1..]);
    }
  }

  /** RESERVE by the first registrant when there is no reservation. */
  lemma ReserveFirst(regs: seq<Reg>, generation: uint32, prType: nibble)
    requires regs != [] && KnownType(prType)
    ensures Apply(PrState(regs, None, generation), Reserve(true, regs[0].nexus, LU_SCOPE, prType)).0
         == PrState(regs[0 := regs[0].(scope := LU_SCOPE, prType := prType)], Some(regs[0].nexus), generation)
  {
  }

  lemma RunThree(s: PrState, a: Op, b: Op, c: Op)
    ensures Run(s, [a, b, c]) == Apply(Apply(Apply(s, a).0, b).0, c).0
  {
    hide Apply;
    assert [a, b, c][1..] == [b, c] && [b, c][1..] == [c] && [c][1..] == [];
    assert Run(s, [a, b, c]) == Run(Apply(s, a).0, [b, c]) == Run(Apply(Apply(s, a).0, b).0, [c]);
  }

  /** The dangling PREEMPT can be reached: two registrants, an all-registrants reservation
      recorded at the first, and the second preempts the first one's key. */
  lemma DanglingIsReachable()
    ensures var a, b := Nexus(1, 0), Nexus(2, 0);
            var ops := [Register(true, a, false, 0, 10), Register(true, b, false, 0, 20),
                        Reserve(true, a, LU_SCOPE, WRITE_EXCLUSIVE_ALLREG)];
            var s := Run(PrState([], None, 0), ops);
            Inv(s) && Dangles(s, Preempt(true, b, 20, 10, LU_SCOPE, WRITE_EXCLUSIVE_ALLREG))
  {
    hide Run;
    var a, b := Nexus(1, 0), Nexus(2, 0);
    var ops := [Register(true, a, false, 0, 10), Register(true, b, false, 0, 20),
                Reserve(true, a, LU_SCOPE, WRITE_EXCLUSIVE_ALLREG)];
    var s0 := PrState([], None, 0);
    var s1 := PrState([Reg(a, 10, 0, 0)], None, 1);
    var s2 := PrState([Reg(a, 10, 0, 0), Reg(b, 20, 0, 0)], None, 2);
    var s3 := PrState([Reg(a, 10, 0, 7), Reg(b, 20, 0, 0)], Some(a), 2);
    assert Apply(s0, ops[0]).0 == s1;
    assert Apply(s1, ops[1]).0 == s2;
    ReserveFirst(s2.regs, s2.generation, WRITE_EXCLUSIVE_ALLREG);
    RunThree(s0, ops[0], ops[1], ops[2]);
    hide Apply;
    assert Find(s3.regs, a) == 0 && Find(s3.regs, b) == 1;
  }

  // ----- all-registrants reservations

  /** An all-registrants reservation keeps its type and scope while registrations come, go
      and change keys; it ends only with the last registrant. */
  lemma AllRegistrantsPersists(s: PrState, op: Op)
    requires Inv(s) && HasHolder(s) && AllRegistrants(Holder(s).prType) && op.Register?
    ensures var s' := Apply(s, op).0;
            if s'.regs == [] then s'.holder == None
            else HasHolder(s') && Holder(s').prType == Holder(s).prType && Holder(s').scope == Holder(s).scope
  {
    var s' := Apply(s, op).0;
    RegisterKeepsInv(s, op);
    var i := Find(s.regs, op.nexus);
    if op.ok && Registered(s, op.nexus) && (op.force || s.regs[i].key == op.key) {
      if op.saKey != 0 {
        FindIs(s'.regs, Find(s.regs, s.holder.value));
      } else if s'.regs != [] {
        FindIs(s'.regs, 0);
      }
    } else if s'.regs != s.regs {
      FindIs(s'.regs, Find(s.regs, s.holder.value));
    }
  }

  // ----- a reservation held by one nexus

  predicate Holds(s: PrState, a: Nexus, scope: nibble, prType: nibble) {
    HasHolder(s) && s.holder.value == a && Holder(s).scope == scope && Holder(s).prType == prType
  }

  /** The service actions that may end a's reservation: a releases or unregisters, a
      registrant clears, or a registrant preempts a's current key. */
  predicate MayEnd(s: PrState, op: Op, a: Nexus)
    requires Registered(s, a)
  {
    match op
    case Register(_, n, _, _, saKey) => n == a && saKey == 0
    case Reserve(_, _, _, _) => false
    case Release(_, n, _, _, _) => n == a
    case Clear(_, n, key) => Registered(s, n) && RegOf(s, n).key == key
    case Preempt(_, n, key, saKey, _, _) =>
      Registered(s, n) && RegOf(s, n).key == key && saKey == RegOf(s, a).key
  }

  lemma RegisterHolderStays(s: PrState, op: Op, a: Nexus)
    requires Inv(s) && op.Register? && HasHolder(s) && s.holder.value == a && !AllRegistrants(Holder(s).prType)
    requires !(op.nexus == a && op.saKey == 0)
    ensures var s' := DoRegister(s, op).0;
            s'.holder == s.holder && Registered(s', a)
            && RegOf(s', a).scope == RegOf(s, a).scope && RegOf(s', a).prType == RegOf(s, a).prType
  {
    RegisterKeepsInv(s, op);
    var s' := DoRegister(s, op).0;
    var h, i := Find(s.regs, a), Find(s.regs, op.nexus);
    if op.ok && Registered(s, op.nexus) && (op.force || s.regs[i].key == op.key) && op.saKey == 0 {
      var h' := if h < i then h else h - 1;
      assert s'.regs[h'] == s.regs[h];
      FindIs(s'.regs, h');
    } else if s' != s {
      FindIs(s'.regs, h);
    }
  }

  lemma PreemptHolderStays(s: PrState, op: Op, a: Nexus)
    requires Inv(s) && op.Preempt? && HasHolder(s) && s.holder.value == a && !AllRegistrants(Holder(s).prType)
    requires !MayEnd(s, op, a)
    ensures var s' := DoPreempt(s, op).0;
            s'.holder == s.holder && Registered(s', a) && RegOf(s', a) == RegOf(s, a)
  {
    if DoPreempt(s, op).1.Good? {
      var h := Find(s.regs, a);
      var left := Survivors(s.regs, op.nexus, op.saKey, false);
      SurvivorsFind(s.regs, op.nexus, op.saKey, false, h);
      var k :| 0 <= k < |s.regs| && s.regs[k] == left[Find(left, a)];
      FindIs(s.regs, k);
    }
  }

  lemma HolderStaysOneStep(s: PrState, op: Op, a: Nexus, scope: nibble, prType: nibble)
    requires Inv(s) && Holds(s, a, scope, prType) && !AllRegistrants(prType)
    requires !MayEnd(s, op, a)
    ensures Inv(Apply(s, op).0) && Holds(Apply(s, op).0, a, scope, prType)
  {
    InvIffNotDangling(s, op);
    if op.Register? {
      RegisterHolderStays(s, op, a);
    } else if op.Preempt? {
      PreemptHolderStays(s, op, a);
    }
  }

  /** No step of the run may end a's reservation. */
  predicate Undisturbed(s: PrState, ops: seq<Op>, a: Nexus)
    decreases |ops|
  {
    ops != [] ==> Registered(s, a) && !MayEnd(s, ops[0], a) && Undisturbed(Apply(s, ops[0]).0, ops[1..], a)
  }

  /** The conflict bits a command carries. */
  datatype Bits = Bits(weFa: bool, eaFa: bool, rrFr: bool, weFn: bool, eaFn: bool)

  /** spc_access_check: true when the command is refused. */
  function AccessCheck(s: PrState, nexus: Nexus, bits: Bits): bool {
    if !HasHolder(s) then false
    else if Registered(s, nexus) && IsHolder(s, nexus) then false
    else
      var prType := Holder(s).prType;
      if prType == EXCLUSIVE_ACCESS then bits.eaFa
      else if prType == WRITE_EXCLUSIVE then bits.weFa
      else if Registered(s, nexus) then bits.rrFr
      else if prType == WRITE_EXCLUSIVE_REGONLY || prType == WRITE_EXCLUSIVE_ALLREG then bits.weFn
      else bits.eaFn
  }

  /** What a nexus that is not the recorded holder may not do, type by type. */
  predicate Refused(prType: nibble, registered: bool, bits: Bits) {
    if prType == WRITE_EXCLUSIVE then bits.weFa
    else if prType == EXCLUSIVE_ACCESS then bits.eaFa
    else if registered then bits.rrFr && !AllRegistrants(prType)
    else if prType in {WRITE_EXCLUSIVE_REGONLY, WRITE_EXCLUSIVE_ALLREG} then bits.weFn
    else bits.eaFn
  }

  /** Until someone may end it, a's reservation excludes every other nexus and never a,
      through any run of service actions, a's own key changes included. */
  lemma {:induction false} HolderStays(s: PrState, ops: seq<Op>, a: Nexus, scope: nibble, prType: nibble)
    requires Inv(s) && Holds(s, a, scope, prType) && !AllRegistrants(prType)
    requires Undisturbed(s, ops, a)
    ensures Inv(Run(s, ops)) && Holds(Run(s, ops), a, scope, prType)
    ensures forall bits :: !AccessCheck(Run(s, ops), a, bits)
    ensures forall b, bits :: b != a ==>
              (AccessCheck(Run(s, ops), b, bits) <==> Refused(prType, Registered(Run(s, ops), b), bits))
    decreases |ops|
  {
    if ops != [] {
      HolderStaysOneStep(s, ops[0], a, scope, prType);
      HolderStays(Apply(s, ops[0]).0, ops[1..], a, scope, prType);
    }
  }

  /** Under an all-registrants reservation exactly the registrants are never refused. */
  lemma AllRegistrantsAccess(s: PrState, b: Nexus, bits: Bits)
    requires Inv(s) && HasHolder(s) && AllRegistrants(Holder(s).prType)
    ensures AccessCheck(s, b, bits) <==> Refused(Holder(s).prType, Registered(s, b), bits)
  {
  }
}
