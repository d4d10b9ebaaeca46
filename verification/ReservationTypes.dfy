/** The type and scope of the reservation on record, and an all-registrants reservation in the
    long run. */
module ReservationTypes {
  import opened Reservations
  import opened Wrappers

  // ----- a type that no check has seen

  /** The holder's registration carries a type RESERVE would accept, for the logical unit. */
  predicate WellTyped(s: PrState) {
    HasHolder(s) ==> KnownType(Holder(s).prType) && Holder(s).scope == LU_SCOPE
  }

  /** PREEMPT passes its checks and takes the reservation over. */
  predicate TakesOver(s: PrState, op: Op) {
    && op.Preempt? && op.ok && Registered(s, op.nexus) && RegOf(s, op.nexus).key == op.key
    && HasHolder(s)
    && (if AllRegistrants(Holder(s).prType) then op.saKey == 0 else Holder(s).key == op.saKey)
  }

  /** It does so with a type or scope that RESERVE refuses. */
  predicate StoresUnchecked(s: PrState, op: Op) {
    TakesOver(s, op) && !(KnownType(op.prType) && op.scope == LU_SCOPE)
  }

  lemma MarkAt(regs: seq<Reg>, nexus: Nexus, scope: nibble, prType: nibble)
    requires OnePerNexus(regs)
    ensures var m := Mark(regs, nexus, scope, prType);
            && OnePerNexus(m)
            && (Find(regs, nexus) < |regs| ==>
                  Find(m, nexus) < |m| && m[Find(m, nexus)].scope == scope && m[Find(m, nexus)].prType == prType)
            && (forall n :: n != nexus && Find(regs, n) < |regs| ==>
                Find(m, n) < |m| && m[Find(m, n)] == regs[Find(regs, n)])
  {
    MarkKeeps(regs, nexus, scope, prType);
  }

  /** Who survives PREEMPT keeps its registration. */
  lemma SurvivorAt(regs: seq<Reg>, me: Nexus, saKey: uint64, all: bool, n: Nexus)
    requires OnePerNexus(regs)
    ensures var left := Survivors(regs, me, saKey, all);
            Find(left, n) < |left| ==> Find(regs, n) < |regs| && left[Find(left, n)] == regs[Find(regs, n)]
  {
    var left := Survivors(regs, me, saKey, all);
    if Find(left, n) < |left| {
      var r := left[Find(left, n)];
      var k :| 0 <= k < |regs| && regs[k] == r;
      FindIs(regs, k);
    }
  }

  lemma SenderSurvives(regs: seq<Reg>, me: Nexus, saKey: uint64, all: bool)
    requires Find(regs, me) < |regs|
    ensures Find(Survivors(regs, me, saKey, all), me) < |Survivors(regs, me, saKey, all)|
  {
    FindThere(Survivors(regs, me, saKey, all), regs[Find(regs, me)]);
  }

  lemma HolderKeyExists(s: PrState)
    requires HasHolder(s)
    ensures KeyExists(s.regs, Holder(s).key)
  {
    assert Holder(s) in s.regs;
  }

  lemma TakenOver(s: PrState, op: Op)
    requires Inv(s) && TakesOver(s, op)
    ensures var t := DoPreempt(s, op).0;
            HasHolder(t) && Holder(t).prType == op.prType && Holder(t).scope == op.scope
  {
    hide Mark, Survivors, Find;
    var all := AllRegistrants(Holder(s).prType);
    var regs := Mark(s.regs, op.nexus, op.scope, op.prType);
    assert Find(s.regs, op.nexus) < |s.regs| && OnePerNexus(s.regs);
    HolderKeyExists(s);
    MarkAt(s.regs, op.nexus, op.scope, op.prType);
    SenderSurvives(regs, op.nexus, op.saKey, all);
    SurvivorAt(regs, op.nexus, op.saKey, all, op.nexus);
  }

  lemma NotTakenOver(s: PrState, op: Op)
    requires Inv(s) && op.Preempt? && !TakesOver(s, op)
    ensures var t := DoPreempt(s, op).0;
            t.holder == s.holder && (HasHolder(t) ==> HasHolder(s) && Holder(t) == Holder(s))
  {
    hide Mark, Survivors, Find;
    if s.holder.Some? {
      SurvivorAt(s.regs, op.nexus, op.saKey, false, s.holder.value);
    }
  }

  lemma PreemptTyped(s: PrState, op: Op)
    requires Inv(s) && WellTyped(s) && op.Preempt?
    ensures WellTyped(DoPreempt(s, op).0) <==> !StoresUnchecked(s, op)
  {
    hide DoPreempt, Inv;
    if TakesOver(s, op) {
      TakenOver(s, op);
    } else {
      NotTakenOver(s, op);
    }
  }

  lemma NoHolderTyped(s: PrState)
    requires s.holder == None
    ensures WellTyped(s)
  {
  }

  lemma SameHolderTyped(s: PrState, t: PrState)
    requires WellTyped(s) && HasHolder(s)
    requires HasHolder(t) ==> Holder(t).prType == Holder(s).prType && Holder(t).scope == Holder(s).scope
    ensures WellTyped(t)
  {
  }

  lemma HolderUnregisters(s: PrState, op: Op)
    requires Inv(s) && WellTyped(s) && op.Register? && op.saKey == 0
    requires HasHolder(s) && op.nexus == s.holder.value && !AllRegistrants(Holder(s).prType)
    ensures WellTyped(DoRegister(s, op).0)
  {
  }

  lemma RegisterTyped(s: PrState, op: Op)
    requires Inv(s) && WellTyped(s) && op.Register?
    ensures WellTyped(DoRegister(s, op).0)
  {
    hide WellTyped;
    if !HasHolder(s) {
      assert s.holder == None && DoRegister(s, op).0.holder == None;
      NoHolderTyped(DoRegister(s, op).0);
    } else if AllRegistrants(Holder(s).prType) {
      AllRegistrantsPersists(s, op);
      SameHolderTyped(s, DoRegister(s, op).0);
    } else if op.nexus == s.holder.value && op.saKey == 0 {
      HolderUnregisters(s, op);
    } else {
      RegisterHolderStays(s, op, s.holder.value);
      SameHolderTyped(s, DoRegister(s, op).0);
    }
  }

  lemma ReserveReleaseTyped(s: PrState, op: Op)
    requires Inv(s) && WellTyped(s) && (op.Reserve? || op.Release?)
    ensures WellTyped(Apply(s, op).0)
  {
    hide Mark, Find;
    MarkAt(s.regs, op.nexus, op.scope, op.prType);
  }

  lemma ClearTyped(s: PrState, op: Op)
    requires WellTyped(s) && op.Clear?
    ensures WellTyped(DoClear(s, op).0)
  {
  }

  /** The type on record stays one that RESERVE accepts, exactly if the service action is not
      a PREEMPT that takes over with one it refuses. */
  lemma TypedIff(s: PrState, op: Op)
    requires Inv(s) && WellTyped(s)
    ensures WellTyped(Apply(s, op).0) <==> !StoresUnchecked(s, op)
  {
    hide WellTyped, Inv;
    match op
    case Register(_, _, _, _, _) => RegisterTyped(s, op);
    case Reserve(_, _, _, _) => ReserveReleaseTyped(s, op);
    case Release(_, _, _, _, _) => ReserveReleaseTyped(s, op);
    case Clear(_, _, _) => ClearTyped(s, op);
    case Preempt(_, _, _, _, _, _) => PreemptTyped(s, op);
  }

  predicate AlwaysTyped(s: PrState, ops: seq<Op>)
    decreases |ops|
  {
    WellTyped(s) && (ops != [] ==> AlwaysTyped(Apply(s, ops[0]).0, ops[1..]))
  }

  predicate NoneStores(s: PrState, ops: seq<Op>)
    decreases |ops|
  {
    ops != [] ==> !StoresUnchecked(s, ops[0]) && NoneStores(Apply(s, ops[0]).0, ops[1..])
  }

  /** So in every run that keeps the holder pointer sound. */
  lemma {:induction false} TypedInRunIff(s: PrState, ops: seq<Op>)
    requires Inv(s) && WellTyped(s) && Sound(s, ops)
    ensures AlwaysTyped(s, ops) <==> NoneStores(s, ops)
    decreases |ops|
  {
    hide WellTyped, Inv, Apply, StoresUnchecked, Dangles;
    if ops != [] {
      TypedIff(s, ops[0]);
      InvIffNotDangling(s, ops[0]);
      if !StoresUnchecked(s, ops[0]) {
        TypedInRunIff(Apply(s, ops[0]).0, ops[1..]);
      }
    }
  }

  lemma FindTwo(ra: Reg, rb: Reg)
    requires ra.nexus != rb.nexus
    ensures Find([ra, rb], ra.nexus) == 0 && Find([ra, rb], rb.nexus) == 1
  {
  }

  lemma MarkSecond(ra: Reg, rb: Reg, scope: nibble, prType: nibble)
    requires ra.nexus != rb.nexus
    ensures Mark([ra, rb], rb.nexus, scope, prType) == [ra, rb.(scope := scope, prType := prType)]
  {
    hide Find;
    FindTwo(ra, rb);
  }

  lemma SecondSurvives(ra: Reg, rb: Reg)
    requires ra.nexus != rb.nexus
    ensures Survivors([ra, rb], rb.nexus, ra.key, false) == [rb]
  {
    assert [ra, rb][1..] == [rb] && [rb][1..] == [];
    assert Survivors([rb], rb.nexus, ra.key, false) == [rb];
  }

  /** The second of two registrants preempts the first, which holds a reservation that is not
      for all registrants. */
  lemma SecondPreempts(ra: Reg, rb: Reg, generation: uint32, scope: nibble, prType: nibble)
    requires ra.nexus != rb.nexus && ra.key != 0 && !AllRegistrants(ra.prType)
    ensures DoPreempt(PrState([ra, rb], Some(ra.nexus), generation),
                      Preempt(true, rb.nexus, rb.key, ra.key, scope, prType))
         == (PrState([rb.(scope := scope, prType := prType)], Some(rb.nexus), Next(generation)), Good)
  {
    var s := PrState([ra, rb], Some(ra.nexus), generation);
    FindTwo(ra, rb);
    MarkSecond(ra, rb, scope, prType);
    SecondSurvives(ra, rb.(scope := scope, prType := prType));
    assert s.regs[0].key == ra.key;
    hide Mark, Survivors, Find;
  }

  const FIRST := Nexus(1, 0)
  const SECOND := Nexus(2, 0)

  /** Two registrants, and the first has reserved. */
  const FIRST_HOLDS := PrState([Reg(FIRST, 10, LU_SCOPE, WRITE_EXCLUSIVE), Reg(SECOND, 20, 0, 0)], Some(FIRST), 2)

  lemma FirstReserves()
    ensures Run(PrState([], None, 0), [Register(true, FIRST, false, 0, 10), Register(true, SECOND, false, 0, 20),
                                       Reserve(true, FIRST, LU_SCOPE, WRITE_EXCLUSIVE)]) == FIRST_HOLDS
  {
    hide Run;
    var s0 := PrState([], None, 0);
    var s1 := PrState([Reg(FIRST, 10, 0, 0)], None, 1);
    var s2 := PrState([Reg(FIRST, 10, 0, 0), Reg(SECOND, 20, 0, 0)], None, 2);
    assert Apply(s0, Register(true, FIRST, false, 0, 10)).0 == s1;
    assert Apply(s1, Register(true, SECOND, false, 0, 20)).0 == s2;
    ReserveFirst(s2.regs, s2.generation, WRITE_EXCLUSIVE);
    RunThree(s0, Register(true, FIRST, false, 0, 10), Register(true, SECOND, false, 0, 20),
             Reserve(true, FIRST, LU_SCOPE, WRITE_EXCLUSIVE));
  }

  /** It happens, in the state that FirstReserves shows to be reachable: the second registrant
      preempts with type 2, which SPC-3 does not define, and scope 5. */
  lemma PreemptStoresUnknownType()
    ensures var op := Preempt(true, SECOND, 20, 10, 5, 2);
            && Inv(FIRST_HOLDS) && WellTyped(FIRST_HOLDS) && StoresUnchecked(FIRST_HOLDS, op) && !KnownType(2)
            && DoPreempt(FIRST_HOLDS, op) == (PrState([Reg(SECOND, 20, 5, 2)], Some(SECOND), 3), Good)
  {
    SecondPreempts(FIRST_HOLDS.regs[0], FIRST_HOLDS.regs[1], 2, 5, 2);
    hide DoPreempt, Find;
    FindTwo(FIRST_HOLDS.regs[0], FIRST_HOLDS.regs[1]);
  }

  // ----- an all-registrants reservation in the long run

  /** Registrants come, go, change keys and try to reserve, and never are all gone. */
  predicate RegistrantsRemain(s: PrState, ops: seq<Op>)
    decreases |ops|
  {
    ops != [] ==>
      && (ops[0].Register? || ops[0].Reserve?)
      && Apply(s, ops[0]).0.regs != []
      && RegistrantsRemain(Apply(s, ops[0]).0, ops[1..])
  }

  /** An all-registrants reservation keeps its type and scope until the last registrant is
      gone, however often it is handed over. */
  lemma {:induction false} AllRegistrantsPersistsInRun(s: PrState, ops: seq<Op>)
    requires Inv(s) && HasHolder(s) && AllRegistrants(Holder(s).prType) && RegistrantsRemain(s, ops)
    ensures var t := Run(s, ops);
            Inv(t) && HasHolder(t) && Holder(t).prType == Holder(s).prType && Holder(t).scope == Holder(s).scope
    decreases |ops|
  {
    hide Inv, DoRegister;
    if ops != [] {
      InvIffNotDangling(s, ops[0]);
      if ops[0].Register? {
        AllRegistrantsPersists(s, ops[0]);
      }
      AllRegistrantsPersistsInRun(Apply(s, ops[0]).0, ops[1..]);
    }
  }

  /** And with the last registrant it is over. */
  lemma LastRegistrantEnds(s: PrState, ops: seq<Op>, op: Op)
    requires Inv(s) && HasHolder(s) && AllRegistrants(Holder(s).prType) && RegistrantsRemain(s, ops)
    requires op.Register? && Apply(Run(s, ops), op).0.regs == []
    ensures Apply(Run(s, ops), op).0.holder == None
  {
    hide Run, Apply, Inv;
    AllRegistrantsPersistsInRun(s, ops);
    AllRegistrantsPersists(Run(s, ops), op);
  }
}
