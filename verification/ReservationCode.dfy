/** The service actions as the logical unit runs them, on linked registrations and a holder
    pointer, each proved to do what Reservations says. */
module ReservationCode {
  import opened Reservations
  import opened Wrappers

  /** What the loop of PREEMPT is to leave when it stands at position i. */
  function SurvivorsFrom(regs: seq<Reg>, i: nat, me: Nexus, saKey: uint64, all: bool): seq<Reg>
    requires i <= |regs|
  {
    regs[..i] + Survivors(regs[i..], me, saKey, all)
  }

  lemma SurvivorsBegin(regs: seq<Reg>, me: Nexus, saKey: uint64, all: bool)
    ensures SurvivorsFrom(regs, 0, me, saKey, all) == Survivors(regs, me, saKey, all)
  {
    assert regs[0..] == regs;
  }

  lemma SurvivorsEnd(regs: seq<Reg>, me: Nexus, saKey: uint64, all: bool)
    ensures SurvivorsFrom(regs, |regs|, me, saKey, all) == regs
  {
  }

  lemma SurvivorsNext(regs: seq<Reg>, i: nat, me: Nexus, saKey: uint64, all: bool)
    requires i < |regs|
    ensures SurvivorsFrom(regs, i, me, saKey, all)
         == if regs[i].nexus != me && (regs[i].key == saKey || all)
            then SurvivorsFrom(Remove(regs, i), i, me, saKey, all)
            else SurvivorsFrom(regs, i + 1, me, saKey, all)
  {
    assert regs[i..][1..] == regs[i + 1..];
    assert Remove(regs, i)[..i] == regs[..i] && Remove(regs, i)[i..] == regs[i + 1..];
    assert regs[..i + 1] == regs[..i] + [regs[i]];
  }

  lemma RemoveKeepsRegs(regs: seq<Reg>, i: nat)
    requires RegsInv(regs) && i < |regs|
    ensures RegsInv(Remove(regs, i))
  {
    RemoveKeeps(regs, i);
  }

  lemma PreemptOutcome(s: PrState, op: Op)
    requires Inv(s) && op.Preempt?
    ensures !DoPreempt(s, op).1.Good? ==> DoPreempt(s, op).0 == s && !Dangles(s, op)
    ensures RegsInv(DoPreempt(s, op).0.regs)
    ensures Dangles(s, op) ==> DoPreempt(s, op).0.holder == s.holder && s.holder != Some(op.nexus)
  {
    hide Mark, Survivors, RegsInv;
    MarkKeepsRegs(s.regs, op.nexus, op.scope, op.prType);
    var marked := Mark(s.regs, op.nexus, op.scope, op.prType);
    SurvivorsKeepRegs(marked, op.nexus, op.saKey, true);
    SurvivorsKeepRegs(marked, op.nexus, op.saKey, false);
    SurvivorsKeepRegs(s.regs, op.nexus, op.saKey, false);
  }

  lemma KeyChangeKeepsInv(s: PrState, i: nat, key: uint64)
    requires Inv(s) && i < |s.regs| && key != 0
    ensures Inv(s.(regs := s.regs[i := s.regs[i].(key := key)]))
  {
    FindIs(s.regs, i);
    RegisterKeepsInv(s, Register(true, s.regs[i].nexus, true, 0, key));
  }

  class Registration {
    const nexus: Nexus
    var key: uint64
    var prScope: nibble
    var prType: nibble

    constructor (nexus: Nexus, key: uint64)
      ensures this.nexus == nexus && this.key == key && prScope == 0 && prType == 0
    {
      this.nexus, this.key, prScope, prType := nexus, key, 0, 0;
    }

    ghost function Snap(): Reg
      reads this
    {
      Reg(nexus, key, prScope, prType)
    }
  }

  class LogicalUnit {
    var regs: seq<Registration>
    var prHolder: Registration?
    var prgeneration: uint32
    ghost var view: PrState

    ghost predicate Distinct()
      reads this
    {
      forall i, j :: 0 <= i < j < |regs| ==> regs[i] != regs[j]
    }

    /** view is a copy of the list. */
    ghost predicate Tied()
      reads this, regs
    {
      && Distinct()
      && |view.regs| == |regs|
      && (forall i :: 0 <= i < |regs| ==> view.regs[i] == regs[i].Snap())
      && view.generation == prgeneration
    }

    ghost predicate Valid()
      reads this, regs
    {
      && Tied()
      && Inv(view)
      && (if prHolder == null then view.holder == None else prHolder in regs && view.holder == Some(prHolder.nexus))
    }

    constructor ()
      ensures Valid() && view == PrState([], None, 0)
    {
      regs, prHolder, prgeneration := [], null, 0;
      view := PrState([], None, 0);
    }

    /** Position of a registration, as Find sees it. */
    lemma At(i: nat)
      requires Tied() && RegsInv(view.regs) && i < |regs|
      ensures Find(view.regs, regs[i].nexus) == i && view.regs[i] == regs[i].Snap()
    {
      assert view.regs[i].nexus == regs[i].nexus;
      FindIs(view.regs, i);
    }

    /** The holder pointer and the holder of the view are one registration. */
    lemma HolderAt()
      requires Valid() && prHolder != null
      ensures HasHolder(view) && Holder(view) == prHolder.Snap()
      ensures Find(view.regs, prHolder.nexus) < |regs| && regs[Find(view.regs, prHolder.nexus)] == prHolder
    {
      var i :| 0 <= i < |regs| && regs[i] == prHolder;
      At(i);
    }

    /** lookup_registration_by_nexus */
    method Lookup(nexus: Nexus) returns (reg: Registration?)
      requires Valid()
      ensures reg != null <==> Registered(view, nexus)
      ensures reg != null ==> reg in regs && reg == regs[Find(view.regs, nexus)] && reg.Snap() == RegOf(view, nexus)
    {
      var i := 0;
      while i < |regs|
        invariant 0 <= i <= |regs|
        invariant forall j :: 0 <= j < i ==> view.regs[j].nexus != nexus
      {
        assert view.regs[i].nexus == regs[i].nexus;
        if regs[i].nexus == nexus {
          At(i);
          return regs[i];
        }
        i := i + 1;
      }
      return null;
    }

    /** is_pr_holder */
    method IsPrHolder(reg: Registration) returns (b: bool)
      requires Valid() && prHolder != null && reg in regs
      ensures b == IsHolder(view, reg.nexus) == (AllRegistrants(prHolder.prType) || prHolder == reg)
    {
      HolderAt();
      var i :| 0 <= i < |regs| && regs[i] == reg;
      At(i);
      b := prHolder.prType == WRITE_EXCLUSIVE_ALLREG || prHolder.prType == EXCLUSIVE_ACCESS_ALLREG || prHolder == reg;
    }

    /** list_del of a registration. */
    method ListDel(reg: Registration, ghost i: nat)
      requires Tied() && i < |regs| && regs[i] == reg
      modifies `regs, `view
      ensures Tied() && regs == old(regs)[..i] + old(regs)[i + 1..]
      ensures forall r :: r in regs <==> r in old(regs) && r != reg
      ensures view == old(view).(regs := Remove(old(view.regs), i))
    {
      var k := 0;
      while regs[k] != reg
        invariant 0 <= k <= i
        decreases i - k
      {
        k := k + 1;
      }
      regs := regs[..k] + regs[k + 1..];
      view := view.(regs := Remove(view.regs, k));
    }

    /** The reservation ends: the holder's fields are cleared and nobody is recorded. */
    method DropReservation(holder: Registration)
      requires Tied() && holder !in regs
      modifies `prHolder, `prgeneration, `view, holder
      ensures Tied() && prHolder == null
      ensures view == old(view).(holder := None, generation := Next(old(view.generation)))
    {
      holder.prScope, holder.prType, prHolder := 0, 0, null;
      prgeneration := Next(prgeneration);
      view := view.(holder := None, generation := Next(view.generation));
    }

    /** Another registrant takes over the reservation of holder. */
    method HandOver(holder: Registration)
      requires Tied() && regs != []
      modifies `prHolder, `view, regs[0]
      ensures Tied() && prHolder == regs[0]
      ensures view == old(view).(holder := Some(regs[0].nexus),
                regs := old(view.regs)[0 := old(view.regs)[0].(scope := old(holder.prScope),
                                                               prType := old(holder.prType))])
    {
      prHolder := regs[0];
      prHolder.prScope, prHolder.prType := holder.prScope, holder.prType;
      view := view.(holder := Some(prHolder.nexus), regs := view.regs[0 := prHolder.Snap()]);
    }

    lemma Where(reg: Registration) returns (i: nat)
      requires Valid() && reg in regs
      ensures i < |regs| && regs[i] == reg && Find(view.regs, reg.nexus) == i && Registered(view, reg.nexus)
    {
      i :| 0 <= i < |regs| && regs[i] == reg;
      At(i);
    }

    /** Whether reg counts as a holder of whatever reservation there is. */
    method CountsAsHolder(reg: Registration) returns (b: bool)
      requires Valid() && reg in regs
      ensures b <==> HasHolder(view) && IsHolder(view, reg.nexus)
      ensures b ==> prHolder != null && (AllRegistrants(prHolder.prType) || prHolder == reg)
    {
      b := false;
      if prHolder != null {
        HolderAt();
        b := IsPrHolder(reg);
      }
    }

    /** The registration leaves the list. */
    method Unlink(reg: Registration)
      requires Valid() && reg in regs
      modifies `regs, `view
      ensures Tied() && Registered(old(view), reg.nexus)
      ensures view == old(view).(regs := Remove(old(view).regs, Find(old(view).regs, reg.nexus)))
      ensures reg !in regs && forall r :: r in regs <==> r in old(regs) && r != reg
      ensures Inv(Unregister(old(view), reg.nexus))
    {
      hide Remove, Inv, RegsInv;
      ghost var i := Where(reg);
      UnregisterKeepsInv(view, reg.nexus);
      ListDel(reg, i);
    }

    /** __unregister_and_clean */
    method UnregisterAndClean(reg: Registration)
      requires Valid() && reg in regs
      modifies this, regs
      ensures Valid() && view == Unregister(old(view), reg.nexus)
      ensures forall r :: r in regs ==> r in old(regs)
    {
      hide Remove, Inv;
      ghost var s := view;
      if prHolder != null {
        HolderAt();
      }
      var isHolder := CountsAsHolder(reg);
      var holder := prHolder;
      Unlink(reg);
      if isHolder {
        if !AllRegistrants(holder.prType) || regs == [] {
          DropReservation(holder);
        } else {
          assert regs[0] in regs;
          HandOver(holder);
        }
      }
    }

    method ChangeKey(reg: Registration, key: uint64)
      requires Valid() && reg in regs && key != 0
      modifies `view, reg
      ensures Valid() && Registered(view, reg.nexus)
      ensures view == old(view).(regs := old(view).regs[Find(old(view).regs, reg.nexus)
                                                        := RegOf(old(view), reg.nexus).(key := key)])
    {
      ghost var i := Where(reg);
      KeyChangeKeepsInv(view, i, key);
      reg.key := key;
      view := view.(regs := view.regs[i := reg.Snap()]);
      At(i);
    }

    method AddRegistration(nexus: Nexus, key: uint64)
      requires Valid() && !Registered(view, nexus) && key != 0
      modifies `regs, `view
      ensures Valid() && view == old(view).(regs := old(view).regs + [Reg(nexus, key, 0, 0)])
      ensures forall r :: r in regs ==> r in old(regs) || fresh(r)
    {
      RegisterKeepsInv(view, Register(true, nexus, true, 0, key));
      var reg := new Registration(nexus, key);
      regs := regs + [reg];
      view := view.(regs := view.regs + [reg.Snap()]);
    }

    method NextGeneration()
      requires Valid()
      modifies `prgeneration, `view
      ensures Valid() && view == old(view).(generation := Next(old(view).generation))
    {
      hide Find;
      prgeneration := Next(prgeneration);
      view := view.(generation := prgeneration);
    }

    /** The registration of a nexus that has one gets a new key, or is taken away. */
    method Reregister(reg: Registration, saKey: uint64)
      requires Valid() && reg in regs
      modifies this, regs
      ensures Valid() && Registered(old(view), reg.nexus)
      ensures view == if saKey == 0 then Unregister(old(view), reg.nexus)
                      else old(view).(regs := old(view).regs[Find(old(view).regs, reg.nexus)
                                                                 := RegOf(old(view), reg.nexus).(key := saKey)])
      ensures forall r :: r in regs ==> r in old(regs)
    {
      ghost var i := Where(reg);
      hide RegsInv, Unregister, Inv;
      if saKey != 0 {
        ChangeKey(reg, saKey);
      } else {
        UnregisterAndClean(reg);
      }
    }

    /** spc_pr_register, for REGISTER and REGISTER AND IGNORE EXISTING KEY. */
    method PrRegister(op: Op) returns (status: Status)
      requires Valid() && op.Register?
      modifies this, regs
      ensures Valid() && (view, status) == DoRegister(old(view), op)
      ensures forall r :: r in regs ==> r in old(regs) || fresh(r)
    {
      hide Find, RegsInv, Unregister;
      if !op.ok {
        return Check;
      }
      var reg := Lookup(op.nexus);
      if reg != null {
        if !op.force && reg.key != op.key {
          return Conflict;
        }
        Reregister(reg, op.saKey);
      } else {
        if !op.force && op.key != 0 {
          return Conflict;
        }
        if op.saKey != 0 {
          AddRegistration(op.nexus, op.saKey);
        }
      }
      NextGeneration();
      return Good;
    }

    /** Scope and type of a registration. */
    method SetType(reg: Registration, scope: nibble, prType: nibble)
      requires Valid() && reg in regs
      modifies `view, reg
      ensures Tied() && RegsInv(view.regs)
      ensures view == old(view).(regs := Mark(old(view).regs, reg.nexus, scope, prType))
    {
      ghost var i := Where(reg);
      MarkKeepsRegs(view.regs, reg.nexus, scope, prType);
      reg.prType, reg.prScope := prType, scope;
      view := view.(regs := view.regs[i := reg.Snap()]);
    }

    /** The registration becomes the holder. */
    method TakeOver(reg: Registration, scope: nibble, prType: nibble)
      requires Valid() && reg in regs
      modifies `prHolder, `view, reg
      ensures Tied() && RegsInv(view.regs) && prHolder == reg
      ensures view == old(view).(regs := Mark(old(view).regs, reg.nexus, scope, prType), holder := Some(reg.nexus))
    {
      hide Mark, RegsInv;
      SetType(reg, scope, prType);
      prHolder := reg;
      view := view.(holder := Some(reg.nexus));
    }

    /** spc_pr_reserve */
    method PrReserve(op: Op) returns (status: Status)
      requires Valid() && op.Reserve?
      modifies this, regs
      ensures Valid() && (view, status) == DoReserve(old(view), op) && regs == old(regs)
    {
      ReserveReleaseKeepInv(view, op);
      hide Mark, Find, RegsInv;
      if !op.ok || !KnownType(op.prType) || op.scope != LU_SCOPE {
        return Check;
      }
      var reg := Lookup(op.nexus);
      if reg == null {
        return Conflict;
      }
      if prHolder != null {
        HolderAt();
        var isHolder := IsPrHolder(reg);
        return if isHolder && prHolder.prType == op.prType && prHolder.prScope == op.scope then Good else Conflict;
      }
      TakeOver(reg, op.scope, op.prType);
      return Good;
    }

    /** The checks of RELEASE, and whether it ends the reservation. */
    method ReleaseChecks(op: Op) returns (status: Status, reg: Registration?, ends: bool)
      requires Valid() && op.Release?
      ensures ends ==> status == Good && reg != null && reg in regs && reg.nexus == op.nexus
      ensures DoRelease(view, op) ==
              (if ends then view.(regs := Mark(view.regs, op.nexus, 0, 0), holder := None) else view, status)
    {
      hide Mark, RegsInv;
      if !op.ok {
        return Check, null, false;
      }
      reg := Lookup(op.nexus);
      if reg == null {
        return Conflict, null, false;
      }
      if prHolder == null {
        return Good, reg, false;
      }
      HolderAt();
      var isHolder := IsPrHolder(reg);
      if !isHolder {
        return Good, reg, false;
      }
      if op.key != reg.key {
        return Conflict, reg, false;
      }
      if prHolder.prScope != op.scope || prHolder.prType != op.prType {
        return Check, reg, false;
      }
      return Good, reg, true;
    }

    /** spc_pr_release */
    method PrRelease(op: Op) returns (status: Status)
      requires Valid() && op.Release?
      modifies this, regs
      ensures Valid() && (view, status) == DoRelease(old(view), op) && regs == old(regs)
    {
      ReserveReleaseKeepInv(view, op);
      hide Mark, Find, RegsInv, DoRelease;
      var reg, ends;
      status, reg, ends := ReleaseChecks(op);
      if ends {
        SetType(reg, 0, 0);
        prHolder := null;
        view := view.(holder := None);
      }
    }

    /** spc_pr_clear */
    method PrClear(op: Op) returns (status: Status)
      requires Valid() && op.Clear?
      modifies this, regs
      ensures Valid() && (view, status) == DoClear(old(view), op)
      ensures forall r :: r in regs ==> r in old(regs)
    {
      if !op.ok {
        return Check;
      }
      var reg := Lookup(op.nexus);
      if reg == null || reg.key != op.key {
        return Conflict;
      }
      if prHolder != null {
        prHolder.prScope, prHolder.prType, prHolder := 0, 0, null;
      }
      while regs != []
        invariant prHolder == null && prgeneration == old(prgeneration)
        invariant forall r :: r in regs ==> r in old(regs)
        decreases |regs|
      {
        regs := regs[1..];
      }
      prgeneration := Next(prgeneration);
      view := PrState([], None, prgeneration);
      return Good;
    }

    /** check_registration_key_exists, as a yes or no. */
    method KeyIsThere(key: uint64) returns (b: bool)
      requires Valid()
      ensures b == KeyExists(view.regs, key)
    {
      var i := 0;
      while i < |regs|
        invariant 0 <= i <= |regs|
        invariant forall j :: 0 <= j < i ==> view.regs[j].key != key
      {
        assert view.regs[i].key == regs[i].key;
        if regs[i].key == key {
          assert view.regs[i] in view.regs;
          return true;
        }
        i := i + 1;
      }
      return false;
    }

    lemma SameNexus(i: nat, reg: Registration)
      requires Tied() && RegsInv(view.regs) && reg in regs && i < |regs|
      ensures view.regs[i] == regs[i].Snap()
      ensures regs[i] == reg <==> view.regs[i].nexus == reg.nexus
    {
      var k :| 0 <= k < |regs| && regs[k] == reg;
      At(k);
      At(i);
    }

    /** The loop of PREEMPT that unregisters the others it names. */
    method DropNamed(reg: Registration, saKey: uint64, all: bool)
      requires Tied() && RegsInv(view.regs) && reg in regs
      modifies `regs, `view
      ensures Tied() && view == old(view).(regs := Survivors(old(view).regs, reg.nexus, saKey, all))
      ensures forall r :: r in regs ==> r in old(regs)
    {
      hide Remove, RegsInv, Survivors;
      ghost var whole := view.regs;
      assert whole[0..] == whole && whole[..0] == [];
      var i := 0;
      while i < |regs|
        invariant 0 <= i <= |regs| && Tied() && RegsInv(view.regs) && reg in regs
        invariant view == old(view).(regs := view.regs)
        invariant SurvivorsFrom(view.regs, i, reg.nexus, saKey, all) == SurvivorsFrom(whole, 0, reg.nexus, saKey, all)
        invariant forall r :: r in regs ==> r in old(regs)
        decreases |regs| - i
      {
        SameNexus(i, reg);
        SurvivorsNext(view.regs, i, reg.nexus, saKey, all);
        if regs[i] != reg && (regs[i].key == saKey || all) {
          RemoveKeepsRegs(view.regs, i);
          ListDel(regs[i], i);
        } else {
          i := i + 1;
        }
      }
      SurvivorsEnd(view.regs, reg.nexus, saKey, all);
      SurvivorsBegin(whole, reg.nexus, saKey, all);
    }

    /** The checks of PREEMPT, and what it is going to do: unregister everyone else (all),
        take the reservation over (takes). */
    method PreemptChecks(op: Op) returns (status: Status, reg: Registration?, all: bool, takes: bool)
      requires Valid() && op.Preempt?
      ensures status == DoPreempt(view, op).1
      ensures status == Good ==>
                && reg != null && reg in regs && reg.nexus == op.nexus
                && DoPreempt(view, op).0
                   == PrState(Survivors(if takes then Mark(view.regs, op.nexus, op.scope, op.prType) else view.regs,
                                        op.nexus, op.saKey, all),
                              if takes then Some(op.nexus) else view.holder,
                              Next(view.generation))
    {
      hide Mark, Survivors, RegsInv;
      all, takes := false, false;
      if !op.ok {
        return Check, null, all, takes;
      }
      reg := Lookup(op.nexus);
      if reg == null || reg.key != op.key {
        return Conflict, null, all, takes;
      }
      if op.saKey != 0 {
        var there := KeyIsThere(op.saKey);
        if !there {
          return Conflict, null, all, takes;
        }
      }
      if prHolder != null {
        HolderAt();
        if AllRegistrants(prHolder.prType) {
          all := op.saKey == 0;
          takes := all;
        } else {
          if prHolder.key != op.saKey && op.saKey == 0 {
            return Check, null, all, takes;
          }
          takes := prHolder.key == op.saKey;
        }
      }
      status := Good;
    }

    /** The holder pointer is live as soon as the view has a live holder of its nexus. */
    lemma Relink()
      requires Tied() && RegsInv(view.regs)
      requires if prHolder == null then view.holder == None else view.holder == Some(prHolder.nexus)
      requires prHolder != null ==> forall r :: r in regs && r.nexus == prHolder.nexus ==> r == prHolder
      ensures Valid() <==> Inv(view)
      ensures prHolder != null && prHolder in regs ==> Inv(view)
    {
      hide RegsInv;
      if prHolder != null {
        var i := Find(view.regs, prHolder.nexus);
        if i < |regs| {
          assert view.regs[i] == regs[i].Snap() && regs[i] in regs;
        }
        if prHolder in regs {
          var k :| 0 <= k < |regs| && regs[k] == prHolder;
          At(k);
        }
      }
    }

    lemma OneOfEachNexus(r: Registration)
      requires Valid() && r in regs
      ensures forall x :: x in regs && x.nexus == r.nexus ==> x == r
    {
      forall x | x in regs && x.nexus == r.nexus
        ensures x == r
      {
        var i := Where(x);
        var j := Where(r);
      }
    }

    /** spc_pr_preempt. In the one case Dangles describes the holder pointer is left on a
        registration that is no longer in the list. */
    method PrPreempt(op: Op) returns (status: Status)
      requires Valid() && op.Preempt?
      modifies this, regs
      ensures (view, status) == DoPreempt(old(view), op)
      ensures if Dangles(old(view), op) then Tied() && prHolder == old(prHolder) && prHolder !in regs else Valid()
      ensures forall r :: r in regs ==> r in old(regs)
    {
      hide Mark, Survivors, RegsInv, DoPreempt, Dangles, Find;
      PreemptKeepsInv(view, op);
      PreemptOutcome(view, op);
      var reg, all, takes;
      status, reg, all, takes := PreemptChecks(op);
      if status == Good {
        if prHolder != null {
          OneOfEachNexus(prHolder);
        }
        OneOfEachNexus(reg);
        if takes {
          TakeOver(reg, op.scope, op.prType);
        }
        DropNamed(reg, op.saKey, all);
        prgeneration := Next(prgeneration);
        view := view.(generation := prgeneration);
        Relink();
      }
    }

    /** spc_access_check */
    method AccessChecked(nexus: Nexus, bits: Bits) returns (refused: bool)
      requires Valid()
      ensures refused == AccessCheck(view, nexus, bits)
    {
      if prHolder == null {
        return false;
      }
      HolderAt();
      var reg := Lookup(nexus);
      if reg != null {
        var isHolder := IsPrHolder(reg);
        if isHolder {
          return false;
        }
      }
      var prType := prHolder.prType;
      if prType == EXCLUSIVE_ACCESS {
        return bits.eaFa;
      } else if prType == WRITE_EXCLUSIVE {
        return bits.weFa;
      } else if reg != null {
        return bits.rrFr;
      } else if prType == WRITE_EXCLUSIVE_REGONLY || prType == WRITE_EXCLUSIVE_ALLREG {
        return bits.weFn;
      } else {
        return bits.eaFn;
      }
    }
  }
}
