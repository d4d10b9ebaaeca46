/** Persistent reservations from outside: which service actions are accepted, which keys are
    registered after one, and who holds the reservation then. */
module ReservationLaws {
  import opened Wrappers
  import opened Reservations

  /** The key a nexus is registered with. */
  function KeyOf(s: PrState, nexus: Nexus): Option<uint64> {
    if Registered(s, nexus) then Some(RegOf(s, nexus).key) else None
  }

  /** What READ RESERVATION shows of the holder. */
  datatype Held = Held(nexus: Nexus, scope: nibble, prType: nibble)

  function Hold(s: PrState): Option<Held> {
    if HasHolder(s) then Some(Held(s.holder.value, Holder(s).scope, Holder(s).prType)) else None
  }

  /** There is a reservation, and all registrants hold it. */
  predicate HeldByAll(s: PrState) {
    HasHolder(s) && Holder(s).prType in {7, 8}
  }

  /** There is a reservation, and this registrant holds it. */
  predicate HeldBy(s: PrState, nexus: Nexus) {
    HasHolder(s) && Registered(s, nexus) && (HeldByAll(s) || s.holder == Some(nexus))
  }

  // ----- which service actions are accepted

  lemma KeyThere(s: PrState, key: uint64)
    requires Inv(s)
    ensures KeyExists(s.regs, key) <==> exists n :: KeyOf(s, n) == Some(key)
  {
    if KeyExists(s.regs, key) {
      var r :| r in s.regs && r.key == key;
      var i :| 0 <= i < |s.regs| && s.regs[i] == r;
      FindIs(s.regs, i);
      assert KeyOf(s, r.nexus) == Some(key);
    }
    if n :| KeyOf(s, n) == Some(key) {
      assert RegOf(s, n) in s.regs;
    }
  }

  lemma KeyNotZero(s: PrState, nexus: Nexus)
    requires Inv(s)
    ensures KeyOf(s, nexus) != Some(0)
  {
    if Registered(s, nexus) {
      assert RegOf(s, nexus) in s.regs;
    }
  }

  /** A service action is accepted exactly if its parameters are in order and: REGISTER names the
      sender's key, or zero if it has none, or ignores it; RESERVE is for a known type and the
      logical unit, by a registrant, and repeats the reservation there is; RELEASE, if its sender
      holds the reservation, names its key, scope and type; CLEAR names its sender's key; PREEMPT
      names that too, and a registered key, or none if no one holder stands against it. */
  lemma AcceptedIff(s: PrState, op: Op)
    requires Inv(s)
    ensures Apply(s, op).1 == Good <==> (op.ok &&
              match op
              case Register(_, me, force, key, _) => force || KeyOf(s, me) == if key == 0 then None else Some(key)
              case Reserve(_, me, scope, prType) =>
                && prType in {1, 3, 5, 6, 7, 8} && scope == 0 && Registered(s, me)
                && (HasHolder(s) ==> HeldBy(s, me) && Holder(s).scope == scope && Holder(s).prType == prType)
              case Release(_, me, key, scope, prType) =>
                && Registered(s, me)
                && (HeldBy(s, me) ==>
                      KeyOf(s, me) == Some(key) && Holder(s).scope == scope && Holder(s).prType == prType)
              case Clear(_, me, key) => KeyOf(s, me) == Some(key)
              case Preempt(_, me, key, saKey, _, _) =>
                && KeyOf(s, me) == Some(key)
                && if saKey == 0 then !HasHolder(s) || HeldByAll(s) else exists n :: KeyOf(s, n) == Some(saKey))
  {
    hide Find, OnePerNexus;
    match op
    case Register(_, me, _, _, _) => KeyNotZero(s, me);
    case Preempt(_, _, _, saKey, _, _) =>
      KeyThere(s, saKey);
      if HasHolder(s) {
        KeyNotZero(s, s.holder.value);
      }
    case _ =>
  }

  /** A refused one changes nothing. It is answered with CHECK CONDITION if its parameters are
      not in order, RESERVE asks for an unknown type or scope, RELEASE by a holder with its key
      has another scope or type, or PREEMPT names no key while one holder stands against it; else
      it is a reservation conflict. */
  lemma RefusedIff(s: PrState, op: Op)
    requires Inv(s)
    ensures Apply(s, op).1 != Good ==> Apply(s, op).0 == s
    ensures Apply(s, op).1 == Check <==> (!op.ok ||
              match op
              case Reserve(_, _, scope, prType) => prType !in {1, 3, 5, 6, 7, 8} || scope != 0
              case Release(_, me, key, scope, prType) =>
                HeldBy(s, me) && KeyOf(s, me) == Some(key) && (Holder(s).scope != scope || Holder(s).prType != prType)
              case Preempt(_, me, key, saKey, _, _) =>
                KeyOf(s, me) == Some(key) && saKey == 0 && HasHolder(s) && !HeldByAll(s)
              case _ => false)
  {
    hide Find, OnePerNexus;
    if op.Preempt? && HasHolder(s) {
      KeyNotZero(s, s.holder.value);
    }
  }

  // ----- which keys are registered afterwards

  lemma FoundKey(s: PrState, i: nat)
    requires OnePerNexus(s.regs) && i < |s.regs|
    ensures KeyOf(s, s.regs[i].nexus) == Some(s.regs[i].key)
  {
    FindIs(s.regs, i);
  }

  lemma NoKey(s: PrState, nexus: Nexus)
    requires forall r :: r in s.regs ==> r.nexus != nexus
    ensures KeyOf(s, nexus) == None
  {
    assert Registered(s, nexus) ==> RegOf(s, nexus) in s.regs;
  }

  lemma RemovedKeys(s: PrState, t: PrState, i: nat, n: Nexus)
    requires OnePerNexus(s.regs) && i < |s.regs| && |t.regs| == |s.regs| - 1
    requires forall k :: 0 <= k < |t.regs| ==>
               var r := s.regs[if k < i then k else k + 1];
               t.regs[k].nexus == r.nexus && t.regs[k].key == r.key
    ensures KeyOf(t, n) == if n == s.regs[i].nexus then None else KeyOf(s, n)
  {
    forall a, b | 0 <= a < b < |t.regs|
      ensures t.regs[a].nexus != t.regs[b].nexus
    {
      assert s.regs[if a < i then a else a + 1].nexus != s.regs[if b < i then b else b + 1].nexus;
    }
    if n == s.regs[i].nexus {
      NoKey(t, n);
    } else if Registered(s, n) {
      var j := Find(s.regs, n);
      FoundKey(t, if j < i then j else j - 1);
    } else {
      NoKey(t, n);
    }
  }

  lemma SameKeys(s: PrState, t: PrState, n: Nexus)
    requires OnePerNexus(s.regs) && |t.regs| == |s.regs|
    requires forall k :: 0 <= k < |t.regs| ==> t.regs[k].nexus == s.regs[k].nexus && t.regs[k].key == s.regs[k].key
    ensures KeyOf(t, n) == KeyOf(s, n)
  {
    SameFind(s.regs, t.regs, n);
  }

  lemma UnregisteredKeys(s: PrState, me: Nexus, n: Nexus)
    requires Inv(s) && Registered(s, me)
    ensures KeyOf(Unregister(s, me), n) == if n == me then None else KeyOf(s, n)
  {
    RemovedKeys(s, Unregister(s, me), Find(s.regs, me), n);
  }

  lemma RegisteredKeys(s: PrState, op: Op, n: Nexus)
    requires Inv(s) && op.Register? && DoRegister(s, op).1 == Good
    ensures KeyOf(DoRegister(s, op).0, n)
         == if n != op.nexus then KeyOf(s, n) else if op.saKey == 0 then None else Some(op.saKey)
  {
    var t := DoRegister(s, op).0;
    if Registered(s, op.nexus) && op.saKey == 0 {
      UnregisteredKeys(s, op.nexus, n);
    } else if Registered(s, op.nexus) {
      SameFind(s.regs, t.regs, n);
      FindIs(s.regs, Find(s.regs, op.nexus));
    } else if op.saKey != 0 {
      RegisterKeepsInv(s, op);
      if n == op.nexus {
        FindIs(t.regs, |s.regs|);
      } else if Registered(s, n) {
        FindIs(t.regs, Find(s.regs, n));
      } else {
        NoKey(t, n);
      }
    }
  }

  lemma SurvivingKeys(s: PrState, t: PrState, me: Nexus, saKey: uint64, all: bool, n: Nexus)
    requires OnePerNexus(s.regs) && t.regs == Survivors(s.regs, me, saKey, all)
    ensures KeyOf(t, n) == if n != me && (KeyOf(s, n) == Some(saKey) || all) then None else KeyOf(s, n)
  {
    SurvivorsOnePerNexus(s.regs, me, saKey, all);
    if Registered(t, n) {
      var r := RegOf(t, n);
      var i :| 0 <= i < |s.regs| && s.regs[i] == r;
      FindIs(s.regs, i);
    } else if Registered(s, n) {
      SurvivorsFind(s.regs, me, saKey, all, Find(s.regs, n));
    }
  }

  lemma PreemptedKeys(s: PrState, op: Op, n: Nexus)
    requires Inv(s) && op.Preempt? && DoPreempt(s, op).1 == Good
    ensures KeyOf(DoPreempt(s, op).0, n)
         == if n != op.nexus && (KeyOf(s, n) == Some(op.saKey) || (op.saKey == 0 && HeldByAll(s))) then None
            else KeyOf(s, n)
  {
    hide Mark;
    var t := DoPreempt(s, op).0;
    MarkKeeps(s.regs, op.nexus, op.scope, op.prType);
    var all := HeldByAll(s) && op.saKey == 0;
    var takes := HasHolder(s) && (all || (!HeldByAll(s) && Holder(s).key == op.saKey));
    var before := if takes then s.(regs := Mark(s.regs, op.nexus, op.scope, op.prType)) else s;
    assert t.regs == Survivors(before.regs, op.nexus, op.saKey, all);
    SameKeys(s, before, n);
    SurvivingKeys(before, t, op.nexus, op.saKey, all, n);
  }

  /** What every nexus is registered with after any service action: a refused one changes no
      key; REGISTER sets or takes away the sender's; CLEAR takes all away; PREEMPT takes away
      those it names, or all under a reservation of all registrants that it names none of, but
      never the sender's. */
  lemma KeysAfter(s: PrState, op: Op, n: Nexus)
    requires Inv(s)
    ensures KeyOf(Apply(s, op).0, n) == if Apply(s, op).1 != Good then KeyOf(s, n) else
              match op
              case Register(_, me, _, _, saKey) =>
                if n != me then KeyOf(s, n) else if saKey == 0 then None else Some(saKey)
              case Clear(_, _, _) => None
              case Preempt(_, me, _, saKey, _, _) =>
                if n != me && (KeyOf(s, n) == Some(saKey) || (saKey == 0 && HeldByAll(s))) then None else KeyOf(s, n)
              case _ => KeyOf(s, n)
  {
    if Apply(s, op).1 == Good {
      match op
      case Register(_, _, _, _, _) => RegisteredKeys(s, op, n);
      case Preempt(_, _, _, _, _, _) => PreemptedKeys(s, op, n);
      case Clear(_, _, _) =>
      case _ =>
        MarkKeeps(s.regs, op.nexus, op.scope, op.prType);
        MarkKeeps(s.regs, op.nexus, 0, 0);
        SameKeys(s, Apply(s, op).0, n);
    }
  }

  // ----- who holds the reservation afterwards

  lemma HeldRegistration(s: PrState, t: PrState, i: nat)
    requires OnePerNexus(t.regs) && i < |t.regs| && t.holder == Some(t.regs[i].nexus)
    ensures Hold(t) == Some(Held(t.regs[i].nexus, t.regs[i].scope, t.regs[i].prType))
  {
    FindIs(t.regs, i);
  }

  lemma UnregisteredHold(s: PrState, me: Nexus)
    requires Inv(s) && Registered(s, me)
    ensures var t := Unregister(s, me);
            Hold(t) == if !HeldBy(s, me) then Hold(s)
                       else if !HeldByAll(s) || t.regs == [] then None
                       else Some(Held(t.regs[0].nexus, Holder(s).scope, Holder(s).prType))
  {
    UnregisterKeepsInv(s, me);
    var t, i := Unregister(s, me), Find(s.regs, me);
    if HeldBy(s, me) {
      if HeldByAll(s) && t.regs != [] {
        HeldRegistration(s, t, 0);
      }
    } else if HasHolder(s) {
      var h := Find(s.regs, s.holder.value);
      var k := if h < i then h else h - 1;
      assert t.regs[k] == s.regs[h];
      HeldRegistration(s, t, k);
    }
  }

  lemma RegisteredHold(s: PrState, op: Op)
    requires Inv(s) && op.Register?
    ensures var t := DoRegister(s, op).0;
            Hold(t) == if DoRegister(s, op).1 != Good || op.saKey != 0 || !HeldBy(s, op.nexus) then Hold(s)
                       else if !HeldByAll(s) || t.regs == [] then None
                       else Some(Held(t.regs[0].nexus, Holder(s).scope, Holder(s).prType))
  {
    RegisterKeepsInv(s, op);
    var t := DoRegister(s, op).0;
    if DoRegister(s, op).1 == Good && Registered(s, op.nexus) && op.saKey == 0 {
      UnregisteredHold(s, op.nexus);
      assert Hold(t) == Hold(Unregister(s, op.nexus));
    } else if HasHolder(s) && t != s {
      HeldRegistration(s, t, Find(s.regs, s.holder.value));
    }
  }

  lemma MarkedHold(s: PrState, me: Nexus, scope: nibble, prType: nibble)
    requires Inv(s) && Registered(s, me)
    ensures Hold(s.(regs := Mark(s.regs, me, scope, prType), holder := Some(me))) == Some(Held(me, scope, prType))
  {
    MarkKeeps(s.regs, me, scope, prType);
  }

  /** The PREEMPT takes the reservation over. */
  predicate Takes(s: PrState, saKey: uint64) {
    HasHolder(s) && if HeldByAll(s) then saKey == 0 else KeyOf(s, s.holder.value) == Some(saKey)
  }

  lemma SurvivingHold(s: PrState, t: PrState, me: Nexus, saKey: uint64, all: bool)
    requires Inv(s) && HasHolder(s) && t.holder == s.holder && t.regs == Survivors(s.regs, me, saKey, all)
    ensures Hold(t)
         == if s.holder.value != me && (KeyOf(s, s.holder.value) == Some(saKey) || all) then None else Hold(s)
  {
    SurvivorsOnePerNexus(s.regs, me, saKey, all);
    SurvivorsFind(s.regs, me, saKey, all, Find(s.regs, s.holder.value));
    if HasHolder(t) {
      var r := RegOf(t, t.holder.value);
      var i :| 0 <= i < |s.regs| && s.regs[i] == r;
      FindIs(s.regs, i);
    }
  }

  lemma PreemptedHold(s: PrState, op: Op)
    requires Inv(s) && op.Preempt? && DoPreempt(s, op).1 == Good
    ensures Hold(DoPreempt(s, op).0)
         == if Takes(s, op.saKey) then Some(Held(op.nexus, op.scope, op.prType))
            else if Dangles(s, op) then None
            else Hold(s)
  {
    hide Mark;
    var t := DoPreempt(s, op).0;
    if Takes(s, op.saKey) {
      var before := s.(regs := Mark(s.regs, op.nexus, op.scope, op.prType), holder := Some(op.nexus));
      MarkedHold(s, op.nexus, op.scope, op.prType);
      MarkKeepsRegs(s.regs, op.nexus, op.scope, op.prType);
      SurvivingHold(before, t, op.nexus, op.saKey, HeldByAll(s) && op.saKey == 0);
    } else if HasHolder(s) {
      SurvivingHold(s, t, op.nexus, op.saKey, false);
    }
  }

  /** Who holds the reservation after any service action, and of which scope and type: it ends
      when its holder releases it, when its one holder or the last of all registrants
      unregisters, with CLEAR, and with the PREEMPT that frees its recorded holder; otherwise it
      is handed to the first registrant left, taken by the sender of a PREEMPT, or stays. */
  lemma HoldAfter(s: PrState, op: Op)
    requires Inv(s)
    ensures var t := Apply(s, op).0;
            Hold(t) == if Apply(s, op).1 != Good then Hold(s) else
              match op
              case Register(_, me, _, _, saKey) =>
                if saKey != 0 || !HeldBy(s, me) then Hold(s)
                else if !HeldByAll(s) || t.regs == [] then None
                else Some(Held(t.regs[0].nexus, Holder(s).scope, Holder(s).prType))
              case Reserve(_, me, scope, prType) => if HasHolder(s) then Hold(s) else Some(Held(me, scope, prType))
              case Release(_, me, _, _, _) => if HeldBy(s, me) then None else Hold(s)
              case Clear(_, _, _) => None
              case Preempt(_, me, _, saKey, scope, prType) =>
                if Takes(s, saKey) then Some(Held(me, scope, prType)) else if Dangles(s, op) then None else Hold(s)
  {
    match op
    case Register(_, _, _, _, _) => RegisteredHold(s, op);
    case Reserve(_, me, scope, prType) =>
      if Apply(s, op).1 == Good && !HasHolder(s) {
        MarkedHold(s, me, scope, prType);
      }
    case Release(_, _, _, _, _) =>
    case Clear(_, _, _) =>
    case Preempt(_, _, _, _, _, _) =>
      if Apply(s, op).1 == Good {
        PreemptedHold(s, op);
      }
  }

  /** A reservation is over exactly after an accepted RELEASE of a holder, an accepted
      unregistration of its one holder or of the last registrant, an accepted CLEAR, or the
      PREEMPT that frees the recorded holder of a reservation of all. */
  predicate Ends(s: PrState, op: Op) {
    match op
    case Register(_, me, _, _, saKey) => saKey == 0 && HeldBy(s, me) && (!HeldByAll(s) || |s.regs| == 1)
    case Reserve(_, _, _, _) => false
    case Release(_, me, _, _, _) => HeldBy(s, me)
    case Clear(_, _, _) => true
    case Preempt(_, _, _, _, _, _) => Dangles(s, op)
  }

  lemma OverIff(s: PrState, op: Op)
    requires Inv(s) && HasHolder(s)
    ensures !HasHolder(Apply(s, op).0) <==> Apply(s, op).1 == Good && Ends(s, op)
    ensures !HasHolder(Apply(s, op).0) ==> forall n, bits :: !AccessCheck(Apply(s, op).0, n, bits)
  {
    HoldAfter(s, op);
  }

  /** Of a reservation with one holder a: it is a's no more exactly after an accepted RELEASE or
      unregistration by a, an accepted CLEAR, or an accepted PREEMPT of a's key by another
      registrant, who then holds it. */
  lemma OverForOneIff(s: PrState, op: Op, a: Nexus)
    requires Inv(s) && HasHolder(s) && !HeldByAll(s) && s.holder == Some(a)
    ensures var t := Apply(s, op).0;
            !(HasHolder(t) && t.holder == Some(a)) <==>
              (Apply(s, op).1 == Good &&
                match op
                case Register(_, me, _, _, saKey) => me == a && saKey == 0
                case Reserve(_, _, _, _) => false
                case Release(_, me, _, _, _) => me == a
                case Clear(_, _, _) => true
                case Preempt(_, me, _, saKey, _, _) => me != a && KeyOf(s, a) == Some(saKey))
  {
    hide Holder;
    HoldAfter(s, op);
  }

  /** A holder that releases with its key, scope and type frees the unit for everyone; every
      registration stays. */
  lemma ReleaseFrees(s: PrState, a: Nexus)
    requires Inv(s) && HeldBy(s, a)
    ensures var (t, status) := Apply(s, Release(true, a, RegOf(s, a).key, Holder(s).scope, Holder(s).prType));
            && status == Good && t.holder == None && Inv(t) && t.generation == s.generation
            && (forall n, bits :: !AccessCheck(t, n, bits))
            && (forall n :: KeyOf(t, n) == KeyOf(s, n))
            && Registered(t, a) && RegOf(t, a).scope == 0 && RegOf(t, a).prType == 0
  {
    var op := Release(true, a, RegOf(s, a).key, Holder(s).scope, Holder(s).prType);
    var t := Apply(s, op).0;
    InvIffNotDangling(s, op);
    AcceptedIff(s, op);
    forall n
      ensures KeyOf(t, n) == KeyOf(s, n)
    {
      KeysAfter(s, op, n);
    }
    FindIs(t.regs, Find(s.regs, a));
  }

  lemma UnregisteredGeneration(s: PrState, me: Nexus)
    requires Inv(s) && Registered(s, me)
    ensures var over := HasHolder(s) && Ends(s, Register(true, me, true, 0, 0));
            Unregister(s, me).generation == if over then Next(s.generation) else s.generation
  {
    var regs := Remove(s.regs, Find(s.regs, me));
    assert |regs| == |s.regs| - 1;
    hide Remove, Inv;
  }

  /** The generation counts the accepted REGISTER, CLEAR and PREEMPT service actions, and a
      REGISTER that ends a reservation twice. */
  lemma GenerationAfter(s: PrState, op: Op)
    requires Inv(s)
    ensures Apply(s, op).0.generation ==
              (s.generation + if Apply(s, op).1 != Good || op.Reserve? || op.Release? then 0
                              else if op.Register? && HasHolder(s) && Ends(s, op) then 2 else 1) % 0x1_0000_0000
  {
    hide Unregister, Inv, Find;
    if op.Register? && Registered(s, op.nexus) {
      UnregisteredGeneration(s, op.nexus);
    }
  }
}
