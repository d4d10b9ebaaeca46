/** The five rules leave decisions possible, and each of them is needed: runs that break just
    one of them and end with two servers that have decided on different commands. */
module PaxosDisagreement {
  import opened PaxosAgreement
  import opened PaxosRounds
  import opened Wrappers

  function RulesBut(but: Option<Rule>): set<Rule> {
    if but.None? then ALL_RULES else ALL_RULES - {but.value}
  }

  /** There is a run in a cell of n to s that obeys every rule, but for this one if there is
      one. */
  ghost predicate Reached(n: nat, but: Option<Rule>, s: State) {
    exists steps :: Leads(Start(n), steps, s) && AllCareful(Start(n), steps, RulesBut(but))
  }

  lemma StartReached(n: nat, but: Option<Rule>) returns (s: State)
    ensures s == Start(n) && Reached(n, but, s)
  {
    s := Start(n);
    assert Leads(Start(n), [], s) && AllCareful(Start(n), [], RulesBut(but));
  }

  lemma {:induction false} LeadsOn(s: State, steps: seq<Step>, t: State, e: Step, rules: set<Rule>)
    requires Leads(s, steps, t) && AllCareful(s, steps, rules) && Possible(t, e) && Careful(t, e, rules)
    ensures Leads(s, steps + [e], Apply(t, e)) && AllCareful(s, steps + [e], rules)
    decreases |steps|
  {
    hide Possible, Apply, Careful;
    if steps == [] {
      assert [e][1..] == [];
      assert Leads(Apply(t, e), [], Apply(t, e));
    } else {
      LeadsOn(Apply(s, steps[0]), steps[1..], t, e, rules);
      assert (steps + [e])[1..] == steps[1..] + [e];
    }
  }

  /** One more step. */
  lemma Next(n: nat, but: Option<Rule>, s: State, e: Step) returns (t: State)
    requires Reached(n, but, s) && Possible(s, e) && forall r: Rule :: but != Some(r) ==> Obeys(s, e, r)
    ensures t == Apply(s, e) && Reached(n, but, t)
  {
    hide Possible, Apply, Obeys;
    t := Apply(s, e);
    var steps :| Leads(Start(n), steps, s) && AllCareful(Start(n), steps, RulesBut(but));
    assert Careful(s, e, RulesBut(but));
    LeadsOn(Start(n), steps, s, e, RulesBut(but));
  }

  // ----- single steps

  lemma Asks(n: nat, but: Option<Rule>, s: State, i: nat) returns (t: State)
    requires Reached(n, but, s) && i < |s.servers| && !s.servers[i].init
    ensures Reached(n, but, t) && s.net <= t.net && s.votes <= t.votes
    ensures t.servers == s.servers[i := s.servers[i].(init := true)]
  {
    hide Reached;
    t := Next(n, but, s, Request(i));
  }

  lemma Starts(n: nat, but: Option<Rule>, s: State, i: nat, sv: Server) returns (t: State)
    requires Reached(n, but, s) && i < |s.servers|
    requires var was := s.servers[i];
             sv == if was.mode.Empty? && was.init
                   then was.(mode := Waiting, tag := i, from := i, cmd := Some(i), ballot := Round(0, i)) else was
    ensures var r := Round(sv.cur.sn + 1, i);
            && Reached(n, but, t) && s.net <= t.net && s.votes <= t.votes && Collect(r, ReportOf(sv)) in t.net
            && t.servers == s.servers[i := sv.(cur := r, phase := Gathering, inf := {i}, told := false)]
  {
    hide Reached;
    t := Next(n, but, s, NewRound(i));
  }

  lemma Joins(n: nat, but: Option<Rule>, s: State, i: nat, r: Round, asked: Report) returns (t: State)
    requires Reached(n, but, s) && i < |s.servers| && Collect(r, asked) in s.net && r.id != i
    requires Le(s.servers[i].cur, r)
    ensures Reached(n, but, t) && s.net <= t.net && s.votes <= t.votes
    ensures Last(i, r, Answer(s.servers[i], i, asked)) in t.net && t.servers == s.servers[i := s.servers[i].(cur := r)]
  {
    hide Reached, Answer;
    t := Next(n, but, s, RecvCollect(i, Collect(r, asked)));
  }

  /** An answer the leader counts, and its record with it. */
  ghost predicate Counted(s: State, i: nat, fr: nat, report: Report, sv: Server) {
    && i < |s.servers| && Last(fr, s.servers[i].cur, report) in s.net
    && s.servers[i].phase.Gathering? && s.servers[i].cur.id == i && sv == Counts(s.servers[i], fr, report)
  }

  lemma Hears(n: nat, but: Option<Rule>, s: State, i: nat, fr: nat, report: Report, sv: Server) returns (t: State)
    requires Reached(n, but, s) && Counted(s, i, fr, report, sv) && !Majority(|s.servers|, sv.inf)
    ensures Reached(n, but, t) && s.net <= t.net && s.votes <= t.votes && t.servers == s.servers[i := sv]
  {
    hide Reached;
    t := Next(n, but, s, RecvLast(i, Last(fr, s.servers[i].cur, report)));
  }

  /** The answer that completes the majority, with a value to cast. */
  ghost predicate Completes(but: Option<Rule>, s: State, i: nat, fr: nat, report: Report, sv: Server) {
    && Counted(s, i, fr, report, sv) && Majority(|s.servers|, sv.inf) && !sv.mode.Empty? && !sv.mode.Decided?
    && (sv.told ==> but == Some(UndecidedAnswers))
    && (sv.from == i ==> sv.cmd.Some? && (but == Some(OwnCommand) || sv.cmd == Some(sv.tag)) && Le(sv.voted, sv.cur))
  }

  lemma HearsLast(n: nat, but: Option<Rule>, s: State, i: nat, fr: nat, report: Report, sv: Server) returns (t: State)
    requires Reached(n, but, s) && Completes(but, s, i, fr, report, sv)
    ensures Reached(n, but, t) && t == Casts(s, i, sv.(phase := Casting))
  {
    hide Reached, Casts;
    t := Next(n, but, s, RecvLast(i, Last(fr, s.servers[i].cur, report)));
  }

  /** The leader has the command. */
  lemma CastsOwn(n: nat, but: Option<Rule>, s: State, i: nat, fr: nat, report: Report, sv: Server, acc: set<nat>)
    returns (t: State)
    requires Reached(n, but, s) && Completes(but, s, i, fr, report, sv) && sv.from == i && acc == sv.acc + {i}
    ensures Reached(n, but, t) && s.net <= t.net && s.votes <= t.votes
    ensures Begin(sv.cur, sv.tag, sv.cmd.value, false) in t.net && Vote(i, sv.cur) in t.votes
    ensures t.servers == s.servers[i := sv.(
              phase := Casting, mode := Accepting, ballot := sv.cur, voted := sv.cur, acc := acc)]
  {
    hide Reached, Counted;
    t := HearsLast(n, but, s, i, fr, report, sv);
  }

  lemma CastsVia(n: nat, but: Option<Rule>, s: State, i: nat, fr: nat, report: Report, sv: Server) returns (t: State)
    requires Reached(n, but, s) && Completes(but, s, i, fr, report, sv) && sv.from != i
    ensures Reached(n, but, t) && s.net <= t.net && s.votes <= t.votes
    ensures Redirect(sv.from, sv.cur, sv.tag) in t.net
    ensures t.servers == s.servers[i := sv.(phase := Casting, mode := Accepting)]
  {
    hide Reached, Counted;
    t := HearsLast(n, but, s, i, fr, report, sv);
  }

  lemma Redirects(n: nat, but: Option<Rule>, s: State, i: nat, r: Round, v: Tag) returns (t: State)
    requires Reached(n, but, s) && i < |s.servers| && Redirect(i, r, v) in s.net && s.servers[i].cmd.Some?
    requires but == Some(SameTag) || s.servers[i].tag == v
    requires but == Some(OwnCommand) || s.servers[i].cmd == Some(s.servers[i].tag)
    ensures Reached(n, but, t) && s.net <= t.net && s.votes <= t.votes && t.servers == s.servers
    ensures Begin(r, s.servers[i].tag, s.servers[i].cmd.value, true) in t.net
  {
    hide Reached;
    t := Next(n, but, s, RecvRedirect(i, Redirect(i, r, v)));
  }

  lemma Accepts(n: nat, but: Option<Rule>, s: State, i: nat, r: Round, v: Tag, cmd: Command, redirected: bool)
    returns (t: State)
    requires Reached(n, but, s) && i < |s.servers| && Begin(r, v, cmd, redirected) in s.net
    requires r.id == i ==> redirected
    requires Le(s.servers[i].cur, r) && !s.servers[i].mode.Decided?
    requires but == Some(RisingVotes) || Le(s.servers[i].voted, r)
    ensures Reached(n, but, t) && s.net <= t.net && s.votes <= t.votes
    ensures Accept(i, r, cmd) in t.net && Vote(i, r) in t.votes
    ensures var sv := s.servers[i];
            t.servers == s.servers[i := sv.(mode := if sv.mode.Empty? then Waiting else sv.mode,
                                            ballot := r, voted := r, tag := v, from := i, cmd := Some(cmd))]
  {
    hide Reached;
    t := Next(n, but, s, RecvBegin(i, Begin(r, v, cmd, redirected)));
  }

  /** An acceptance that reaches the leader, and its record with it. */
  ghost predicate Tallied(s: State, i: nat, fr: nat, cmd: Command, sv: Server) {
    && i < |s.servers| && Accept(fr, s.servers[i].cur, cmd) in s.net && s.servers[i].cur.id == i
    && s.servers[i].mode.Accepting? && sv == Tallies(s.servers[i], i, fr, cmd)
  }

  lemma Gets(n: nat, but: Option<Rule>, s: State, i: nat, fr: nat, cmd: Command, sv: Server) returns (t: State)
    requires Reached(n, but, s) && Tallied(s, i, fr, cmd, sv) && !Decides(|s.servers|, sv, i)
    ensures Reached(n, but, t) && s.net <= t.net && s.votes <= t.votes && t.servers == s.servers[i := sv]
  {
    hide Reached, Tallies;
    t := Next(n, but, s, RecvAccept(i, Accept(fr, s.servers[i].cur, cmd)));
  }

  lemma Wins(n: nat, but: Option<Rule>, s: State, i: nat, fr: nat, cmd: Command, sv: Server) returns (t: State)
    requires Reached(n, but, s) && Tallied(s, i, fr, cmd, sv) && Decides(|s.servers|, sv, i)
    requires sv.from == i && sv.cmd.Some?
    requires but == Some(CountedVotes) || forall a :: a in sv.acc ==> Vote(a, sv.cur) in s.votes
    ensures Reached(n, but, t) && s.net <= t.net && s.votes <= t.votes
    ensures t.servers == s.servers[i := sv.(mode := Decided)]
  {
    hide Reached;
    t := Next(n, but, s, RecvAccept(i, Accept(fr, s.servers[i].cur, cmd)));
  }

  lemma Differ(s: State, i: nat, j: nat)
    requires i < |s.servers| && j < |s.servers| && s.servers[i].mode.Decided? && s.servers[j].mode.Decided?
    requires s.servers[i].cmd != s.servers[j].cmd
    ensures !Agreement(s)
  {
  }

  // ----- the rules are not too strict

  const FIRST_ROUND := Round(1, 0)
  const ASKED := Proposed(NO_ROUND, 0, 0)

  /** Server 0 in its first round, with the answers of the servers below k. */
  function Gatherer(k: nat): Server {
    Server(FIRST_ROUND, Gathering, Servers(k), Waiting, NO_ROUND, 0, 0, Some(0), {}, true, NO_ROUND, false)
  }

  /** And with what it has cast accepted by the servers below k, after h answers. */
  function Leader(h: nat, k: nat): Server {
    Server(FIRST_ROUND, Casting, Servers(h), Accepting, FIRST_ROUND, 0, 0, Some(0), Servers(k), true, FIRST_ROUND,
           false)
  }

  /** The servers from 1 on below k have joined the round. */
  ghost predicate JoinedUpTo(s: State, n: nat, k: nat) {
    && |s.servers| == n && Collect(FIRST_ROUND, ASKED) in s.net
    && forall j :: 1 <= j < n ==> s.servers[j] == if j < k then Fresh.(cur := FIRST_ROUND) else Fresh
  }

  lemma Gathers(n: nat, h: nat, k: nat, s: State) returns (t: State)
    requires 1 <= k < h - 1 && h <= n && h == n / 2 + 1
    requires Reached(n, None, s) && JoinedUpTo(s, n, k) && s.servers[0] == Gatherer(k)
    ensures |t.servers| == n && Reached(n, None, t) && JoinedUpTo(t, n, k + 1) && t.servers[0] == Gatherer(k + 1)
  {
    hide Reached, Casts;
    t := Joins(n, None, s, k, FIRST_ROUND, ASKED);
    assert Servers(k) + {k} == Servers(k + 1);
    t := Hears(n, None, t, 0, k, ASKED, Gatherer(k + 1));
  }

  lemma GathersUpTo(n: nat, h: nat) returns (s: State)
    requires 1 < h <= n && h == n / 2 + 1
    ensures Reached(n, None, s) && JoinedUpTo(s, n, h - 1) && s.servers[0] == Gatherer(h - 1)
  {
    hide Reached, Casts;
    s := StartReached(n, None);
    s := Asks(n, None, s, 0);
    s := Starts(n, None, s, 0, Fresh.(mode := Waiting, tag := 0, from := 0, cmd := Some(0), init := true));
    assert {0} == Servers(1);
    assert JoinedUpTo(s, n, 1) && s.servers[0] == Gatherer(1);
    hide JoinedUpTo, Gatherer;
    var k := 1;
    while k < h - 1
      invariant 1 <= k <= h - 1 && Reached(n, None, s) && |s.servers| == n > 0
      invariant JoinedUpTo(s, n, k) && s.servers[0] == Gatherer(k)
    {
      s := Gathers(n, h, k, s);
      k := k + 1;
    }
  }

  /** The value is cast, and accepted by the servers below k. */
  ghost predicate Accepted(s: State, n: nat, h: nat, k: nat) {
    && |s.servers| == n && 1 <= k <= h <= n && Begin(FIRST_ROUND, 0, 0, false) in s.net && s.servers[0] == Leader(h, k)
    && (forall j :: k <= j < h ==> s.servers[j] == Fresh.(cur := FIRST_ROUND))
    && forall j: nat :: j < k ==> Vote(j, FIRST_ROUND) in s.votes
  }

  lemma JoinsLast(n: nat, h: nat) returns (s: State)
    requires 1 < h <= n && h == n / 2 + 1
    ensures Reached(n, None, s) && |s.servers| == n && s.servers[0] == Gatherer(h - 1)
    ensures Last(h - 1, FIRST_ROUND, ASKED) in s.net
    ensures forall j :: 1 <= j < h ==> s.servers[j] == Fresh.(cur := FIRST_ROUND)
  {
    hide Reached;
    s := GathersUpTo(n, h);
    s := Joins(n, None, s, h - 1, FIRST_ROUND, ASKED);
  }

  lemma GathererCompletes(n: nat, h: nat, s: State)
    requires 1 < h <= n && h == n / 2 + 1 && |s.servers| == n && s.servers[0] == Gatherer(h - 1)
    requires Last(h - 1, FIRST_ROUND, ASKED) in s.net
    ensures Completes(None, s, 0, h - 1, ASKED, Gatherer(h))
  {
    assert Servers(h - 1) + {h - 1} == Servers(h);
  }

  lemma CastsFirst(n: nat, h: nat) returns (s: State)
    requires 1 < h <= n && h == n / 2 + 1
    ensures Reached(n, None, s) && Accepted(s, n, h, 1)
  {
    hide Reached, Casts, Completes;
    s := JoinsLast(n, h);
    GathererCompletes(n, h, s);
    assert Servers(1) == {0};
    s := CastsOwn(n, None, s, 0, h - 1, ASKED, Gatherer(h), {0});
  }

  /** Server k accepts. */
  lemma OneAccepts(n: nat, h: nat, k: nat, s: State) returns (t: State)
    requires Reached(n, None, s) && Accepted(s, n, h, k) && k < h
    ensures Reached(n, None, t) && |t.servers| == n && Accept(k, FIRST_ROUND, 0) in t.net
    ensures Begin(FIRST_ROUND, 0, 0, false) in t.net && t.servers[0] == Leader(h, k)
    ensures forall j :: k < j < h ==> t.servers[j] == Fresh.(cur := FIRST_ROUND)
    ensures forall j: nat :: j <= k ==> Vote(j, FIRST_ROUND) in t.votes
  {
    hide Reached, Casts;
    t := Accepts(n, None, s, k, FIRST_ROUND, 0, 0, false);
  }

  lemma OneMoreAccepts(n: nat, h: nat, k: nat, s: State) returns (t: State)
    requires Reached(n, None, s) && Accepted(s, n, h, k) && h == n / 2 + 1 && k < h - 1
    ensures Reached(n, None, t) && Accepted(t, n, h, k + 1)
  {
    hide Reached, Casts;
    t := OneAccepts(n, h, k, s);
    assert Servers(k) + {k} == Servers(k + 1);
    t := Gets(n, None, t, 0, k, 0, Leader(h, k + 1));
  }

  lemma LastAccepts(n: nat, h: nat, s: State) returns (t: State)
    requires h == n / 2 + 1 && h > 1 && Reached(n, None, s) && Accepted(s, n, h, h - 1)
    ensures Reached(n, None, t) && |t.servers| == n && t.servers[0].mode.Decided? && t.servers[0].cmd == Some(0)
  {
    hide Reached, Casts;
    t := OneAccepts(n, h, h - 1, s);
    assert Servers(h - 1) + {h - 1} == Servers(h);
    t := Wins(n, None, t, 0, h - 1, 0, Leader(h, h));
  }

  lemma ReachedMeans(n: nat, s: State)
    requires Reached(n, None, s)
    ensures exists steps :: Leads(Start(n), steps, s) && AllCareful(Start(n), steps, ALL_RULES)
  {
  }

  /** In every cell there is a run that obeys all the rules and decides. */
  lemma CarefulRunDecides(n: nat) returns (s: State)
    requires n > 1
    ensures exists steps :: Leads(Start(n), steps, s) && AllCareful(Start(n), steps, ALL_RULES)
    ensures |s.servers| == n && s.servers[0].mode.Decided? && s.servers[0].cmd == Some(0)
  {
    hide Reached, Casts, Accepted;
    var h := n / 2 + 1;
    s := CastsFirst(n, h);
    var k := 1;
    while k < h - 1
      invariant 1 <= k <= h - 1 && Reached(n, None, s) && Accepted(s, n, h, k)
    {
      s := OneMoreAccepts(n, h, k, s);
      k := k + 1;
    }
    s := LastAccepts(n, h, s);
    ReachedMeans(n, s);
  }

  // ----- the answer of a server that has decided is counted

  lemma DecidedAnswerRun1() returns (s: State)
    ensures Reached(3, Some(UndecidedAnswers), s)
    ensures s.servers == [
      Server(Round(1, 0), Casting, {0, 1}, Accepting, Round(1, 0), 0, 0, Some(0), {0}, true, Round(1, 0), false),
      Fresh.(cur := Round(1, 0)),
      Fresh]
    ensures Begin(Round(1, 0), 0, 0, false) in s.net
    ensures {Vote(0, Round(1, 0))} <= s.votes
  {
    hide Reached, Casts, Agreement;
    s := StartReached(3, Some(UndecidedAnswers));
    s := Asks(3, Some(UndecidedAnswers), s, 0);
    s := Starts(3, Some(UndecidedAnswers), s, 0,
      Server(Round(0, 0), Idle, {}, Waiting, Round(0, 0), 0, 0, Some(0), {}, true, Round(0, 0), false));
    s := Joins(3, Some(UndecidedAnswers), s, 1, Round(1, 0), Proposed(Round(0, 0), 0, 0));
    s := CastsOwn(3, Some(UndecidedAnswers), s, 0, 1, Proposed(Round(0, 0), 0, 0),
      Server(Round(1, 0), Gathering, {0, 1}, Waiting, Round(0, 0), 0, 0, Some(0), {}, true, Round(0, 0), false), {0});
  }

  lemma DecidedAnswerRun2() returns (s: State)
    ensures Reached(3, Some(UndecidedAnswers), s)
    ensures s.servers == [
      Server(Round(1, 0), Casting, {0, 1}, Decided, Round(1, 0), 0, 0, Some(0), {0, 1}, true, Round(1, 0), false),
      Server(Round(1, 0), Idle, {}, Waiting, Round(1, 0), 0, 1, Some(0), {}, false, Round(1, 0), false),
      Server(Round(1, 2), Gathering, {2}, Waiting, Round(0, 2), 2, 2, Some(2), {}, true, Round(0, 0), false)]
  {
    hide Reached, Casts, Agreement;
    s := DecidedAnswerRun1();
    s := Accepts(3, Some(UndecidedAnswers), s, 1, Round(1, 0), 0, 0, false);
    s := Wins(3, Some(UndecidedAnswers), s, 0, 1, 0,
      Server(Round(1, 0), Casting, {0, 1}, Accepting, Round(1, 0), 0, 0, Some(0), {0, 1}, true, Round(1, 0), false));
    s := Asks(3, Some(UndecidedAnswers), s, 2);
    s := Starts(3, Some(UndecidedAnswers), s, 2,
      Server(Round(0, 0), Idle, {}, Waiting, Round(0, 2), 2, 2, Some(2), {}, true, Round(0, 0), false));
  }

  /** Server 0 decides its command in round 1 of its own, and only 0 and 1 know of it. Server 2
      starts a round that 0 joins; 0 answers that it has decided, 2 counts the answer and has a
      majority, casts its own command, and 1 accepts it. */
  lemma DecidedAnswerRun() returns (s: State)
    ensures Reached(3, Some(UndecidedAnswers), s)
    ensures !Agreement(s)
  {
    hide Reached, Casts, Agreement;
    s := DecidedAnswerRun2();
    s := Starts(3, Some(UndecidedAnswers), s, 2,
      Server(Round(1, 2), Gathering, {2}, Waiting, Round(0, 2), 2, 2, Some(2), {}, true, Round(0, 0), false));
    s := Joins(3, Some(UndecidedAnswers), s, 0, Round(2, 2), Proposed(Round(0, 2), 2, 2));
    s := CastsOwn(3, Some(UndecidedAnswers), s, 2, 0, DecidedReport,
      Server(Round(2, 2), Gathering, {0, 2}, Waiting, Round(0, 2), 2, 2, Some(2), {}, true, Round(0, 0), true), {2});
    s := Accepts(3, Some(UndecidedAnswers), s, 1, Round(2, 2), 2, 2, false);
    s := Wins(3, Some(UndecidedAnswers), s, 2, 1, 2,
      Server(Round(2, 2), Casting, {0, 2}, Accepting, Round(2, 2), 2, 2, Some(2), {1, 2}, true, Round(2, 2), true));
    Differ(s, 0, 2);
  }

  // ----- an acceptance of an earlier round is counted

  lemma StaleCountRun1() returns (s: State)
    ensures Reached(5, Some(CountedVotes), s)
    ensures s.servers == [
      Server(Round(1, 0), Gathering, {0}, Waiting, Round(0, 0), 0, 0, Some(0), {}, true, Round(0, 0), false),
      Fresh,
      Fresh,
      Fresh.(init := true),
      Fresh]
    ensures Collect(Round(1, 0), Proposed(Round(0, 0), 0, 0)) in s.net
  {
    hide Reached, Casts, Agreement;
    s := StartReached(5, Some(CountedVotes));
    s := Asks(5, Some(CountedVotes), s, 0);
    s := Asks(5, Some(CountedVotes), s, 3);
    s := Starts(5, Some(CountedVotes), s, 0,
      Server(Round(0, 0), Idle, {}, Waiting, Round(0, 0), 0, 0, Some(0), {}, true, Round(0, 0), false));
  }

  lemma StaleCountRun2() returns (s: State)
    ensures Reached(5, Some(CountedVotes), s)
    ensures s.servers == [
      Server(Round(1, 0), Gathering, {0, 1}, Waiting, Round(0, 0), 0, 0, Some(0), {}, true, Round(0, 0), false),
      Fresh.(cur := Round(1, 0)),
      Fresh.(cur := Round(1, 0)),
      Fresh.(init := true),
      Fresh]
    ensures Last(2, Round(1, 0), Proposed(Round(0, 0), 0, 0)) in s.net
  {
    hide Reached, Casts, Agreement;
    s := StaleCountRun1();
    s := Joins(5, Some(CountedVotes), s, 1, Round(1, 0), Proposed(Round(0, 0), 0, 0));
    s := Joins(5, Some(CountedVotes), s, 2, Round(1, 0), Proposed(Round(0, 0), 0, 0));
    s := Hears(5, Some(CountedVotes), s, 0, 1, Proposed(Round(0, 0), 0, 0),
      Server(Round(1, 0), Gathering, {0, 1}, Waiting, Round(0, 0), 0, 0, Some(0), {}, true, Round(0, 0), false));
  }

  lemma StaleCountRun3() returns (s: State)
    ensures Reached(5, Some(CountedVotes), s)
    ensures s.servers == [
      Server(Round(1, 0), Casting, {0, 1, 2}, Accepting, Round(1, 0), 0, 0, Some(0), {0, 1}, true, Round(1, 0),
        false),
      Server(Round(1, 0), Idle, {}, Waiting, Round(1, 0), 0, 1, Some(0), {}, false, Round(1, 0), false),
      Fresh.(cur := Round(1, 0)),
      Fresh.(init := true),
      Fresh]
  {
    hide Reached, Casts, Agreement;
    s := StaleCountRun2();
    s := CastsOwn(5, Some(CountedVotes), s, 0, 2, Proposed(Round(0, 0), 0, 0),
      Server(Round(1, 0), Gathering, {0, 1, 2}, Waiting, Round(0, 0), 0, 0, Some(0), {}, true, Round(0, 0), false),
        {0});
    s := Accepts(5, Some(CountedVotes), s, 1, Round(1, 0), 0, 0, false);
    s := Gets(5, Some(CountedVotes), s, 0, 1, 0,
      Server(Round(1, 0), Casting, {0, 1, 2}, Accepting, Round(1, 0), 0, 0, Some(0), {0, 1}, true, Round(1, 0),
        false));
  }

  lemma StaleCountRun4() returns (s: State)
    ensures Reached(5, Some(CountedVotes), s)
    ensures s.servers == [
      Server(Round(1, 0), Casting, {0, 1, 2}, Accepting, Round(1, 0), 0, 0, Some(0), {0, 1}, true, Round(1, 0),
        false),
      Server(Round(1, 0), Idle, {}, Waiting, Round(1, 0), 0, 1, Some(0), {}, false, Round(1, 0), false),
      Fresh.(cur := Round(2, 3)),
      Server(Round(2, 3), Gathering, {3}, Waiting, Round(0, 3), 3, 3, Some(3), {}, true, Round(0, 0), false),
      Fresh]
    ensures Collect(Round(2, 3), Proposed(Round(0, 3), 3, 3)) in s.net
    ensures Last(2, Round(2, 3), Proposed(Round(0, 3), 3, 3)) in s.net
  {
    hide Reached, Casts, Agreement;
    s := StaleCountRun3();
    s := Starts(5, Some(CountedVotes), s, 3,
      Server(Round(0, 0), Idle, {}, Waiting, Round(0, 3), 3, 3, Some(3), {}, true, Round(0, 0), false));
    s := Starts(5, Some(CountedVotes), s, 3,
      Server(Round(1, 3), Gathering, {3}, Waiting, Round(0, 3), 3, 3, Some(3), {}, true, Round(0, 0), false));
    s := Joins(5, Some(CountedVotes), s, 2, Round(2, 3), Proposed(Round(0, 3), 3, 3));
  }

  lemma StaleCountRun5() returns (s: State)
    ensures Reached(5, Some(CountedVotes), s)
    ensures s.servers == [
      Server(Round(1, 0), Casting, {0, 1, 2}, Accepting, Round(1, 0), 0, 0, Some(0), {0, 1}, true, Round(1, 0),
        false),
      Server(Round(1, 0), Idle, {}, Waiting, Round(1, 0), 0, 1, Some(0), {}, false, Round(1, 0), false),
      Fresh.(cur := Round(2, 3)),
      Server(Round(2, 3), Casting, {2, 3, 4}, Accepting, Round(2, 3), 3, 3, Some(3), {3}, true, Round(2, 3), false),
      Fresh.(cur := Round(2, 3))]
    ensures Begin(Round(2, 3), 3, 3, false) in s.net
  {
    hide Reached, Casts, Agreement;
    s := StaleCountRun4();
    s := Joins(5, Some(CountedVotes), s, 4, Round(2, 3), Proposed(Round(0, 3), 3, 3));
    s := Hears(5, Some(CountedVotes), s, 3, 2, Proposed(Round(0, 3), 3, 3),
      Server(Round(2, 3), Gathering, {2, 3}, Waiting, Round(0, 3), 3, 3, Some(3), {}, true, Round(0, 0), false));
    s := CastsOwn(5, Some(CountedVotes), s, 3, 4, Proposed(Round(0, 3), 3, 3),
      Server(Round(2, 3), Gathering, {2, 3, 4}, Waiting, Round(0, 3), 3, 3, Some(3), {}, true, Round(0, 0), false),
        {3});
  }

  lemma StaleCountRun6() returns (s: State)
    ensures Reached(5, Some(CountedVotes), s)
    ensures s.servers == [
      Server(Round(2, 0), Gathering, {0}, Accepting, Round(1, 0), 0, 0, Some(0), {0, 1}, true, Round(1, 0), false),
      Server(Round(1, 0), Idle, {}, Waiting, Round(2, 3), 3, 1, Some(3), {}, false, Round(2, 3), false),
      Fresh.(cur := Round(2, 0)),
      Server(Round(2, 3), Casting, {2, 3, 4}, Accepting, Round(2, 3), 3, 3, Some(3), {3}, true, Round(2, 3), false),
      Fresh.(cur := Round(2, 3))]
    ensures Collect(Round(2, 0), Proposed(Round(1, 0), 0, 0)) in s.net
    ensures Last(2, Round(2, 0), Proposed(Round(1, 0), 0, 0)) in s.net
  {
    hide Reached, Casts, Agreement;
    s := StaleCountRun5();
    s := Accepts(5, Some(CountedVotes), s, 1, Round(2, 3), 3, 3, false);
    s := Starts(5, Some(CountedVotes), s, 0,
      Server(Round(1, 0), Casting, {0, 1, 2}, Accepting, Round(1, 0), 0, 0, Some(0), {0, 1}, true, Round(1, 0),
        false));
    s := Joins(5, Some(CountedVotes), s, 2, Round(2, 0), Proposed(Round(1, 0), 0, 0));
  }

  lemma StaleCountRun7() returns (s: State)
    ensures Reached(5, Some(CountedVotes), s)
    ensures s.servers == [
      Server(Round(2, 0), Casting, {0, 2, 4}, Accepting, Round(2, 0), 0, 0, Some(0), {0, 1}, true, Round(2, 0),
        false),
      Server(Round(1, 0), Idle, {}, Waiting, Round(2, 3), 3, 1, Some(3), {}, false, Round(2, 3), false),
      Fresh.(cur := Round(2, 0)),
      Server(Round(2, 3), Casting, {2, 3, 4}, Accepting, Round(2, 3), 3, 3, Some(3), {3}, true, Round(2, 3), false),
      Fresh.(cur := Round(2, 0))]
    ensures Begin(Round(2, 0), 0, 0, false) in s.net
  {
    hide Reached, Casts, Agreement;
    s := StaleCountRun6();
    s := Joins(5, Some(CountedVotes), s, 4, Round(2, 0), Proposed(Round(1, 0), 0, 0));
    s := Hears(5, Some(CountedVotes), s, 0, 2, Proposed(Round(1, 0), 0, 0),
      Server(Round(2, 0), Gathering, {0, 2}, Waiting, Round(1, 0), 0, 0, Some(0), {0, 1}, true, Round(1, 0), false));
    s := CastsOwn(5, Some(CountedVotes), s, 0, 4, Proposed(Round(1, 0), 0, 0),
      Server(Round(2, 0), Gathering, {0, 2, 4}, Waiting, Round(1, 0), 0, 0, Some(0), {0, 1}, true, Round(1, 0),
        false), {0, 1});
  }

  lemma StaleCountRun8() returns (s: State)
    ensures Reached(5, Some(CountedVotes), s)
    ensures s.servers == [
      Server(Round(2, 0), Casting, {0, 2, 4}, Decided, Round(2, 0), 0, 0, Some(0), {0, 1, 2}, true, Round(2, 0),
        false),
      Server(Round(1, 0), Idle, {}, Waiting, Round(2, 3), 3, 1, Some(3), {}, false, Round(2, 3), false),
      Server(Round(2, 0), Idle, {}, Waiting, Round(2, 0), 0, 2, Some(0), {}, false, Round(2, 0), false),
      Server(Round(3, 3), Gathering, {3}, Accepting, Round(2, 3), 3, 3, Some(3), {3}, true, Round(2, 3), false),
      Fresh.(cur := Round(2, 0))]
    ensures Collect(Round(3, 3), Proposed(Round(2, 3), 3, 3)) in s.net
  {
    hide Reached, Casts, Agreement;
    s := StaleCountRun7();
    s := Accepts(5, Some(CountedVotes), s, 2, Round(2, 0), 0, 0, false);
    s := Wins(5, Some(CountedVotes), s, 0, 2, 0,
      Server(Round(2, 0), Casting, {0, 2, 4}, Accepting, Round(2, 0), 0, 0, Some(0), {0, 1, 2}, true, Round(2, 0),
        false));
    s := Starts(5, Some(CountedVotes), s, 3,
      Server(Round(2, 3), Casting, {2, 3, 4}, Accepting, Round(2, 3), 3, 3, Some(3), {3}, true, Round(2, 3), false));
  }

  lemma StaleCountRun9() returns (s: State)
    ensures Reached(5, Some(CountedVotes), s)
    ensures s.servers == [
      Server(Round(2, 0), Casting, {0, 2, 4}, Decided, Round(2, 0), 0, 0, Some(0), {0, 1, 2}, true, Round(2, 0),
        false),
      Server(Round(3, 3), Idle, {}, Waiting, Round(2, 3), 3, 1, Some(3), {}, false, Round(2, 3), false),
      Server(Round(2, 0), Idle, {}, Waiting, Round(2, 0), 0, 2, Some(0), {}, false, Round(2, 0), false),
      Server(Round(3, 3), Gathering, {1, 3}, Waiting, Round(2, 3), 3, 3, Some(3), {3}, true, Round(2, 3), false),
      Fresh.(cur := Round(3, 3))]
    ensures Last(4, Round(3, 3), Proposed(Round(2, 3), 3, 3)) in s.net
  {
    hide Reached, Casts, Agreement;
    s := StaleCountRun8();
    s := Joins(5, Some(CountedVotes), s, 1, Round(3, 3), Proposed(Round(2, 3), 3, 3));
    s := Joins(5, Some(CountedVotes), s, 4, Round(3, 3), Proposed(Round(2, 3), 3, 3));
    s := Hears(5, Some(CountedVotes), s, 3, 1, Proposed(Round(2, 3), 3, 1),
      Server(Round(3, 3), Gathering, {1, 3}, Waiting, Round(2, 3), 3, 3, Some(3), {3}, true, Round(2, 3), false));
  }

  lemma StaleCountRun10() returns (s: State)
    ensures Reached(5, Some(CountedVotes), s)
    ensures s.servers == [
      Server(Round(2, 0), Casting, {0, 2, 4}, Decided, Round(2, 0), 0, 0, Some(0), {0, 1, 2}, true, Round(2, 0),
        false),
      Server(Round(3, 3), Idle, {}, Waiting, Round(3, 3), 3, 1, Some(3), {}, false, Round(3, 3), false),
      Server(Round(2, 0), Idle, {}, Waiting, Round(2, 0), 0, 2, Some(0), {}, false, Round(2, 0), false),
      Server(Round(3, 3), Casting, {1, 3, 4}, Accepting, Round(3, 3), 3, 3, Some(3), {1, 3}, true, Round(3, 3),
        false),
      Fresh.(cur := Round(3, 3))]
    ensures Begin(Round(3, 3), 3, 3, false) in s.net
  {
    hide Reached, Casts, Agreement;
    s := StaleCountRun9();
    s := CastsOwn(5, Some(CountedVotes), s, 3, 4, Proposed(Round(2, 3), 3, 3),
      Server(Round(3, 3), Gathering, {1, 3, 4}, Waiting, Round(2, 3), 3, 3, Some(3), {3}, true, Round(2, 3), false),
        {3});
    s := Accepts(5, Some(CountedVotes), s, 1, Round(3, 3), 3, 3, false);
    s := Gets(5, Some(CountedVotes), s, 3, 1, 3,
      Server(Round(3, 3), Casting, {1, 3, 4}, Accepting, Round(3, 3), 3, 3, Some(3), {1, 3}, true, Round(3, 3),
        false));
  }

  /** Server 1 accepts in a first round of server 0, then another command in a round of server 3.
      In its second round server 0 still counts that acceptance of server 1 and decides with one
      too few, and 1 hands the command of 3 on. */
  lemma StaleCountRun() returns (s: State)
    ensures Reached(5, Some(CountedVotes), s)
    ensures !Agreement(s)
  {
    hide Reached, Casts, Agreement;
    s := StaleCountRun10();
    s := Accepts(5, Some(CountedVotes), s, 4, Round(3, 3), 3, 3, false);
    s := Wins(5, Some(CountedVotes), s, 3, 4, 3,
      Server(Round(3, 3), Casting, {1, 3, 4}, Accepting, Round(3, 3), 3, 3, Some(3), {1, 3, 4}, true, Round(3, 3),
        false));
    Differ(s, 0, 3);
  }

  // ----- a Begin of a round below one accepted in is accepted

  lemma FallingVoteRun1() returns (s: State)
    ensures Reached(5, Some(RisingVotes), s)
    ensures s.servers == [
      Fresh.(init := true),
      Fresh,
      Fresh,
      Fresh,
      Server(Round(1, 4), Gathering, {4}, Waiting, Round(0, 4), 4, 4, Some(4), {}, true, Round(0, 0), false)]
    ensures Collect(Round(1, 4), Proposed(Round(0, 4), 4, 4)) in s.net
  {
    hide Reached, Casts, Agreement;
    s := StartReached(5, Some(RisingVotes));
    s := Asks(5, Some(RisingVotes), s, 4);
    s := Asks(5, Some(RisingVotes), s, 0);
    s := Starts(5, Some(RisingVotes), s, 4,
      Server(Round(0, 0), Idle, {}, Waiting, Round(0, 4), 4, 4, Some(4), {}, true, Round(0, 0), false));
  }

  lemma FallingVoteRun2() returns (s: State)
    ensures Reached(5, Some(RisingVotes), s)
    ensures s.servers == [
      Fresh.(init := true),
      Fresh,
      Fresh.(cur := Round(1, 4)),
      Fresh.(cur := Round(1, 4)),
      Server(Round(1, 4), Gathering, {3, 4}, Waiting, Round(0, 4), 4, 4, Some(4), {}, true, Round(0, 0), false)]
    ensures Last(2, Round(1, 4), Proposed(Round(0, 4), 4, 4)) in s.net
  {
    hide Reached, Casts, Agreement;
    s := FallingVoteRun1();
    s := Joins(5, Some(RisingVotes), s, 3, Round(1, 4), Proposed(Round(0, 4), 4, 4));
    s := Joins(5, Some(RisingVotes), s, 2, Round(1, 4), Proposed(Round(0, 4), 4, 4));
    s := Hears(5, Some(RisingVotes), s, 4, 3, Proposed(Round(0, 4), 4, 4),
      Server(Round(1, 4), Gathering, {3, 4}, Waiting, Round(0, 4), 4, 4, Some(4), {}, true, Round(0, 0), false));
  }

  lemma FallingVoteRun3() returns (s: State)
    ensures Reached(5, Some(RisingVotes), s)
    ensures s.servers == [
      Server(Round(1, 0), Gathering, {0}, Waiting, Round(0, 0), 0, 0, Some(0), {}, true, Round(0, 0), false),
      Fresh.(cur := Round(1, 0)),
      Fresh.(cur := Round(1, 4)),
      Fresh.(cur := Round(1, 4)),
      Server(Round(1, 4), Casting, {2, 3, 4}, Accepting, Round(1, 4), 4, 4, Some(4), {4}, true, Round(1, 4), false)]
    ensures Collect(Round(1, 0), Proposed(Round(0, 0), 0, 0)) in s.net
    ensures Last(1, Round(1, 0), Proposed(Round(0, 0), 0, 0)) in s.net
    ensures Begin(Round(1, 4), 4, 4, false) in s.net
  {
    hide Reached, Casts, Agreement;
    s := FallingVoteRun2();
    s := CastsOwn(5, Some(RisingVotes), s, 4, 2, Proposed(Round(0, 4), 4, 4),
      Server(Round(1, 4), Gathering, {2, 3, 4}, Waiting, Round(0, 4), 4, 4, Some(4), {}, true, Round(0, 0), false),
        {4});
    s := Starts(5, Some(RisingVotes), s, 0,
      Server(Round(0, 0), Idle, {}, Waiting, Round(0, 0), 0, 0, Some(0), {}, true, Round(0, 0), false));
    s := Joins(5, Some(RisingVotes), s, 1, Round(1, 0), Proposed(Round(0, 0), 0, 0));
  }

  lemma FallingVoteRun4() returns (s: State)
    ensures Reached(5, Some(RisingVotes), s)
    ensures s.servers == [
      Server(Round(1, 0), Casting, {0, 1, 3}, Accepting, Round(1, 0), 0, 0, Some(0), {0}, true, Round(1, 0), false),
      Fresh.(cur := Round(1, 0)),
      Fresh.(cur := Round(1, 4)),
      Fresh.(cur := Round(1, 0)),
      Server(Round(1, 4), Casting, {2, 3, 4}, Accepting, Round(1, 4), 4, 4, Some(4), {4}, true, Round(1, 4), false)]
    ensures Begin(Round(1, 0), 0, 0, false) in s.net
    ensures Begin(Round(1, 4), 4, 4, false) in s.net
    ensures {Vote(0, Round(1, 0))} <= s.votes
  {
    hide Reached, Casts, Agreement;
    s := FallingVoteRun3();
    s := Joins(5, Some(RisingVotes), s, 3, Round(1, 0), Proposed(Round(0, 0), 0, 0));
    s := Hears(5, Some(RisingVotes), s, 0, 1, Proposed(Round(0, 0), 0, 0),
      Server(Round(1, 0), Gathering, {0, 1}, Waiting, Round(0, 0), 0, 0, Some(0), {}, true, Round(0, 0), false));
    s := CastsOwn(5, Some(RisingVotes), s, 0, 3, Proposed(Round(0, 0), 0, 0),
      Server(Round(1, 0), Gathering, {0, 1, 3}, Waiting, Round(0, 0), 0, 0, Some(0), {}, true, Round(0, 0), false),
        {0});
  }

  lemma FallingVoteRun5() returns (s: State)
    ensures Reached(5, Some(RisingVotes), s)
    ensures s.servers == [
      Server(Round(1, 0), Casting, {0, 1, 3}, Accepting, Round(1, 0), 0, 0, Some(0), {0, 1}, true, Round(1, 0),
        false),
      Server(Round(1, 0), Idle, {}, Waiting, Round(1, 0), 0, 1, Some(0), {}, false, Round(1, 0), false),
      Server(Round(1, 4), Idle, {}, Waiting, Round(1, 0), 0, 2, Some(0), {}, false, Round(1, 0), false),
      Fresh.(cur := Round(1, 0)),
      Server(Round(1, 4), Casting, {2, 3, 4}, Accepting, Round(1, 4), 4, 4, Some(4), {4}, true, Round(1, 4), false)]
    ensures Accept(2, Round(1, 0), 0) in s.net
    ensures Begin(Round(1, 4), 4, 4, false) in s.net
    ensures {Vote(0, Round(1, 0)), Vote(1, Round(1, 0)), Vote(2, Round(1, 0))} <= s.votes
  {
    hide Reached, Casts, Agreement;
    s := FallingVoteRun4();
    s := Accepts(5, Some(RisingVotes), s, 1, Round(1, 0), 0, 0, false);
    s := Accepts(5, Some(RisingVotes), s, 2, Round(1, 0), 0, 0, false);
    s := Gets(5, Some(RisingVotes), s, 0, 1, 0,
      Server(Round(1, 0), Casting, {0, 1, 3}, Accepting, Round(1, 0), 0, 0, Some(0), {0, 1}, true, Round(1, 0),
        false));
  }

  lemma FallingVoteRun6() returns (s: State)
    ensures Reached(5, Some(RisingVotes), s)
    ensures s.servers == [
      Server(Round(1, 0), Casting, {0, 1, 3}, Decided, Round(1, 0), 0, 0, Some(0), {0, 1, 2}, true, Round(1, 0),
        false),
      Server(Round(1, 0), Idle, {}, Waiting, Round(1, 0), 0, 1, Some(0), {}, false, Round(1, 0), false),
      Server(Round(2, 2), Gathering, {2}, Waiting, Round(1, 4), 4, 2, Some(4), {}, false, Round(1, 4), false),
      Fresh.(cur := Round(1, 0)),
      Server(Round(1, 4), Casting, {2, 3, 4}, Accepting, Round(1, 4), 4, 4, Some(4), {4}, true, Round(1, 4), false)]
    ensures Collect(Round(2, 2), Proposed(Round(1, 4), 4, 2)) in s.net
  {
    hide Reached, Casts, Agreement;
    s := FallingVoteRun5();
    s := Wins(5, Some(RisingVotes), s, 0, 2, 0,
      Server(Round(1, 0), Casting, {0, 1, 3}, Accepting, Round(1, 0), 0, 0, Some(0), {0, 1, 2}, true, Round(1, 0),
        false));
    s := Accepts(5, Some(RisingVotes), s, 2, Round(1, 4), 4, 4, false);
    s := Starts(5, Some(RisingVotes), s, 2,
      Server(Round(1, 4), Idle, {}, Waiting, Round(1, 4), 4, 2, Some(4), {}, false, Round(1, 4), false));
  }

  lemma FallingVoteRun7() returns (s: State)
    ensures Reached(5, Some(RisingVotes), s)
    ensures s.servers == [
      Server(Round(1, 0), Casting, {0, 1, 3}, Decided, Round(1, 0), 0, 0, Some(0), {0, 1, 2}, true, Round(1, 0),
        false),
      Server(Round(1, 0), Idle, {}, Waiting, Round(1, 0), 0, 1, Some(0), {}, false, Round(1, 0), false),
      Server(Round(2, 2), Gathering, {2, 3}, Waiting, Round(1, 4), 4, 2, Some(4), {}, false, Round(1, 4), false),
      Fresh.(cur := Round(2, 2)),
      Server(Round(2, 2), Casting, {2, 3, 4}, Accepting, Round(1, 4), 4, 4, Some(4), {4}, true, Round(1, 4), false)]
    ensures Last(4, Round(2, 2), Proposed(Round(1, 4), 4, 4)) in s.net
  {
    hide Reached, Casts, Agreement;
    s := FallingVoteRun6();
    s := Joins(5, Some(RisingVotes), s, 3, Round(2, 2), Proposed(Round(1, 4), 4, 2));
    s := Joins(5, Some(RisingVotes), s, 4, Round(2, 2), Proposed(Round(1, 4), 4, 2));
    s := Hears(5, Some(RisingVotes), s, 2, 3, Proposed(Round(1, 4), 4, 2),
      Server(Round(2, 2), Gathering, {2, 3}, Waiting, Round(1, 4), 4, 2, Some(4), {}, false, Round(1, 4), false));
  }

  lemma FallingVoteRun8() returns (s: State)
    ensures Reached(5, Some(RisingVotes), s)
    ensures s.servers == [
      Server(Round(1, 0), Casting, {0, 1, 3}, Decided, Round(1, 0), 0, 0, Some(0), {0, 1, 2}, true, Round(1, 0),
        false),
      Server(Round(1, 0), Idle, {}, Waiting, Round(1, 0), 0, 1, Some(0), {}, false, Round(1, 0), false),
      Server(Round(2, 2), Casting, {2, 3, 4}, Accepting, Round(2, 2), 4, 2, Some(4), {2}, false, Round(2, 2), false),
      Server(Round(2, 2), Idle, {}, Waiting, Round(2, 2), 4, 3, Some(4), {}, false, Round(2, 2), false),
      Server(Round(2, 2), Casting, {2, 3, 4}, Accepting, Round(2, 2), 4, 4, Some(4), {4}, true, Round(2, 2), false)]
    ensures Accept(3, Round(2, 2), 4) in s.net
    ensures Accept(4, Round(2, 2), 4) in s.net
    ensures {Vote(2, Round(2, 2)), Vote(3, Round(2, 2)), Vote(4, Round(2, 2))} <= s.votes
  {
    hide Reached, Casts, Agreement;
    s := FallingVoteRun7();
    s := CastsOwn(5, Some(RisingVotes), s, 2, 4, Proposed(Round(1, 4), 4, 4),
      Server(Round(2, 2), Gathering, {2, 3, 4}, Waiting, Round(1, 4), 4, 2, Some(4), {}, false, Round(1, 4), false),
        {2});
    s := Accepts(5, Some(RisingVotes), s, 3, Round(2, 2), 4, 4, false);
    s := Accepts(5, Some(RisingVotes), s, 4, Round(2, 2), 4, 4, false);
  }

  /** Server 2 has joined a round of server 4 and accepts in the higher round of server 0, which
      decides the command of 0. It then still accepts in the round of 4, forgets the command of
      0, and leads a round of servers that do not know it. */
  lemma FallingVoteRun() returns (s: State)
    ensures Reached(5, Some(RisingVotes), s)
    ensures !Agreement(s)
  {
    hide Reached, Casts, Agreement;
    s := FallingVoteRun8();
    s := Gets(5, Some(RisingVotes), s, 2, 3, 4,
      Server(Round(2, 2), Casting, {2, 3, 4}, Accepting, Round(2, 2), 4, 2, Some(4), {2, 3}, false, Round(2, 2),
        false));
    s := Wins(5, Some(RisingVotes), s, 2, 4, 4,
      Server(Round(2, 2), Casting, {2, 3, 4}, Accepting, Round(2, 2), 4, 2, Some(4), {2, 3, 4}, false, Round(2, 2),
        false));
    Differ(s, 0, 2);
  }

  // ----- a redirected Begin carries another tag

  lemma OtherTagRun1() returns (s: State)
    ensures Reached(5, Some(SameTag), s)
    ensures s.servers == [
      Fresh,
      Server(Round(1, 1), Gathering, {1}, Empty, Round(0, 0), 0, 0, None, {}, false, Round(0, 0), false),
      Server(Round(1, 2), Gathering, {2}, Waiting, Round(0, 2), 2, 2, Some(2), {}, true, Round(0, 0), false),
      Fresh,
      Fresh]
    ensures Collect(Round(1, 1), NoReport) in s.net
  {
    hide Reached, Casts, Agreement;
    s := StartReached(5, Some(SameTag));
    s := Asks(5, Some(SameTag), s, 2);
    s := Starts(5, Some(SameTag), s, 2,
      Server(Round(0, 0), Idle, {}, Waiting, Round(0, 2), 2, 2, Some(2), {}, true, Round(0, 0), false));
    s := Starts(5, Some(SameTag), s, 1, Fresh);
  }

  lemma OtherTagRun2() returns (s: State)
    ensures Reached(5, Some(SameTag), s)
    ensures s.servers == [
      Fresh,
      Server(Round(1, 1), Gathering, {1, 2}, Waiting, Round(0, 2), 2, 2, None, {}, false, Round(0, 0), false),
      Server(Round(1, 1), Gathering, {2}, Waiting, Round(0, 2), 2, 2, Some(2), {}, true, Round(0, 0), false),
      Fresh,
      Fresh.(init := true)]
  {
    hide Reached, Casts, Agreement;
    s := OtherTagRun1();
    s := Joins(5, Some(SameTag), s, 2, Round(1, 1), NoReport);
    s := Hears(5, Some(SameTag), s, 1, 2, Proposed(Round(0, 2), 2, 2),
      Server(Round(1, 1), Gathering, {1, 2}, Waiting, Round(0, 2), 2, 2, None, {}, false, Round(0, 0), false));
    s := Asks(5, Some(SameTag), s, 4);
  }

  lemma OtherTagRun3() returns (s: State)
    ensures Reached(5, Some(SameTag), s)
    ensures s.servers == [
      Fresh,
      Server(Round(1, 1), Gathering, {1, 2}, Waiting, Round(0, 2), 2, 2, None, {}, false, Round(0, 0), false),
      Server(Round(1, 1), Gathering, {2}, Waiting, Round(0, 2), 2, 2, Some(2), {}, true, Round(0, 0), false),
      Fresh.(cur := Round(2, 4)),
      Server(Round(2, 4), Gathering, {4}, Waiting, Round(0, 4), 4, 4, Some(4), {}, true, Round(0, 0), false)]
    ensures Collect(Round(2, 4), Proposed(Round(0, 4), 4, 4)) in s.net
    ensures Last(3, Round(2, 4), Proposed(Round(0, 4), 4, 4)) in s.net
  {
    hide Reached, Casts, Agreement;
    s := OtherTagRun2();
    s := Starts(5, Some(SameTag), s, 4,
      Server(Round(0, 0), Idle, {}, Waiting, Round(0, 4), 4, 4, Some(4), {}, true, Round(0, 0), false));
    s := Starts(5, Some(SameTag), s, 4,
      Server(Round(1, 4), Gathering, {4}, Waiting, Round(0, 4), 4, 4, Some(4), {}, true, Round(0, 0), false));
    s := Joins(5, Some(SameTag), s, 3, Round(2, 4), Proposed(Round(0, 4), 4, 4));
  }

  lemma OtherTagRun4() returns (s: State)
    ensures Reached(5, Some(SameTag), s)
    ensures s.servers == [
      Fresh.(cur := Round(2, 4)),
      Server(Round(1, 1), Gathering, {1, 2}, Waiting, Round(0, 2), 2, 2, None, {}, false, Round(0, 0), false),
      Server(Round(1, 1), Gathering, {2}, Waiting, Round(0, 2), 2, 2, Some(2), {}, true, Round(0, 0), false),
      Fresh.(cur := Round(2, 4)),
      Server(Round(2, 4), Casting, {0, 3, 4}, Accepting, Round(2, 4), 4, 4, Some(4), {4}, true, Round(2, 4), false)]
    ensures Begin(Round(2, 4), 4, 4, false) in s.net
  {
    hide Reached, Casts, Agreement;
    s := OtherTagRun3();
    s := Joins(5, Some(SameTag), s, 0, Round(2, 4), Proposed(Round(0, 4), 4, 4));
    s := Hears(5, Some(SameTag), s, 4, 3, Proposed(Round(0, 4), 4, 4),
      Server(Round(2, 4), Gathering, {3, 4}, Waiting, Round(0, 4), 4, 4, Some(4), {}, true, Round(0, 0), false));
    s := CastsOwn(5, Some(SameTag), s, 4, 0, Proposed(Round(0, 4), 4, 4),
      Server(Round(2, 4), Gathering, {0, 3, 4}, Waiting, Round(0, 4), 4, 4, Some(4), {}, true, Round(0, 0), false),
        {4});
  }

  lemma OtherTagRun5() returns (s: State)
    ensures Reached(5, Some(SameTag), s)
    ensures s.servers == [
      Server(Round(3, 0), Gathering, {0}, Empty, Round(0, 0), 0, 0, None, {}, false, Round(0, 0), false),
      Server(Round(3, 0), Gathering, {1, 2}, Waiting, Round(0, 2), 2, 2, None, {}, false, Round(0, 0), false),
      Server(Round(1, 1), Gathering, {2}, Waiting, Round(0, 2), 2, 2, Some(2), {}, true, Round(0, 0), false),
      Fresh.(cur := Round(3, 0)),
      Server(Round(2, 4), Casting, {0, 3, 4}, Accepting, Round(2, 4), 4, 4, Some(4), {4}, true, Round(2, 4), false)]
    ensures Last(3, Round(3, 0), NoReport) in s.net
    ensures Last(1, Round(3, 0), Proposed(Round(0, 2), 2, 2)) in s.net
    ensures Begin(Round(2, 4), 4, 4, false) in s.net
  {
    hide Reached, Casts, Agreement;
    s := OtherTagRun4();
    s := Starts(5, Some(SameTag), s, 0, Fresh.(cur := Round(2, 4)));
    s := Joins(5, Some(SameTag), s, 3, Round(3, 0), NoReport);
    s := Joins(5, Some(SameTag), s, 1, Round(3, 0), NoReport);
  }

  lemma OtherTagRun6() returns (s: State)
    ensures Reached(5, Some(SameTag), s)
    ensures s.servers == [
      Server(Round(3, 0), Casting, {0, 1, 3}, Accepting, Round(0, 2), 2, 2, None, {}, false, Round(0, 0), false),
      Server(Round(3, 0), Gathering, {1, 2}, Waiting, Round(0, 2), 2, 2, None, {}, false, Round(0, 0), false),
      Server(Round(1, 1), Gathering, {2}, Waiting, Round(0, 2), 2, 2, Some(2), {}, true, Round(0, 0), false),
      Fresh.(cur := Round(3, 0)),
      Server(Round(2, 4), Casting, {0, 3, 4}, Accepting, Round(2, 4), 4, 4, Some(4), {4}, true, Round(2, 4), false)]
    ensures Begin(Round(3, 0), 2, 2, true) in s.net
    ensures Begin(Round(2, 4), 4, 4, false) in s.net
  {
    hide Reached, Casts, Agreement;
    s := OtherTagRun5();
    s := Hears(5, Some(SameTag), s, 0, 3, NoReport,
      Server(Round(3, 0), Gathering, {0, 3}, Empty, Round(0, 0), 0, 0, None, {}, false, Round(0, 0), false));
    s := CastsVia(5, Some(SameTag), s, 0, 1, Proposed(Round(0, 2), 2, 2),
      Server(Round(3, 0), Gathering, {0, 1, 3}, Waiting, Round(0, 2), 2, 2, None, {}, false, Round(0, 0), false));
    s := Redirects(5, Some(SameTag), s, 2, Round(3, 0), 2);
  }

  lemma OtherTagRun7() returns (s: State)
    ensures Reached(5, Some(SameTag), s)
    ensures s.servers == [
      Server(Round(3, 0), Casting, {0, 1, 3}, Accepting, Round(3, 0), 2, 0, Some(2), {}, false, Round(3, 0), false),
      Server(Round(3, 0), Gathering, {1, 2}, Waiting, Round(0, 2), 2, 2, None, {}, false, Round(0, 0), false),
      Server(Round(1, 1), Gathering, {2}, Waiting, Round(0, 2), 2, 2, Some(2), {}, true, Round(0, 0), false),
      Server(Round(3, 0), Idle, {}, Waiting, Round(3, 0), 2, 3, Some(2), {}, false, Round(3, 0), false),
      Server(Round(2, 4), Casting, {0, 3, 4}, Accepting, Round(3, 0), 2, 4, Some(2), {4}, true, Round(3, 0), false)]
    ensures Accept(0, Round(3, 0), 2) in s.net
    ensures Accept(3, Round(3, 0), 2) in s.net
    ensures Accept(4, Round(3, 0), 2) in s.net
    ensures Begin(Round(2, 4), 4, 4, false) in s.net
    ensures {Vote(0, Round(3, 0)), Vote(3, Round(3, 0)), Vote(4, Round(3, 0))} <= s.votes
  {
    hide Reached, Casts, Agreement;
    s := OtherTagRun6();
    s := Accepts(5, Some(SameTag), s, 0, Round(3, 0), 2, 2, true);
    s := Accepts(5, Some(SameTag), s, 3, Round(3, 0), 2, 2, true);
    s := Accepts(5, Some(SameTag), s, 4, Round(3, 0), 2, 2, true);
  }

  lemma OtherTagRun8() returns (s: State)
    ensures Reached(5, Some(SameTag), s)
    ensures s.servers == [
      Server(Round(3, 0), Casting, {0, 1, 3}, Decided, Round(3, 0), 2, 0, Some(2), {0, 3, 4}, false, Round(3, 0),
        false),
      Server(Round(3, 0), Gathering, {1, 2}, Waiting, Round(0, 2), 2, 2, None, {}, false, Round(0, 0), false),
      Server(Round(1, 1), Gathering, {2}, Waiting, Round(0, 2), 2, 2, Some(2), {}, true, Round(0, 0), false),
      Server(Round(3, 0), Idle, {}, Waiting, Round(3, 0), 2, 3, Some(2), {}, false, Round(3, 0), false),
      Server(Round(2, 4), Casting, {0, 3, 4}, Accepting, Round(3, 0), 2, 4, Some(2), {4}, true, Round(3, 0), false)]
    ensures Begin(Round(2, 4), 4, 4, false) in s.net
  {
    hide Reached, Casts, Agreement;
    s := OtherTagRun7();
    s := Gets(5, Some(SameTag), s, 0, 0, 2,
      Server(Round(3, 0), Casting, {0, 1, 3}, Accepting, Round(3, 0), 2, 0, Some(2), {0}, false, Round(3, 0), false));
    s := Gets(5, Some(SameTag), s, 0, 3, 2,
      Server(Round(3, 0), Casting, {0, 1, 3}, Accepting, Round(3, 0), 2, 0, Some(2), {0, 3}, false, Round(3, 0),
        false));
    s := Wins(5, Some(SameTag), s, 0, 4, 2,
      Server(Round(3, 0), Casting, {0, 1, 3}, Accepting, Round(3, 0), 2, 0, Some(2), {0, 3, 4}, false, Round(3, 0),
        false));
  }

  lemma OtherTagRun9() returns (s: State)
    ensures Reached(5, Some(SameTag), s)
    ensures s.servers == [
      Server(Round(3, 0), Casting, {0, 1, 3}, Decided, Round(3, 0), 2, 0, Some(2), {0, 3, 4}, false, Round(3, 0),
        false),
      Server(Round(4, 1), Gathering, {1}, Waiting, Round(0, 2), 2, 2, None, {}, false, Round(0, 0), false),
      Server(Round(1, 1), Gathering, {2}, Waiting, Round(2, 4), 4, 2, Some(4), {}, true, Round(2, 4), false),
      Server(Round(4, 1), Idle, {}, Waiting, Round(3, 0), 2, 3, Some(2), {}, false, Round(3, 0), false),
      Server(Round(2, 4), Casting, {0, 3, 4}, Accepting, Round(3, 0), 2, 4, Some(2), {4}, true, Round(3, 0), false)]
    ensures Collect(Round(4, 1), Proposed(Round(0, 2), 2, 2)) in s.net
    ensures Last(3, Round(4, 1), Proposed(Round(3, 0), 2, 3)) in s.net
  {
    hide Reached, Casts, Agreement;
    s := OtherTagRun8();
    s := Accepts(5, Some(SameTag), s, 2, Round(2, 4), 4, 4, false);
    s := Starts(5, Some(SameTag), s, 1,
      Server(Round(3, 0), Gathering, {1, 2}, Waiting, Round(0, 2), 2, 2, None, {}, false, Round(0, 0), false));
    s := Joins(5, Some(SameTag), s, 3, Round(4, 1), Proposed(Round(0, 2), 2, 2));
  }

  lemma OtherTagRun10() returns (s: State)
    ensures Reached(5, Some(SameTag), s)
    ensures s.servers == [
      Server(Round(3, 0), Casting, {0, 1, 3}, Decided, Round(3, 0), 2, 0, Some(2), {0, 3, 4}, false, Round(3, 0),
        false),
      Server(Round(4, 1), Casting, {1, 2, 3}, Accepting, Round(3, 0), 2, 2, None, {}, false, Round(0, 0), false),
      Server(Round(4, 1), Gathering, {2}, Waiting, Round(2, 4), 4, 2, Some(4), {}, true, Round(2, 4), false),
      Server(Round(4, 1), Idle, {}, Waiting, Round(3, 0), 2, 3, Some(2), {}, false, Round(3, 0), false),
      Server(Round(2, 4), Casting, {0, 3, 4}, Accepting, Round(3, 0), 2, 4, Some(2), {4}, true, Round(3, 0), false)]
    ensures Redirect(2, Round(4, 1), 2) in s.net
  {
    hide Reached, Casts, Agreement;
    s := OtherTagRun9();
    s := Joins(5, Some(SameTag), s, 2, Round(4, 1), Proposed(Round(0, 2), 2, 2));
    s := Hears(5, Some(SameTag), s, 1, 3, Proposed(Round(3, 0), 2, 3),
      Server(Round(4, 1), Gathering, {1, 3}, Waiting, Round(3, 0), 2, 2, None, {}, false, Round(0, 0), false));
    s := CastsVia(5, Some(SameTag), s, 1, 2, Proposed(Round(2, 4), 4, 2),
      Server(Round(4, 1), Gathering, {1, 2, 3}, Waiting, Round(3, 0), 2, 2, None, {}, false, Round(0, 0), false));
  }

  lemma OtherTagRun11() returns (s: State)
    ensures Reached(5, Some(SameTag), s)
    ensures s.servers == [
      Server(Round(3, 0), Casting, {0, 1, 3}, Decided, Round(3, 0), 2, 0, Some(2), {0, 3, 4}, false, Round(3, 0),
        false),
      Server(Round(4, 1), Casting, {1, 2, 3}, Accepting, Round(4, 1), 4, 1, Some(4), {}, false, Round(4, 1), false),
      Server(Round(4, 1), Gathering, {2}, Waiting, Round(4, 1), 4, 2, Some(4), {}, true, Round(4, 1), false),
      Server(Round(4, 1), Idle, {}, Waiting, Round(3, 0), 2, 3, Some(2), {}, false, Round(3, 0), false),
      Server(Round(2, 4), Casting, {0, 3, 4}, Accepting, Round(3, 0), 2, 4, Some(2), {4}, true, Round(3, 0), false)]
    ensures Begin(Round(4, 1), 4, 4, true) in s.net
    ensures Accept(1, Round(4, 1), 4) in s.net
    ensures Accept(2, Round(4, 1), 4) in s.net
    ensures {Vote(1, Round(4, 1)), Vote(2, Round(4, 1))} <= s.votes
  {
    hide Reached, Casts, Agreement;
    s := OtherTagRun10();
    s := Redirects(5, Some(SameTag), s, 2, Round(4, 1), 2);
    s := Accepts(5, Some(SameTag), s, 1, Round(4, 1), 4, 4, true);
    s := Accepts(5, Some(SameTag), s, 2, Round(4, 1), 4, 4, true);
  }

  /** Server 0 decides the command of server 2, which 2 has cast for it. Server 1, which knows only
      that 2 has a command to cast, later leads a round, sees the decided tag there and asks 2 to
      cast it; but 2 has meanwhile accepted, in a round below the decided one, the command of 4,
      and casts that. */
  lemma OtherTagRun() returns (s: State)
    ensures Reached(5, Some(SameTag), s)
    ensures !Agreement(s)
  {
    hide Reached, Casts, Agreement;
    s := OtherTagRun11();
    s := Accepts(5, Some(SameTag), s, 3, Round(4, 1), 4, 4, true);
    s := Gets(5, Some(SameTag), s, 1, 1, 4,
      Server(Round(4, 1), Casting, {1, 2, 3}, Accepting, Round(4, 1), 4, 1, Some(4), {1}, false, Round(4, 1), false));
    s := Gets(5, Some(SameTag), s, 1, 2, 4,
      Server(Round(4, 1), Casting, {1, 2, 3}, Accepting, Round(4, 1), 4, 1, Some(4), {1, 2}, false, Round(4, 1),
        false));
    s := Wins(5, Some(SameTag), s, 1, 3, 4,
      Server(Round(4, 1), Casting, {1, 2, 3}, Accepting, Round(4, 1), 4, 1, Some(4), {1, 2, 3}, false, Round(4, 1),
        false));
    Differ(s, 0, 1);
  }

  // ----- a Begin carries another server's command

  lemma OtherCommandRun1() returns (s: State)
    ensures Reached(5, Some(OwnCommand), s)
    ensures s.servers == [
      Fresh.(init := true),
      Fresh,
      Server(Round(1, 2), Gathering, {2}, Waiting, Round(0, 2), 2, 2, Some(2), {}, true, Round(0, 0), false),
      Fresh,
      Fresh]
  {
    hide Reached, Casts, Agreement;
    s := StartReached(5, Some(OwnCommand));
    s := Asks(5, Some(OwnCommand), s, 2);
    s := Starts(5, Some(OwnCommand), s, 2,
      Server(Round(0, 0), Idle, {}, Waiting, Round(0, 2), 2, 2, Some(2), {}, true, Round(0, 0), false));
    s := Asks(5, Some(OwnCommand), s, 0);
  }

  lemma OtherCommandRun2() returns (s: State)
    ensures Reached(5, Some(OwnCommand), s)
    ensures s.servers == [
      Server(Round(1, 0), Gathering, {0}, Waiting, Round(0, 0), 0, 0, Some(0), {}, true, Round(0, 0), false),
      Fresh.(cur := Round(1, 0)),
      Server(Round(1, 2), Gathering, {2}, Waiting, Round(0, 2), 2, 2, Some(2), {}, true, Round(0, 0), false),
      Fresh,
      Fresh.(cur := Round(1, 0))]
    ensures Last(1, Round(1, 0), Proposed(Round(0, 0), 0, 0)) in s.net
    ensures Last(4, Round(1, 0), Proposed(Round(0, 0), 0, 0)) in s.net
  {
    hide Reached, Casts, Agreement;
    s := OtherCommandRun1();
    s := Starts(5, Some(OwnCommand), s, 0,
      Server(Round(0, 0), Idle, {}, Waiting, Round(0, 0), 0, 0, Some(0), {}, true, Round(0, 0), false));
    s := Joins(5, Some(OwnCommand), s, 1, Round(1, 0), Proposed(Round(0, 0), 0, 0));
    s := Joins(5, Some(OwnCommand), s, 4, Round(1, 0), Proposed(Round(0, 0), 0, 0));
  }

  lemma OtherCommandRun3() returns (s: State)
    ensures Reached(5, Some(OwnCommand), s)
    ensures s.servers == [
      Server(Round(1, 0), Casting, {0, 1, 4}, Accepting, Round(1, 0), 0, 0, Some(0), {0}, true, Round(1, 0), false),
      Server(Round(1, 0), Idle, {}, Waiting, Round(1, 0), 0, 1, Some(0), {}, false, Round(1, 0), false),
      Server(Round(1, 2), Gathering, {2}, Waiting, Round(0, 2), 2, 2, Some(2), {}, true, Round(0, 0), false),
      Fresh,
      Fresh.(cur := Round(1, 0))]
    ensures Begin(Round(1, 0), 0, 0, false) in s.net
    ensures Accept(1, Round(1, 0), 0) in s.net
    ensures {Vote(0, Round(1, 0)), Vote(1, Round(1, 0))} <= s.votes
  {
    hide Reached, Casts, Agreement;
    s := OtherCommandRun2();
    s := Hears(5, Some(OwnCommand), s, 0, 1, Proposed(Round(0, 0), 0, 0),
      Server(Round(1, 0), Gathering, {0, 1}, Waiting, Round(0, 0), 0, 0, Some(0), {}, true, Round(0, 0), false));
    s := CastsOwn(5, Some(OwnCommand), s, 0, 4, Proposed(Round(0, 0), 0, 0),
      Server(Round(1, 0), Gathering, {0, 1, 4}, Waiting, Round(0, 0), 0, 0, Some(0), {}, true, Round(0, 0), false),
        {0});
    s := Accepts(5, Some(OwnCommand), s, 1, Round(1, 0), 0, 0, false);
  }

  lemma OtherCommandRun4() returns (s: State)
    ensures Reached(5, Some(OwnCommand), s)
    ensures s.servers == [
      Server(Round(1, 0), Casting, {0, 1, 4}, Decided, Round(1, 0), 0, 0, Some(0), {0, 1, 4}, true, Round(1, 0),
        false),
      Server(Round(1, 0), Idle, {}, Waiting, Round(1, 0), 0, 1, Some(0), {}, false, Round(1, 0), false),
      Server(Round(1, 2), Gathering, {2}, Waiting, Round(0, 2), 2, 2, Some(2), {}, true, Round(0, 0), false),
      Fresh,
      Server(Round(1, 0), Idle, {}, Waiting, Round(1, 0), 0, 4, Some(0), {}, false, Round(1, 0), false)]
  {
    hide Reached, Casts, Agreement;
    s := OtherCommandRun3();
    s := Accepts(5, Some(OwnCommand), s, 4, Round(1, 0), 0, 0, false);
    s := Gets(5, Some(OwnCommand), s, 0, 1, 0,
      Server(Round(1, 0), Casting, {0, 1, 4}, Accepting, Round(1, 0), 0, 0, Some(0), {0, 1}, true, Round(1, 0),
        false));
    s := Wins(5, Some(OwnCommand), s, 0, 4, 0,
      Server(Round(1, 0), Casting, {0, 1, 4}, Accepting, Round(1, 0), 0, 0, Some(0), {0, 1, 4}, true, Round(1, 0),
        false));
  }

  lemma OtherCommandRun5() returns (s: State)
    ensures Reached(5, Some(OwnCommand), s)
    ensures s.servers == [
      Server(Round(1, 0), Casting, {0, 1, 4}, Decided, Round(1, 0), 0, 0, Some(0), {0, 1, 4}, true, Round(1, 0),
        false),
      Server(Round(2, 2), Idle, {}, Waiting, Round(1, 0), 0, 1, Some(0), {}, false, Round(1, 0), false),
      Server(Round(2, 2), Gathering, {1, 2}, Waiting, Round(1, 0), 0, 1, Some(2), {}, true, Round(0, 0), false),
      Fresh,
      Server(Round(1, 0), Idle, {}, Waiting, Round(1, 0), 0, 4, Some(0), {}, false, Round(1, 0), false)]
  {
    hide Reached, Casts, Agreement;
    s := OtherCommandRun4();
    s := Starts(5, Some(OwnCommand), s, 2,
      Server(Round(1, 2), Gathering, {2}, Waiting, Round(0, 2), 2, 2, Some(2), {}, true, Round(0, 0), false));
    s := Joins(5, Some(OwnCommand), s, 1, Round(2, 2), Proposed(Round(0, 2), 2, 2));
    s := Hears(5, Some(OwnCommand), s, 2, 1, Proposed(Round(1, 0), 0, 1),
      Server(Round(2, 2), Gathering, {1, 2}, Waiting, Round(1, 0), 0, 1, Some(2), {}, true, Round(0, 0), false));
  }

  lemma OtherCommandRun6() returns (s: State)
    ensures Reached(5, Some(OwnCommand), s)
    ensures s.servers == [
      Server(Round(1, 0), Casting, {0, 1, 4}, Decided, Round(1, 0), 0, 0, Some(0), {0, 1, 4}, true, Round(1, 0),
        false),
      Server(Round(2, 2), Idle, {}, Waiting, Round(1, 0), 0, 1, Some(0), {}, false, Round(1, 0), false),
      Server(Round(2, 2), Gathering, {1, 2}, Waiting, Round(1, 0), 0, 1, Some(2), {}, true, Round(0, 0), false),
      Server(Round(3, 3), Gathering, {3}, Empty, Round(0, 0), 0, 0, None, {}, false, Round(0, 0), false),
      Server(Round(1, 0), Idle, {}, Waiting, Round(1, 0), 0, 4, Some(0), {}, false, Round(1, 0), false)]
    ensures Collect(Round(3, 3), NoReport) in s.net
  {
    hide Reached, Casts, Agreement;
    s := OtherCommandRun5();
    s := Starts(5, Some(OwnCommand), s, 3, Fresh);
    s := Starts(5, Some(OwnCommand), s, 3,
      Server(Round(1, 3), Gathering, {3}, Empty, Round(0, 0), 0, 0, None, {}, false, Round(0, 0), false));
    s := Starts(5, Some(OwnCommand), s, 3,
      Server(Round(2, 3), Gathering, {3}, Empty, Round(0, 0), 0, 0, None, {}, false, Round(0, 0), false));
  }

  lemma OtherCommandRun7() returns (s: State)
    ensures Reached(5, Some(OwnCommand), s)
    ensures s.servers == [
      Server(Round(1, 0), Casting, {0, 1, 4}, Decided, Round(1, 0), 0, 0, Some(0), {0, 1, 4}, true, Round(1, 0),
        false),
      Server(Round(3, 3), Idle, {}, Waiting, Round(1, 0), 0, 1, Some(0), {}, false, Round(1, 0), false),
      Server(Round(3, 3), Gathering, {1, 2}, Waiting, Round(1, 0), 0, 1, Some(2), {}, true, Round(0, 0), false),
      Server(Round(3, 3), Gathering, {2, 3}, Waiting, Round(1, 0), 0, 2, None, {}, false, Round(0, 0), false),
      Server(Round(1, 0), Idle, {}, Waiting, Round(1, 0), 0, 4, Some(0), {}, false, Round(1, 0), false)]
    ensures Last(1, Round(3, 3), Proposed(Round(1, 0), 0, 1)) in s.net
  {
    hide Reached, Casts, Agreement;
    s := OtherCommandRun6();
    s := Joins(5, Some(OwnCommand), s, 2, Round(3, 3), NoReport);
    s := Joins(5, Some(OwnCommand), s, 1, Round(3, 3), NoReport);
    s := Hears(5, Some(OwnCommand), s, 3, 2, Proposed(Round(1, 0), 0, 2),
      Server(Round(3, 3), Gathering, {2, 3}, Waiting, Round(1, 0), 0, 2, None, {}, false, Round(0, 0), false));
  }

  lemma OtherCommandRun8() returns (s: State)
    ensures Reached(5, Some(OwnCommand), s)
    ensures s.servers == [
      Server(Round(1, 0), Casting, {0, 1, 4}, Decided, Round(1, 0), 0, 0, Some(0), {0, 1, 4}, true, Round(1, 0),
        false),
      Server(Round(3, 3), Idle, {}, Waiting, Round(1, 0), 0, 1, Some(0), {}, false, Round(1, 0), false),
      Server(Round(3, 3), Gathering, {1, 2}, Waiting, Round(1, 0), 0, 1, Some(2), {}, true, Round(0, 0), false),
      Server(Round(3, 3), Casting, {1, 2, 3}, Accepting, Round(3, 3), 0, 3, Some(2), {}, false, Round(3, 3), false),
      Server(Round(1, 0), Idle, {}, Waiting, Round(1, 0), 0, 4, Some(0), {}, false, Round(1, 0), false)]
    ensures Begin(Round(3, 3), 0, 2, true) in s.net
    ensures Accept(3, Round(3, 3), 2) in s.net
    ensures {Vote(3, Round(3, 3))} <= s.votes
  {
    hide Reached, Casts, Agreement;
    s := OtherCommandRun7();
    s := CastsVia(5, Some(OwnCommand), s, 3, 1, Proposed(Round(1, 0), 0, 1),
      Server(Round(3, 3), Gathering, {1, 2, 3}, Waiting, Round(1, 0), 0, 2, None, {}, false, Round(0, 0), false));
    s := Redirects(5, Some(OwnCommand), s, 2, Round(3, 3), 0);
    s := Accepts(5, Some(OwnCommand), s, 3, Round(3, 3), 0, 2, true);
  }

  lemma OtherCommandRun9() returns (s: State)
    ensures Reached(5, Some(OwnCommand), s)
    ensures s.servers == [
      Server(Round(1, 0), Casting, {0, 1, 4}, Decided, Round(1, 0), 0, 0, Some(0), {0, 1, 4}, true, Round(1, 0),
        false),
      Server(Round(3, 3), Idle, {}, Waiting, Round(3, 3), 0, 1, Some(2), {}, false, Round(3, 3), false),
      Server(Round(3, 3), Gathering, {1, 2}, Waiting, Round(3, 3), 0, 2, Some(2), {}, true, Round(3, 3), false),
      Server(Round(3, 3), Casting, {1, 2, 3}, Accepting, Round(3, 3), 0, 3, Some(2), {3}, false, Round(3, 3), false),
      Server(Round(1, 0), Idle, {}, Waiting, Round(1, 0), 0, 4, Some(0), {}, false, Round(1, 0), false)]
    ensures Accept(1, Round(3, 3), 2) in s.net
    ensures Accept(2, Round(3, 3), 2) in s.net
    ensures {Vote(1, Round(3, 3)), Vote(2, Round(3, 3)), Vote(3, Round(3, 3))} <= s.votes
  {
    hide Reached, Casts, Agreement;
    s := OtherCommandRun8();
    s := Accepts(5, Some(OwnCommand), s, 1, Round(3, 3), 0, 2, true);
    s := Accepts(5, Some(OwnCommand), s, 2, Round(3, 3), 0, 2, true);
    s := Gets(5, Some(OwnCommand), s, 3, 3, 2,
      Server(Round(3, 3), Casting, {1, 2, 3}, Accepting, Round(3, 3), 0, 3, Some(2), {3}, false, Round(3, 3), false));
  }

  /** Server 0 decides its own command. Server 2, which has a command too, leads a round and takes
      the tag of 0 over, but not its command. It tells server 3 that it has the command of the
      tag, is asked to cast it, and casts its own command under the tag of 0. */
  lemma OtherCommandRun() returns (s: State)
    ensures Reached(5, Some(OwnCommand), s)
    ensures !Agreement(s)
  {
    hide Reached, Casts, Agreement;
    s := OtherCommandRun9();
    s := Gets(5, Some(OwnCommand), s, 3, 1, 2,
      Server(Round(3, 3), Casting, {1, 2, 3}, Accepting, Round(3, 3), 0, 3, Some(2), {1, 3}, false, Round(3, 3),
        false));
    s := Wins(5, Some(OwnCommand), s, 3, 2, 2,
      Server(Round(3, 3), Casting, {1, 2, 3}, Accepting, Round(3, 3), 0, 3, Some(2), {1, 2, 3}, false, Round(3, 3),
        false));
    Differ(s, 0, 3);
  }

  // ----- the condition

  /** Every run that obeys the rules ends in agreement. */
  ghost predicate Suffice(rules: set<Rule>) {
    forall n: nat, steps: seq<Step>, t: State ::
      n > 1 && Leads(Start(n), steps, t) && AllCareful(Start(n), steps, rules) ==> Agreement(t)
  }

  lemma {:induction false} FewerRules(s: State, steps: seq<Step>, rules: set<Rule>, more: set<Rule>)
    requires AllCareful(s, steps, more) && rules <= more
    ensures AllCareful(s, steps, rules)
    decreases |steps|
  {
    hide Possible, Apply, Obeys;
    if steps != [] {
      FewerRules(Apply(s, steps[0]), steps[1..], rules, more);
    }
  }

  lemma EveryRule(rule: Rule)
    ensures rule in ALL_RULES
  {
    match rule
    case CountedVotes =>
    case RisingVotes =>
    case UndecidedAnswers =>
    case SameTag =>
    case OwnCommand =>
  }

  lemma RuleNeeded(n: nat, rule: Rule, s: State, rules: set<Rule>)
    requires n > 1 && Reached(n, Some(rule), s) && !Agreement(s) && rule !in rules
    ensures !Suffice(rules)
  {
    hide Leads, AllCareful, Agreement;
    var steps :| Leads(Start(n), steps, s) && AllCareful(Start(n), steps, ALL_RULES - {rule});
    forall r | r in rules
      ensures r in ALL_RULES - {rule}
    {
      EveryRule(r);
    }
    FewerRules(Start(n), steps, rules, ALL_RULES - {rule});
  }

  lemma MissingRule(rules: set<Rule>) returns (rule: Rule)
    requires rules != ALL_RULES
    ensures rule !in rules
  {
    forall r | r in rules
      ensures r in ALL_RULES
    {
      EveryRule(r);
    }
    assert rules <= ALL_RULES;
    rule :| rule in ALL_RULES && rule !in rules;
  }

  lemma OneRuleNeeded(rule: Rule, rules: set<Rule>)
    requires rule !in rules
    ensures !Suffice(rules)
  {
    hide Reached, Agreement, Suffice;
    match rule
    case CountedVotes => var s := StaleCountRun(); RuleNeeded(5, rule, s, rules);
    case RisingVotes => var s := FallingVoteRun(); RuleNeeded(5, rule, s, rules);
    case UndecidedAnswers => var s := DecidedAnswerRun(); RuleNeeded(3, rule, s, rules);
    case SameTag => var s := OtherTagRun(); RuleNeeded(5, rule, s, rules);
    case OwnCommand => var s := OtherCommandRun(); RuleNeeded(5, rule, s, rules);
  }

  /** Of the sets of these rules, the one of all five makes every run of every cell agree, and
      no other does: for each rule there is a run that breaks it alone and does not agree. A run
      that breaks a rule may still agree. */
  lemma AgreementIff(rules: set<Rule>)
    ensures Suffice(rules) <==> rules == ALL_RULES
  {
    hide Reached, Agreement, Leads, AllCareful;
    if rules == ALL_RULES {
      forall n: nat, steps: seq<Step>, t: State
        | n > 1 && Leads(Start(n), steps, t) && AllCareful(Start(n), steps, rules)
        ensures Agreement(t)
      {
        CarefulRunsAgree(n, steps, t);
      }
    } else {
      var rule := MissingRule(rules);
      OneRuleNeeded(rule, rules);
    }
  }
}
