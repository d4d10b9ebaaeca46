/** The rounds by which the servers of a cell decide one Paxos instance: Collect, Last, Begin,
    Accept, Success. Every server has one record, which serves it as leader and as acceptor.
    Messages can be lost, repeated and delivered in any order. */
module PaxosRounds {
  import opened Wrappers

  /** A round number; of two rounds with one sequence number the one of the lower server is the
      higher. Rounds with sequence number 0 are all alike. */
  datatype Round = Round(sn: nat, id: nat)

  predicate Le(a: Round, b: Round) {
    a.sn < b.sn || (a.sn == b.sn && (a.sn == 0 || b.id <= a.id))
  }

  predicate Lt(a: Round, b: Round) {
    !Le(b, a)
  }

  /** The tag of a value, v_Server, names the server that proposed it; the rounds compare
      tags only. A server is given at most one command for the instance, known by its number
      as well. The command a server holds need not be the one of its tag. */
  type Tag = nat
  type Command = nat

  datatype Phase = Idle | Gathering | Casting                       // AMode
  datatype Mode = Empty | Waiting | Accepting | Decided             // PMode

  /** tag and from are those of RndValue, cmd is MetaCmdRnd, acc and inf the two quorums.
      Two fields are history: voted is the round of the last acceptance, and told that a server
      which had decided is among those counted in inf. */
  datatype Server = Server(
    cur: Round, phase: Phase, inf: set<nat>, mode: Mode, ballot: Round, tag: Tag, from: nat, cmd: Option<Command>,
    acc: set<nat>, init: bool, voted: Round, told: bool)

  /** What a Collect or Last says of the instance; from: the server that has the command. */
  datatype Report = NoReport | Proposed(ballot: Round, tag: Tag, from: nat) | DecidedReport

  /** Collect goes from the server of its round to the others, Last and Accept go back to it.
      A redirected Begin goes to that server too. Success is also what a server that has
      decided sends to one that lags. */
  datatype Msg =
    | Collect(round: Round, report: Report)
    | Last(fr: nat, round: Round, report: Report)
    | Begin(round: Round, tag: Tag, cmd: Command, redirected: bool)
    | Redirect(to: nat, round: Round, tag: Tag)
    | Accept(fr: nat, round: Round, cmd: Command)
    | Success(tag: Tag, cmd: Command)
    | Old(to: nat, commit: Round)

  datatype Vote = Vote(server: nat, round: Round)

  /** net: every message ever sent; cast and votes: which tag was cast in which round, and
      who has accepted there. */
  datatype State = State(servers: seq<Server>, net: set<Msg>, cast: map<Round, Tag>, votes: set<Vote>)

  datatype Step =
    | Request(i: nat)                          // a command of its own to propose
    | NewRound(i: nat)
    | Continue(i: nat)
    | Catchup(i: nat)                          // the decided instance for a server that lags
    | RecvCollect(i: nat, m: Msg)
    | RecvLast(i: nat, m: Msg)
    | RecvRedirect(i: nat, m: Msg)
    | RecvBegin(i: nat, m: Msg)
    | RecvAccept(i: nat, m: Msg)
    | RecvSuccess(i: nat, m: Msg)
    | RecvOld(i: nat, m: Msg)

  const NO_ROUND := Round(0, 0)
  const Fresh := Server(NO_ROUND, Idle, {}, Empty, NO_ROUND, 0, 0, None, {}, false, NO_ROUND, false)

  function Start(n: nat): State {
    State(seq(n, _ => Fresh), {}, map[], {})
  }

  predicate Majority(n: nat, q: set<nat>) {
    |q| >= n / 2 + 1
  }

  /** The strongest proposal reported is kept; the command is not looked at. */
  function Adopts(sv: Server, report: Report): Server {
    if report.Proposed? && !sv.mode.Decided? && Le(sv.ballot, report.ballot) then
      var sv1 := if sv.mode.Empty? || sv.tag != report.tag then sv.(tag := report.tag, from := report.from) else sv;
      sv1.(ballot := report.ballot, mode := Waiting)
    else sv
  }

  /** The leader's record with one more answer counted. */
  function Counts(sv: Server, fr: nat, report: Report): Server {
    Adopts(sv, report).(inf := sv.inf + {fr}, told := sv.told || (report.DecidedReport? && !sv.mode.Decided?))
  }

  /** The leader's record with one more acceptance counted; without a command it takes the one
      that came with it. */
  function Tallies(sv: Server, i: nat, fr: nat, cmd: Command): Server {
    (if sv.cmd.None? then sv.(cmd := Some(cmd), from := i) else sv).(acc := sv.acc + {fr})
  }

  predicate Decides(n: nat, sv: Server, i: nat) {
    i in sv.acc && Majority(n, sv.acc)
  }

  /** The record with which the step casts, if it does: a leader with a majority of answers
      casts what it keeps, or, with nothing to keep, its own command as soon as it has one. */
  function CastBy(s: State, e: Step): Option<Server>
    requires e.i < |s.servers|
  {
    var i, sv := e.i, s.servers[e.i];
    match e
    case Continue(_) => Some(sv.(tag := i, from := i, cmd := Some(i)))
    case RecvLast(_, Last(fr, round, report)) =>
      var sv1 := Counts(sv, fr, report);
      if sv.phase.Gathering? && round == sv.cur && Majority(|s.servers|, sv1.inf)
         && !sv1.mode.Empty? && !sv1.mode.Decided?
      then Some(sv1.(phase := Casting)) else None
    case _ => None
  }

  /** The message is there and the assertions of the code hold: a server casts or redirects
      only with a command, and a leader that decides has the command itself. */
  predicate Possible(s: State, e: Step) {
    && e.i < |s.servers|
    && var sv := s.servers[e.i];
       match e
       case Request(i) => !sv.init
       case NewRound(i) => true
       case Continue(i) => sv.phase.Casting? && sv.cur.id == i && sv.mode.Empty? && sv.init
       case Catchup(i) => sv.mode.Decided? && sv.cmd.Some?
       case RecvCollect(i, m) => m in s.net && m.Collect? && m.round.id != i
       case RecvLast(i, m) =>
         && m in s.net && m.Last? && m.round.id == i
         && (CastBy(s, e).Some? && CastBy(s, e).value.from == i ==> CastBy(s, e).value.cmd.Some?)
       case RecvRedirect(i, m) => m in s.net && m.Redirect? && m.to == i && sv.cmd.Some?
       case RecvBegin(i, m) => m in s.net && m.Begin? && (m.round.id == i ==> m.redirected)
       case RecvAccept(i, m) =>
         && m in s.net && m.Accept? && m.round.id == i
         && (sv.cur == m.round && sv.mode.Accepting? && Decides(|s.servers|, Tallies(sv, i, m.fr, m.cmd), i)
             ==> Tallies(sv, i, m.fr, m.cmd).from == i)
       case RecvSuccess(i, m) => m in s.net && m.Success?
       case RecvOld(i, m) => m in s.net && m.Old? && m.to == i
  }

  /** The record of server i changes and at most one message goes out. */
  function Put(s: State, i: nat, sv: Server, out: set<Msg>): State
    requires i < |s.servers|
  {
    s.(servers := s.servers[i := sv], net := s.net + out)
  }

  /** Server i accepts in round r. */
  function Voted(s: State, i: nat, r: Round): State {
    s.(votes := s.votes + {Vote(i, r)})
  }

  /** BeginCast: the leader accepts and sends what it holds to the others, or has the server
      that has the command send it to all. */
  function Casts(s: State, i: nat, sv: Server): State
    requires i < |s.servers| && (sv.from == i ==> sv.cmd.Some?)
  {
    var t := s.(cast := s.cast[sv.cur := sv.tag]);
    if sv.from != i then
      Put(t, i, sv.(mode := Accepting), {Redirect(sv.from, sv.cur, sv.tag)})
    else
      Voted(Put(t, i, sv.(mode := Accepting, ballot := sv.cur, voted := sv.cur, acc := sv.acc + {i}),
                {Begin(sv.cur, sv.tag, sv.cmd.value, false)}), i, sv.cur)
  }

  function ReportOf(sv: Server): Report {
    match sv.mode
    case Empty => NoReport
    case Decided => DecidedReport
    case _ => Proposed(sv.ballot, sv.tag, sv.from)
  }

  /** NewRound, with the phase set to none before. */
  function DoNewRound(s: State, i: nat): State
    requires i < |s.servers|
  {
    var sv := s.servers[i];
    var r := Round(sv.cur.sn + 1, i);
    var sv1 := if sv.mode.Empty? && sv.init
               then sv.(mode := Waiting, tag := i, from := i, cmd := Some(i), ballot := Round(0, i)) else sv;
    Put(s, i, sv1.(cur := r, phase := Gathering, inf := {i}, told := false), {Collect(r, ReportOf(sv1))})
  }

  /** What RecvCollect answers to a round it joins. A server that holds any command says that
      it has the one of its tag. */
  function Answer(sv: Server, i: nat, asked: Report): Report {
    if asked.DecidedReport? then NoReport
    else if sv.mode.Decided? then DecidedReport
    else if !sv.mode.Empty? && (asked.NoReport? || Le(asked.ballot, sv.ballot)) then
      Proposed(sv.ballot, sv.tag, if sv.cmd.Some? then i else sv.from)
    else asked
  }

  function DoRecvCollect(s: State, i: nat, r: Round, asked: Report): State
    requires i < |s.servers|
  {
    var sv := s.servers[i];
    if Le(sv.cur, r) then Put(s, i, sv.(cur := r), {Last(i, r, Answer(sv, i, asked))})
    else Put(s, i, sv, {Old(r.id, sv.cur)})
  }

  /** GatherLast without a cast. */
  function DoRecvLast(s: State, i: nat, fr: nat, r: Round, report: Report): State
    requires i < |s.servers|
  {
    var sv := s.servers[i];
    if !sv.phase.Gathering? || r != sv.cur then s
    else
      var sv1 := Counts(sv, fr, report);
      Put(s, i, sv1.(phase := if Majority(|s.servers|, sv1.inf) then Casting else Gathering), {})
  }

  function DoRecvBegin(s: State, i: nat, r: Round, tag: Tag, cmd: Command): State
    requires i < |s.servers|
  {
    var sv := s.servers[i];
    if !Le(sv.cur, r) then Put(s, i, sv, {Old(r.id, sv.cur)})
    else if sv.mode.Decided? then s
    else
      Voted(Put(s, i, sv.(mode := if sv.mode.Empty? then Waiting else sv.mode, ballot := r, voted := r,
                          tag := tag, from := i, cmd := Some(cmd)), {Accept(i, r, cmd)}), i, r)
  }

  function DoRecvAccept(s: State, i: nat, fr: nat, r: Round, cmd: Command): State
    requires i < |s.servers|
  {
    var sv := s.servers[i];
    if sv.cur != r || !sv.mode.Accepting? then s
    else
      var sv1 := Tallies(sv, i, fr, cmd);
      if Decides(|s.servers|, sv1, i) then Put(s, i, sv1.(mode := Decided), {Success(sv1.tag, sv1.cmd.value)})
      else Put(s, i, sv1, {})
  }

  function Apply(s: State, e: Step): State
    requires Possible(s, e)
  {
    var i, sv := e.i, s.servers[e.i];
    match e
    case Request(_) => Put(s, i, sv.(init := true), {})
    case NewRound(_) => DoNewRound(s, i)
    case Continue(_) => Casts(s, i, CastBy(s, e).value)
    case Catchup(_) => Put(s, i, sv, {Success(sv.tag, sv.cmd.value)})
    case RecvCollect(_, m) => DoRecvCollect(s, i, m.round, m.report)
    case RecvLast(_, m) =>
      if CastBy(s, e).Some? then Casts(s, i, CastBy(s, e).value) else DoRecvLast(s, i, m.fr, m.round, m.report)
    case RecvRedirect(_, m) => Put(s, i, sv, {Begin(m.round, sv.tag, sv.cmd.value, true)})
    case RecvBegin(_, m) => DoRecvBegin(s, i, m.round, m.tag, m.cmd)
    case RecvAccept(_, m) => DoRecvAccept(s, i, m.fr, m.round, m.cmd)
    case RecvSuccess(_, m) =>
      if sv.mode.Decided? then s
      else Put(s, i, sv.(mode := Decided, tag := m.tag, from := i, cmd := Some(m.cmd)), {})
    case RecvOld(_, m) =>
      if Lt(sv.cur, m.commit) then Put(s, i, sv.(cur := m.commit, phase := Idle), {}) else s
  }

  predicate Leads(s: State, steps: seq<Step>, t: State)
    decreases |steps|
  {
    if steps == [] then s == t
    else Possible(s, steps[0]) && Leads(Apply(s, steps[0]), steps[1..], t)
  }

  /** No two servers that have decided execute different commands. */
  predicate Agreement(s: State) {
    forall i, j :: 0 <= i < |s.servers| && 0 <= j < |s.servers|
                   && s.servers[i].mode.Decided? && s.servers[j].mode.Decided? ==>
      s.servers[i].cmd == s.servers[j].cmd
  }
}
