/** Agreement: five rules under which no two servers execute different commands. */
module PaxosAgreement {
  import opened PaxosRounds
  import opened Sets
  import opened Wrappers

  // ----- what the code leaves open

  /** Rules the code does not enforce.
      CountedVotes: when an acceptance completes the majority, every server counted has accepted
      in the leader's round, the leader included.
      RisingVotes: no server accepts in a round below one it has accepted in before.
      UndecidedAnswers: a leader does not cast if one of those whose answers it has counted had
      decided.
      SameTag: a redirected Begin carries the tag that was cast.
      OwnCommand: a Begin carries the command of the server its tag names. */
  datatype Rule = CountedVotes | RisingVotes | UndecidedAnswers | SameTag | OwnCommand

  const ALL_RULES := {CountedVotes, RisingVotes, UndecidedAnswers, SameTag, OwnCommand}

  /** The step is a cast by a server that has the command. */
  predicate CastsItself(s: State, e: Step)
    requires e.i < |s.servers|
  {
    CastBy(s, e).Some? && CastBy(s, e).value.from == e.i
  }

  predicate Obeys(s: State, e: Step, rule: Rule)
    requires Possible(s, e)
  {
    var sv := s.servers[e.i];
    match rule
    case CountedVotes =>
      e.RecvAccept? && sv.cur == e.m.round && sv.mode.Accepting? ==>
        var sv1 := Tallies(sv, e.i, e.m.fr, e.m.cmd);
        Decides(|s.servers|, sv1, e.i) ==> forall a :: a in sv1.acc ==> Vote(a, sv.cur) in s.votes
    case RisingVotes =>
      && (e.RecvBegin? && Le(sv.cur, e.m.round) && !sv.mode.Decided? ==> Le(sv.voted, e.m.round))
      && (CastsItself(s, e) ==> Le(sv.voted, sv.cur))
    case UndecidedAnswers => CastBy(s, e).Some? ==> !CastBy(s, e).value.told
    case SameTag => e.RecvRedirect? ==> sv.tag == e.m.tag
    case OwnCommand =>
      && (e.RecvRedirect? ==> sv.cmd == Some(sv.tag))
      && (CastsItself(s, e) ==> CastBy(s, e).value.cmd == Some(CastBy(s, e).value.tag))
  }

  /** The step obeys the rules. */
  predicate Careful(s: State, e: Step, rules: set<Rule>)
    requires Possible(s, e)
  {
    forall rule :: rule in rules ==> Obeys(s, e, rule)
  }

  // ----- majorities and rounds

  /** The servers of a cell of n. */
  function Servers(n: nat): (r: set<nat>)
    ensures |r| == n && forall a: nat :: a in r <==> a < n
  {
    if n == 0 then {} else Servers(n - 1) + {n - 1}
  }

  ghost predicate Quorum(n: nat, q: set<nat>) {
    Majority(n, q) && forall a :: a in q ==> a < n
  }

  /** Two majorities have a server in common. */
  lemma QuorumsMeet(n: nat, p: set<nat>, q: set<nat>) returns (a: nat)
    requires Quorum(n, p) && Quorum(n, q)
    ensures a in p && a in q && a < n
  {
    SubsetSize(p + q, Servers(n));
    assert |p + q| == |p| + |q| - |p * q|;
    assert p * q != {};
    a :| a in p * q;
  }

  lemma LeTrans(a: Round, b: Round, c: Round)
    requires Le(a, b) && Le(b, c)
    ensures Le(a, c)
  {
  }

  // ----- the invariant

  ghost predicate CastIs(s: State, r: Round, v: Tag) {
    r in s.cast && s.cast[r] == v
  }

  /** A round that is the server's own has been reached by that server. */
  ghost predicate Known(s: State, r: Round) {
    r.sn > 0 ==> r.id < |s.servers| && Le(r, s.servers[r.id].cur)
  }

  /** The tag is the one cast in round b, or b is no round yet. */
  ghost predicate Genuine(s: State, b: Round, v: Tag) {
    b.sn == 0 || CastIs(s, b, v)
  }

  /** Server a accepts nothing below round r any more: it has joined it or a higher one, or
      accepted in one. */
  predicate Bound(s: State, a: nat, r: Round)
    requires a < |s.servers|
  {
    Le(r, s.servers[a].cur) || Le(r, s.servers[a].voted)
  }

  /** Nor in r itself. */
  predicate Past(s: State, a: nat, r: Round)
    requires a < |s.servers|
  {
    Lt(r, s.servers[a].cur) || Lt(r, s.servers[a].voted)
  }

  ghost predicate AllVoted(s: State, q: set<nat>, r: Round) {
    Quorum(|s.servers|, q) && forall a :: a in q ==> Vote(a, r) in s.votes
  }

  ghost predicate Chosen(s: State, v: Tag) {
    exists r, q :: CastIs(s, r, v) && AllVoted(s, q, r)
  }

  ghost predicate ReportOk(s: State, report: Report) {
    report.Proposed? ==> Genuine(s, report.ballot, report.tag) && report.from < |s.servers|
  }

  /** Server a's votes below round r are at most as high as ballot b, if there is one. */
  ghost predicate Covers(s: State, a: nat, r: Round, some: bool, b: Round) {
    forall x :: Vote(a, x) in s.votes && Lt(x, r) ==> some && Le(x, b)
  }

  ghost predicate LastOk(s: State, a: nat, r: Round, report: Report)
    requires r.id < |s.servers|
  {
    && a < |s.servers| && Bound(s, a, r) && ReportOk(s, report)
    && (report.DecidedReport? || s.servers[r.id].mode.Decided?
        || Covers(s, a, r, report.Proposed?, if report.Proposed? then report.ballot else r))
  }

  ghost predicate MsgOk(s: State, m: Msg) {
    match m
    case Collect(r, report) =>
      && r.sn > 0 && Known(s, r) && ReportOk(s, report)
      && (report.DecidedReport? ==> s.servers[r.id].mode.Decided?)
    case Last(a, r, report) => r.sn > 0 && Known(s, r) && LastOk(s, a, r, report)
    case Begin(r, v, cmd, _) => CastIs(s, r, v) && cmd == v
    case Redirect(to, r, v) => CastIs(s, r, v) && to < |s.servers|
    case Accept(a, r, _) => Vote(a, r) in s.votes
    case Success(v, cmd) => Chosen(s, v) && cmd == v
    case Old(_, c) => Known(s, c)
  }

  /** The server leads the round it is in. */
  predicate LeadsOwn(s: State, i: nat)
    requires i < |s.servers|
  {
    s.servers[i].cur.sn > 0 && s.servers[i].cur.id == i
  }

  /** What the leader keeps covers the votes of everyone it has heard from. */
  ghost predicate Gathered(s: State, i: nat)
    requires i < |s.servers|
  {
    var sv := s.servers[i];
    forall a :: a in sv.inf ==>
      a < |s.servers| && Bound(s, a, sv.cur) && Covers(s, a, sv.cur, !sv.mode.Empty?, sv.ballot)
  }

  ghost predicate RoundsOk(s: State, i: nat)
    requires i < |s.servers|
  {
    var sv := s.servers[i];
    && Known(s, sv.cur) && (!sv.phase.Idle? ==> sv.cur.sn > 0)
    && (LeadsOwn(s, i) && sv.cur in s.cast ==> !sv.phase.Gathering? && !sv.mode.Empty?)
  }

  ghost predicate RecordOk(s: State, i: nat)
    requires i < |s.servers|
  {
    var sv := s.servers[i];
    && sv.from < |s.servers| && (sv.mode.Empty? ==> sv.ballot.sn == 0)
    && (!sv.mode.Empty? && !sv.mode.Decided? ==> Genuine(s, sv.ballot, sv.tag))
    && (!sv.mode.Decided? ==> forall x :: Vote(i, x) in s.votes ==> !sv.mode.Empty? && Le(x, sv.ballot))
    && (!sv.mode.Decided? && Vote(i, sv.ballot) in s.votes ==> sv.cmd == Some(sv.tag))
  }

  /** The leader still gathers, or has gathered and has nothing to cast. */
  predicate Open(s: State, i: nat)
    requires i < |s.servers|
  {
    var sv := s.servers[i];
    LeadsOwn(s, i) && !sv.mode.Decided? && (sv.phase.Gathering? || (sv.phase.Casting? && sv.mode.Empty?))
  }

  ghost predicate LeaderOk(s: State, i: nat)
    requires i < |s.servers|
  {
    var sv := s.servers[i];
    && (Open(s, i) && !sv.told ==> Gathered(s, i))
    && (Open(s, i) && sv.phase.Casting? ==> Majority(|s.servers|, sv.inf))
    && (LeadsOwn(s, i) && sv.mode.Accepting? && Vote(i, sv.cur) in s.votes ==> Vote(i, sv.ballot) in s.votes)
    && (sv.mode.Decided? ==> Chosen(s, sv.tag) && sv.cmd == Some(sv.tag))
  }

  ghost predicate ServerOk(s: State, i: nat)
    requires i < |s.servers|
  {
    RoundsOk(s, i) && RecordOk(s, i) && LeaderOk(s, i)
  }

  ghost predicate AllJoined(s: State, q: set<nat>, r: Round) {
    Quorum(|s.servers|, q) && forall a :: a in q ==> Bound(s, a, r)
  }

  /** A majority has joined the round. */
  ghost predicate Joined(s: State, r: Round) {
    exists q :: AllJoined(s, q, r)
  }

  ghost predicate CastOk(s: State, r: Round) {
    r.sn > 0 && Known(s, r) && Joined(s, r)
  }

  ghost predicate AllPast(s: State, q: set<nat>, r: Round) {
    Quorum(|s.servers|, q) && forall a :: a in q ==> Past(s, a, r) && Vote(a, r) !in s.votes
  }

  /** A majority has left round r behind without accepting in it. */
  ghost predicate Blocked(s: State, r: Round) {
    exists q :: AllPast(s, q, r)
  }

  ghost predicate Safe(s: State) {
    forall r, x :: r in s.cast && x in s.cast && Lt(r, x) && s.cast[r] != s.cast[x] ==> Blocked(s, r)
  }

  ghost predicate VotesOk(s: State) {
    forall v :: v in s.votes ==> v.server < |s.servers| && v.round in s.cast && Le(v.round, s.servers[v.server].voted)
  }

  ghost predicate Inv(s: State) {
    && |s.servers| > 1
    && (forall m :: m in s.net ==> MsgOk(s, m))
    && (forall i :: 0 <= i < |s.servers| ==> ServerOk(s, i))
    && (forall r :: r in s.cast ==> CastOk(s, r))
    && VotesOk(s) && Safe(s)
  }

  // ----- what no step undoes

  /** t comes after s by a step of server i: rounds only go up, decisions stay, a new vote is in
      a round not below the one its server is in, a new value is cast by server i in the round
      it is in. */
  ghost predicate Grows(s: State, t: State, i: nat) {
    && |t.servers| == |s.servers| && i < |s.servers|
    && (forall j :: 0 <= j < |s.servers| && j != i ==> t.servers[j] == s.servers[j])
    && Le(s.servers[i].cur, t.servers[i].cur) && Le(s.servers[i].voted, t.servers[i].voted)
    && (s.servers[i].mode.Decided? ==> t.servers[i].mode.Decided?)
    && s.votes <= t.votes
    && (forall v :: v in t.votes && v !in s.votes ==>
          v == Vote(i, t.servers[i].voted) && Le(s.servers[i].cur, t.servers[i].voted))
    && (forall r :: r in s.cast ==> r in t.cast && t.cast[r] == s.cast[r])
    && (forall r :: r in t.cast && r !in s.cast ==> r == t.servers[i].cur && r.id == i)
  }

  lemma CurGrows(s: State, t: State, i: nat, j: nat, r: Round)
    requires Grows(s, t, i) && j < |s.servers| && Le(r, s.servers[j].cur)
    ensures Le(r, t.servers[j].cur)
  {
  }

  lemma VotedGrows(s: State, t: State, i: nat, j: nat, r: Round)
    requires Grows(s, t, i) && j < |s.servers| && Le(r, s.servers[j].voted)
    ensures Le(r, t.servers[j].voted)
  {
  }

  lemma BoundStays(s: State, t: State, i: nat, a: nat, r: Round)
    requires Grows(s, t, i) && a < |s.servers| && Bound(s, a, r)
    ensures Bound(t, a, r)
  {
  }

  lemma PastStays(s: State, t: State, i: nat, a: nat, r: Round)
    requires Grows(s, t, i) && a < |s.servers| && Past(s, a, r) && Vote(a, r) !in s.votes
    ensures Past(t, a, r) && Vote(a, r) !in t.votes
  {
  }

  lemma KnownStays(s: State, t: State, i: nat, r: Round)
    requires Grows(s, t, i) && Known(s, r)
    ensures Known(t, r)
  {
  }

  lemma GenuineStays(s: State, t: State, i: nat, b: Round, v: Tag)
    requires Grows(s, t, i) && Genuine(s, b, v)
    ensures Genuine(t, b, v)
  {
  }

  lemma ChosenStays(s: State, t: State, i: nat, v: Tag)
    requires Grows(s, t, i) && Chosen(s, v)
    ensures Chosen(t, v)
  {
    var r, q :| CastIs(s, r, v) && AllVoted(s, q, r);
    assert CastIs(t, r, v) && AllVoted(t, q, r);
  }

  lemma NewVoteBound(s: State, t: State, i: nat, a: nat, x: Round, r: Round)
    requires Grows(s, t, i) && a < |s.servers| && Bound(s, a, r) && Vote(a, x) in t.votes && Vote(a, x) !in s.votes
    ensures Le(r, x)
  {
    assert Vote(a, x) == Vote(i, t.servers[i].voted);
  }

  lemma CoversStays(s: State, t: State, i: nat, a: nat, r: Round, some: bool, b: Round)
    requires Grows(s, t, i) && a < |s.servers| && Bound(s, a, r) && Covers(s, a, r, some, b)
    ensures Covers(t, a, r, some, b)
  {
    forall x | Vote(a, x) in t.votes && Lt(x, r)
      ensures some && Le(x, b)
    {
      if Vote(a, x) !in s.votes {
        NewVoteBound(s, t, i, a, x, r);
      }
    }
  }

  lemma CastStays(s: State, t: State, i: nat, r: Round, v: Tag)
    requires Grows(s, t, i) && CastIs(s, r, v)
    ensures CastIs(t, r, v) && |t.servers| == |s.servers|
  {
  }

  lemma VoteStays(s: State, t: State, i: nat, a: nat, r: Round)
    requires Grows(s, t, i) && Vote(a, r) in s.votes
    ensures Vote(a, r) in t.votes
  {
  }

  lemma ReportStays(s: State, t: State, i: nat, report: Report)
    requires Grows(s, t, i) && ReportOk(s, report)
    ensures ReportOk(t, report)
  {
    if report.Proposed? {
      GenuineStays(s, t, i, report.ballot, report.tag);
    }
  }

  lemma CollectStays(s: State, t: State, i: nat, r: Round, report: Report)
    requires Grows(s, t, i) && MsgOk(s, Collect(r, report))
    ensures MsgOk(t, Collect(r, report))
  {
    KnownStays(s, t, i, r);
    ReportStays(s, t, i, report);
  }

  lemma DecidedStays(s: State, t: State, i: nat, j: nat)
    requires Grows(s, t, i) && j < |s.servers| && s.servers[j].mode.Decided?
    ensures t.servers[j].mode.Decided?
  {
  }

  lemma LastStays(s: State, t: State, i: nat, a: nat, r: Round, report: Report)
    requires Grows(s, t, i) && MsgOk(s, Last(a, r, report))
    ensures MsgOk(t, Last(a, r, report))
  {
    KnownStays(s, t, i, r);
    ReportStays(s, t, i, report);
    BoundStays(s, t, i, a, r);
    if s.servers[r.id].mode.Decided? {
      DecidedStays(s, t, i, r.id);
    } else if !report.DecidedReport? {
      CoversStays(s, t, i, a, r, report.Proposed?, if report.Proposed? then report.ballot else r);
    }
  }

  lemma MsgStays(s: State, t: State, i: nat, m: Msg)
    requires Grows(s, t, i) && MsgOk(s, m)
    ensures MsgOk(t, m)
  {
    hide Grows, Genuine, Chosen, Covers, Known, CastIs;
    match m
    case Collect(r, report) => CollectStays(s, t, i, r, report);
    case Last(a, r, report) => LastStays(s, t, i, a, r, report);
    case Begin(r, v, _, _) => CastStays(s, t, i, r, v);
    case Redirect(_, r, v) => CastStays(s, t, i, r, v);
    case Accept(a, r, _) => VoteStays(s, t, i, a, r);
    case Success(v, _) => ChosenStays(s, t, i, v);
    case Old(_, c) => KnownStays(s, t, i, c);
  }

  lemma RecordStays(s: State, t: State, i: nat, j: nat)
    requires Grows(s, t, i) && j < |s.servers| && j != i && RecordOk(s, j)
    ensures RecordOk(t, j)
  {
    var sv := s.servers[j];
    if !sv.mode.Empty? && !sv.mode.Decided? {
      GenuineStays(s, t, i, sv.ballot, sv.tag);
    }
    hide Genuine;
    forall x | Vote(j, x) in t.votes
      ensures Vote(j, x) in s.votes
    {
    }
  }

  /** Also of the acting server itself, as long as its round and record are the same. */
  lemma GatheredStays(s: State, t: State, i: nat, j: nat)
    requires Grows(s, t, i) && j < |s.servers| && Gathered(s, j)
    requires t.servers[j].cur == s.servers[j].cur && t.servers[j].inf == s.servers[j].inf
    requires t.servers[j].mode.Empty? == s.servers[j].mode.Empty? && t.servers[j].ballot == s.servers[j].ballot
    ensures Gathered(t, j)
  {
    var sv := s.servers[j];
    forall a | a in sv.inf
      ensures a < |t.servers| && Bound(t, a, sv.cur) && Covers(t, a, sv.cur, !sv.mode.Empty?, sv.ballot)
    {
      BoundStays(s, t, i, a, sv.cur);
      CoversStays(s, t, i, a, sv.cur, !sv.mode.Empty?, sv.ballot);
    }
  }

  lemma ServerStays(s: State, t: State, i: nat, j: nat)
    requires Grows(s, t, i) && j < |s.servers| && j != i && ServerOk(s, j)
    ensures ServerOk(t, j)
  {
    KnownStays(s, t, i, s.servers[j].cur);
    assert LeadsOwn(t, j) == LeadsOwn(s, j);
    assert LeadsOwn(s, j) ==> (s.servers[j].cur in t.cast <==> s.servers[j].cur in s.cast);
    RecordStays(s, t, i, j);
    if Gathered(s, j) {
      GatheredStays(s, t, i, j);
    }
    if s.servers[j].mode.Decided? {
      ChosenStays(s, t, i, s.servers[j].tag);
    }
    hide Gathered, Chosen, Known, RecordOk;
  }

  lemma CastOkStays(s: State, t: State, i: nat, r: Round)
    requires Grows(s, t, i) && CastOk(s, r)
    ensures CastOk(t, r)
  {
    KnownStays(s, t, i, r);
    var q :| AllJoined(s, q, r);
    forall a | a in q
      ensures Bound(t, a, r)
    {
      BoundStays(s, t, i, a, r);
    }
    assert AllJoined(t, q, r);
  }

  lemma BlockedStays(s: State, t: State, i: nat, r: Round)
    requires Grows(s, t, i) && Blocked(s, r)
    ensures Blocked(t, r)
  {
    var q :| AllPast(s, q, r);
    forall a | a in q
      ensures Past(t, a, r) && Vote(a, r) !in t.votes
    {
      PastStays(s, t, i, a, r);
    }
    assert AllPast(t, q, r);
  }

  lemma StepFrame(s: State, t: State, i: nat)
    requires Inv(s) && Grows(s, t, i) && ServerOk(t, i)
    requires forall m :: m in t.net && m !in s.net ==> MsgOk(t, m)
    requires forall v :: v in t.votes && v !in s.votes ==> v.round in t.cast
    ensures |t.servers| == |s.servers| > 1 && VotesOk(t)
    ensures forall m :: m in t.net ==> MsgOk(t, m)
    ensures forall j :: 0 <= j < |t.servers| ==> ServerOk(t, j)
  {
    hide ServerOk, MsgOk, CastOk, Safe;
    forall m | m in t.net
      ensures MsgOk(t, m)
    {
      if m in s.net {
        MsgStays(s, t, i, m);
      }
    }
    forall j | 0 <= j < |t.servers|
      ensures ServerOk(t, j)
    {
      if j != i {
        ServerStays(s, t, i, j);
      }
    }
    forall v | v in t.votes
      ensures v.server < |t.servers| && v.round in t.cast && Le(v.round, t.servers[v.server].voted)
    {
      if v in s.votes {
        VotedGrows(s, t, i, v.server, v.round);
      }
    }
  }

  /** A step that casts nothing and answers at most one message keeps the invariant if the
      acting server, its message and its votes are in order. */
  lemma QuietStep(s: State, t: State, i: nat)
    requires Inv(s) && Grows(s, t, i) && t.cast == s.cast && ServerOk(t, i)
    requires forall m :: m in t.net && m !in s.net ==> MsgOk(t, m)
    requires forall v :: v in t.votes && v !in s.votes ==> v.round in t.cast
    ensures Inv(t)
  {
    StepFrame(s, t, i);
    hide ServerOk, MsgOk, CastOk, Grows;
    forall r | r in t.cast
      ensures CastOk(t, r)
    {
      CastOkStays(s, t, i, r);
    }
    forall r, x | r in t.cast && x in t.cast && Lt(r, x) && t.cast[r] != t.cast[x]
      ensures Blocked(t, r)
    {
      BlockedStays(s, t, i, r);
    }
  }

  /** The same with one message sent. */
  lemma SendingStep(s: State, t: State, i: nat, m: Msg)
    requires Inv(s) && Grows(s, t, i) && t.cast == s.cast && ServerOk(t, i)
    requires t.net == s.net + {m} && MsgOk(t, m)
    requires forall v :: v in t.votes && v !in s.votes ==> v.round in t.cast
    ensures Inv(t)
  {
    hide Inv, MsgOk, ServerOk, Grows;
    QuietStep(s, t, i);
  }

  // ----- the steps

  lemma OneServer(s: State, i: nat)
    requires Inv(s) && i < |s.servers|
    ensures ServerOk(s, i) && RoundsOk(s, i) && RecordOk(s, i) && LeaderOk(s, i)
  {
  }

  /** Only the record of server i changes, and it neither accepts nor casts. */
  lemma PutGrows(s: State, t: State, i: nat)
    requires i < |s.servers| == |t.servers| && t.votes == s.votes && t.cast == s.cast
    requires t.servers == s.servers[i := t.servers[i]] && Le(s.servers[i].cur, t.servers[i].cur)
    requires t.servers[i].voted == s.servers[i].voted
    requires s.servers[i].mode.Decided? ==> t.servers[i].mode.Decided?
    ensures Grows(s, t, i)
  {
  }

  /** A record that changes only in what the invariant does not speak of. */
  lemma SameServer(s: State, t: State, i: nat)
    requires i < |s.servers| && ServerOk(s, i) && |t.servers| == |s.servers| && t.votes == s.votes && t.cast == s.cast
    requires Grows(s, t, i)
    requires t.servers[i] == s.servers[i].(init := t.servers[i].init)
    ensures ServerOk(t, i)
  {
    var sv := s.servers[i];
    KnownStays(s, t, i, sv.cur);
    if !sv.mode.Empty? && !sv.mode.Decided? {
      GenuineStays(s, t, i, sv.ballot, sv.tag);
    }
    if Gathered(s, i) {
      GatheredStays(s, t, i, i);
    }
    if sv.mode.Decided? {
      ChosenStays(s, t, i, sv.tag);
    }
    hide Gathered, Chosen, Known, Genuine, Grows;
  }

  lemma RoundsStay(s: State, t: State, i: nat)
    requires Grows(s, t, i) && RoundsOk(s, i) && t.cast == s.cast
    requires var sv, tv := s.servers[i], t.servers[i];
             tv.cur == sv.cur && tv.phase == sv.phase && (tv.mode.Empty? ==> sv.mode.Empty?)
    ensures RoundsOk(t, i)
  {
    KnownStays(s, t, i, s.servers[i].cur);
    hide Known, Grows;
  }

  lemma RequestKeeps(s: State, i: nat)
    requires Inv(s) && Possible(s, Request(i))
    ensures Inv(Apply(s, Request(i)))
  {
    var t := Apply(s, Request(i));
    OneServer(s, i);
    hide Inv, ServerOk, Grows;
    PutGrows(s, t, i);
    SameServer(s, t, i);
    QuietStep(s, t, i);
  }

  lemma CatchupSends(s: State, t: State, i: nat)
    requires i < |s.servers| && LeaderOk(s, i) && s.servers[i].mode.Decided? && Grows(s, t, i)
    ensures s.servers[i].cmd == Some(s.servers[i].tag) && MsgOk(t, Success(s.servers[i].tag, s.servers[i].tag))
  {
    ChosenStays(s, t, i, s.servers[i].tag);
  }

  lemma CatchupKeeps(s: State, i: nat)
    requires Inv(s) && Possible(s, Catchup(i))
    ensures Inv(Apply(s, Catchup(i)))
  {
    var t := Apply(s, Catchup(i));
    OneServer(s, i);
    hide Inv, ServerOk, Grows, LeaderOk, MsgOk;
    PutGrows(s, t, i);
    SameServer(s, t, i);
    CatchupSends(s, t, i);
    SendingStep(s, t, i, Success(s.servers[i].tag, s.servers[i].tag));
  }

  lemma NotCastYet(s: State, i: nat, r: Round)
    requires Inv(s) && i < |s.servers| && r.id == i && Lt(s.servers[i].cur, r)
    ensures r !in s.cast
  {
    assert r in s.cast ==> CastOk(s, r);
  }

  lemma NoVoteYet(s: State, a: nat, r: Round)
    requires VotesOk(s) && r !in s.cast
    ensures Vote(a, r) !in s.votes
  {
    assert forall v :: v in s.votes ==> v.round != r;
  }

  lemma NewRoundGrows(s: State, i: nat)
    requires i < |s.servers|
    ensures Grows(s, DoNewRound(s, i), i)
  {
  }

  lemma NewRoundRecord(s: State, i: nat)
    requires Inv(s) && i < |s.servers|
    ensures RecordOk(DoNewRound(s, i), i)
  {
    var sv, t := s.servers[i], DoNewRound(s, i);
    OneServer(s, i);
    NewRoundGrows(s, i);
    if !sv.mode.Empty? && !sv.mode.Decided? {
      GenuineStays(s, t, i, sv.ballot, sv.tag);
    }
    hide Inv, LeaderOk, RoundsOk, Grows;
  }

  lemma NewRoundRounds(s: State, i: nat)
    requires Inv(s) && i < |s.servers|
    ensures RoundsOk(DoNewRound(s, i), i)
  {
    var t := DoNewRound(s, i);
    NotCastYet(s, i, t.servers[i].cur);
    hide Inv;
  }

  lemma OwnVotesCovered(t: State, i: nat)
    requires i < |t.servers| && RecordOk(t, i) && !t.servers[i].mode.Decided? && t.servers[i].inf == {i}
    ensures Gathered(t, i)
  {
    hide Genuine;
  }

  lemma NewRoundLeads(s: State, i: nat)
    requires Inv(s) && i < |s.servers|
    ensures LeaderOk(DoNewRound(s, i), i)
  {
    var sv, t := s.servers[i], DoNewRound(s, i);
    OneServer(s, i);
    NotCastYet(s, i, t.servers[i].cur);
    NoVoteYet(s, i, t.servers[i].cur);
    NewRoundRecord(s, i);
    NewRoundGrows(s, i);
    hide Inv, Grows, RecordOk, RoundsOk;
    if sv.mode.Decided? {
      ChosenStays(s, t, i, sv.tag);
    } else {
      OwnVotesCovered(t, i);
    }
    hide Chosen, Gathered;
  }

  lemma NewRoundLeader(s: State, i: nat)
    requires Inv(s) && i < |s.servers|
    ensures ServerOk(DoNewRound(s, i), i)
  {
    NewRoundRecord(s, i);
    NewRoundRounds(s, i);
    NewRoundLeads(s, i);
    hide Inv, RecordOk, RoundsOk, LeaderOk, DoNewRound;
  }

  lemma NewRoundMsg(s: State, i: nat)
    requires Inv(s) && i < |s.servers|
    ensures forall m :: m in DoNewRound(s, i).net && m !in s.net ==> MsgOk(DoNewRound(s, i), m)
  {
    NewRoundRecord(s, i);
    hide Inv, Genuine;
  }

  lemma NewRoundFrame(s: State, i: nat)
    requires i < |s.servers|
    ensures DoNewRound(s, i).cast == s.cast && DoNewRound(s, i).votes == s.votes
  {
  }

  lemma NewRoundKeeps(s: State, i: nat)
    requires Inv(s) && Possible(s, NewRound(i))
    ensures Inv(Apply(s, NewRound(i)))
  {
    NewRoundGrows(s, i);
    NewRoundLeader(s, i);
    NewRoundMsg(s, i);
    hide Inv, ServerOk, MsgOk, Grows, DoNewRound;
    assert DoNewRound(s, i).cast == s.cast && DoNewRound(s, i).votes == s.votes by { NewRoundFrame(s, i); }
    QuietStep(s, DoNewRound(s, i), i);
  }

  // ----- joining a round

  lemma JoinRecord(s: State, t: State, i: nat)
    requires Grows(s, t, i) && RecordOk(s, i) && t.votes == s.votes
    requires t.servers[i] == s.servers[i].(cur := t.servers[i].cur, phase := t.servers[i].phase)
    ensures RecordOk(t, i)
  {
    var sv := s.servers[i];
    if !sv.mode.Empty? && !sv.mode.Decided? {
      GenuineStays(s, t, i, sv.ballot, sv.tag);
    }
    hide Genuine, Grows;
  }

  lemma JoinLeader(s: State, t: State, i: nat)
    requires Grows(s, t, i) && LeaderOk(s, i) && t.votes == s.votes && !LeadsOwn(t, i)
    requires t.servers[i] == s.servers[i].(cur := t.servers[i].cur, phase := t.servers[i].phase)
    ensures LeaderOk(t, i)
  {
    var sv := s.servers[i];
    if sv.mode.Decided? {
      ChosenStays(s, t, i, sv.tag);
    }
    hide Chosen, Gathered, Grows;
  }

  /** Without a new vote a record stays in order in a round that is not the server's own. */
  lemma JoinServer(s: State, t: State, i: nat, r: Round)
    requires Inv(s) && i < |s.servers| && Known(s, r) && Le(s.servers[i].cur, r) && (r.sn > 0 ==> r.id != i)
    requires t.votes == s.votes && t.cast == s.cast && |t.servers| == |s.servers|
    requires t.servers == s.servers[i := t.servers[i]]
    requires t.servers[i] == s.servers[i].(cur := r, phase := t.servers[i].phase)
    requires !t.servers[i].phase.Idle? ==> r.sn > 0
    ensures Grows(s, t, i) && ServerOk(t, i)
  {
    OneServer(s, i);
    hide Inv, Grows, RecordOk, LeaderOk, Known;
    PutGrows(s, t, i);
    KnownStays(s, t, i, r);
    JoinRecord(s, t, i);
    JoinLeader(s, t, i);
  }

  /** What the answer covers. */
  lemma AnswerCovers(s: State, i: nat, r: Round, asked: Report)
    requires Inv(s) && i < |s.servers| && r.sn > 0 && r.id < |s.servers| && ReportOk(s, asked)
    requires asked.DecidedReport? ==> s.servers[r.id].mode.Decided?
    ensures var answer := Answer(s.servers[i], i, asked);
            && ReportOk(s, answer)
            && (answer.DecidedReport? || s.servers[r.id].mode.Decided?
                || Covers(s, i, r, answer.Proposed?, if answer.Proposed? then answer.ballot else r))
  {
    var sv := s.servers[i];
    OneServer(s, i);
    hide Inv, Genuine, LeaderOk, RoundsOk;
    var answer := Answer(sv, i, asked);
    forall x | Vote(i, x) in s.votes && !answer.DecidedReport? && !s.servers[r.id].mode.Decided?
      ensures answer.Proposed? && Le(x, answer.ballot)
    {
      assert !sv.mode.Empty? && Le(x, sv.ballot);
      if asked.Proposed? && !Le(asked.ballot, sv.ballot) {
        LeTrans(x, sv.ballot, asked.ballot);
      }
    }
  }

  /** A round that is too old is refused. */
  lemma RefuseKeeps(s: State, i: nat, to: nat)
    requires Inv(s) && i < |s.servers|
    ensures Inv(Put(s, i, s.servers[i], {Old(to, s.servers[i].cur)}))
  {
    var t := Put(s, i, s.servers[i], {Old(to, s.servers[i].cur)});
    OneServer(s, i);
    hide Inv, ServerOk, Grows, Known;
    PutGrows(s, t, i);
    SameServer(s, t, i);
    KnownStays(s, t, i, s.servers[i].cur);
    QuietStep(s, t, i);
  }

  lemma LastInOrder(s: State, t: State, i: nat, r: Round, answer: Report)
    requires Grows(s, t, i) && r.sn > 0 && Known(s, r) && t.servers[i].cur == r && ReportOk(s, answer)
    requires t.votes == s.votes
    requires answer.DecidedReport? || s.servers[r.id].mode.Decided?
             || Covers(s, i, r, answer.Proposed?, if answer.Proposed? then answer.ballot else r)
    ensures MsgOk(t, Last(i, r, answer))
  {
    KnownStays(s, t, i, r);
    ReportStays(s, t, i, answer);
    if s.servers[r.id].mode.Decided? {
      DecidedStays(s, t, i, r.id);
    }
  }

  lemma JoinKeeps(s: State, i: nat, r: Round, asked: Report)
    requires Inv(s) && i < |s.servers| && MsgOk(s, Collect(r, asked)) && r.id != i && Le(s.servers[i].cur, r)
    ensures Inv(Put(s, i, s.servers[i].(cur := r), {Last(i, r, Answer(s.servers[i], i, asked))}))
  {
    var answer := Answer(s.servers[i], i, asked);
    var t := Put(s, i, s.servers[i].(cur := r), {Last(i, r, answer)});
    OneServer(s, i);
    JoinServer(s, t, i, r);
    AnswerCovers(s, i, r, asked);
    hide Inv, ServerOk, Answer;
    LastInOrder(s, t, i, r, answer);
    hide Grows, MsgOk, Covers, Known, ReportOk;
    QuietStep(s, t, i);
  }

  lemma RecvCollectKeeps(s: State, i: nat, m: Msg)
    requires Inv(s) && Possible(s, RecvCollect(i, m))
    ensures Inv(Apply(s, RecvCollect(i, m)))
  {
    assert MsgOk(s, m);
    hide Inv, MsgOk, Answer;
    if Le(s.servers[i].cur, m.round) {
      JoinKeeps(s, i, m.round, m.report);
    } else {
      RefuseKeeps(s, i, m.round.id);
    }
  }

  lemma RecvOldKeeps(s: State, i: nat, m: Msg)
    requires Inv(s) && Possible(s, RecvOld(i, m))
    ensures Inv(Apply(s, RecvOld(i, m)))
  {
    var t := Apply(s, RecvOld(i, m));
    assert MsgOk(s, m);
    if Lt(s.servers[i].cur, m.commit) {
      JoinServer(s, t, i, m.commit);
      hide Inv, ServerOk, Grows;
      QuietStep(s, t, i);
    }
  }

  // ----- accepting

  lemma OwnVotes(s: State, i: nat)
    requires VotesOk(s) && i < |s.servers|
    ensures forall x :: Vote(i, x) in s.votes ==> Le(x, s.servers[i].voted) && x in s.cast
  {
    forall x | Vote(i, x) in s.votes
      ensures Le(x, s.servers[i].voted) && x in s.cast
    {
      assert Vote(i, x).server == i && Vote(i, x).round == x;
    }
  }

  /** Server i may accept value v, cast in round r, with its command. */
  ghost predicate MayAccept(s: State, i: nat, r: Round, v: Tag) {
    && i < |s.servers| && CastIs(s, r, v) && Le(s.servers[i].cur, r) && Le(s.servers[i].voted, r)
    && !s.servers[i].mode.Decided?
  }

  lemma VoteGrows(s: State, i: nat, r: Round, v: Tag)
    requires MayAccept(s, i, r, v)
    ensures Grows(s, DoRecvBegin(s, i, r, v, v), i)
  {
  }

  lemma VoteRecord(s: State, i: nat, r: Round, v: Tag)
    requires MayAccept(s, i, r, v) && RecordOk(s, i) && VotesOk(s)
    ensures RecordOk(DoRecvBegin(s, i, r, v, v), i)
  {
    OwnVotes(s, i);
    forall x | Vote(i, x) in s.votes
      ensures Le(x, r)
    {
      LeTrans(x, s.servers[i].voted, r);
    }
  }

  /** Votes below the leader's round are below the one it accepts in. */
  lemma VoteGathered(s: State, t: State, i: nat, r: Round)
    requires Grows(s, t, i) && Gathered(s, i) && Le(s.servers[i].cur, r)
    requires t.servers[i].cur == s.servers[i].cur && t.servers[i].inf == s.servers[i].inf
    requires !t.servers[i].mode.Empty? && t.servers[i].ballot == r
    ensures Gathered(t, i)
  {
    var sv := s.servers[i];
    forall a | a in sv.inf
      ensures a < |t.servers| && Bound(t, a, sv.cur) && Covers(t, a, sv.cur, true, r)
    {
      BoundStays(s, t, i, a, sv.cur);
      forall x | Vote(a, x) in t.votes && Lt(x, sv.cur)
        ensures Le(x, r)
      {
        LeTrans(x, sv.cur, r);
      }
    }
  }

  lemma VoteLeader(s: State, i: nat, r: Round, v: Tag)
    requires MayAccept(s, i, r, v) && LeaderOk(s, i)
    ensures LeaderOk(DoRecvBegin(s, i, r, v, v), i)
  {
    var t := DoRecvBegin(s, i, r, v, v);
    VoteGrows(s, i, r, v);
    hide Grows, Chosen;
    if Gathered(s, i) {
      VoteGathered(s, t, i, r);
    }
    hide Gathered;
  }

  lemma VoteServer(s: State, t: State, i: nat, r: Round, v: Tag)
    requires Inv(s) && MayAccept(s, i, r, v) && t == DoRecvBegin(s, i, r, v, v)
    ensures Grows(s, t, i) && ServerOk(t, i)
  {
    OneServer(s, i);
    VoteRecord(s, i, r, v);
    VoteLeader(s, i, r, v);
    hide Inv, RecordOk, LeaderOk;
    VoteGrows(s, i, r, v);
    hide Grows;
    RoundsStay(s, t, i);
  }

  lemma VoteFrame(s: State, i: nat, r: Round, v: Tag)
    requires MayAccept(s, i, r, v)
    ensures var t := DoRecvBegin(s, i, r, v, v);
            && t.cast == s.cast && t.net == s.net + {Accept(i, r, v)} && MsgOk(t, Accept(i, r, v))
            && forall x :: x in t.votes && x !in s.votes ==> x.round in t.cast
  {
  }

  lemma AcceptKeeps(s: State, i: nat, r: Round, v: Tag)
    requires Inv(s) && i < |s.servers| && MayAccept(s, i, r, v)
    ensures Inv(DoRecvBegin(s, i, r, v, v))
  {
    hide Inv, ServerOk, Grows, DoRecvBegin, MsgOk, MayAccept;
    var t := DoRecvBegin(s, i, r, v, v);
    VoteServer(s, t, i, r, v);
    VoteFrame(s, i, r, v);
    SendingStep(s, t, i, Accept(i, r, v));
  }

  lemma RecvBeginKeeps(s: State, i: nat, m: Msg)
    requires Inv(s) && Possible(s, RecvBegin(i, m)) && Obeys(s, RecvBegin(i, m), RisingVotes)
    ensures Inv(Apply(s, RecvBegin(i, m)))
  {
    assert MsgOk(s, m);
    hide Inv;
    if !Le(s.servers[i].cur, m.round) {
      RefuseKeeps(s, i, m.round.id);
    } else if !s.servers[i].mode.Decided? {
      AcceptKeeps(s, i, m.round, m.tag);
    }
  }

  // ----- deciding

  lemma DecidedRecord(t: State, i: nat)
    requires i < |t.servers| && t.servers[i].mode.Decided? && t.servers[i].from < |t.servers|
    requires Chosen(t, t.servers[i].tag) && t.servers[i].cmd == Some(t.servers[i].tag)
    ensures RecordOk(t, i) && LeaderOk(t, i)
  {
    hide Chosen, Gathered, Genuine;
  }

  lemma DecideServer(s: State, t: State, i: nat, v: Tag)
    requires Inv(s) && i < |s.servers| && Chosen(s, v) && !s.servers[i].mode.Decided?
    requires t.votes == s.votes && t.cast == s.cast && |t.servers| == |s.servers|
    requires t.servers == s.servers[i := t.servers[i]]
    requires var sv, tv := s.servers[i], t.servers[i];
             && tv.cur == sv.cur && tv.phase == sv.phase && tv.voted == sv.voted && tv.mode.Decided? && tv.tag == v
             && tv.cmd == Some(v) && tv.from < |s.servers|
    ensures Grows(s, t, i) && ServerOk(t, i)
  {
    OneServer(s, i);
    hide Inv, RoundsOk, Chosen, RecordOk, LeaderOk, Grows;
    PutGrows(s, t, i);
    RoundsStay(s, t, i);
    ChosenStays(s, t, i, v);
    DecidedRecord(t, i);
  }

  lemma RecvSuccessKeeps(s: State, i: nat, m: Msg)
    requires Inv(s) && Possible(s, RecvSuccess(i, m))
    ensures Inv(Apply(s, RecvSuccess(i, m)))
  {
    var t := Apply(s, RecvSuccess(i, m));
    assert MsgOk(s, m);
    if !s.servers[i].mode.Decided? {
      DecideServer(s, t, i, m.tag);
      hide Inv, ServerOk, Grows;
      QuietStep(s, t, i);
    }
  }

  lemma NotBlocked(s: State, r: Round, p: set<nat>)
    requires AllVoted(s, p, r)
    ensures !Blocked(s, r)
  {
    if Blocked(s, r) {
      var q :| AllPast(s, q, r);
      var a := QuorumsMeet(|s.servers|, p, q);
    }
  }

  lemma LeEqual(a: Round, b: Round)
    requires Le(a, b) && Le(b, a) && a.sn > 0
    ensures a == b
  {
  }

  /** What a leader holds that has accepted in its round, when that round has a majority: the
      value cast there, with its command, even if the leader has since accepted in a higher one. */
  lemma MajorityChooses(s: State, i: nat, acc: set<nat>)
    requires Inv(s) && i < |s.servers| && LeadsOwn(s, i) && s.servers[i].mode.Accepting? && i in acc
    requires AllVoted(s, acc, s.servers[i].cur)
    ensures Chosen(s, s.servers[i].tag) && s.servers[i].cmd == Some(s.servers[i].tag)
  {
    var sv := s.servers[i];
    OneServer(s, i);
    OwnVotes(s, i);
    assert CastIs(s, sv.cur, s.cast[sv.cur]) && AllVoted(s, acc, sv.cur);
    assert Vote(i, sv.ballot) in s.votes && Le(sv.cur, sv.ballot) && Genuine(s, sv.ballot, sv.tag);
    NotBlocked(s, sv.cur, acc);
    hide ServerOk, RoundsOk, RecordOk, LeaderOk, MsgOk, VotesOk, CastOk, Blocked, AllVoted;
    if Le(sv.ballot, sv.cur) {
      LeEqual(sv.ballot, sv.cur);
    }
    assert s.cast[sv.cur] == sv.tag;
  }

  lemma CountRecord(s: State, t: State, i: nat, acc: set<nat>, cmd: Command)
    requires Grows(s, t, i) && RecordOk(s, i) && t.votes == s.votes && s.servers[i].mode.Accepting?
    requires var sv := s.servers[i];
             t.servers[i] == (if sv.cmd.None? then sv.(cmd := Some(cmd), from := i) else sv).(acc := acc)
    ensures RecordOk(t, i)
  {
    GenuineStays(s, t, i, s.servers[i].ballot, s.servers[i].tag);
    hide Genuine, Grows;
  }

  lemma CountLeader(s: State, t: State, i: nat, acc: set<nat>, cmd: Command)
    requires Grows(s, t, i) && LeaderOk(s, i) && RoundsOk(s, i) && LeadsOwn(s, i) && s.servers[i].mode.Accepting?
    requires t.votes == s.votes && t.cast == s.cast && s.servers[i].cur in s.cast
    requires var sv := s.servers[i];
             t.servers[i] == (if sv.cmd.None? then sv.(cmd := Some(cmd), from := i) else sv).(acc := acc)
    ensures LeaderOk(t, i)
  {
    hide Chosen, Gathered, Grows;
  }

  lemma CountServer(s: State, t: State, i: nat, acc: set<nat>, cmd: Command)
    requires Inv(s) && i < |s.servers| && LeadsOwn(s, i) && s.servers[i].mode.Accepting? && s.servers[i].cur in s.cast
    requires t.votes == s.votes && t.cast == s.cast
    requires var sv := s.servers[i];
             t.servers == s.servers[i := (if sv.cmd.None? then sv.(cmd := Some(cmd), from := i) else sv).(acc := acc)]
    ensures Grows(s, t, i) && ServerOk(t, i)
  {
    OneServer(s, i);
    hide Inv, Grows, RecordOk, LeaderOk, RoundsOk;
    PutGrows(s, t, i);
    RoundsStay(s, t, i);
    CountRecord(s, t, i, acc, cmd);
    CountLeader(s, t, i, acc, cmd);
  }

  lemma CountKeeps(s: State, i: nat, fr: nat, cmd: Command)
    requires Inv(s) && i < |s.servers| && LeadsOwn(s, i) && s.servers[i].mode.Accepting? && s.servers[i].cur in s.cast
    ensures Inv(Put(s, i, Tallies(s.servers[i], i, fr, cmd), {}))
  {
    var t := Put(s, i, Tallies(s.servers[i], i, fr, cmd), {});
    CountServer(s, t, i, s.servers[i].acc + {fr}, cmd);
    hide Inv, ServerOk, Grows;
    QuietStep(s, t, i);
  }

  /** The leader has decided what it holds. */
  function Winner(s: State, i: nat, acc: set<nat>): State
    requires i < |s.servers|
  {
    Put(s, i, s.servers[i].(acc := acc, mode := Decided), {Success(s.servers[i].tag, s.servers[i].tag)})
  }

  lemma DecideOwn(s: State, i: nat, acc: set<nat>)
    requires Inv(s) && i < |s.servers| && LeadsOwn(s, i) && s.servers[i].mode.Accepting? && i in acc
    requires AllVoted(s, acc, s.servers[i].cur)
    ensures var t := Winner(s, i, acc);
            && Grows(s, t, i) && ServerOk(t, i)
            && Chosen(t, s.servers[i].tag) && s.servers[i].cmd == Some(s.servers[i].tag)
  {
    var t := Winner(s, i, acc);
    OneServer(s, i);
    MajorityChooses(s, i, acc);
    hide Inv, Chosen, ServerOk, Grows;
    DecideServer(s, t, i, s.servers[i].tag);
    ChosenStays(s, t, i, s.servers[i].tag);
  }

  lemma DecideKeeps(s: State, i: nat, acc: set<nat>)
    requires Inv(s) && i < |s.servers| && LeadsOwn(s, i) && s.servers[i].mode.Accepting? && i in acc
    requires AllVoted(s, acc, s.servers[i].cur)
    ensures Inv(Winner(s, i, acc)) && s.servers[i].cmd == Some(s.servers[i].tag)
  {
    hide Inv, ServerOk, Grows, Chosen, AllVoted;
    DecideOwn(s, i, acc);
    SendingStep(s, Winner(s, i, acc), i, Success(s.servers[i].tag, s.servers[i].tag));
  }

  lemma VotedQuorum(s: State, acc: set<nat>, r: Round)
    requires VotesOk(s) && Majority(|s.servers|, acc) && forall a :: a in acc ==> Vote(a, r) in s.votes
    ensures AllVoted(s, acc, r)
  {
    forall a | a in acc
      ensures a < |s.servers|
    {
      assert Vote(a, r).server == a;
    }
  }

  /** An acceptance for the round the leader is in. */
  lemma CountedIsOwn(s: State, i: nat, fr: nat, r: Round)
    requires Inv(s) && i < |s.servers| && Vote(fr, r) in s.votes && r.id == i && s.servers[i].cur == r
    ensures LeadsOwn(s, i) && r in s.cast
  {
    assert Vote(fr, r).round in s.cast;
    assert CastOk(s, r);
  }

  lemma RecvAcceptKeeps(s: State, i: nat, m: Msg)
    requires Inv(s) && Possible(s, RecvAccept(i, m)) && Obeys(s, RecvAccept(i, m), CountedVotes)
    ensures Inv(Apply(s, RecvAccept(i, m)))
  {
    assert MsgOk(s, m);
    var sv := s.servers[i];
    if sv.cur == m.round && sv.mode.Accepting? {
      CountedIsOwn(s, i, m.fr, m.round);
      var sv1 := Tallies(sv, i, m.fr, m.cmd);
      if Decides(|s.servers|, sv1, i) {
        VotedQuorum(s, sv1.acc, sv.cur);
        hide Inv;
        DecideKeeps(s, i, sv1.acc);
      } else {
        hide Inv;
        CountKeeps(s, i, m.fr, m.cmd);
      }
    }
  }

  // ----- redirecting

  lemma RedirectKeeps(s: State, i: nat, r: Round, v: Tag)
    requires Inv(s) && i < |s.servers| && CastIs(s, r, v)
    ensures Inv(Put(s, i, s.servers[i], {Begin(r, v, v, true)}))
  {
    var t := Put(s, i, s.servers[i], {Begin(r, v, v, true)});
    OneServer(s, i);
    hide Inv, ServerOk, Grows, CastIs;
    PutGrows(s, t, i);
    SameServer(s, t, i);
    assert MsgOk(t, Begin(r, v, v, true)) by { CastStays(s, t, i, r, v); }
    hide MsgOk;
    SendingStep(s, t, i, Begin(r, v, v, true));
  }

  lemma RedirectIs(s: State, i: nat, m: Msg)
    requires Possible(s, RecvRedirect(i, m))
    requires Obeys(s, RecvRedirect(i, m), SameTag) && Obeys(s, RecvRedirect(i, m), OwnCommand)
    ensures m in s.net && m.Redirect? && i < |s.servers|
    ensures Apply(s, RecvRedirect(i, m)) == Put(s, i, s.servers[i], {Begin(m.round, m.tag, m.tag, true)})
  {
    hide CastBy, Casts, DoNewRound, DoRecvBegin, DoRecvAccept, DoRecvCollect, DoRecvLast;
  }

  lemma RecvRedirectKeeps(s: State, i: nat, m: Msg)
    requires Inv(s) && Possible(s, RecvRedirect(i, m))
    requires Obeys(s, RecvRedirect(i, m), SameTag) && Obeys(s, RecvRedirect(i, m), OwnCommand)
    ensures Inv(Apply(s, RecvRedirect(i, m)))
  {
    RedirectIs(s, i, m);
    hide Possible, Obeys, Apply;
    assert CastIs(s, m.round, m.tag) by { assert MsgOk(s, m); }
    hide Inv, MsgOk;
    RedirectKeeps(s, i, m.round, m.tag);
  }

  // ----- casting

  /** A majority has joined the leader's round, and none of it has a vote above the ballot
      whose value the leader keeps. */
  ghost predicate MayCast(s: State, i: nat, sv: Server) {
    && i < |s.servers| && LeadsOwn(s, i) && sv.cur == s.servers[i].cur && sv.voted == s.servers[i].voted
    && sv.cur !in s.cast && sv.phase.Casting? && !sv.mode.Decided? && !s.servers[i].mode.Decided?
    && Quorum(|s.servers|, sv.inf) && Genuine(s, sv.ballot, sv.tag) && sv.from < |s.servers|
    && (forall a :: a in sv.inf ==> Bound(s, a, sv.cur) && Covers(s, a, sv.cur, true, sv.ballot))
    && (forall x :: Vote(i, x) in s.votes ==> Le(x, sv.ballot))
    && (Vote(i, sv.ballot) in s.votes ==> sv.cmd == Some(sv.tag))
    && (sv.from == i ==> sv.cmd == Some(sv.tag) && Le(sv.voted, sv.cur))
  }

  lemma CastsGrows(s: State, i: nat, sv: Server)
    requires MayCast(s, i, sv)
    ensures Grows(s, Casts(s, i, sv), i)
  {
  }

  lemma BoundPast(s: State, a: nat, x: Round, r: Round)
    requires a < |s.servers| && Bound(s, a, x) && Lt(r, x)
    ensures Past(s, a, r)
  {
    if Past(s, a, r) {
    } else {
      if Le(x, s.servers[a].cur) {
        LeTrans(x, s.servers[a].cur, r);
      } else {
        LeTrans(x, s.servers[a].voted, r);
      }
    }
  }

  lemma AboveBallotBlocked(s: State, i: nat, sv: Server, r: Round)
    requires MayCast(s, i, sv) && r in s.cast && Lt(r, sv.cur) && Lt(sv.ballot, r)
    ensures Blocked(Casts(s, i, sv), r)
  {
    var t := Casts(s, i, sv);
    CastsGrows(s, i, sv);
    forall a | a in sv.inf
      ensures Past(t, a, r) && Vote(a, r) !in t.votes
    {
      assert Bound(s, a, sv.cur) && Covers(s, a, sv.cur, true, sv.ballot);
      BoundPast(s, a, sv.cur, r);
      PastStays(s, t, i, a, r);
    }
    assert AllPast(t, sv.inf, r);
  }

  lemma BelowBallotBlocked(s: State, i: nat, sv: Server, r: Round)
    requires Safe(s) && MayCast(s, i, sv) && r in s.cast && CastIs(s, sv.ballot, sv.tag) && Lt(r, sv.ballot)
    requires s.cast[r] != sv.tag
    ensures Blocked(Casts(s, i, sv), r)
  {
    CastsGrows(s, i, sv);
    hide Casts, MayCast, Grows, Blocked;
    BlockedStays(s, Casts(s, i, sv), i, r);
  }

  /** The ballot is above r, or it is the round of the value. */
  lemma BallotAbove(s: State, b: Round, v: Tag, r: Round)
    requires Genuine(s, b, v) && r.sn > 0 && r in s.cast && s.cast[r] != v && !Lt(b, r)
    ensures CastIs(s, b, v) && Lt(r, b)
  {
  }

  /** A lower round with another value is blocked. */
  lemma LowerBlocked(s: State, i: nat, sv: Server, r: Round)
    requires Inv(s) && MayCast(s, i, sv) && r in s.cast && Lt(r, sv.cur) && s.cast[r] != sv.tag
    ensures Blocked(Casts(s, i, sv), r)
  {
    assert r.sn > 0 by { assert CastOk(s, r); }
    hide Casts, CastOk, MsgOk, ServerOk, VotesOk, Covers, Blocked, Safe, Genuine;
    if Lt(sv.ballot, r) {
      AboveBallotBlocked(s, i, sv, r);
    } else {
      BallotAbove(s, sv.ballot, sv.tag, r);
      hide MayCast;
      BelowBallotBlocked(s, i, sv, r);
    }
  }

  /** And so is this round for a higher one that has been cast. */
  lemma HigherBlocks(s: State, i: nat, sv: Server, x: Round)
    requires Inv(s) && MayCast(s, i, sv) && x in s.cast && Lt(sv.cur, x)
    ensures Blocked(Casts(s, i, sv), sv.cur)
  {
    var t := Casts(s, i, sv);
    CastsGrows(s, i, sv);
    assert CastOk(s, x);
    var q :| AllJoined(s, q, x);
    forall a | a in q
      ensures Past(t, a, sv.cur) && Vote(a, sv.cur) !in t.votes
    {
      BoundPast(s, a, x, sv.cur);
      NoVoteYet(s, a, sv.cur);
      PastStays(s, t, i, a, sv.cur);
    }
    assert AllPast(t, q, sv.cur);
  }

  lemma CastSafe(s: State, i: nat, sv: Server)
    requires Inv(s) && MayCast(s, i, sv)
    ensures Safe(Casts(s, i, sv))
  {
    var t := Casts(s, i, sv);
    CastsGrows(s, i, sv);
    forall r, x | r in t.cast && x in t.cast && Lt(r, x) && t.cast[r] != t.cast[x]
      ensures Blocked(t, r)
    {
      if r in s.cast && x in s.cast {
        BlockedStays(s, t, i, r);
      } else if r in s.cast {
        LowerBlocked(s, i, sv, r);
      } else {
        HigherBlocks(s, i, sv, x);
      }
    }
  }

  lemma NewJoined(s: State, t: State, i: nat, sv: Server)
    requires MayCast(s, i, sv) && Grows(s, t, i) && t.servers[i].cur == sv.cur
    ensures CastOk(t, sv.cur)
  {
    forall a | a in sv.inf
      ensures Bound(t, a, sv.cur)
    {
      BoundStays(s, t, i, a, sv.cur);
    }
    assert AllJoined(t, sv.inf, sv.cur);
  }

  lemma CastJoined(s: State, i: nat, sv: Server)
    requires Inv(s) && MayCast(s, i, sv)
    ensures forall r :: r in Casts(s, i, sv).cast ==> CastOk(Casts(s, i, sv), r)
  {
    var t := Casts(s, i, sv);
    CastsGrows(s, i, sv);
    OneServer(s, i);
    forall r | r in t.cast
      ensures CastOk(t, r)
    {
      if r in s.cast {
        CastOkStays(s, t, i, r);
      } else {
        NewJoined(s, t, i, sv);
      }
    }
  }

  lemma CastRounds(s: State, i: nat, sv: Server)
    requires Inv(s) && MayCast(s, i, sv)
    ensures RoundsOk(Casts(s, i, sv), i)
  {
    CastsGrows(s, i, sv);
    OneServer(s, i);
    hide Inv;
    KnownStays(s, Casts(s, i, sv), i, sv.cur);
    hide Grows, Known, RecordOk, LeaderOk, Covers, Genuine;
  }

  lemma SelfGenuine(t: State, r: Round, v: Tag)
    requires CastIs(t, r, v)
    ensures Genuine(t, r, v)
  {
  }

  lemma OwnBelow(s: State, i: nat, sv: Server)
    requires VotesOk(s) && MayCast(s, i, sv) && sv.from == i
    ensures forall x :: Vote(i, x) in s.votes ==> Le(x, sv.cur)
  {
    OwnVotes(s, i);
    forall x | Vote(i, x) in s.votes
      ensures Le(x, sv.cur)
    {
      LeTrans(x, sv.voted, sv.cur);
    }
  }

  lemma CastRecord(s: State, i: nat, sv: Server)
    requires VotesOk(s) && MayCast(s, i, sv)
    ensures RecordOk(Casts(s, i, sv), i)
  {
    var t := Casts(s, i, sv);
    CastsGrows(s, i, sv);
    GenuineStays(s, t, i, sv.ballot, sv.tag);
    if sv.from == i {
      OwnBelow(s, i, sv);
      SelfGenuine(t, sv.cur, sv.tag);
    }
    hide Grows, Covers, Genuine, VotesOk, Bound;
  }

  lemma CastLeader(s: State, i: nat, sv: Server)
    requires VotesOk(s) && MayCast(s, i, sv)
    ensures LeaderOk(Casts(s, i, sv), i)
  {
    NoVoteYet(s, i, sv.cur);
    hide Chosen, Gathered, Covers, Genuine, VotesOk, Bound;
  }

  lemma CastMsgs(s: State, i: nat, sv: Server)
    requires MayCast(s, i, sv)
    ensures forall m :: m in Casts(s, i, sv).net && m !in s.net ==> MsgOk(Casts(s, i, sv), m)
  {
    hide Covers, Genuine;
  }

  lemma CastServer(s: State, i: nat, sv: Server)
    requires Inv(s) && MayCast(s, i, sv)
    ensures ServerOk(Casts(s, i, sv), i)
    ensures forall m :: m in Casts(s, i, sv).net && m !in s.net ==> MsgOk(Casts(s, i, sv), m)
  {
    CastRounds(s, i, sv);
    CastRecord(s, i, sv);
    CastLeader(s, i, sv);
    CastMsgs(s, i, sv);
    hide Inv, MayCast, Casts, RoundsOk, RecordOk, LeaderOk, MsgOk;
  }

  lemma CastKeeps(s: State, i: nat, sv: Server)
    requires Inv(s) && MayCast(s, i, sv)
    ensures Inv(Casts(s, i, sv))
  {
    var t := Casts(s, i, sv);
    CastsGrows(s, i, sv);
    CastServer(s, i, sv);
    CastSafe(s, i, sv);
    CastJoined(s, i, sv);
    assert forall v :: v in t.votes && v !in s.votes ==> v.round in t.cast;
    hide MayCast, Casts, ServerOk, MsgOk, CastOk, Safe, Grows;
    StepFrame(s, t, i);
  }

  lemma ContinueKeeps(s: State, i: nat)
    requires Inv(s) && Possible(s, Continue(i))
    requires Obeys(s, Continue(i), UndecidedAnswers) && Obeys(s, Continue(i), RisingVotes)
    ensures Inv(Apply(s, Continue(i)))
  {
    var sv := CastBy(s, Continue(i)).value;
    OneServer(s, i);
    assert Gathered(s, i);
    assert forall a :: a in sv.inf ==> Covers(s, a, sv.cur, true, sv.ballot);
    assert MayCast(s, i, sv) by { hide Inv; }
    hide Inv, MayCast, Casts;
    CastKeeps(s, i, sv);
  }

  // ----- gathering

  /** An answer the leader is about to count. */
  ghost predicate Counting(s: State, i: nat, fr: nat, report: Report) {
    && i < |s.servers| && LeadsOwn(s, i) && s.servers[i].phase.Gathering? && !s.servers[i].mode.Decided?
    && LastOk(s, fr, s.servers[i].cur, report)
  }

  lemma CastRoundPositive(s: State, i: nat, x: Round)
    requires Inv(s) && Vote(i, x) in s.votes
    ensures x.sn > 0
  {
    assert Vote(i, x).round in s.cast;
    assert CastOk(s, x);
  }

  /** A proposal as strong as one's own vote is of the same round, and so of the same value. */
  lemma SameProposal(s: State, i: nat, report: Report)
    requires Inv(s) && i < |s.servers| && RecordOk(s, i) && !s.servers[i].mode.Decided? && ReportOk(s, report)
    requires report.Proposed? && Le(s.servers[i].ballot, report.ballot) && Vote(i, report.ballot) in s.votes
    ensures report.ballot == s.servers[i].ballot && report.tag == s.servers[i].tag
  {
    CastRoundPositive(s, i, report.ballot);
    hide Inv;
    LeEqual(report.ballot, s.servers[i].ballot);
  }

  lemma AdoptVotes(s: State, i: nat, report: Report)
    requires i < |s.servers| && RecordOk(s, i) && !s.servers[i].mode.Decided?
    ensures var sv := Adopts(s.servers[i], report);
            forall x :: Vote(i, x) in s.votes ==> !sv.mode.Empty? && Le(x, sv.ballot)
  {
    var was, sv := s.servers[i], Adopts(s.servers[i], report);
    hide Genuine;
    forall x | Vote(i, x) in s.votes
      ensures !sv.mode.Empty? && Le(x, sv.ballot)
    {
      LeTrans(x, was.ballot, sv.ballot);
    }
  }

  /** The answer counted, with the strongest proposal kept. */
  lemma AdoptRecord(s: State, i: nat, report: Report)
    requires Inv(s) && i < |s.servers| && RecordOk(s, i) && !s.servers[i].mode.Decided? && ReportOk(s, report)
    ensures var sv := Adopts(s.servers[i], report);
            && (sv.mode.Empty? ==> sv.ballot.sn == 0) && sv.from < |s.servers|
            && (!sv.mode.Empty? ==> Genuine(s, sv.ballot, sv.tag))
            && (Vote(i, sv.ballot) in s.votes ==> sv.cmd == Some(sv.tag))
  {
    var was := s.servers[i];
    if report.Proposed? && Le(was.ballot, report.ballot) && Vote(i, report.ballot) in s.votes {
      SameProposal(s, i, report);
    }
    hide Inv, Genuine;
  }

  lemma AdoptCovers(s: State, i: nat, fr: nat, report: Report)
    requires Counting(s, i, fr, report) && RecordOk(s, i) && Gathered(s, i) && !report.DecidedReport?
    ensures var sv := Adopts(s.servers[i], report);
            forall a :: a in s.servers[i].inf + {fr} ==>
              a < |s.servers| && Bound(s, a, sv.cur) && Covers(s, a, sv.cur, !sv.mode.Empty?, sv.ballot)
  {
    var was, sv := s.servers[i], Adopts(s.servers[i], report);
    hide Genuine, Known, Bound;
    assert Le(was.ballot, sv.ballot) && (was.mode.Empty? || !sv.mode.Empty?);
    forall a | a in was.inf + {fr}
      ensures a < |s.servers| && Bound(s, a, sv.cur) && Covers(s, a, sv.cur, !sv.mode.Empty?, sv.ballot)
    {
      forall x | Vote(a, x) in s.votes && Lt(x, sv.cur)
        ensures !sv.mode.Empty? && Le(x, sv.ballot)
      {
        if a in was.inf {
          LeTrans(x, was.ballot, sv.ballot);
        } else {
          assert report.Proposed? && Le(x, report.ballot);
          LeTrans(x, report.ballot, sv.ballot);
        }
      }
    }
  }

  /** The state with the answer counted and nothing cast. */
  function Heard(s: State, i: nat, fr: nat, report: Report, phase: Phase): State
    requires i < |s.servers|
  {
    Put(s, i, Counts(s.servers[i], fr, report).(phase := phase), {})
  }

  lemma HeardGrows(s: State, i: nat, fr: nat, report: Report, phase: Phase)
    requires i < |s.servers|
    ensures Grows(s, Heard(s, i, fr, report, phase), i)
  {
  }

  lemma HeardRounds(s: State, i: nat, fr: nat, report: Report, phase: Phase)
    requires i < |s.servers| && RoundsOk(s, i) && s.servers[i].phase.Gathering? && LeadsOwn(s, i) && !phase.Idle?
    ensures RoundsOk(Heard(s, i, fr, report, phase), i)
  {
    HeardGrows(s, i, fr, report, phase);
    KnownStays(s, Heard(s, i, fr, report, phase), i, s.servers[i].cur);
    hide Known, Grows;
  }

  lemma GenuineStaysIf(s: State, t: State, i: nat, sv: Server)
    requires Grows(s, t, i) && (!sv.mode.Empty? ==> Genuine(s, sv.ballot, sv.tag))
    ensures !sv.mode.Empty? ==> Genuine(t, sv.ballot, sv.tag)
  {
    if !sv.mode.Empty? {
      GenuineStays(s, t, i, sv.ballot, sv.tag);
    }
  }

  lemma HeardRecord(s: State, i: nat, fr: nat, report: Report, phase: Phase)
    requires Inv(s) && Counting(s, i, fr, report)
    ensures RecordOk(Heard(s, i, fr, report, phase), i)
  {
    var t := Heard(s, i, fr, report, phase);
    OneServer(s, i);
    AdoptVotes(s, i, report);
    AdoptRecord(s, i, report);
    HeardGrows(s, i, fr, report, phase);
    GenuineStaysIf(s, t, i, Adopts(s.servers[i], report));
    hide Inv, Genuine, Grows, LastOk, LeaderOk, RoundsOk;
  }

  lemma HeardGathered(s: State, i: nat, fr: nat, report: Report, phase: Phase)
    requires Counting(s, i, fr, report) && RecordOk(s, i) && Gathered(s, i) && !report.DecidedReport?
    ensures Gathered(Heard(s, i, fr, report, phase), i)
  {
    var t := Heard(s, i, fr, report, phase);
    var sv := t.servers[i];
    HeardGrows(s, i, fr, report, phase);
    AdoptCovers(s, i, fr, report);
    hide Adopts;
    forall a | a in sv.inf
      ensures a < |t.servers| && Bound(t, a, sv.cur) && Covers(t, a, sv.cur, !sv.mode.Empty?, sv.ballot)
    {
      BoundStays(s, t, i, a, sv.cur);
      CoversStays(s, t, i, a, sv.cur, !sv.mode.Empty?, sv.ballot);
    }
  }

  lemma HeardLeader(s: State, i: nat, fr: nat, report: Report, phase: Phase)
    requires Counting(s, i, fr, report) && RecordOk(s, i) && LeaderOk(s, i) && VotesOk(s) && s.servers[i].cur !in s.cast
    requires phase.Gathering? || (phase.Casting? && Majority(|s.servers|, s.servers[i].inf + {fr}))
    ensures LeaderOk(Heard(s, i, fr, report, phase), i)
  {
    NoVoteYet(s, i, s.servers[i].cur);
    if Gathered(s, i) && !report.DecidedReport? {
      HeardGathered(s, i, fr, report, phase);
    }
    hide Gathered, Chosen, VotesOk, LastOk;
  }

  lemma HeardKeeps(s: State, i: nat, fr: nat, report: Report, phase: Phase)
    requires Inv(s) && Counting(s, i, fr, report)
    requires phase.Gathering? || (phase.Casting? && Majority(|s.servers|, s.servers[i].inf + {fr}))
    ensures Inv(Heard(s, i, fr, report, phase))
  {
    var t := Heard(s, i, fr, report, phase);
    OneServer(s, i);
    HeardGrows(s, i, fr, report, phase);
    HeardRounds(s, i, fr, report, phase);
    HeardRecord(s, i, fr, report, phase);
    HeardLeader(s, i, fr, report, phase);
    hide Inv, RoundsOk, RecordOk, LeaderOk, Grows, Counting, Counts;
    QuietStep(s, t, i);
  }

  lemma ReadyToCast(s: State, i: nat, fr: nat, report: Report, sv: Server)
    requires Inv(s) && Counting(s, i, fr, report) && sv == Counts(s.servers[i], fr, report).(phase := Casting)
    requires Majority(|s.servers|, sv.inf) && !sv.mode.Empty? && !sv.told
    requires sv.from == i ==> sv.cmd == Some(sv.tag) && Le(sv.voted, sv.cur)
    ensures MayCast(s, i, sv)
  {
    OneServer(s, i);
    assert Gathered(s, i);
    AdoptVotes(s, i, report);
    AdoptRecord(s, i, report);
    AdoptCovers(s, i, fr, report);
    hide Inv, Genuine, Covers, Known, Chosen, Gathered, Bound, LastOk;
  }

  /** A leader that has decided only counts. */
  lemma CountingDecided(s: State, i: nat, fr: nat, report: Report, phase: Phase)
    requires Inv(s) && i < |s.servers| && LeadsOwn(s, i) && s.servers[i].phase.Gathering? && s.servers[i].mode.Decided?
    requires !phase.Idle?
    ensures Inv(Heard(s, i, fr, report, phase))
  {
    var t := Heard(s, i, fr, report, phase);
    OneServer(s, i);
    HeardGrows(s, i, fr, report, phase);
    HeardRounds(s, i, fr, report, phase);
    ChosenStays(s, t, i, s.servers[i].tag);
    assert t.servers[i].mode.Decided? && t.servers[i].cmd == Some(t.servers[i].tag) && t.servers[i].from < |t.servers|;
    hide Inv, Chosen, RecordOk, LeaderOk, RoundsOk, Grows, Counts;
    DecidedRecord(t, i);
    QuietStep(s, t, i);
  }

  lemma RecvLastKeeps(s: State, i: nat, m: Msg)
    requires Inv(s) && Possible(s, RecvLast(i, m)) && Obeys(s, RecvLast(i, m), UndecidedAnswers)
    requires Obeys(s, RecvLast(i, m), RisingVotes) && Obeys(s, RecvLast(i, m), OwnCommand)
    ensures Inv(Apply(s, RecvLast(i, m)))
  {
    var sv, n := s.servers[i], |s.servers|;
    assert MsgOk(s, m);
    if sv.phase.Gathering? && m.round == sv.cur {
      var sv1 := Counts(sv, m.fr, m.report);
      var phase := if Majority(n, sv1.inf) then Casting else Gathering;
      if sv.mode.Decided? {
        CountingDecided(s, i, m.fr, m.report, phase);
      } else if CastBy(s, RecvLast(i, m)).None? {
        HeardKeeps(s, i, m.fr, m.report, phase);
      } else {
        ReadyToCast(s, i, m.fr, m.report, sv1.(phase := Casting));
        hide Inv, MayCast, Casts;
        CastKeeps(s, i, sv1.(phase := Casting));
      }
    }
  }

  // ----- every run

  lemma ApplyKeeps(s: State, e: Step)
    requires Inv(s) && Possible(s, e) && Careful(s, e, ALL_RULES)
    ensures Inv(Apply(s, e))
  {
    assert Obeys(s, e, CountedVotes) && Obeys(s, e, RisingVotes) && Obeys(s, e, UndecidedAnswers);
    assert Obeys(s, e, SameTag) && Obeys(s, e, OwnCommand);
    hide Inv, Apply, Possible, Careful, Obeys;
    match e
    case Request(i) => RequestKeeps(s, i);
    case NewRound(i) => NewRoundKeeps(s, i);
    case Continue(i) => ContinueKeeps(s, i);
    case Catchup(i) => CatchupKeeps(s, i);
    case RecvCollect(i, m) => RecvCollectKeeps(s, i, m);
    case RecvLast(i, m) => RecvLastKeeps(s, i, m);
    case RecvRedirect(i, m) => RecvRedirectKeeps(s, i, m);
    case RecvBegin(i, m) => RecvBeginKeeps(s, i, m);
    case RecvAccept(i, m) => RecvAcceptKeeps(s, i, m);
    case RecvSuccess(i, m) => RecvSuccessKeeps(s, i, m);
    case RecvOld(i, m) => RecvOldKeeps(s, i, m);
  }

  lemma StartInv(n: nat)
    requires n > 1
    ensures Inv(Start(n))
  {
    var s := Start(n);
    forall i | 0 <= i < n
      ensures ServerOk(s, i)
    {
      assert s.servers[i] == Fresh;
    }
  }

  /** Every step of the run obeys the rules. */
  predicate AllCareful(s: State, steps: seq<Step>, rules: set<Rule>)
    decreases |steps|
  {
    steps != [] ==>
      Possible(s, steps[0]) && Careful(s, steps[0], rules) && AllCareful(Apply(s, steps[0]), steps[1..], rules)
  }

  lemma {:induction false} RunKeeps(s: State, steps: seq<Step>, t: State)
    requires Inv(s) && Leads(s, steps, t) && AllCareful(s, steps, ALL_RULES)
    ensures Inv(t)
    decreases |steps|
  {
    hide Inv, Apply, Possible, Careful;
    if steps != [] {
      ApplyKeeps(s, steps[0]);
      RunKeeps(Apply(s, steps[0]), steps[1..], t);
    }
  }

  lemma OneChosen(s: State, v: Tag, w: Tag)
    requires Safe(s) && Chosen(s, v) && Chosen(s, w) && forall r :: r in s.cast ==> r.sn > 0
    ensures v == w
  {
    var r, p :| CastIs(s, r, v) && AllVoted(s, p, r);
    var x, q :| CastIs(s, x, w) && AllVoted(s, q, x);
    if v != w {
      if Lt(r, x) {
        NotBlocked(s, r, p);
      } else {
        assert Lt(x, r);
        NotBlocked(s, x, q);
      }
    }
  }

  /** Agreement follows. */
  lemma InvAgrees(s: State)
    requires Inv(s)
    ensures Agreement(s)
  {
    forall i, j | 0 <= i < |s.servers| && 0 <= j < |s.servers|
                  && s.servers[i].mode.Decided? && s.servers[j].mode.Decided?
      ensures s.servers[i].cmd == s.servers[j].cmd
    {
      assert ServerOk(s, i) && ServerOk(s, j);
      hide ServerOk, CastOk, MsgOk, VotesOk;
      OneChosen(s, s.servers[i].tag, s.servers[j].tag);
    }
  }

  /** In a cell of any size, however messages are lost, repeated and reordered and whoever
      starts rounds when: as long as every step keeps to the five rules, no two servers that
      have decided execute different commands. */
  lemma CarefulRunsAgree(n: nat, steps: seq<Step>, t: State)
    requires n > 1 && Leads(Start(n), steps, t) && AllCareful(Start(n), steps, ALL_RULES)
    ensures Agreement(t)
  {
    hide Inv, Leads, AllCareful;
    StartInv(n);
    RunKeeps(Start(n), steps, t);
    InvAgrees(t);
  }

  // ----- a leader that is behind

  /** The step with which server j gets a Collect or Begin. */
  function Receipt(j: nat, m: Msg): Step
    requires m.Collect? || m.Begin?
  {
    if m.Collect? then RecvCollect(j, m) else RecvBegin(j, m)
  }

  lemma NextIsAbove(a: Round, i: nat)
    ensures Lt(a, Round(a.sn + 1, i)) && Le(a, Round(a.sn + 1, i))
  {
  }

  lemma Refused(s: State, j: nat, m: Msg)
    requires j < |s.servers| && (m.Collect? || m.Begin?) && m.round.id != j && m in s.net
    requires Lt(m.round, s.servers[j].cur)
    ensures Possible(s, Receipt(j, m))
    ensures var t := Apply(s, Receipt(j, m));
            t == s.(net := s.net + {Old(m.round.id, s.servers[j].cur)})
  {
    assert s.servers[j := s.servers[j]] == s.servers;
  }

  lemma BehindToo(a: Round, b: Round, c: Round)
    requires Le(a, b) && Lt(b, c)
    ensures Lt(a, c)
  {
  }

  /** In any state: a Collect or Begin of a round a server has left is answered so that its
      leader, on getting the answer, stops gathering, and its next round is one above the round
      of the server that refused, which then joins it. */
  lemma RefusedLeaderGoesAbove(s: State, j: nat, m: Msg)
    requires j < |s.servers| && (m.Collect? || m.Begin?) && m.round.id != j && m in s.net
    requires m.round.id < |s.servers|
    requires Lt(m.round, s.servers[j].cur) && Le(s.servers[m.round.id].cur, m.round)
    ensures var i, cur := m.round.id, s.servers[j].cur;
            && Possible(s, Receipt(j, m))
            && var t := Apply(s, Receipt(j, m));
            && Possible(t, RecvOld(i, Old(i, cur)))
            && var u := Apply(t, RecvOld(i, Old(i, cur)));
            && u.servers[i] == s.servers[i].(cur := cur, phase := Idle)
            && var v := Apply(u, NewRound(i));
            && v.servers[i].phase.Gathering? && v.servers[i].cur.id == i && Lt(cur, v.servers[i].cur)
            && exists report :: Possible(v, RecvCollect(j, Collect(v.servers[i].cur, report)))
                                && Apply(v, RecvCollect(j, Collect(v.servers[i].cur, report))).servers[j].cur
                                   == v.servers[i].cur
  {
    hide Answer, Le;
    var i, cur := m.round.id, s.servers[j].cur;
    Refused(s, j, m);
    var t := Apply(s, Receipt(j, m));
    BehindToo(s.servers[i].cur, m.round, cur);
    var u := Apply(t, RecvOld(i, Old(i, cur)));
    var v := Apply(u, NewRound(i));
    NextIsAbove(cur, i);
    var sv := if u.servers[i].mode.Empty? && u.servers[i].init
              then u.servers[i].(mode := Waiting, tag := i, from := i, cmd := Some(i), ballot := Round(0, i))
              else u.servers[i];
    var ask := Collect(v.servers[i].cur, ReportOf(sv));
    assert ask in v.net && v.servers[j].cur == cur;
    assert Possible(v, RecvCollect(j, ask));
  }

  /** A leader that goes on with a free instance casts the command it was given, under its own
      tag, and keeps to the rule on commands whatever it held before. */
  lemma ContinueCastsOwn(s: State, i: nat)
    requires Possible(s, Continue(i))
    ensures var t, cur := Apply(s, Continue(i)), s.servers[i].cur;
            && Obeys(s, Continue(i), OwnCommand) && Obeys(s, Continue(i), SameTag)
            && Begin(cur, i, i, false) in t.net && cur in t.cast && t.cast[cur] == i && Vote(i, cur) in t.votes
            && t.servers[i].mode.Accepting? && i in t.servers[i].acc
  {
  }
}
