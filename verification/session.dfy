/**
  The game session: rounds 1 to 5 in order. Each round starts from a fresh
  board with both pools at zero; a round whose file is missing or blank is
  skipped; a round that closes adds each team's pool to that team's running
  total and appends the new totals to the result log.

  The session is driven entirely by its inputs: for every round, the team
  picked to act first, the round file's lines and the moderator's input,
  frame by frame. When a round's input runs out before the round closes,
  the session is left waiting inside that round.
 */
module Session {
  import opened Options
  import opened Board
  import opened Engine
  import opened Input
  import opened Content

  /** The number of rounds a game attempts, numbered from 1. */
  const RoundCount: nat := 5

  /** One entry of the result log: a closed round and the running totals after it. */
  datatype Record = Record(round: nat, total1: int, total2: int)

  /** Running totals of the two teams and the result log so far. */
  datatype Session = Session(total1: int, total2: int, log: seq<Record>)

  /** A game before its first round. */
  const NewSession: Session := Session(0, 0, [])

  /**
    Everything one round depends on: the team chosen to act first, the round
    file (`None` when it does not exist) and the input of each frame.
   */
  datatype RoundPlay = RoundPlay(team: Team, file: Option<seq<string>>, frames: seq<seq<Input>>)

  /** The result of playing one round from its inputs. */
  datatype Outcome = Skipped | Closed(board: Round) | Open(board: Round)

  /**
    One round on its own. An unavailable file skips it; otherwise the parsed
    answers start a fresh round with the chosen team acting, and the frames
    are decoded against that board and run until the round is over.
   */
  function PlayRound(play: RoundPlay): (o: Outcome)
    ensures o.Skipped? <==> ParseRound(play.file).None?
    ensures !o.Skipped? ==>
              && Inv(o.board) && o.board.acting == play.team
              && SameBoard(ParseRound(play.file).value.answers, o.board.answers)
    ensures o.Closed? ==> o.board.phase == RoundOver
    ensures o.Open? ==> o.board.phase != RoundOver
  {
    match ParseRound(play.file)
    case None => Skipped
    case Some(content) =>
      var n := |content.answers|;
      var batches := seq(|play.frames|, k requires 0 <= k < |play.frames| => Decode(n, play.frames[k]));
      var start := Start(content.answers, play.team);
      StartInv(content.answers, play.team);
      RunFramesInv(start, batches);
      var r := RunFrames(start, batches);
      if r.phase == RoundOver then Closed(r) else Open(r)
  }

  /**
    Closing round `k`: each pool goes to its own team's total, and a record
    of the new totals joins the log.
   */
  function Bank(s: Session, k: nat, r: Round): Session {
    var t1 := s.total1 + r.pool1;
    var t2 := s.total2 + r.pool2;
    Session(t1, t2, s.log + [Record(k, t1, t2)])
  }

  /** Each round's outcome, in round order. */
  function Outcomes(plays: seq<RoundPlay>): (os: seq<Outcome>)
    ensures |os| == |plays|
  {
    seq(|plays|, j requires 0 <= j < |plays| => PlayRound(plays[j]))
  }

  /** Where a session stands: done with every round, or waiting inside round `round`. */
  datatype Progress = Finished(session: Session) | Waiting(round: nat, session: Session, board: Round)

  /**
    The rounds from number `k` on, given their outcomes, starting from
    session `s`: skipped rounds pass, closed rounds are banked, and an open
    round is where play stops.
   */
  function PlayFrom(k: nat, s: Session, outcomes: seq<Outcome>): Progress
    decreases |outcomes|
  {
    if outcomes == [] then Finished(s)
    else
      match outcomes[0]
      case Skipped => PlayFrom(k + 1, s, outcomes[1..])
      case Open(r) => Waiting(k, s, r)
      case Closed(r) => PlayFrom(k + 1, Bank(s, k, r), outcomes[1..])
  }

  /** A whole game: rounds 1 to `RoundCount` from zero totals and an empty log. */
  function Game(plays: seq<RoundPlay>): Progress
    requires |plays| == RoundCount
  {
    PlayFrom(1, NewSession, Outcomes(plays))
  }

  /**
    The log is well formed for a session about to play round `next`: every
    record names an earlier round, round numbers strictly increase, and the
    last record holds the current totals (which are zero while the log is empty).
   */
  predicate LogOk(s: Session, next: nat) {
    && (forall i :: 0 <= i < |s.log| ==> 1 <= s.log[i].round < next)
    && (forall i, j :: 0 <= i < j < |s.log| ==> s.log[i].round < s.log[j].round)
    && (s.log == [] ==> s.total1 == 0 && s.total2 == 0)
    && (s.log != [] ==> s.log[|s.log| - 1].total1 == s.total1 && s.log[|s.log| - 1].total2 == s.total2)
  }

  lemma BankLogOk(s: Session, k: nat, r: Round)
    requires 1 <= k && LogOk(s, k)
    ensures LogOk(Bank(s, k, r), k + 1)
  {
  }

  /** Playing on keeps the log well formed, up to the round where play stops. */
  lemma {:induction false} PlayFromLogOk(k: nat, s: Session, outcomes: seq<Outcome>)
    requires 1 <= k && LogOk(s, k)
    ensures var p := PlayFrom(k, s, outcomes);
      && (p.Finished? ==> LogOk(p.session, k + |outcomes|))
      && (p.Waiting? ==> k <= p.round < k + |outcomes| && LogOk(p.session, p.round))
    decreases |outcomes|
  {
    if outcomes != [] {
      match outcomes[0]
      case Skipped =>
        PlayFromLogOk(k + 1, s, outcomes[1..]);
      case Open(r) =>
      case Closed(r) =>
        BankLogOk(s, k, r);
        PlayFromLogOk(k + 1, Bank(s, k, r), outcomes[1..]);
    }
  }

  /**
    The log records exactly the closed rounds. Play from round `k` keeps
    the earlier log as it was; every record it adds names a round that
    closed; and when play runs to the end, every round that closed has a
    record.
   */
  lemma {:induction false} PlayFromRecords(k: nat, s: Session, outcomes: seq<Outcome>)
    ensures var log := PlayFrom(k, s, outcomes).session.log;
      && |s.log| <= |log|
      && (forall i :: 0 <= i < |s.log| ==> log[i] == s.log[i])
      && (forall i :: |s.log| <= i < |log| ==>
            k <= log[i].round < k + |outcomes| && outcomes[log[i].round - k].Closed?)
    ensures PlayFrom(k, s, outcomes).Finished? ==>
      var log := PlayFrom(k, s, outcomes).session.log;
      forall j :: 0 <= j < |outcomes| && outcomes[j].Closed? ==>
        exists i :: |s.log| <= i < |log| && log[i].round == k + j
    decreases |outcomes|
  {
    if outcomes != [] {
      var rest := outcomes[1..];
      match outcomes[0]
      case Skipped =>
        PlayFromRecords(k + 1, s, rest);
      case Open(r) =>
      case Closed(r) =>
        var s' := Bank(s, k, r);
        PlayFromRecords(k + 1, s', rest);
        var log := PlayFrom(k, s, outcomes).session.log;
        assert log[|s.log|] == s'.log[|s.log|];
    }
  }

  /**
    The result log of a game is well formed: round numbers lie in 1 to 5
    and strictly increase, and the last record holds the final totals.
   */
  lemma GameLogOk(plays: seq<RoundPlay>)
    requires |plays| == RoundCount
    ensures LogOk(Game(plays).session, RoundCount + 1)
  {
    var outcomes := Outcomes(plays);
    assert Game(plays) == PlayFrom(1, NewSession, outcomes);
    PlayFromLogOk(1, NewSession, outcomes);
  }

  /** Every record of a game's log is for a round that closed. */
  lemma GameRecordsClosed(plays: seq<RoundPlay>)
    requires |plays| == RoundCount
    ensures var log := Game(plays).session.log;
      forall i :: 0 <= i < |log| ==> 1 <= log[i].round <= RoundCount && Outcomes(plays)[log[i].round - 1].Closed?
  {
    var outcomes := Outcomes(plays);
    assert Game(plays) == PlayFrom(1, NewSession, outcomes);
    RecordsClosed(outcomes);
  }

  lemma RecordsClosed(outcomes: seq<Outcome>)
    requires |outcomes| == RoundCount
    ensures var log := PlayFrom(1, NewSession, outcomes).session.log;
      forall i :: 0 <= i < |log| ==> 1 <= log[i].round <= RoundCount && outcomes[log[i].round - 1].Closed?
  {
    PlayFromRecords(1, NewSession, outcomes);
  }

  /** In a game that runs to the end, every round that closed has a record. */
  lemma GameClosedRecorded(plays: seq<RoundPlay>)
    requires |plays| == RoundCount
    ensures Game(plays).Finished? ==> var log := Game(plays).session.log;
      forall j :: 0 <= j < RoundCount && Outcomes(plays)[j].Closed? ==>
        exists i :: 0 <= i < |log| && log[i].round == j + 1
  {
    var outcomes := Outcomes(plays);
    assert Game(plays) == PlayFrom(1, NewSession, outcomes);
    ClosedRecorded(outcomes);
  }

  lemma ClosedRecorded(outcomes: seq<Outcome>)
    requires |outcomes| == RoundCount
    ensures var p := PlayFrom(1, NewSession, outcomes);
      p.Finished? ==> forall j :: 0 <= j < RoundCount && outcomes[j].Closed? ==>
        exists i :: 0 <= i < |p.session.log| && p.session.log[i].round == j + 1
  {
    PlayFromRecords(1, NewSession, outcomes);
  }

  /** A round whose file is missing or blank leaves no record in the log. */
  lemma SkippedRoundUnlogged(plays: seq<RoundPlay>, j: nat)
    requires |plays| == RoundCount && j < RoundCount
    requires ParseRound(plays[j].file).None?
    ensures forall i :: 0 <= i < |Game(plays).session.log| ==> Game(plays).session.log[i].round != j + 1
  {
    GameRecordsClosed(plays);
    assert !Outcomes(plays)[j].Closed?;
  }

  /** Playing two stretches of rounds one after the other is playing them together. */
  lemma {:induction false} PlayFromAppend(k: nat, s: Session, a: seq<Outcome>, b: seq<Outcome>)
    ensures PlayFrom(k, s, a + b) ==
              match PlayFrom(k, s, a)
              case Finished(s') => PlayFrom(k + |a|, s', b)
              case Waiting(_, _, _) => PlayFrom(k, s, a)
    decreases |a|
  {
    if a == [] {
      assert a + b == b;
    } else {
      assert (a + b)[1..] == a[1..] + b;
      match a[0]
      case Skipped => PlayFromAppend(k + 1, s, a[1..], b);
      case Open(r) =>
      case Closed(r) => PlayFromAppend(k + 1, Bank(s, k, r), a[1..], b);
    }
  }

  /**
    A skipped round changes nothing: the game after round `m + 1` stands
    exactly where it stood after round `m`, with the same totals and log.
   */
  lemma SkippedRoundKeepsSession(k: nat, s: Session, outcomes: seq<Outcome>, m: nat)
    requires m < |outcomes| && outcomes[m].Skipped?
    ensures PlayFrom(k, s, outcomes[..m + 1]) == PlayFrom(k, s, outcomes[..m])
  {
    assert outcomes[..m + 1] == outcomes[..m] + [outcomes[m]];
    PlayFromAppend(k, s, outcomes[..m], [outcomes[m]]);
  }

  /**
    A closed round is banked once: after it the totals have grown by its two
    pools and the log has gained exactly one record, naming it and holding
    the new totals.
   */
  lemma ClosedRoundBanks(k: nat, s: Session, outcomes: seq<Outcome>, m: nat)
    requires m < |outcomes| && outcomes[m].Closed?
    requires PlayFrom(k, s, outcomes[..m]).Finished?
    ensures var before := PlayFrom(k, s, outcomes[..m]).session;
      var r := outcomes[m].board;
      && PlayFrom(k, s, outcomes[..m + 1]).Finished?
      && PlayFrom(k, s, outcomes[..m + 1]).session.total1 == before.total1 + r.pool1
      && PlayFrom(k, s, outcomes[..m + 1]).session.total2 == before.total2 + r.pool2
      && PlayFrom(k, s, outcomes[..m + 1]).session.log == before.log + [Record(k + m, before.total1 + r.pool1, before.total2 + r.pool2)]
  {
    assert outcomes[..m + 1] == outcomes[..m] + [outcomes[m]];
    PlayFromAppend(k, s, outcomes[..m], [outcomes[m]]);
  }

  /**
    Closing a round adds to the two totals together exactly the points shown
    on its board: points are moved between teams, never made or lost.
   */
  lemma BankConserves(s: Session, k: nat, r: Round)
    requires Inv(r) && r.phase == RoundOver
    ensures Bank(s, k, r).total1 + Bank(s, k, r).total2 == s.total1 + s.total2 + RevealedSum(r.answers)
  {
  }

  /** Along the log, neither team's total ever goes down. */
  predicate Rising(s: Session) {
    && (forall i, j :: 0 <= i < j < |s.log| ==>
          s.log[i].total1 <= s.log[j].total1 && s.log[i].total2 <= s.log[j].total2)
    && (forall i :: 0 <= i < |s.log| ==> s.log[i].total1 <= s.total1 && s.log[i].total2 <= s.total2)
  }

  /** Closed rounds whose boards have no negative answers. */
  predicate NonNegativeClosed(outcomes: seq<Outcome>) {
    forall j :: 0 <= j < |outcomes| && outcomes[j].Closed? ==>
      Inv(outcomes[j].board) && NonNegativePoints(outcomes[j].board.answers)
  }

  lemma {:induction false} PlayFromRising(k: nat, s: Session, outcomes: seq<Outcome>)
    requires Rising(s) && s.total1 >= 0 && s.total2 >= 0 && NonNegativeClosed(outcomes)
    ensures var s' := PlayFrom(k, s, outcomes).session;
      Rising(s') && s.total1 <= s'.total1 && s.total2 <= s'.total2
    decreases |outcomes|
  {
    if outcomes != [] {
      match outcomes[0]
      case Skipped =>
        PlayFromRising(k + 1, s, outcomes[1..]);
      case Open(r) =>
      case Closed(r) =>
        PoolsNonNegative(r);
        var s' := Bank(s, k, r);
        PlayFromRising(k + 1, s', outcomes[1..]);
    }
  }

  /** Every round file's answers score at least zero. */
  predicate NonNegativeFiles(plays: seq<RoundPlay>) {
    forall j :: 0 <= j < |plays| && ParseRound(plays[j].file).Some? ==>
      NonNegativePoints(ParseRound(plays[j].file).value.answers)
  }

  /**
    With no negative answers in any round file, totals only grow: each
    record's totals are at least those of every earlier record and at most
    the final ones, and neither total is ever negative.
   */
  lemma GameRising(plays: seq<RoundPlay>)
    requires |plays| == RoundCount && NonNegativeFiles(plays)
    ensures Rising(Game(plays).session)
    ensures Game(plays).session.total1 >= 0 && Game(plays).session.total2 >= 0
  {
    var outcomes := Outcomes(plays);
    forall j | 0 <= j < |outcomes| && outcomes[j].Closed?
      ensures Inv(outcomes[j].board) && NonNegativePoints(outcomes[j].board.answers)
    {
      var content := ParseRound(plays[j].file).value;
      assert SameBoard(content.answers, outcomes[j].board.answers);
    }
    assert Game(plays) == PlayFrom(1, NewSession, outcomes);
    PlayFromRising(1, NewSession, outcomes);
  }
}
