/**
  The round engine: the reveal/strike state machine that runs one round.

  A round starts `Active` with the chosen team acting. The acting team
  collects the points of every answer it reveals; its third strike hands a
  single steal attempt to the other team (`Opponent`) while answers remain
  hidden. A correct steal moves the acting team's whole pool, plus the new
  answer, to the other team; a failed steal ends the round with the pools as
  they are. `RoundOver` is terminal.

  Input arrives in per-frame batches. Every event of a batch is applied in
  order against the state the previous one left; only after the whole batch
  does the engine close an `Active` round whose answers are all shown.
 */
module Engine {
  import opened Board

  datatype Phase = Active | Opponent | RoundOver

  /** How far a round has progressed; a round never moves back. */
  function Rank(p: Phase): nat {
    match p
    case Active => 0
    case Opponent => 1
    case RoundOver => 2
  }

  /** The two player intents: show answer `index`, or register a wrong guess. */
  datatype Event = Reveal(index: int) | Strike

  /** The state of one round in progress; `pool1`/`pool2` are the round's points per team. */
  datatype Round = Round(
    answers: seq<Answer>,
    strikes: nat,
    phase: Phase,
    acting: Team,
    pool1: int,
    pool2: int)
  {
    function Pool(t: Team): int {
      match t
      case Team1 => pool1
      case Team2 => pool2
    }

    /** The round with team `t`'s pool replaced by `v`. */
    function WithPool(t: Team, v: int): (r: Round)
      ensures r.Pool(t) == v && r.Pool(t.Other()) == Pool(t.Other())
      ensures r.answers == answers && r.strikes == strikes && r.phase == phase && r.acting == acting
    {
      match t
      case Team1 => this.(pool1 := v)
      case Team2 => this.(pool2 := v)
    }
  }

  /** A reveal of `i` is accepted only for an existing, still hidden answer. */
  predicate CanReveal(r: Round, i: int) {
    0 <= i < |r.answers| && !r.answers[i].revealed
  }

  /** A fresh round: both pools zero, no strikes, the chosen team acting. */
  function Start(answers: seq<Answer>, acting: Team): Round {
    Round(answers, 0, Active, acting, 0, 0)
  }

  /** The acting team reveals answer `i` and banks its points in its own pool. */
  function ActingReveal(r: Round, i: int): (r': Round)
    requires r.phase == Active && CanReveal(r, i)
    ensures r'.answers == MarkRevealed(r.answers, i)
    ensures r'.Pool(r.acting) == r.Pool(r.acting) + r.answers[i].points
    ensures r'.Pool(r.acting.Other()) == r.Pool(r.acting.Other())
    ensures r'.strikes == r.strikes && r'.phase == Active && r'.acting == r.acting
  {
    r.(answers := MarkRevealed(r.answers, i)).WithPool(r.acting, r.Pool(r.acting) + r.answers[i].points)
  }

  /**
    The acting team's wrong guess. The third one hands the steal to the
    other team while an answer is still hidden, and otherwise ends the round.
   */
  function ActingStrike(r: Round): (r': Round)
    requires r.phase == Active
    ensures r'.strikes == r.strikes + 1
    ensures r'.answers == r.answers && r'.acting == r.acting
    ensures r'.pool1 == r.pool1 && r'.pool2 == r.pool2
    ensures r'.strikes < 3 ==> r'.phase == Active
    ensures r'.strikes >= 3 && !AllRevealed(r.answers) ==> r'.phase == Opponent
    ensures r'.strikes >= 3 && AllRevealed(r.answers) ==> r'.phase == RoundOver
  {
    var s := r.strikes + 1;
    if s >= 3 then
      r.(strikes := s, phase := if !AllRevealed(r.answers) then Opponent else RoundOver)
    else
      r.(strikes := s)
  }

  /**
    A correct steal: the other team takes the acting team's frozen pool plus
    the revealed answer, the acting team is left with nothing, and the round ends.
   */
  function StealReveal(r: Round, i: int): (r': Round)
    requires r.phase == Opponent && CanReveal(r, i)
    ensures r'.answers == MarkRevealed(r.answers, i)
    ensures r'.Pool(r.acting.Other()) == r.Pool(r.acting) + r.answers[i].points
    ensures r'.Pool(r.acting) == 0
    ensures r'.pool1 + r'.pool2 == r.Pool(r.acting) + r.answers[i].points
    ensures r'.phase == RoundOver && r'.strikes == r.strikes && r'.acting == r.acting
  {
    var other := r.acting.Other();
    r.(answers := MarkRevealed(r.answers, i), phase := RoundOver)
     .WithPool(other, r.Pool(r.acting) + r.answers[i].points)
     .WithPool(r.acting, 0)
  }

  /** One event applied to the round. */
  function Step(r: Round, e: Event): (r': Round)
    ensures r'.acting == r.acting && SameBoard(r.answers, r'.answers)
    ensures Rank(r'.phase) >= Rank(r.phase)
    ensures r.phase == RoundOver ==> r' == r
    ensures e.Reveal? && !CanReveal(r, e.index) ==> r' == r
    ensures e.Reveal? && r.phase != RoundOver && CanReveal(r, e.index) ==>
              r'.answers == MarkRevealed(r.answers, e.index)
    ensures e.Strike? && r.phase == Opponent ==> r' == r.(phase := RoundOver)
    ensures r.phase == Active && r'.phase == Opponent ==>
              e.Strike? && r'.strikes >= 3 && !AllRevealed(r'.answers)
  {
    match r.phase
    case RoundOver => r
    case Active =>
      (match e
       case Reveal(i) => if CanReveal(r, i) then ActingReveal(r, i) else r
       case Strike => ActingStrike(r))
    case Opponent =>
      (match e
       case Reveal(i) => if CanReveal(r, i) then StealReveal(r, i) else r
       case Strike => r.(phase := RoundOver))
  }

  /** The events of one frame, applied in arrival order. */
  function Batch(r: Round, events: seq<Event>): (r': Round)
    decreases |events|
    ensures r'.acting == r.acting && SameBoard(r.answers, r'.answers)
    ensures Rank(r'.phase) >= Rank(r.phase)
    ensures r.phase == RoundOver ==> r' == r
  {
    if events == [] then r
    else
      var next := Step(r, events[0]);
      var r' := Batch(next, events[1..]);
      SameBoardTransitive(r.answers, next.answers, r'.answers);
      r'
  }

  /** The once-per-frame check: an `Active` round with every answer shown ends. */
  function EndOfBatch(r: Round): (r': Round)
    ensures !(r'.phase == Active && AllRevealed(r'.answers))
    ensures r'.answers == r.answers && r'.strikes == r.strikes && r'.acting == r.acting
    ensures r'.pool1 == r.pool1 && r'.pool2 == r.pool2
    ensures r'.phase != r.phase ==> r.phase == Active && r'.phase == RoundOver
  {
    if r.phase == Active && AllRevealed(r.answers) then r.(phase := RoundOver) else r
  }

  /** One frame of the round loop: the event batch, then the end-of-batch check. */
  function Frame(r: Round, events: seq<Event>): Round {
    EndOfBatch(Batch(r, events))
  }

  /** Frames applied until the round is over; later frames are never read. */
  function RunFrames(r: Round, frames: seq<seq<Event>>): (r': Round)
    decreases |frames|
    ensures r'.acting == r.acting && SameBoard(r.answers, r'.answers)
    ensures r.phase == RoundOver ==> r' == r
  {
    if r.phase == RoundOver || frames == [] then r
    else
      var next := Frame(r, frames[0]);
      var r' := RunFrames(next, frames[1..]);
      SameBoardTransitive(r.answers, next.answers, r'.answers);
      r'
  }

  /**
    What holds of every reachable round state. The strike count stays within
    three; while the acting team plays, its pool is exactly the points shown
    and the other pool is empty; a steal is only offered while an answer is
    hidden; once the round is over, one team holds all the points shown and
    the other team holds nothing.
   */
  predicate Inv(r: Round) {
    var shown := RevealedSum(r.answers);
    var mine := r.Pool(r.acting);
    var theirs := r.Pool(r.acting.Other());
    && r.strikes <= 3
    && (r.phase == Active ==> r.strikes < 3 && mine == shown && theirs == 0)
    && (r.phase == Opponent ==> r.strikes == 3 && !AllRevealed(r.answers) && mine == shown && theirs == 0)
    && (r.phase == RoundOver ==> (mine == shown && theirs == 0) || (mine == 0 && theirs == shown))
  }

  lemma StartInv(answers: seq<Answer>, acting: Team)
    requires NoneRevealed(answers)
    ensures Inv(Start(answers, acting))
  {
    RevealedSumNone(answers);
  }

  lemma StepInv(r: Round, e: Event)
    requires Inv(r)
    ensures Inv(Step(r, e))
  {
    if e.Reveal? && r.phase != RoundOver && CanReveal(r, e.index) {
      RevealedSumMark(r.answers, e.index);
    }
  }

  lemma {:induction false} BatchInv(r: Round, events: seq<Event>)
    requires Inv(r)
    ensures Inv(Batch(r, events))
    decreases |events|
  {
    if events != [] {
      StepInv(r, events[0]);
      BatchInv(Step(r, events[0]), events[1..]);
    }
  }

  lemma {:induction false} RunFramesInv(r: Round, frames: seq<seq<Event>>)
    requires Inv(r)
    ensures Inv(RunFrames(r, frames))
    decreases |frames|
  {
    if r.phase != RoundOver && frames != [] {
      BatchInv(r, frames[0]);
      RunFramesInv(Frame(r, frames[0]), frames[1..]);
    }
  }

  /**
    Whatever the players do, a round that starts from a hidden board keeps
    at most three strikes and never creates or loses points: the two pools
    always add up to the points shown, one of them is zero, and while the
    acting team plays its pool is exactly the points it has shown.
   */
  lemma RoundPoolsConserved(answers: seq<Answer>, acting: Team, frames: seq<seq<Event>>)
    requires NoneRevealed(answers)
    ensures var r := RunFrames(Start(answers, acting), frames);
      && r.strikes <= 3
      && r.pool1 + r.pool2 == RevealedSum(r.answers)
      && (r.pool1 == 0 || r.pool2 == 0)
      && (r.phase == Active ==> r.Pool(acting) == RevealedSum(r.answers) && r.Pool(acting.Other()) == 0)
  {
    StartInv(answers, acting);
    RunFramesInv(Start(answers, acting), frames);
  }

  /** With no negative answers, neither pool of a reachable round is negative. */
  lemma PoolsNonNegative(r: Round)
    requires Inv(r) && NonNegativePoints(r.answers)
    ensures r.pool1 >= 0 && r.pool2 >= 0
  {
    RevealedSumNonNegative(r.answers);
  }

  /**
    A batch that starts with every answer shown never reaches the steal, so
    the end-of-batch check closes the round, however many strikes the batch
    holds.
   */
  lemma {:induction false} AllRevealedCloses(r: Round, events: seq<Event>)
    requires r.phase != Opponent && AllRevealed(r.answers)
    ensures Frame(r, events).phase == RoundOver
    ensures Frame(r, events).pool1 == r.pool1 && Frame(r, events).pool2 == r.pool2
    decreases |events|
  {
    if events != [] && r.phase == Active {
      var next := Step(r, events[0]);
      assert next.answers == r.answers && next.pool1 == r.pool1 && next.pool2 == r.pool2;
      AllRevealedCloses(next, events[1..]);
    }
  }

  /** A round with no answers ends in its first frame with both pools empty. */
  lemma EmptyRoundEndsAtOnce(acting: Team, events: seq<Event>)
    ensures Frame(Start([], acting), events).phase == RoundOver
    ensures Frame(Start([], acting), events).pool1 == 0
    ensures Frame(Start([], acting), events).pool2 == 0
  {
    AllRevealedCloses(Start([], acting), events);
  }

  /** Applying two batches one after the other is applying their concatenation. */
  lemma {:induction false} BatchAppend(r: Round, a: seq<Event>, b: seq<Event>)
    ensures Batch(r, a + b) == Batch(Batch(r, a), b)
    decreases |a|
  {
    if a != [] {
      assert (a + b)[1..] == a[1..] + b;
      BatchAppend(Step(r, a[0]), a[1..], b);
    } else {
      assert a + b == b;
    }
  }
}
