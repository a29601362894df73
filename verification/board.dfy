/**
  The answer board of one round: the two teams, the ranked answers and the
  sums over the answers already shown.
 */
module Board {

  /** The two teams; the game identifies them as 1 and 2. */
  datatype Team = Team1 | Team2 {
    function Other(): (t: Team)
      ensures t != this
    {
      match this
      case Team1 => Team2
      case Team2 => Team1
    }
  }

  /**
    One ranked answer. Its rank is its position in the board's sequence,
    which is also the index a reveal names.
   */
  datatype Answer = Answer(text: string, points: int, revealed: bool)

  /** Sum of the points of the answers shown so far. */
  function RevealedSum(answers: seq<Answer>): int {
    if answers == [] then 0
    else (if answers[0].revealed then answers[0].points else 0) + RevealedSum(answers[1..])
  }

  predicate AllRevealed(answers: seq<Answer>) {
    forall k :: 0 <= k < |answers| ==> answers[k].revealed
  }

  predicate NoneRevealed(answers: seq<Answer>) {
    forall k :: 0 <= k < |answers| ==> !answers[k].revealed
  }

  predicate NonNegativePoints(answers: seq<Answer>) {
    forall k :: 0 <= k < |answers| ==> answers[k].points >= 0
  }

  /** Show answer `i`; nothing else on the board changes. */
  function MarkRevealed(answers: seq<Answer>, i: int): (b: seq<Answer>)
    requires 0 <= i < |answers|
    ensures |b| == |answers| && b[i].revealed
    ensures b[i].text == answers[i].text && b[i].points == answers[i].points
    ensures forall k :: 0 <= k < |b| && k != i ==> b[k] == answers[k]
  {
    answers[i := answers[i].(revealed := true)]
  }

  /**
    `after` is the board `before` later in the same round: the same answers
    with the same points in the same order, and nothing shown has been hidden.
   */
  predicate SameBoard(before: seq<Answer>, after: seq<Answer>) {
    && |before| == |after|
    && forall k :: 0 <= k < |before| ==>
         && after[k].text == before[k].text
         && after[k].points == before[k].points
         && (before[k].revealed ==> after[k].revealed)
  }

  lemma SameBoardTransitive(a: seq<Answer>, b: seq<Answer>, c: seq<Answer>)
    requires SameBoard(a, b) && SameBoard(b, c)
    ensures SameBoard(a, c)
  {
  }

  /** Showing a hidden answer adds exactly its points to the shown total. */
  lemma {:induction false} RevealedSumMark(answers: seq<Answer>, i: int)
    requires 0 <= i < |answers| && !answers[i].revealed
    ensures RevealedSum(MarkRevealed(answers, i)) == RevealedSum(answers) + answers[i].points
  {
    var b := MarkRevealed(answers, i);
    if i > 0 {
      assert b[1..] == MarkRevealed(answers[1..], i - 1);
      RevealedSumMark(answers[1..], i - 1);
    } else {
      assert b[1..] == answers[1..];
    }
  }

  /** Nothing shown, nothing counted. */
  lemma {:induction false} RevealedSumNone(answers: seq<Answer>)
    requires NoneRevealed(answers)
    ensures RevealedSum(answers) == 0
  {
    if answers != [] {
      RevealedSumNone(answers[1..]);
    }
  }

  /** With no negative answers, the shown total is never negative. */
  lemma {:induction false} RevealedSumNonNegative(answers: seq<Answer>)
    requires NonNegativePoints(answers)
    ensures RevealedSum(answers) >= 0
  {
    if answers != [] {
      RevealedSumNonNegative(answers[1..]);
    }
  }
}
