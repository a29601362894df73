/**
  Worked rounds on a five-answer board worth 40, 25, 15, 10 and 5 points,
  with team 1 acting first.
 */
module Scenarios {
  import opened Board
  import opened Engine

  function FiveAnswers(): (answers: seq<Answer>)
    ensures |answers| == 5 && NoneRevealed(answers)
  {
    [Answer("A", 40, false), Answer("B", 25, false), Answer("C", 15, false),
     Answer("D", 10, false), Answer("E", 5, false)]
  }

  /** Team 1 shows the top two answers (65 points) and then strikes out. */
  function StrikeOut(): seq<Event> {
    [Reveal(0), Reveal(1), Strike, Strike, Strike]
  }

  /** Team 1's opening frame leaves team 2 to steal 65 frozen points. */
  lemma StrikeOutHandsSteal()
    ensures var r := Frame(Start(FiveAnswers(), Team1), StrikeOut());
      r.phase == Opponent && r.pool1 == 65 && r.pool2 == 0 && r.strikes == 3
      && r.answers[0].revealed && r.answers[1].revealed && !r.answers[3].revealed
  {
    var r0 := Start(FiveAnswers(), Team1);
    var b1 := Step(r0, Reveal(0));
    var b2 := Step(b1, Reveal(1));
    assert b2.pool1 == 65 && b2.phase == Active && !b2.answers[3].revealed;
    var b3 := Step(b2, Strike);
    var b4 := Step(b3, Strike);
    var b5 := Step(b4, Strike);
    assert !AllRevealed(b4.answers) by { assert !b4.answers[3].revealed; }
    assert b5.phase == Opponent;
    var events := StrikeOut();
    assert Batch(r0, events) == b5 by {
      assert events[1..][1..][1..][1..][1..] == [];
    }
  }

  /**
    Two answers and three strikes hand the steal to team 2 with 65 points
    frozen in team 1's pool; team 2 names the 10-point answer and takes 75,
    and team 1 is left with nothing.
   */
  lemma StealSucceeds()
    ensures var r := RunFrames(Start(FiveAnswers(), Team1), [StrikeOut(), [Reveal(3)]]);
      r.phase == RoundOver && r.pool1 == 0 && r.pool2 == 75 && r.strikes == 3
  {
    var r0 := Start(FiveAnswers(), Team1);
    StrikeOutHandsSteal();
    var r1 := Frame(r0, StrikeOut());
    assert r1.answers[3].points == 10 by {
      assert SameBoard(FiveAnswers(), r1.answers);
    }
    var r2 := Step(r1, Reveal(3));
    assert r2 == StealReveal(r1, 3);
    assert Batch(r1, [Reveal(3)]) == r2;
    var frames := [StrikeOut(), [Reveal(3)]];
    assert frames[1..] == [[Reveal(3)]];
    assert RunFrames(r0, frames) == RunFrames(r1, [[Reveal(3)]]);
  }

  /** The same round, but team 2's steal is a wrong guess: team 1 keeps its 65 points. */
  lemma StealFails()
    ensures var r := RunFrames(Start(FiveAnswers(), Team1), [StrikeOut(), [Strike]]);
      r.phase == RoundOver && r.pool1 == 65 && r.pool2 == 0 && r.strikes == 3
  {
    var r0 := Start(FiveAnswers(), Team1);
    StrikeOutHandsSteal();
    var r1 := Frame(r0, StrikeOut());
    var frames := [StrikeOut(), [Strike]];
    assert frames[1..] == [[Strike]];
    assert RunFrames(r0, frames) == RunFrames(r1, [[Strike]]);
  }

  /**
    The all-shown check waits for the end of the frame: strikes that follow
    the last reveal in the same frame still count, and the round then closes
    with the acting team holding every point.
   */
  lemma StrikesAfterLastReveal()
    ensures var r := Frame(Start(FiveAnswers(), Team1),
                           [Reveal(0), Reveal(1), Reveal(2), Reveal(3), Reveal(4), Strike, Strike]);
      r.phase == RoundOver && r.strikes == 2 && r.pool1 == 95 && r.pool2 == 0
  {
  }
}
