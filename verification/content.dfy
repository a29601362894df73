/**
  The content loaders: a round file becomes a question and its ranked
  answers, and the team file becomes the two team names. Both read a file as
  its sequence of lines; a file that does not exist is `None`.
 */
module Content {
  import opened Options
  import opened Text
  import opened Board

  /**
    The loaders' "blank line": one that Python's `line.strip()` turns into the
    empty string. This is a deliberate alias of `Text.AllSpace`, kept so the
    loaders read in their own terms. `Text.StripTrims` proves the two
    descriptions agree.
   */
  predicate Blank(line: string) {
    AllSpace(line)
  }

  /** Every line is blank. */
  predicate AllBlank(lines: seq<string>) {
    forall k :: 0 <= k < |lines| ==> Blank(lines[k])
  }

  /** The lines that are not blank, each stripped, in file order. */
  function Clean(lines: seq<string>): (r: seq<string>)
    ensures |r| <= |lines|
  {
    if |lines| == 0 then []
    else if Blank(lines[0]) then Clean(lines[1..])
    else [Strip(lines[0])] + Clean(lines[1..])
  }

  /** Every cleaned line is non-empty and has no whitespace at either end. */
  lemma {:induction false} CleanStripped(lines: seq<string>)
    ensures forall k :: 0 <= k < |Clean(lines)| ==> |Clean(lines)[k]| > 0 && IsStripped(Clean(lines)[k])
  {
    if |lines| > 0 {
      StripTrims(lines[0]);
      CleanStripped(lines[1..]);
    }
  }

  /** Only blank lines clean away to nothing. */
  lemma {:induction false} CleanEmpty(lines: seq<string>)
    ensures |Clean(lines)| == 0 <==> AllBlank(lines)
  {
    if |lines| > 0 {
      CleanEmpty(lines[1..]);
      assert forall k :: 1 <= k < |lines| ==> lines[k] == lines[1..][k - 1];
    }
  }

  /** Position of the first non-blank line, which a file with cleaned lines has. */
  function FirstNonBlank(lines: seq<string>): (i: nat)
    requires |Clean(lines)| > 0
    ensures i < |lines| && !Blank(lines[i])
    ensures forall k :: 0 <= k < i ==> Blank(lines[k])
  {
    if !Blank(lines[0]) then 0 else 1 + FirstNonBlank(lines[1..])
  }

  /** Cleaning distributes over concatenation: the file order is kept. */
  lemma {:induction false} CleanAppend(a: seq<string>, b: seq<string>)
    ensures Clean(a + b) == Clean(a) + Clean(b)
  {
    if |a| == 0 {
      assert a + b == b;
    } else {
      assert (a + b)[1..] == a[1..] + b;
      CleanAppend(a[1..], b);
    }
  }

  /** Python's `int()` on a points field, with the `ValueError` case scoring 0. */
  function Points(field: string): int {
    ParseInt(field).GetOr(0)
  }

  /**
    One answer line. It is an answer exactly when it holds one comma; the
    text is the stripped part before the comma and the points are read from
    the stripped part after it.
   */
  function ParseLine(line: string): (a: Option<Answer>)
    ensures a.Some? <==> Commas(line) == 1
    ensures a.Some? ==> !a.value.revealed && IsStripped(a.value.text) && ',' !in a.value.text
  {
    var parts := Split(line);
    if |parts| == 2 then
      StripKeepsOut(parts[0], ',');
      Some(Answer(Strip(parts[0]), Points(Strip(parts[1])), false))
    else None
  }

  /** The answers of a run of lines: every answer line, in file order. */
  function ParseAnswers(lines: seq<string>): (answers: seq<Answer>)
    ensures |answers| <= |lines|
    ensures NoneRevealed(answers)
  {
    if |lines| == 0 then []
    else
      (match ParseLine(lines[0])
       case Some(a) => [a]
       case None => [])
      + ParseAnswers(lines[1..])
  }

  /** Answers are read line by line, so a split file reads as its two halves. */
  lemma {:induction false} ParseAnswersAppend(a: seq<string>, b: seq<string>)
    ensures ParseAnswers(a + b) == ParseAnswers(a) + ParseAnswers(b)
  {
    if |a| == 0 {
      assert a + b == b;
    } else {
      assert (a + b)[1..] == a[1..] + b;
      ParseAnswersAppend(a[1..], b);
    }
  }

  /** A question with its ranked answers, as read from a round file. */
  datatype RoundContent = RoundContent(question: string, answers: seq<Answer>)

  /**
    The round file loader. A missing file, or one with only blank lines,
    makes the round unavailable. Otherwise the question is the first
    non-blank line, stripped, and the answers come from the lines after it,
    all still hidden.
   */
  function ParseRound(file: Option<seq<string>>): (c: Option<RoundContent>)
    ensures c.None? <==> file.None? || AllBlank(file.value)
    ensures c.Some? ==>
              && |c.value.question| > 0 && IsStripped(c.value.question)
              && NoneRevealed(c.value.answers)
              && |c.value.answers| < |file.value|
    ensures c.Some? ==> exists i :: (0 <= i < |file.value|
              && (forall k :: 0 <= k < i ==> Blank(file.value[k]))
              && c.value.question == Strip(file.value[i])
              && c.value.answers == ParseAnswers(Clean(file.value[i + 1..])))
  {
    match file
    case None => None
    case Some(lines) =>
      CleanEmpty(lines);
      if |Clean(lines)| == 0 then None
      else
        var i := FirstNonBlank(lines);
        StripTrims(lines[i]);
        var rest := lines[i + 1..];
        var answers := ParseAnswers(Clean(rest));
        assert |answers| <= |rest| < |lines|;
        Some(RoundContent(Strip(lines[i]), answers))
  }

  /** The line an answer is written as in a round file: `text,points`. */
  function FormatAnswer(a: Answer): string {
    a.text + [','] + ShowInt(a.points)
  }

  function FormatAnswers(answers: seq<Answer>): (lines: seq<string>)
    ensures |lines| == |answers|
  {
    if |answers| == 0 then [] else [FormatAnswer(answers[0])] + FormatAnswers(answers[1..])
  }

  /** A round file holding `question` and then `answers`, one line each. */
  function FormatRound(question: string, answers: seq<Answer>): (lines: seq<string>)
    ensures |lines| == |answers| + 1
  {
    [question] + FormatAnswers(answers)
  }

  /** An answer that a round file can hold: trimmed text without a comma, not yet shown. */
  predicate Writable(a: Answer) {
    IsStripped(a.text) && ',' !in a.text && !a.revealed
  }

  /** A written answer line is already trimmed, so loading keeps it whole. */
  lemma FormattedStripped(a: Answer)
    requires Writable(a)
    ensures |FormatAnswer(a)| > 0 && Strip(FormatAnswer(a)) == FormatAnswer(a)
  {
    var line := FormatAnswer(a);
    var digits := ShowInt(a.points);
    assert line[|line| - 1] == digits[|digits| - 1];
    assert line[0] == if |a.text| == 0 then ',' else a.text[0];
    StripStripped(line);
  }

  /** A written answer line parses back to the answer. */
  lemma ParseFormattedAnswer(a: Answer)
    requires Writable(a)
    ensures ParseLine(FormatAnswer(a)) == Some(a)
  {
    var digits := ShowInt(a.points);
    SplitPair(a.text, digits);
    StripStripped(a.text);
    StripStripped(digits);
    ParseShowInt(a.points);
  }

  lemma {:induction false} CleanFormatted(answers: seq<Answer>)
    requires forall k :: 0 <= k < |answers| ==> Writable(answers[k])
    ensures Clean(FormatAnswers(answers)) == FormatAnswers(answers)
  {
    if |answers| > 0 {
      var lines := FormatAnswers(answers);
      var line := FormatAnswer(answers[0]);
      FormattedStripped(answers[0]);
      CleanFormatted(answers[1..]);
      assert lines[0] == line && lines[1..] == FormatAnswers(answers[1..]);
      assert Clean(lines) == [line] + Clean(lines[1..]);
    }
  }

  lemma ParseAnswersCons(line: string, rest: seq<string>, a: Answer)
    requires ParseLine(line) == Some(a)
    ensures ParseAnswers([line] + rest) == [a] + ParseAnswers(rest)
  {
    assert ([line] + rest)[1..] == rest;
  }

  lemma {:induction false} ParseFormattedAnswers(answers: seq<Answer>)
    requires forall k :: 0 <= k < |answers| ==> Writable(answers[k])
    ensures ParseAnswers(FormatAnswers(answers)) == answers
  {
    if |answers| > 0 {
      var rest := FormatAnswers(answers[1..]);
      ParseFormattedAnswer(answers[0]);
      ParseFormattedAnswers(answers[1..]);
      ParseAnswersCons(FormatAnswer(answers[0]), rest, answers[0]);
      assert [answers[0]] + answers[1..] == answers;
    }
  }

  /**
    Round trip: writing a question and its answers as a round file and
    loading that file gives them back unchanged.
   */
  lemma ParseRoundFormat(question: string, answers: seq<Answer>)
    requires |question| > 0 && IsStripped(question)
    requires forall k :: 0 <= k < |answers| ==> Writable(answers[k])
    ensures ParseRound(Some(FormatRound(question, answers))) == Some(RoundContent(question, answers))
  {
    var lines := FormatRound(question, answers);
    StripStripped(question);
    assert !Blank(lines[0]);
    assert lines[1..] == FormatAnswers(answers);
    CleanFormatted(answers);
    ParseFormattedAnswers(answers);
  }

  /**
    The answer a one-comma line stands for: the text is the part before the
    comma, stripped, and the points are the stripped part after it read as
    an integer, or 0 when it is not one.
   */
  lemma ParseLineValue(text: string, field: string)
    requires ',' !in text && ',' !in field
    ensures ParseLine(text + [','] + field) == Some(Answer(Strip(text), Points(Strip(field)), false))
  {
    SplitPair(text, field);
  }

  /**
    A line with one comma whose points field is not a number is still an
    answer, worth 0 points.
   */
  lemma MalformedPointsScoreZero(text: string, field: string)
    requires ',' !in text && ',' !in field
    requires ParseInt(Strip(field)).None?
    ensures ParseLine(text + [','] + field) == Some(Answer(Strip(text), 0, false))
  {
    ParseLineValue(text, field);
  }

  /** A numeric points field is read as the integer it spells, sign included. */
  lemma NumericPointsRead(text: string, n: int)
    requires ',' !in text
    ensures ParseLine(text + [','] + ShowInt(n)) == Some(Answer(Strip(text), n, false))
  {
    ParseLineValue(text, ShowInt(n));
    StripStripped(ShowInt(n));
    ParseShowInt(n);
  }

  /** Padding around both fields is dropped and a signed, zero-padded number is read: ` Foo , +07 ` is "Foo" for 7. */
  lemma PaddedLineRead()
    ensures ParseLine(" Foo , +07 ") == Some(Answer("Foo", 7, false))
  {
    var line := " Foo , +07 ";
    var text, field := line[..5], line[6..];
    assert line == text + [','] + field && ',' !in text && ',' !in field by {}
    assert Strip(text) == "Foo" by {
      PaddedStrip(text);
    }
    assert Strip(field) == "+07" by {
      PaddedStrip(field);
    }
    assert Points(Strip(field)) == 7 by {
      var digits := "+07"[1..];
      assert digits == "07" && IsDigits(digits);
      assert digits[..1] == "0" && "0"[..0] == [];
      assert DigitsValue(digits) == 7;
    }
    ParseLineValue(text, field);
  }

  /** One blank on each side of a word with non-blank ends is exactly what stripping removes. */
  lemma PaddedStrip(s: string)
    requires |s| >= 3 && s[0] == ' ' && s[|s| - 1] == ' '
    requires !IsSpace(s[1]) && !IsSpace(s[|s| - 2])
    ensures Strip(s) == s[1..|s| - 1]
  {
    assert LeadingSpaces(s[1..]) == 0;
    assert LeadingSpaces(s) == 1;
    assert s[..|s| - 1][|s| - 2] == s[|s| - 2];
    assert TrailingSpaces(s[..|s| - 1]) == 0;
    assert TrailingSpaces(s) == 1;
  }

  /** The line `Answer,abc` is an answer worth 0 points. */
  lemma AnswerAbcScoresZero()
    ensures ParseLine("Answer,abc") == Some(Answer("Answer", 0, false))
  {
    var line := "Answer,abc";
    var text, field := line[..6], line[7..];
    assert line == text + [','] + field && ',' !in text && ',' !in field && Strip(text) == "Answer" by {
      StripStripped(text);
    }
    assert ParseInt(Strip(field)).None? by {
      StripStripped(field);
      assert !IsDigit(field[0]);
    }
    MalformedPointsScoreZero(text, field);
  }

  /** The names used when the team file does not provide two. */
  const DefaultNames: (string, string) := ("Тим1", "Тим2")

  /**
    The team-name loader: the first two non-blank lines of the team file,
    stripped, or the default names when the file is missing or has fewer
    than two such lines.
   */
  function TeamNames(file: Option<seq<string>>): (names: (string, string))
    ensures |names.0| > 0 && IsStripped(names.0) && |names.1| > 0 && IsStripped(names.1)
    ensures file.Some? && |Clean(file.value)| >= 2 ==>
              names.0 == Clean(file.value)[0] && names.1 == Clean(file.value)[1]
    ensures file.None? || |Clean(file.value)| < 2 ==> names == DefaultNames
  {
    match file
    case Some(lines) =>
      CleanStripped(lines);
      var names := Clean(lines);
      if |names| >= 2 then (names[0], names[1]) else DefaultNames
    case None => DefaultNames
  }

  /** Blank lines at the head of a file contribute nothing to its cleaned lines. */
  lemma {:induction false} CleanSkipsBlank(lines: seq<string>, i: nat)
    requires i <= |lines|
    requires forall k :: 0 <= k < i ==> Blank(lines[k])
    ensures Clean(lines) == Clean(lines[i..])
  {
    if i > 0 {
      assert lines[1..][i - 1..] == lines[i..];
      CleanSkipsBlank(lines[1..], i - 1);
    }
  }

  /** A non-blank line heads the cleaned lines from it on. */
  lemma CleanAt(lines: seq<string>, i: nat)
    requires i < |lines| && !Blank(lines[i])
    ensures Clean(lines[i..]) == [Strip(lines[i])] + Clean(lines[i + 1..])
  {
    assert lines[i..][1..] == lines[i + 1..];
  }

  /**
    In terms of the file's own lines: when lines `i < j` are the only
    non-blank lines up to `j`, the team names are those two lines, stripped.
   */
  lemma TeamNamesFromLines(lines: seq<string>, i: nat, j: nat)
    requires i < j < |lines| && !Blank(lines[i]) && !Blank(lines[j])
    requires forall k :: 0 <= k < j && k != i ==> Blank(lines[k])
    ensures TeamNames(Some(lines)) == (Strip(lines[i]), Strip(lines[j]))
  {
    var rest := lines[i + 1..];
    CleanSkipsBlank(lines, i);
    CleanAt(lines, i);
    CleanSkipsBlank(rest, j - i - 1);
    assert rest[j - i - 1..] == lines[j..];
    CleanAt(lines, j);
  }
}
