# Family Feud round engine, session and content loaders in Dafny

This project models the deterministic core of a two-team "Family Feud" style
board game. The game is a single Python program, `main.py`. The model covers
four parts of it:

- **The round engine.** This is the reveal/strike state machine that runs one
  round inside `main()`. The acting team reveals ranked answers and collects
  their points in its round pool. Its third wrong guess hands one steal attempt
  to the other team, as long as some answer is still hidden. A correct steal
  moves the whole frozen pool, plus the stolen answer, to the other team. A
  failed steal ends the round with the pools as they are.
  - Input arrives frame by frame. Each frame's events are applied in order.
  - Only after the whole frame does the game close an active round whose
    answers are all shown.
  - Digit keys, the X key and left clicks all become the same two events:
    `Reveal(i)` and `Strike`. A left click reveals the answer whose box is
    under the cursor's position when the game handles the click.
- **The game session.** This is the loop over rounds 1 to 5.
  - Each round starts with both pools at zero.
  - A round whose file is missing or blank is skipped.
  - A closed round adds each pool to its own team's total. It then appends a
    record of the round number and the new running totals to the result log.
- **The round file loader** (`load_round_file`). It reads a question and
  answers from the lines of a round file.
- **The team-name loader** (`load_team_names`). It reads the two team names
  from the lines of the team file.

Modules, leaves first:

- `Options` and `Text` (`text.dfy`): an optional value; Python's `str.strip()`
  and `str.split(',')`; the decimal form of `int()`.
- `Board` (`board.dfy`): teams, answers, the sum of the points shown.
- `Engine` (`engine.dfy`): the round state machine, its invariant and the
  conservation of points.
- `Input` (`input.dfy`): turning keys and clicks into events, and the order in
  which the board drawing lays out answer boxes.
- `Content` (`content.dfy`): the two file loaders and their round trips.
- `Session` (`session.dfy`): the five-round session and its result log.
- `Scenarios` (`scenarios.dfy`): concrete rounds on a 40/25/15/10/5 board.

Some behaviours of the code are easy to misread. The model follows the code
exactly in each of them:

- **Phases.** A round is in one of three phases: `Active`, `Opponent` and
  `RoundOver`. These are the code's `"active"`, `"opponent"` and
  `"round_over"` states (main.py:513, 556, 558, 571, 574).
- **When a fully shown round closes.** The all-shown check runs once per frame,
  after all of the frame's input (main.py:597-598). It does not run right
  after the reveal that shows the last answer. So strikes that come after the
  last reveal in the same frame still count
  (`Scenarios.StrikesAfterLastReveal`).
- **Negative points.** The points field is whatever integer `int()` reads
  (main.py:263), so points may be negative. The model allows them. Totals only
  grow when no answer is negative (`Session.GameRising`).
- **What a log record holds.** Each record is the round number and the two
  running totals after banking (main.py:622-629). It does not hold that
  round's pools.
- **No winner.** After round 5 the code only shows the two final totals
  (main.py:634-639). The model has no winner.
- **Ignored reveals.** A reveal of a missing or already shown answer is ignored
  silently: the guards at main.py:544, 562, 579 and 586 skip it. The model
  makes it a step that changes nothing.

## Model

| member | source | states |
|---|---|---|
| Text.Strip | main.py:253 | A stripped line has no whitespace at either end and is no longer than the line. |
| Text.StripTrims | main.py:253 | Stripping cuts only whitespace, and only from the two ends. The result is empty exactly when the line is all whitespace. |
| Text.StripStripped | main.py:261 | Stripping a string with non-space ends leaves it unchanged. |
| Text.StripKeepsOut | main.py:261 | Stripping never adds a character, so stripped answer text still has no comma. |
| Text.Split | main.py:259 | Splitting on commas gives one more piece than there are commas, and no piece holds a comma. |
| Text.JoinSplit | main.py:259 | Joining the pieces back together with commas gives the original line. |
| Text.SplitPair | main.py:259-260 | `a,b` with comma-free `a` and `b` splits into exactly the two pieces `a` and `b`. |
| Text.SplitSingle | main.py:259 | A comma-free string splits into one piece: itself. |
| Text.DigitChar | main.py:542-543 | The digit character for `d` is a digit whose value is `d`. |
| Text.ShowNat | main.py:263 | The numeral written for `n` is all digits and reads back as `n`. |
| Text.ShowInt | main.py:263 | A written integer has no surrounding whitespace and no comma. |
| Text.ParseInt | main.py:263 | Reads the decimal form of `int()` on a stripped field: an optional sign, then digits. Its partner `Text.ParseShowInt` states that it reads back every written integer. |
| Text.ParseShowInt | main.py:263 | The points parser reads back every integer numeral, negative ones included. |
| Board.MarkRevealed | main.py:545 | Revealing answer `i` shows it and keeps its text and points. Every other answer is unchanged. |
| Board.RevealedSumMark | main.py:545-550 | Showing a hidden answer raises the sum of shown points by exactly that answer's points. |
| Board.RevealedSumNone | main.py:266 | A freshly loaded board, with nothing shown, has a shown sum of zero. |
| Board.RevealedSumNonNegative | main.py:263 | With no negative answers, the shown sum is never negative. |
| Engine.ActingReveal | main.py:544-550 | An active reveal shows the answer and adds its points to the acting team's pool. The other pool, the strike count and the phase are unchanged. |
| Engine.ActingStrike | main.py:551-558 | An active strike adds one strike. Below three the round stays active. At three it goes to the steal if an answer is hidden, and otherwise ends. Pools are unchanged. |
| Engine.StealReveal | main.py:562-571 | A correct steal gives the other team the acting pool plus the answer's points and leaves the acting team 0. The two pools then add up to the old acting pool plus the answer, and the round is over. |
| Engine.Step | main.py:540-595 | One event keeps the acting team and the board's answers, never hides an answer, and never moves the phase back. A finished round is unchanged. An invalid reveal changes nothing. A valid reveal shows exactly its answer. A strike in the steal ends the round and changes nothing else. Only a strike at three strikes, with an answer hidden, starts the steal. |
| Engine.Batch | main.py:525-595 | A frame's events in arrival order keep the board, never move the phase back, and leave a finished round as it was. |
| Engine.EndOfBatch | main.py:597-598 | After the end-of-frame check, a round is never still active with every answer shown. Only the phase changes, and only from active to over. |
| Engine.RunFrames | main.py:516-630 | Frames applied until the round is over keep the acting team and the board. A finished round takes no more input. |
| Engine.Start | main.py:499-513 | A round starts active, with no strikes and both pools 0. Its partner `Engine.StartInv` states that this start satisfies the round invariant. |
| Engine.Frame | main.py:525-598 | One pass of the round loop: the frame's events in order, then the all-shown check. Its partners `Engine.AllRevealedCloses` and `Engine.EmptyRoundEndsAtOnce` state its closing behaviour. |
| Engine.StartInv | main.py:499-504 | A round started on a hidden board satisfies the round invariant. |
| Engine.StepInv | main.py:540-595 | Every event preserves the round invariant: at most three strikes, and the pools match the shown points in each phase. |
| Engine.BatchInv | main.py:525-595 | A whole frame of events preserves the round invariant. |
| Engine.RunFramesInv | main.py:516-598 | Any run of frames preserves the round invariant. |
| Engine.RoundPoolsConserved | main.py:499-598 | From any input, a round keeps at most three strikes. Its two pools always add up to the shown points, and one of them is 0. While active, the acting pool equals the shown points. |
| Engine.PoolsNonNegative | main.py:263 | In a reachable round with no negative answers, neither pool is negative. |
| Engine.AllRevealedCloses | main.py:597-598 | An active round whose answers are all shown ends at the end of the frame, whatever strikes the frame holds, with its pools unchanged. |
| Engine.EmptyRoundEndsAtOnce | main.py:597-598 | A round with no answers ends in its first frame with both pools 0. |
| Engine.BatchAppend | main.py:525 | Applying two event runs one after the other is the same as applying their concatenation. |
| Input.OneColumn | main.py:382-388 | The single-column layout has one box per answer, in answer order, each on its own row. |
| Input.TwoColumns | main.py:357-380 | The two-column layout puts answer `2·row` on the left and `2·row+1` on the right, in answer order. |
| Input.BoardSlots | main.py:341-388 | Box `k` shows answer `k`, there is one box per answer, and no two boxes share a cell. |
| Input.KeyEvents | main.py:541-558 | A digit key reveals the answer of that rank. Otherwise the X key is exactly one strike. Any other key does nothing. |
| Input.ClickEvents | main.py:575-578 | A click only ever reveals. |
| Input.InputEvents | main.py:540-595 | One key press or click yields at most one event. |
| Input.Decode | main.py:525 | A frame never yields more events than it has inputs. |
| Input.DecodeAppend | main.py:525 | Events come out in input arrival order: decoding two runs of input in turn is decoding them together. |
| Input.DecodeSingle | main.py:525-595 | A frame of one input yields exactly that input's events. |
| Input.ClickOnBox | main.py:577-579 | A click on answer `k`'s box reveals answer `k`, exactly once. |
| Input.ClickOnly | main.py:577-579 | In a layout with distinct cells, clicking a box's cell yields that box's answer alone. |
| Input.ClickAtMostOne | main.py:577-578 | Boxes never overlap, so a click reveals at most one answer. |
| Input.ClickMisses | main.py:577-578 | A click outside every box does nothing. |
| Input.KeyMatchesClick | main.py:542-550 | Pressing the digit of rank `k+1` has the same effect as clicking answer `k`'s box. |
| Input.ZeroKeyIgnored | main.py:542-544 | The `0` key names rank 0, index -1, and changes nothing in any round. |
| Content.Clean | main.py:253 | Cleaning never yields more lines than the file has. |
| Content.CleanEmpty | main.py:253-255 | Cleaning leaves nothing exactly when every line is blank. |
| Content.CleanStripped | main.py:253 | Every cleaned line is non-empty and has no whitespace at either end. |
| Content.FirstNonBlank | main.py:253-256 | The question line is a non-blank line with only blank lines before it. |
| Content.CleanAppend | main.py:253 | Cleaning keeps file order: cleaning a split file is cleaning its two halves. |
| Content.CleanSkipsBlank | main.py:241 | Blank lines at the head of a file do not change its cleaned lines. |
| Content.CleanAt | main.py:241 | From a non-blank line on, the cleaned lines start with that line, stripped. |
| Content.Points | main.py:262-265 | The points of an answer: `int()` of the field, or 0 when that fails. `Content.ParseLineValue` states its use, and `Content.MalformedPointsScoreZero` states the 0 case. |
| Content.ParseLine | main.py:259-266 | A line becomes an answer exactly when it has one comma. The answer is hidden, and its text is stripped and comma-free. Its exact text and points are stated by `Content.ParseLineValue`. |
| Content.ParseLineValue | main.py:259-266 | A line `text,field` with one comma is the hidden answer whose text is `text` stripped and whose points are `field` stripped, read as an integer, or 0 when it is not one. |
| Content.NumericPointsRead | main.py:261-263 | A points field spelling an integer, with or without a sign, is read as that integer. |
| Content.PaddedLineRead | main.py:259-266 | ` Foo , +07 ` loads as the hidden answer "Foo" worth 7. |
| Content.ParseAnswers | main.py:258-266 | Answer parsing yields at most one answer per line, all hidden. |
| Content.ParseAnswersAppend | main.py:258-266 | Answers keep file order: parsing a split run of lines is parsing its two halves. |
| Content.ParseRound | main.py:246-267 | A missing or all-blank file is unavailable. Otherwise the question is the first non-blank line, stripped and non-empty, and the answers come from the cleaned lines after it, all hidden. |
| Content.FormattedStripped | main.py:253 | An answer written as `text,points` is a non-empty, already trimmed line, so loading keeps it whole. |
| Content.ParseFormattedAnswer | main.py:259-266 | An answer written as `text,points` parses back to the same answer. |
| Content.CleanFormatted | main.py:253 | Cleaning keeps a run of written answer lines exactly as it is. |
| Content.ParseAnswersCons | main.py:258-266 | A line that parses as an answer puts that answer in front of the answers of the lines after it. |
| Content.ParseFormattedAnswers | main.py:258-266 | A run of written answers parses back to the same answers, in order. |
| Content.ParseRoundFormat | main.py:246-267 | Writing a question and its answers as a round file and loading it gives them back. |
| Content.MalformedPointsScoreZero | main.py:262-265 | A one-comma line whose points field is not a number is an answer worth 0. |
| Content.AnswerAbcScoresZero | main.py:262-265 | `Answer,abc` loads as the hidden answer "Answer" worth 0. |
| Content.TeamNames | main.py:237-244 | The team names are the first two cleaned lines when there are at least two, and the defaults otherwise. Both names are non-empty and stripped. |
| Content.TeamNamesFromLines | main.py:237-244 | If lines `i < j` are the only non-blank lines up to `j`, the names are those two lines, stripped. |
| Session.PlayRound | main.py:499-598 | A round is skipped exactly when its file is unavailable. Otherwise it starts from the chosen team on the loaded board and keeps the round invariant. It is closed exactly when the round ended. |
| Session.Bank | main.py:622-629 | Banks a closed round. Its partners `Session.ClosedRoundBanks` and `Session.BankConserves` state its effect on the totals and the log. |
| Session.PlayFrom | main.py:496-509 | Plays the rounds from `k` on. Its partners `Session.PlayFromLogOk`, `Session.PlayFromRecords` and `Session.PlayFromAppend` state its properties. |
| Session.Game | main.py:493-630 | The five-round game from zero totals and an empty log. Its partners `Session.GameLogOk`, `Session.GameRecordsClosed`, `Session.GameClosedRecorded` and `Session.GameRising` state its properties. |
| Session.BankLogOk | main.py:622-629 | Banking round `k` keeps the log well formed: rounds increase, and the last record holds the totals. |
| Session.PlayFromLogOk | main.py:496-630 | Playing on keeps the log well formed up to the round where play stops. |
| Session.PlayFromRecords | main.py:496-630 | Play keeps the earlier log as it was. Every new record names a round that closed. When play runs to the end, every closed round has a record. |
| Session.GameLogOk | main.py:496-630 | A game's log has round numbers in 1 to 5 that strictly increase, and its last record holds the final totals. |
| Session.GameRecordsClosed | main.py:506-509 | Every record in a game's log is for a round that closed. |
| Session.RecordsClosed | main.py:506-509 | In five rounds from a new session, every record names a round from 1 to 5 that closed. |
| Session.ClosedRecorded | main.py:622-629 | In five rounds from a new session that run to the end, every closed round has a record. |
| Session.GameClosedRecorded | main.py:622-629 | In a game that runs to the end, every closed round has a record. |
| Session.SkippedRoundUnlogged | main.py:506-509 | A round whose file is missing or blank has no record in the log. |
| Session.PlayFromAppend | main.py:496 | Playing two stretches of rounds one after the other is the same as playing them together. |
| Session.SkippedRoundKeepsSession | main.py:506-509 | After a skipped round, the totals and log are exactly those from before it. |
| Session.ClosedRoundBanks | main.py:622-629 | A closed round adds each pool to its own team's total and appends exactly one record: the round number and the new totals. |
| Session.BankConserves | main.py:622-627 | Banking a closed round adds exactly the round's shown points to the two totals together. |
| Session.PlayFromRising | main.py:622-627 | With no negative answers, totals never fall along the log, and the final totals bound every record. |
| Session.GameRising | main.py:622-627 | With no negative answers in any round file, a game's totals never fall and never go below 0. |
| Scenarios.StrikeOutHandsSteal | main.py:544-558 | Revealing 40 and 25 and then striking three times leaves the steal to team 2, with 65 frozen in team 1's pool. |
| Scenarios.StealSucceeds | main.py:562-571 | A steal of the 10-point answer after that ends the round 0 to 75. |
| Scenarios.StealFails | main.py:572-574 | A failed steal after that ends the round 65 to 0. |
| Scenarios.StrikesAfterLastReveal | main.py:551-558 | Strikes after the last reveal in the same frame still count. The round then closes with every point in the acting pool. |

## Left out

- Rendering, animation, audio and the settings menu with its JSON file are
  not modelled. They do not affect the game's state.
- Reading files from disk is not modelled. A round or team file is its
  sequence of lines, or `None` when the file does not exist. How the lines
  were split and decoded is not modelled either.
- Result-log storage in SQLite is not modelled. The log is the sequence of
  records the session appends.
  - SQLite stores integers only in the 64-bit range -2^63 to 2^63-1.
    `save_round_result` (main.py:285-291, called at main.py:629) passes it the
    running totals. A total outside that range raises an uncaught
    `OverflowError`, which ends the game.
  - A single round line such as `A,9999999999999999999` gives such a total,
    since `int()` reads up to 4300 digits.
  - The model appends a record for any integer. So `Session.ClosedRoundBanks`,
    `Session.GameLogOk`, `Session.PlayFromRecords` and
    `Session.GameClosedRecorded` hold for the program only while both totals
    stay in the 64-bit range.
- Team selection before each round is not modelled. The chosen team is an
  input of each round. The source asks for it even before finding that a
  round's file is missing, which has no effect on the state.
- Event polling, the clock and the wait for a key press after a round are not
  modelled. A round's input is a sequence of frames, each a sequence of key
  presses and left clicks.
  - Other mouse buttons are not inputs.
  - The P key opens the settings menu without touching the round, so it is
    just a key that yields no event.
  - A round whose input runs out before it ends leaves the session `Waiting`
    inside that round.
- Quitting with Escape or by closing the window is not modelled. It exits the
  process.
- Text.ParseInt: reads only an optional sign and ASCII digits. Python's `int()`
  also accepts underscores between digits and non-ASCII decimal digits.
  Those fields count as malformed here (0 points). In the other direction,
  Python 3.11 and later (and patched 3.7 to 3.10) reject a decimal string of
  more than `sys.int_max_str_digits` digits (4300 by default) with
  `ValueError`, which main.py:264-265 turns into 0 points. `ParseInt` reads any
  number of digits, so `Text.ParseShowInt`, `Content.NumericPointsRead` and
  `Content.ParseRoundFormat` hold for the program only on fields within that
  limit.
- Input.KeyEvents: treats only ASCII digits as digit keys. Python's
  `str.isdigit()` also accepts characters such as superscripts, and `int()`
  then fails on some of them. That crash path is not modelled.
- Input.ClickEvents: a click's cell is the cell under the cursor when the
  game handles the click (`pygame.mouse.get_pos()` at main.py:576). It is not
  necessarily where the button was pressed. All clicks handled in one frame,
  and a click made during the one-second strike animation of main.py:552, act
  on the cursor's cell at handling time. The model takes that cell as the
  click's input, so the proofs cover every cell the program can read. It does
  not model where the button was pressed.
- Input.BoardSlots: keeps only which answer each box shows and the grid cell
  it occupies. The pixel geometry of `draw_board` is reduced to columns and
  rows.
- The final results screen only displays the totals and is not modelled. The
  code computes no winner.
