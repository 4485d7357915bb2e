/** The doomsday quiz: a random date is shown, the player names its day of
    the week, and a two-integer record "wins,losses" kept in a text file is
    updated after every answer.

    The console, the colours and `exit()` are not modelled: the player's
    lines are a sequence, the game ends with an `Outcome`, and the weekday
    that `datetime.date.weekday()` computes is a function parameter
    (0 is Monday, as in Python). */
module Doomsday {
  import Rng
  import opened PyText

  datatype Date = Date(year: int, month: int, day: int)

  /** The raw draws one call of `random_date` consumes. */
  datatype Draw = Draw(year: nat, month: nat, day: nat)

  /** The exceptions that end the script. */
  datatype Failure =
    | ScoreFileMalformed   // `split(",")` did not give two parts, or `int` refused one
    | DateRejected         // `datetime.date` raised ValueError
    | EndOfInput           // `input()` raised EOFError

  datatype Result<T> = Ok(value: T) | Err(failure: Failure)

  // ---------------------------------------------------------------- tables

  const MonthsNumToName: map<int, string> :=
    map[1 := "January", 2 := "February", 3 := "March", 4 := "April", 5 := "May", 6 := "June",
        7 := "July", 8 := "August", 9 := "September", 10 := "October", 11 := "November",
        12 := "December"]

  const DaysNumToName: map<int, string> :=
    map[0 := "Sunday", 1 := "Monday", 2 := "Tuesday", 3 := "Wednesday", 4 := "Thursday",
        5 := "Friday", 6 := "Saturday"]

  const DaysNameToNum: map<string, int> :=
    map["Sunday" := 0, "Monday" := 1, "Tuesday" := 2, "Wednesday" := 3, "Thursday" := 4,
        "Friday" := 5, "Saturday" := 6]

  /** The two day tables are inverse bijections between 0..6 and the names. */
  lemma DayTablesInverse()
    ensures forall n :: n in DaysNumToName <==> 0 <= n < 7
    ensures forall n :: n in DaysNumToName ==>
              DaysNumToName[n] in DaysNameToNum && DaysNameToNum[DaysNumToName[n]] == n
    ensures forall s :: s in DaysNameToNum ==>
              DaysNameToNum[s] in DaysNumToName && DaysNumToName[DaysNameToNum[s]] == s
  {
  }

  // ---------------------------------------------------------------- dates

  /** Month lengths of a common year, January first. */
  const CommonYear: seq<int> := [31, 28, 31, 30, 31, 30, 31, 31, 30, 31, 30, 31]

  /** The length of a month when every year divisible by four is a leap
      year, the rule the script applies. */
  function MonthLength(year: int, month: int): (n: int)
    requires 1 <= month <= 12
    ensures 28 <= n <= 31
    ensures n == 29 <==> month == 2 && year % 4 == 0
  {
    if month == 2 && year % 4 == 0 then 29 else CommonYear[month - 1]
  }

  /** `random_date`: the year from [0, 3000), the month from [1, 12) and a
      day below the bound that the month's branch picks. */
  function RandomDate(draw: Draw): (d: Date)
    ensures d.year == Rng.Integers(0, 3000, draw.year)
    ensures d.month == Rng.Integers(1, 12, draw.month)
    ensures 0 <= d.year < 3000 && 1 <= d.month <= 11
    ensures 1 <= d.day < MonthLength(d.year, d.month)
  {
    var year := Rng.Integers(0, 3000, draw.year);
    var month := Rng.Integers(1, 12, draw.month);
    if year % 4 == 0 && month == 2 then Date(year, month, Rng.Integers(1, 29, draw.day))
    else if month == 2 then Date(year, month, Rng.Integers(1, 28, draw.day))
    else if month in {4, 6, 9, 11} then Date(year, month, Rng.Integers(1, 30, draw.day))
    else Date(year, month, Rng.Integers(1, 31, draw.day))
  }

  /** Every date that `random_date` can return is returned for some draw:
      the years 0..2999, the months January to November, and every day of
      the month except its last. */
  lemma RandomDateReachesAll(d: Date)
    requires 0 <= d.year < 3000 && 1 <= d.month <= 11
    requires 1 <= d.day < MonthLength(d.year, d.month)
    ensures RandomDate(Draw(d.year, d.month - 1, d.day - 1)) == d
  {
    Rng.IntegersCovers(0, 3000, d.year);
    Rng.IntegersCovers(1, 12, d.month);
    var hi := if d.year % 4 == 0 && d.month == 2 then 29
              else if d.month == 2 then 28
              else if d.month in {4, 6, 9, 11} then 30 else 31;
    Rng.IntegersCovers(1, hi, d.day);
  }

  predicate IsGregorianLeap(year: int) {
    year % 4 == 0 && (year % 100 != 0 || year % 400 == 0)
  }

  /** Whether `datetime.date(year, month, day)` accepts its arguments:
      years 1 to 9999 and a day that exists in the Gregorian calendar. */
  predicate DateAccepts(year: int, month: int, day: int): (ok: bool)
    ensures ok ==> 1 <= month <= 12 && 1 <= day <= MonthLength(year, month)
  {
    1 <= year <= 9999 && 1 <= month <= 12 &&
    1 <= day <= (if month == 2 && IsGregorianLeap(year) then 29 else CommonYear[month - 1])
  }

  /** `create_date`: a random date turned into a `datetime.date`.  It fails
      exactly when year 0 was drawn. */
  function CreateDate(draw: Draw): (r: Result<Date>)
    ensures r.Err? <==> RandomDate(draw).year == 0
    ensures r.Ok? ==> r.value == RandomDate(draw)
  {
    var d := RandomDate(draw);
    if DateAccepts(d.year, d.month, d.day) then Ok(d) else Err(DateRejected)
  }

  /** The quiz's reference date `date(year, 4, 4)` exists whenever the
      drawn date itself does, so building it never fails. */
  lemma DoomsdayDateAccepted(draw: Draw)
    ensures CreateDate(draw).Ok? ==> DateAccepts(RandomDate(draw).year, 4, 4)
  {
  }

  /** The script's leap rule and the Gregorian one differ: 1900 has a
      February 29 under `year % 4 == 0` but not in `datetime.date`. */
  lemma LeapRulesDiffer()
    ensures MonthLength(1900, 2) == 29 && !DateAccepts(1900, 2, 29)
  {
  }

  /** So in a year such as 1900 the script's bound lets February 28, the
      real last day of that month, be drawn. */
  lemma LastDayOf1900February()
    ensures RandomDate(Draw(1900, 1, 27)) == Date(1900, 2, 28)
    ensures DateAccepts(1900, 2, 28) && !DateAccepts(1900, 2, 29)
  {
  }

  /** Showing the date never fails: every drawn month has a name, and the
      doomsday index (weekday + 1) % 7 always has a day name. */
  lemma LookupsNeverFail(draw: Draw, weekday: int)
    ensures RandomDate(draw).month in MonthsNumToName
    ensures (weekday + 1) % 7 in DaysNumToName
  {
  }

  // ---------------------------------------------------------------- answers

  datatype Reply = Stop | NotUnderstood | Incorrect | Correct

  predicate SameIgnoringCase(s: string, w: string) {
    |s| == |w| && forall i :: 0 <= i < |s| ==> Lower(s[i]) == Lower(w[i])
  }

  /** The decision `get_answer` takes on one input line, given the weekday
      of the date asked about.  Python's `%` and Dafny's agree for the
      positive modulus 7. */
  function Classify(raw: string, weekday: int): (r: Reply)
    ensures r == Incorrect || r == Correct <==> Capitalize(raw) in DaysNameToNum
  {
    var answer := Capitalize(raw);
    if answer == "Stop" || answer == "Exit" then Stop
    else if answer !in DaysNameToNum then NotUnderstood
    else if DaysNameToNum[answer] == (weekday + 1) % 7 then Correct
    else Incorrect
  }

  /** A line stops the game exactly when it is "stop" or "exit" in any
      mix of letter case. */
  lemma StopIff(raw: string, weekday: int)
    ensures Classify(raw, weekday) == Stop <==>
              SameIgnoringCase(raw, "stop") || SameIgnoringCase(raw, "exit")
  {
    assert Capitalize("stop") == "Stop";
    assert Capitalize("exit") == "Exit";
    CapitalizeSame(raw, "stop");
    CapitalizeSame(raw, "exit");
  }

  /** A line is a right answer exactly when, once capitalized, it is the
      name the table gives to (weekday + 1) % 7; so for every date exactly
      one name is right. */
  lemma CorrectIff(raw: string, weekday: int)
    ensures Classify(raw, weekday) == Correct <==>
              Capitalize(raw) == DaysNumToName[(weekday + 1) % 7]
  {
    DayTablesInverse();
    var answer := Capitalize(raw);
    if answer == DaysNumToName[(weekday + 1) % 7] {
      assert answer != "Stop" && answer != "Exit";
    }
  }

  // ---------------------------------------------------------------- score

  datatype Score = Score(wins: int, losses: int)

  /** What `update_points` writes: f"{wins},{losses}". */
  function FormatScore(s: Score): string {
    IntToString(s.wins) + "," + IntToString(s.losses)
  }

  /** What `look_points` reads: split at every comma, exactly two parts,
      each converted by `int`. */
  function ParseScore(text: string): Result<Score> {
    var parts := Split(text, ',');
    if |parts| != 2 then Err(ScoreFileMalformed)
    else match (ParseInt(parts[0]), ParseInt(parts[1]))
      case (Some(w), Some(l)) => Ok(Score(w, l))
      case _ => Err(ScoreFileMalformed)
  }

  /** A record reads as a score exactly when it has one comma and both
      sides of it are integers for `int`. */
  lemma ParseScoreMeans(text: string)
    ensures ParseScore(text).Ok? <==>
              ',' in text && ',' !in text[IndexOf(text, ',') + 1..] &&
              ParseInt(text[..IndexOf(text, ',')]).Some? &&
              ParseInt(text[IndexOf(text, ',') + 1..]).Some?
    ensures ParseScore(text).Ok? ==>
              ParseScore(text).value == Score(ParseInt(text[..IndexOf(text, ',')]).value,
                                              ParseInt(text[IndexOf(text, ',') + 1..]).value)
  {
    if ',' in text {
      var k := IndexOf(text, ',');
      var rest := text[k + 1..];
      assert Split(text, ',') == [text[..k]] + Split(rest, ',');
      if ',' in rest {
        var j := IndexOf(rest, ',');
        assert |Split(rest, ',')| == 1 + |Split(rest[j + 1..], ',')|;
      }
    }
  }

  /** In what the script writes, the first comma sits between the texts
      of the two counters. */
  lemma FormatScoreComma(s: Score)
    ensures ',' in FormatScore(s)
    ensures FormatScore(s)[..IndexOf(FormatScore(s), ',')] == IntToString(s.wins)
    ensures FormatScore(s)[IndexOf(FormatScore(s), ',') + 1..] == IntToString(s.losses)
  {
    var w := IntToString(s.wins);
    NoCommaInInt(s.wins);
    assert FormatScore(s)[|w|] == ',';
    assert FormatScore(s)[..|w|] == w;
    var k := IndexOf(FormatScore(s), ',');
    assert FormatScore(s)[k + 1..] == IntToString(s.losses);
  }

  lemma NoCommaInInt(i: int)
    ensures ',' !in IntToString(i)
  {
  }

  /** Reading back a record the script wrote gives the same two integers. */
  lemma ScoreRoundTrip(s: Score)
    ensures ParseScore(FormatScore(s)) == Ok(s)
  {
    NoCommaInInt(s.wins);
    NoCommaInInt(s.losses);
    SplitTwo(IntToString(s.wins), IntToString(s.losses), ',');
    ParseIntRoundTrip(s.wins);
    ParseIntRoundTrip(s.losses);
  }

  /** The counter change of `update_points`. */
  function Tally(s: Score, isWin: bool): (r: Score)
    ensures isWin ==> r.wins == s.wins + 1 && r.losses == s.losses
    ensures !isWin ==> r.wins == s.wins && r.losses == s.losses + 1
  {
    if isWin then s.(wins := s.wins + 1) else s.(losses := s.losses + 1)
  }

  /** The file "score.txt": its whole text. */
  class ScoreFile {
    var text: string

    constructor (text: string)
      ensures this.text == text
    {
      this.text := text;
    }

    /** `look_points`. */
    method LookPoints() returns (r: Result<Score>)
      ensures r == ParseScore(text)
      ensures forall s :: text == FormatScore(s) ==> r == Ok(s)
    {
      r := ParseScore(text);
      forall s | text == FormatScore(s) ensures r == Ok(s) {
        ScoreRoundTrip(s);
      }
    }

    /** `update_points`: read, count one win or one loss, write back.  On a
        malformed file the exception leaves the file as it was.  Returns
        the record written (the script returns nothing). */
    method UpdatePoints(isWin: bool) returns (r: Result<Score>)
      modifies this
      ensures ParseScore(old(text)).Err? ==> r == ParseScore(old(text)) && text == old(text)
      ensures ParseScore(old(text)).Ok? ==>
                r == Ok(Tally(ParseScore(old(text)).value, isWin)) &&
                text == FormatScore(r.value) && ParseScore(text) == r
    {
      var current := LookPoints();
      match current
      case Err(f) =>
        r := Err(f);
      case Ok(s) =>
        var updated := Tally(s, isWin);
        text := FormatScore(updated);
        ScoreRoundTrip(updated);
        r := Ok(updated);
    }
  }

  // ---------------------------------------------------------------- the game

  /** How a game ends: a stop word with the final record, or an exception. */
  datatype Outcome = Stopped(score: Score) | Crashed(failure: Failure)

  /** The run of `get_answer` on the remaining input lines: the outcome
      and the final text of the score file.  `draws(next)` is the draw the
      next new date will use. */
  function Game(text: string, date: Date, answers: seq<string>, weekday: Date -> int,
                draws: nat -> Draw, next: nat): (r: (Outcome, string))
    ensures r.0.Stopped? ==> ParseScore(r.1) == Ok(r.0.score)
    decreases |answers|
  {
    if answers == [] then (Crashed(EndOfInput), text)
    else
      match Classify(answers[0], weekday(date))
      case Stop =>
        (match ParseScore(text)
         case Ok(s) => (Stopped(s), text)
         case Err(f) => (Crashed(f), text))
      case NotUnderstood =>
        Game(text, date, answers[1..], weekday, draws, next)
      case Incorrect =>
        (match ParseScore(text)
         case Err(f) => (Crashed(f), text)
         case Ok(s) => Game(FormatScore(Tally(s, false)), date, answers[1..], weekday, draws, next))
      case Correct =>
        (match ParseScore(text)
         case Err(f) => (Crashed(f), text)
         case Ok(s) =>
           var written := FormatScore(Tally(s, true));
           match ParseScore(written)
           case Err(f) => (Crashed(f), written)
           case Ok(_) =>
             match CreateDate(draws(next))
             case Err(f) => (Crashed(f), written)
             case Ok(d) => Game(written, d, answers[1..], weekday, draws, next + 1))
  }

  /** `get_answer`: ask about `date`, read one line, act on it and call
      itself again, as the script does. */
  method GetAnswer(file: ScoreFile, date: Date, answers: seq<string>, weekday: Date -> int,
                   draws: nat -> Draw, next: nat) returns (outcome: Outcome)
    modifies file
    ensures (outcome, file.text) == Game(old(file.text), date, answers, weekday, draws, next)
    decreases |answers|
  {
    if answers == [] {
      return Crashed(EndOfInput);
    }
    match Classify(answers[0], weekday(date))
    case Stop =>
      var points := file.LookPoints();
      outcome := if points.Ok? then Stopped(points.value) else Crashed(points.failure);
    case NotUnderstood =>
      outcome := GetAnswer(file, date, answers[1..], weekday, draws, next);
    case Incorrect =>
      var written := file.UpdatePoints(false);
      if written.Err? {
        return Crashed(written.failure);
      }
      outcome := GetAnswer(file, date, answers[1..], weekday, draws, next);
    case Correct =>
      var written := file.UpdatePoints(true);
      if written.Err? {
        return Crashed(written.failure);
      }
      // The script reads the file again to show the record; after the
      // write that read cannot fail.
      var points := file.LookPoints();
      assert points.Ok?;
      var created := CreateDate(draws(next));
      if created.Err? {
        return Crashed(created.failure);
      }
      outcome := GetAnswer(file, created.value, answers[1..], weekday, draws, next + 1);
  }

  /** The script's entry point: draw the first date, then play. */
  method PlayQuiz(file: ScoreFile, answers: seq<string>, weekday: Date -> int,
                  draws: nat -> Draw) returns (outcome: Outcome)
    modifies file
    ensures CreateDate(draws(0)).Err? ==>
              outcome == Crashed(DateRejected) && file.text == old(file.text)
    ensures CreateDate(draws(0)).Ok? ==>
              (outcome, file.text) ==
              Game(old(file.text), CreateDate(draws(0)).value, answers, weekday, draws, 1)
  {
    var created := CreateDate(draws(0));
    if created.Err? {
      return Crashed(created.failure);
    }
    outcome := GetAnswer(file, created.value, answers, weekday, draws, 1);
  }

  /** A stop word ends the game with the record unchanged. */
  lemma GameStopKeepsScore(text: string, date: Date, answers: seq<string>, weekday: Date -> int,
                           draws: nat -> Draw, next: nat)
    requires answers != [] && Classify(answers[0], weekday(date)) == Stop
    requires ParseScore(text).Ok?
    ensures Game(text, date, answers, weekday, draws, next) == (Stopped(ParseScore(text).value), text)
  {
  }

  /** An unknown name changes nothing and asks about the same date again. */
  lemma GameUnknownReasks(text: string, date: Date, answers: seq<string>, weekday: Date -> int,
                          draws: nat -> Draw, next: nat)
    requires answers != [] && Classify(answers[0], weekday(date)) == NotUnderstood
    ensures Game(text, date, answers, weekday, draws, next) ==
            Game(text, date, answers[1..], weekday, draws, next)
  {
  }

  /** A wrong day adds one loss and asks about the same date again. */
  lemma GameWrongReasks(text: string, date: Date, answers: seq<string>, weekday: Date -> int,
                        draws: nat -> Draw, next: nat)
    requires answers != [] && Classify(answers[0], weekday(date)) == Incorrect
    requires ParseScore(text).Ok?
    ensures var s := ParseScore(text).value;
            Game(text, date, answers, weekday, draws, next) ==
            Game(FormatScore(Score(s.wins, s.losses + 1)), date, answers[1..], weekday, draws, next)
  {
  }

  /** A right day adds one win and moves on to a newly drawn date. */
  lemma GameRightMovesOn(text: string, date: Date, answers: seq<string>, weekday: Date -> int,
                         draws: nat -> Draw, next: nat)
    requires answers != [] && Classify(answers[0], weekday(date)) == Correct
    requires ParseScore(text).Ok? && CreateDate(draws(next)).Ok?
    ensures var s := ParseScore(text).value;
            Game(text, date, answers, weekday, draws, next) ==
            Game(FormatScore(Score(s.wins + 1, s.losses)), RandomDate(draws(next)),
                 answers[1..], weekday, draws, next + 1)
  {
    var s := ParseScore(text).value;
    var won := Tally(s, true);
    assert won == Score(s.wins + 1, s.losses);
    ScoreRoundTrip(won);
    assert CreateDate(draws(next)) == Ok(RandomDate(draws(next)));
  }

  /** Over a whole game on a well-formed file the record stays well formed,
      neither counter goes down, and together they grow by at most one per
      input line. */
  lemma {:induction false} GameScoreMonotone(text: string, date: Date, answers: seq<string>,
                                             weekday: Date -> int, draws: nat -> Draw, next: nat)
    requires ParseScore(text).Ok?
    ensures var s0 := ParseScore(text).value;
            var end := ParseScore(Game(text, date, answers, weekday, draws, next).1);
            end.Ok? && s0.wins <= end.value.wins && s0.losses <= end.value.losses &&
            end.value.wins + end.value.losses <= s0.wins + s0.losses + |answers|
    decreases |answers|
  {
    if answers != [] {
      var s0 := ParseScore(text).value;
      var rest := answers[1..];
      match Classify(answers[0], weekday(date))
      case Stop =>
      case NotUnderstood =>
        GameScoreMonotone(text, date, rest, weekday, draws, next);
      case Incorrect =>
        var written := FormatScore(Tally(s0, false));
        ScoreRoundTrip(Tally(s0, false));
        GameScoreMonotone(written, date, rest, weekday, draws, next);
      case Correct =>
        var written := FormatScore(Tally(s0, true));
        ScoreRoundTrip(Tally(s0, true));
        match CreateDate(draws(next))
        case Err(_) =>
        case Ok(d) =>
          GameScoreMonotone(written, d, rest, weekday, draws, next + 1);
    }
  }
}
