/** The pure helpers of idlez/bot.py: the text for a duration (`human_secs`),
    the words for an experience loss (`exp_loss` inside `on_game_event`) and
    the idle state of a player from their presence (`get_player_idle_state`).
    The Discord client around them is not part of this model. */
module Bot {
  import Decimal

  /** `pluralize`: the count, a space, the word, and an `s` unless the count is 1. */
  function Pluralize(n: int, word: string): (r: string)
    ensures r == Decimal.IntToString(n) + " " + word + (if n == 1 then "" else "s")
  {
    if n == 1 then "1 " + word else Decimal.IntToString(n) + " " + word + "s"
  }

  /** A number of seconds as days, hours, minutes and seconds. */
  datatype Duration = Duration(days: int, hours: int, mins: int, secs: int)

  predicate IsSplitOf(d: Duration, secs: int) {
    && 0 <= d.hours < 24 && 0 <= d.mins < 60 && 0 <= d.secs < 60
    && d.days * 86400 + d.hours * 3600 + d.mins * 60 + d.secs == secs
  }

  /** The decomposition `human_secs` computes: whole days (rounded down, as
      Python's `//` does), then hours below a day, minutes below an hour and
      seconds below a minute. */
  function Split(secs: int): (d: Duration)
    ensures IsSplitOf(d, secs)
    ensures secs >= 0 ==> d.days >= 0
    ensures secs < 0 ==> d.days < 0
  {
    var inDay := secs % 86400;
    var inHour := inDay % 3600;
    Duration(secs / 86400, inDay / 3600, inHour / 60, inHour % 60)
  }

  /** Division by a day, an hour or a minute, given a quotient and a
      remainder in range. */
  lemma DivDay(q: int, r: int, x: int)
    requires 0 <= r < 86400 && x == q * 86400 + r
    ensures x / 86400 == q && x % 86400 == r
  {
  }

  lemma DivHour(q: int, r: int, x: int)
    requires 0 <= r < 3600 && x == q * 3600 + r
    ensures x / 3600 == q && x % 3600 == r
  {
  }

  lemma DivMinute(q: int, r: int, x: int)
    requires 0 <= r < 60 && x == q * 60 + r
    ensures x / 60 == q && x % 60 == r
  {
  }

  /** There is only one such decomposition. */
  lemma SplitUnique(d: Duration, secs: int)
    requires IsSplitOf(d, secs)
    ensures d == Split(secs)
  {
    var inMinute := d.secs;
    var inHour := d.mins * 60 + inMinute;
    var inDay := d.hours * 3600 + inHour;
    DivDay(d.days, inDay, secs);
    DivHour(d.hours, inHour, inDay);
    DivHour(d.days * 24 + d.hours, inHour, secs);
    DivMinute(d.mins, inMinute, inHour);
    DivMinute(d.days * 1440 + d.hours * 60 + d.mins, inMinute, secs);
  }

  /** The nonzero units of a duration, largest first; negative units are left
      out like zero ones. */
  function Parts(d: Duration): (r: seq<string>)
    ensures |r| <= 4
    ensures r == [] <==> d.days <= 0 && d.hours <= 0 && d.mins <= 0 && d.secs <= 0
    ensures d.days > 0 ==> r[0] == Pluralize(d.days, "day")
    ensures d.secs > 0 ==> r[|r| - 1] == Pluralize(d.secs, "second")
  {
    (if d.days > 0 then [Pluralize(d.days, "day")] else [])
    + (if d.hours > 0 then [Pluralize(d.hours, "hour")] else [])
    + (if d.mins > 0 then [Pluralize(d.mins, "minute")] else [])
    + (if d.secs > 0 then [Pluralize(d.secs, "second")] else [])
  }

  /** `", ".join(parts)`. */
  function Join(parts: seq<string>, sep: string): (r: string)
    ensures |parts| == 0 ==> r == ""
    ensures |parts| == 1 ==> r == parts[0]
    ensures |parts| > 0 ==> |r| >= |parts[0]| && r[..|parts[0]|] == parts[0]
  {
    if |parts| == 0 then ""
    else if |parts| == 1 then parts[0]
    else parts[0] + sep + Join(parts[1..], sep)
  }

  /** Joining one more part appends the separator and that part: the
      separators go between the parts only. */
  lemma {:induction false} JoinSnoc(parts: seq<string>, p: string, sep: string)
    requires |parts| > 0
    ensures Join(parts + [p], sep) == Join(parts, sep) + sep + p
    decreases |parts|
  {
    if |parts| > 1 {
      assert (parts + [p])[1..] == parts[1..] + [p];
      JoinSnoc(parts[1..], p, sep);
    }
  }

  /** What `human_secs` returns for `secs`: empty exactly when no unit of the
      split is positive, and otherwise starting with the text of the largest
      positive unit. */
  function HumanText(secs: int): (r: string)
    ensures r == "" <==> Parts(Split(secs)) == []
    ensures Parts(Split(secs)) != [] ==>
      |r| >= |Parts(Split(secs))[0]| && r[..|Parts(Split(secs))[0]|] == Parts(Split(secs))[0]
  {
    var parts := Parts(Split(secs));
    assert parts != [] ==> |parts[0]| > 0 by {
      if parts != [] {
        assert parts[0] in parts;
      }
    }
    Join(parts, ", ")
  }

  /** `human_secs`: split the seconds into units one after the other, collect
      the text of each nonzero unit and join them with commas. */
  method HumanSecs(secs: int) returns (text: string)
    ensures text == HumanText(secs)
  {
    var rest := secs;
    var days := rest / 86400;
    rest := rest - days * 86400;
    var hours := rest / 3600;
    rest := rest - hours * 3600;
    var mins := rest / 60;
    rest := rest - mins * 60;

    ghost var d := Duration(days, hours, mins, rest);
    var parts: seq<string> := [];
    if days > 0 {
      parts := parts + [Pluralize(days, "day")];
    }
    ghost var upToDays := parts;
    assert upToDays == (if d.days > 0 then [Pluralize(d.days, "day")] else []);
    if hours > 0 {
      parts := parts + [Pluralize(hours, "hour")];
    }
    ghost var upToHours := parts;
    assert upToHours == upToDays + (if d.hours > 0 then [Pluralize(d.hours, "hour")] else []);
    if mins > 0 {
      parts := parts + [Pluralize(mins, "minute")];
    }
    ghost var upToMins := parts;
    assert upToMins == upToHours + (if d.mins > 0 then [Pluralize(d.mins, "minute")] else []);
    if rest > 0 {
      parts := parts + [Pluralize(rest, "second")];
    }
    assert parts == upToMins + (if d.secs > 0 then [Pluralize(d.secs, "second")] else []);
    assert parts == Parts(d);
    SplitUnique(d, secs);
    text := Join(parts, ", ");
  }

  /** For a duration that is not negative the text is empty exactly when the
      duration is zero. */
  lemma HumanTextEmpty(secs: int)
    requires secs >= 0
    ensures HumanText(secs) == "" <==> secs == 0
  {
    PartsEmpty(Split(secs), secs);
  }

  /** A decomposition of a non-negative duration has no positive unit exactly
      when the duration is zero. */
  lemma PartsEmpty(d: Duration, secs: int)
    requires IsSplitOf(d, secs) && secs >= 0 && d.days >= 0
    ensures Parts(d) == [] <==> secs == 0
  {
  }

  /** The text for `secs` from its units. */
  lemma HumanTextOf(secs: int, d: Duration)
    requires IsSplitOf(d, secs)
    ensures HumanText(secs) == Join(Parts(d), ", ")
  {
    SplitUnique(d, secs);
  }

  /** The text of a duration with one unit only. */
  lemma OneUnitParts(n: int)
    requires n > 0
    ensures Parts(Duration(0, 0, 0, n)) == [Pluralize(n, "second")]
    ensures Parts(Duration(0, 0, n, 0)) == [Pluralize(n, "minute")]
    ensures Parts(Duration(0, n, 0, 0)) == [Pluralize(n, "hour")]
  {
    var e: seq<string> := [];
    assert Parts(Duration(0, 0, 0, n)) == e + e + e + [Pluralize(n, "second")];
    assert Parts(Duration(0, 0, n, 0)) == e + e + [Pluralize(n, "minute")] + e;
    assert Parts(Duration(0, n, 0, 0)) == e + [Pluralize(n, "hour")] + e + e;
  }

  /** Two parts are joined with a comma and a space. */
  lemma JoinTwo(a: string, b: string)
    ensures Join([a, b], ", ") == a + ", " + b
  {
    assert [a, b][1..] == [b];
  }

  /** Three parts are joined with commas. */
  lemma JoinThree(a: string, b: string, c: string)
    ensures Join([a, b, c], ", ") == a + ", " + b + ", " + c
  {
    assert [a, b, c][1..] == [b, c];
    JoinTwo(b, c);
  }

  lemma TwoDigitNumerals()
    ensures Decimal.IntToString(23) == "23"
    ensures Decimal.IntToString(59) == "59"
  {
  }

  /** The unit texts the examples below use. */
  lemma SingularUnits()
    ensures Pluralize(1, "second") == "1 second"
    ensures Pluralize(1, "minute") == "1 minute"
    ensures Pluralize(1, "hour") == "1 hour"
    ensures Pluralize(1, "day") == "1 day"
  {
  }

  lemma PluralUnits()
    ensures Pluralize(2, "second") == "2 seconds"
    ensures Pluralize(2, "minute") == "2 minutes"
    ensures Pluralize(2, "hour") == "2 hours"
  {
    assert Decimal.IntToString(2) == "2";
  }

  lemma AlmostADayUnits()
    ensures Pluralize(23, "hour") == "23 hours"
    ensures Pluralize(59, "minute") == "59 minutes"
    ensures Pluralize(59, "second") == "59 seconds"
  {
    TwoDigitNumerals();
  }

  /** tests/test_bot.py: one second. */
  lemma HumanTextSecond()
    ensures HumanText(1) == "1 second"
  {
    HumanTextOf(1, Duration(0, 0, 0, 1));
    OneUnitParts(1);
    SingularUnits();
  }

  /** tests/test_bot.py: two seconds. */
  lemma HumanTextSeconds()
    ensures HumanText(2) == "2 seconds"
  {
    HumanTextOf(2, Duration(0, 0, 0, 2));
    OneUnitParts(2);
    PluralUnits();
  }

  /** tests/test_bot.py: one minute. */
  lemma HumanTextMinute()
    ensures HumanText(60) == "1 minute"
  {
    HumanTextOf(60, Duration(0, 0, 1, 0));
    OneUnitParts(1);
    SingularUnits();
  }

  /** tests/test_bot.py: two hours. */
  lemma HumanTextHours()
    ensures HumanText(2 * 60 * 60) == "2 hours"
  {
    HumanTextOf(7200, Duration(0, 2, 0, 0));
    OneUnitParts(2);
    PluralUnits();
  }

  /** tests/test_bot.py: a minute and a second. */
  lemma HumanTextMinuteSecond()
    ensures HumanText(61) == "1 minute" + ", " + "1 second"
  {
    var e: seq<string> := [];
    HumanTextOf(61, Duration(0, 0, 1, 1));
    assert Parts(Duration(0, 0, 1, 1)) == e + e + [Pluralize(1, "minute")] + [Pluralize(1, "second")];
    SingularUnits();
    JoinTwo("1 minute", "1 second");
  }

  /** tests/test_bot.py: minutes and a second. */
  lemma HumanTextMinutesSecond()
    ensures HumanText(121) == "2 minutes" + ", " + "1 second"
  {
    var e: seq<string> := [];
    HumanTextOf(121, Duration(0, 0, 2, 1));
    assert Parts(Duration(0, 0, 2, 1)) == e + e + [Pluralize(2, "minute")] + [Pluralize(1, "second")];
    SingularUnits();
    PluralUnits();
    JoinTwo("2 minutes", "1 second");
  }

  /** tests/test_bot.py: hours and seconds; the zero minutes between them are
      left out. */
  lemma HumanTextHoursSeconds()
    ensures HumanText(2 * 60 * 60 + 2) == "2 hours" + ", " + "2 seconds"
  {
    var e: seq<string> := [];
    HumanTextOf(7202, Duration(0, 2, 0, 2));
    assert Parts(Duration(0, 2, 0, 2)) == e + [Pluralize(2, "hour")] + e + [Pluralize(2, "second")];
    PluralUnits();
    JoinTwo("2 hours", "2 seconds");
  }

  /** tests/test_bot.py: a day and an hour. */
  lemma HumanTextDayHour()
    ensures HumanText(25 * 60 * 60) == "1 day" + ", " + "1 hour"
  {
    var e: seq<string> := [];
    HumanTextOf(90000, Duration(1, 1, 0, 0));
    assert Parts(Duration(1, 1, 0, 0)) == [Pluralize(1, "day")] + [Pluralize(1, "hour")] + e + e;
    SingularUnits();
    JoinTwo("1 day", "1 hour");
  }

  /** A duration without days but with hours, minutes and seconds. */
  lemma ThreeUnitParts(days: int, hours: int, mins: int, secs: int)
    requires days <= 0 && hours > 0 && mins > 0 && secs > 0
    ensures Join(Parts(Duration(days, hours, mins, secs)), ", ")
         == Pluralize(hours, "hour") + ", " + Pluralize(mins, "minute") + ", " + Pluralize(secs, "second")
  {
    var e: seq<string> := [];
    var parts := [Pluralize(hours, "hour"), Pluralize(mins, "minute"), Pluralize(secs, "second")];
    assert Parts(Duration(days, hours, mins, secs)) == e + [parts[0]] + [parts[1]] + [parts[2]];
    JoinThree(parts[0], parts[1], parts[2]);
  }

  /** A negative duration counts whole days down, so one second short of zero
      reads as almost a full day. */
  lemma HumanTextMinusOne()
    ensures HumanText(-1) == "23 hours" + ", " + "59 minutes" + ", " + "59 seconds"
  {
    HumanTextOf(-1, Duration(-1, 23, 59, 59));
    ThreeUnitParts(-1, 23, 59, 59);
    AlmostADayUnits();
  }

  /** Minus one day reads as nothing at all. */
  lemma HumanTextMinusOneDay()
    ensures HumanText(-86400) == ""
  {
    var e: seq<string> := [];
    HumanTextOf(-86400, Duration(-1, 0, 0, 0));
    assert Parts(Duration(-1, 0, 0, 0)) == e + e + e + e;
  }

  /** The loss carried by an event, as `exp_loss` sees it: a fixed amount, a
      fraction of the player's progress, or anything else (such as the plain
      integer the game engine puts in its events). */
  datatype ExpLoss = ExpLossFix(lossAmount: int) | ExpLossProgress(lossPercent: real) | OtherLoss

  /** The words for a fraction of progress, from least to most. */
  const ProgressWords: seq<string> := ["almost no", "some", "a lot of", "most", "all"]

  /** The thresholds a fraction has to exceed to move up one word. */
  const ProgressThresholds: seq<real> := [0.2, 0.5, 0.8, 0.99]

  /** How many thresholds `percent` exceeds. */
  function Exceeded(thresholds: seq<real>, percent: real): (n: nat)
    ensures n <= |thresholds|
  {
    if |thresholds| == 0 then 0
    else (if percent > thresholds[0] then 1 else 0) + Exceeded(thresholds[1..], percent)
  }

  /** `exp_loss`: a fixed loss as its decimal text, a fraction of progress as
      a word, and anything else as "an unkown amount of" (spelled as in the
      program). */
  function ExpLossText(loss: ExpLoss): (r: string)
    ensures loss.ExpLossFix? ==> r == Decimal.IntToString(loss.lossAmount)
    ensures loss.ExpLossProgress? ==> r == ProgressWords[Exceeded(ProgressThresholds, loss.lossPercent)]
    ensures loss.OtherLoss? ==> r == "an unkown amount of"
  {
    match loss
    case ExpLossFix(amount) => Decimal.IntToString(amount)
    case ExpLossProgress(percent) =>
      ProgressBucket(percent);
      if percent > 0.99 then "all"
      else if percent > 0.8 then "most"
      else if percent > 0.5 then "a lot of"
      else if percent > 0.2 then "some"
      else "almost no"
    case OtherLoss => "an unkown amount of"
  }

  /** The number of thresholds exceeded, threshold by threshold. */
  lemma ProgressBucket(percent: real)
    ensures Exceeded(ProgressThresholds, percent)
         == if percent > 0.99 then 4
            else if percent > 0.8 then 3
            else if percent > 0.5 then 2
            else if percent > 0.2 then 1
            else 0
  {
    var t := ProgressThresholds;
    assert Exceeded(t, percent) == (if percent > 0.2 then 1 else 0) + Exceeded(t[1..], percent);
    assert t[1..] == [0.5, 0.8, 0.99];
    assert Exceeded([0.5, 0.8, 0.99], percent) == (if percent > 0.5 then 1 else 0) + Exceeded([0.8, 0.99], percent);
    assert [0.5, 0.8, 0.99][1..] == [0.8, 0.99];
    assert Exceeded([0.8, 0.99], percent) == (if percent > 0.8 then 1 else 0) + Exceeded([0.99], percent);
    assert [0.8, 0.99][1..] == [0.99];
    assert Exceeded([0.99], percent) == (if percent > 0.99 then 1 else 0) + Exceeded([], percent);
    assert [0.99][1..] == [];
  }

  /** A fixed loss can be read back from its text. */
  lemma ExpLossFixRoundTrip(amount: int)
    ensures Decimal.ParseInt(ExpLossText(ExpLossFix(amount))) == amount
  {
    Decimal.IntToStringRoundTrip(amount);
  }

  /** A larger fraction never gets a smaller word. */
  lemma {:induction false} ExceededMonotone(thresholds: seq<real>, p: real, q: real)
    requires p <= q
    ensures Exceeded(thresholds, p) <= Exceeded(thresholds, q)
  {
    if |thresholds| > 0 {
      ExceededMonotone(thresholds[1..], p, q);
    }
  }

  /** tests/test_event_announcement.py: a fixed loss of 300, and the
      fractions 0.1, 0.3, 0.55 and 0.999. */
  lemma ExpLossTextExamples()
    ensures ExpLossText(ExpLossFix(300)) == "300"
    ensures ExpLossText(ExpLossProgress(0.1)) == "almost no"
    ensures ExpLossText(ExpLossProgress(0.3)) == "some"
    ensures ExpLossText(ExpLossProgress(0.55)) == "a lot of"
    ensures ExpLossText(ExpLossProgress(0.999)) == "all"
  {
    assert Decimal.NatToString(3) == "3";
    assert Decimal.NatToString(30) == "30";
  }

  /** The idle states of the game. */
  datatype IdleState = Online | Offline | Away

  /** A member's presence status as the chat service reports it. */
  datatype Status = StatusOnline | StatusOffline | StatusIdle | StatusDoNotDisturb | StatusInvisible

  /** The statuses the client can see: for each guild it knows, the status of
      each member it knows. */
  type Presences = map<int, map<int, Status>>

  /** `get_player_idle_state`: offline when the guild or the member is unknown
      or the member is offline; online when online or idle; away otherwise. */
  function PlayerIdleState(presences: Presences, playerId: int, guildId: int): (r: IdleState)
    ensures r == Offline <==>
      guildId !in presences || playerId !in presences[guildId] || presences[guildId][playerId] == StatusOffline
    ensures r == Online <==>
      guildId in presences && playerId in presences[guildId]
      && presences[guildId][playerId] in {StatusOnline, StatusIdle}
    ensures r == Away <==>
      guildId in presences && playerId in presences[guildId]
      && presences[guildId][playerId] in {StatusDoNotDisturb, StatusInvisible}
  {
    if guildId !in presences then Offline
    else if playerId !in presences[guildId] then Offline
    else
      match presences[guildId][playerId]
      case StatusOffline => Offline
      case StatusOnline | StatusIdle => Online
      case _ => Away
  }
}
