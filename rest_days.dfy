/** `calculate_and_insert_rest_days`: rows arrive newest first and are
    walked from the last to the first, i.e. in chronological order; for the
    home and then the away team of each row the days since that team's
    previous game are appended (50 for a team's first game), and the team's
    last-seen date becomes the row's date. The rows are written in the order
    they are walked. */
module RestDays {
  import opened Options
  import opened Text
  import opened Calendar

  /** A row as the record loop sees it: `match_date`, `team1` and `team2`
      cut from the line, and the line itself. */
  datatype Game = Game(date: string, home: string, away: string, line: string)

  /** The three `find_first_of` / `substr` / `erase` cuts of a row. */
  function CutGame(line: string): Game {
    var afterDate := AfterFirstField(line);
    Game(FirstField(line), FirstField(afterDate), FirstField(AfterFirstField(afterDate)), line)
  }

  /** The cuts give back the first three fields of a row whose fields have
      no commas in them. */
  lemma CutGameFields(date: string, home: string, away: string, rest: string)
    requires ',' !in date && ',' !in home && ',' !in away
    ensures var g := CutGame(date + "," + home + "," + away + "," + rest);
      g.date == date && g.home == home && g.away == away
  {
    var awayOn := away + "," + rest;
    var homeOn := home + "," + awayOn;
    assert date + "," + home + "," + away + "," + rest == date + "," + homeOn;
    CutAfterPrefix(date, homeOn);
    CutAfterPrefix(home, awayOn);
    CutAfterPrefix(away, rest);
  }

  /** The rows of a file, cut. */
  function Games(lines: seq<string>): (gs: seq<Game>)
    ensures |gs| == |lines|
    ensures forall k :: 0 <= k < |lines| ==> gs[k].line == lines[k]
  {
    seq(|lines|, k requires 0 <= k < |lines| => CutGame(lines[k]))
  }

  predicate Plays(g: Game, team: string) {
    g.home == team || g.away == team
  }

  /** The value written for a team's first game. */
  const FirstAppearance: int := 50

  /** The date text gives a month the day-number table covers (the zero
      date of a text that does not parse included). */
  predicate InTable(date: string) {
    ParseOrZero(date).month <= 13
  }

  predicate AllInTable(gs: seq<Game>) {
    forall k :: 0 <= k < |gs| ==> InTable(gs[k].date)
  }

  predicate SeenInTable(seen: map<string, string>) {
    forall t :: t in seen ==> InTable(seen[t])
  }

  /** `team_dates.find(team)`: the team's last-seen date, if it has one. */
  function Lookup(seen: map<string, string>, team: string): Option<string> {
    if team in seen then Some(seen[team]) else None
  }

  /** What the loop finds for a row: the row, the home team's last-seen
      date, and the away team's after the home update. */
  datatype Found = Found(game: Game, home: Option<string>, away: Option<string>)

  /** One row: the home team is looked up and set to the row's date, then
      the away team is looked up and set. */
  function Step(seen: map<string, string>, g: Game): (Found, map<string, string>) {
    var seen1 := seen[g.home := g.date];
    (Found(g, Lookup(seen, g.home), Lookup(seen1, g.away)), seen1[g.away := g.date])
  }

  /** The walk over `gs` from the last row to the first: `gs[1..]` is
      walked before `gs[0]`. Gives what each row found, in walking order,
      and the final last-seen map. */
  function Walk(gs: seq<Game>): (r: (seq<Found>, map<string, string>))
    ensures |r.0| == |gs|
    decreases |gs|
  {
    if gs == [] then ([], map[])
    else
      var prev := Walk(gs[1..]);
      var next := Step(prev.1, gs[0]);
      (prev.0 + [next.0], next.1)
  }

  /** The two numbers appended to a row. */
  datatype RestPair = RestPair(home: int, away: int)

  predicate FoundInTable(f: Found) {
    InTable(f.game.date) && (f.home.Some? ==> InTable(f.home.value)) && (f.away.Some? ==> InTable(f.away.value))
  }

  /** The value for a team playing on `date`: 50 for its first game,
      otherwise `Date(date) - Date(previous)`. */
  function RestFor(previous: Option<string>, date: string): int
    requires InTable(date) && (previous.Some? ==> InTable(previous.value))
  {
    match previous
    case None => FirstAppearance
    case Some(p) => Difference(ParseOrZero(date), ParseOrZero(p))
  }

  function RestDaysOf(f: Found): RestPair
    requires FoundInTable(f)
  {
    RestPair(RestFor(f.home, f.game.date), RestFor(f.away, f.game.date))
  }

  /** An output row: the input row with `,home_rest,away_rest` appended. */
  function OutputRow(f: Found): string
    requires FoundInTable(f)
  {
    var rest := RestDaysOf(f);
    f.game.line + "," + IntText(rest.home) + "," + IntText(rest.away)
  }

  /** Every date the walk stores or finds is the date of one of the rows. */
  lemma {:induction false} WalkInTable(gs: seq<Game>)
    requires AllInTable(gs)
    ensures SeenInTable(Walk(gs).1)
    ensures forall p :: 0 <= p < |gs| ==> FoundInTable(Walk(gs).0[p])
    decreases |gs|
  {
    if gs != [] {
      assert AllInTable(gs[1..]);
      WalkInTable(gs[1..]);
      assert InTable(gs[0].date);
    }
  }

  /** The values appended, in walking order. */
  function Rests(gs: seq<Game>): (r: seq<RestPair>)
    requires AllInTable(gs)
    ensures |r| == |gs|
  {
    WalkInTable(gs);
    seq(|gs|, p requires 0 <= p < |gs| => RestDaysOf(Walk(gs).0[p]))
  }

  /** The rows written, in walking order. */
  function Output(gs: seq<Game>): (out: seq<string>)
    requires AllInTable(gs)
    ensures |out| == |gs|
  {
    WalkInTable(gs);
    seq(|gs|, p requires 0 <= p < |gs| => OutputRow(Walk(gs).0[p]))
  }

  /** One team's half of the record loop: a team not in the map gets 50
      and is inserted; otherwise its previous date is exchanged for the
      row's date and the value is `Date(current) - Date(previous)`. */
  method RestSince(teamDates: map<string, string>, team: string, matchDate: string)
    returns (rest: int, updated: map<string, string>)
    requires SeenInTable(teamDates) && InTable(matchDate)
    ensures rest == RestFor(Lookup(teamDates, team), matchDate)
    ensures updated == teamDates[team := matchDate]
  {
    if team !in teamDates {
      rest := FirstAppearance;
      updated := teamDates[team := matchDate];
    } else {
      var prevDate := teamDates[team];
      updated := teamDates[team := matchDate];
      var d1 := new Date();
      var d2 := new Date();
      d1.SetDate(prevDate);
      d2.SetDate(matchDate);
      rest := d2.Minus(d1);
    }
  }

  /** The body of the record loop for one line: cut the three fields, the
      home team first, then the away team against the map the home update
      left, then the output row. */
  method AnnotateRow(teamDates: map<string, string>, line: string, ghost g: Game)
    returns (row: string, updated: map<string, string>)
    requires g == CutGame(line)
    requires SeenInTable(teamDates) && InTable(g.date)
    ensures FoundInTable(Step(teamDates, g).0)
    ensures row == OutputRow(Step(teamDates, g).0)
    ensures updated == Step(teamDates, g).1
  {
    var temp := line;
    var matchDate := FirstField(temp);
    temp := AfterFirstField(temp);
    var team1 := FirstField(temp);
    temp := AfterFirstField(temp);
    var team2 := FirstField(temp);
    var homeRest, awayRest;
    homeRest, updated := RestSince(teamDates, team1, matchDate);
    awayRest, updated := RestSince(updated, team2, matchDate);
    row := line + "," + IntText(homeRest) + "," + IntText(awayRest);
  }

  /** A prefix of a sequence grows by the next element. */
  lemma PrefixExtend<T>(s: seq<T>, m: nat, x: T)
    requires m < |s| && s[m] == x
    ensures s[..m] + [x] == s[..m + 1]
  {
  }

  /** The row the walk takes as its `m`-th step is written as the `m`-th
      output row. */
  lemma OutputAt(gs: seq<Game>, m: int, row: string)
    requires AllInTable(gs) && 0 <= m < |gs|
    requires FoundInTable(Walk(gs).0[m]) && row == OutputRow(Walk(gs).0[m])
    ensures Output(gs)[m] == row
  {
  }

  /** Before row `i` is handled, the map holds only dates of older rows. */
  lemma LoopInTable(gs: seq<Game>, i: int)
    requires AllInTable(gs) && 0 <= i < |gs|
    ensures SeenInTable(Walk(gs[i + 1..]).1) && InTable(gs[i].date)
  {
    assert AllInTable(gs[i + 1..]);
    WalkInTable(gs[i + 1..]);
  }

  /** One turn of the record loop: the row it writes is the next row of
      the output, and the map it leaves is the map the walk leaves. */
  lemma LoopStep(gs: seq<Game>, i: int, out: seq<string>, before: map<string, string>,
                 row: string, after: map<string, string>)
    requires AllInTable(gs) && 0 <= i < |gs|
    requires before == Walk(gs[i + 1..]).1 && out == Output(gs)[..|gs| - 1 - i]
    requires FoundInTable(Step(before, gs[i]).0)
    requires row == OutputRow(Step(before, gs[i]).0) && after == Step(before, gs[i]).1
    ensures after == Walk(gs[i..]).1
    ensures out + [row] == Output(gs)[..|gs| - i]
  {
    assert Walk(gs).0[|gs| - 1 - i] == Step(before, gs[i]).0 by {
      RowStep(gs, i);
    }
    OutputAt(gs, |gs| - 1 - i, row);
    assert gs[i..][1..] == gs[i + 1..] && gs[i..][0] == gs[i];
    PrefixExtend(Output(gs), |gs| - 1 - i, row);
  }

  /** The record loop: the lines are walked from the last to the first and
      each is written, in that order, with its two values appended. */
  method CalculateAndInsertRestDays(lines: seq<string>) returns (out: seq<string>)
    requires AllInTable(Games(lines))
    ensures out == Output(Games(lines))
  {
    ghost var gs := Games(lines);
    var teamDates: map<string, string> := map[];
    out := [];
    var i := |lines|;
    while i > 0
      invariant 0 <= i <= |lines|
      invariant teamDates == Walk(gs[i..]).1
      invariant out == Output(gs)[..|lines| - i]
    {
      i := i - 1;
      var line := lines[i];
      LoopInTable(gs, i);
      var row;
      ghost var before := teamDates;
      row, teamDates := AnnotateRow(teamDates, line, gs[i]);
      LoopStep(gs, i, out, before, row, teamDates);
      out := out + [row];
    }
  }

  /** `gs[k]` is the newest row in which `team` plays. */
  predicate NewestGame(gs: seq<Game>, team: string, k: int) {
    0 <= k < |gs| && Plays(gs[k], team) && forall j :: 0 <= j < k ==> !Plays(gs[j], team)
  }

  /** One step records the row's date for both of its teams and leaves
      every other team's entry as it was. */
  lemma StepLastSeen(seen: map<string, string>, g: Game, team: string)
    ensures team in Step(seen, g).1 <==> team in seen || Plays(g, team)
    ensures team in Step(seen, g).1 ==>
      Step(seen, g).1[team] == if Plays(g, team) then g.date else seen[team]
  {
  }

  /** After the walk, a team has a last-seen date exactly when it played in
      some row, home or away, and that date is the date of its newest row. */
  lemma {:induction false} LastSeenDate(gs: seq<Game>, team: string)
    ensures team in Walk(gs).1 <==> exists k :: 0 <= k < |gs| && Plays(gs[k], team)
    ensures forall k :: NewestGame(gs, team, k) ==> Walk(gs).1[team] == gs[k].date
    decreases |gs|
  {
    if gs != [] {
      var tail := gs[1..];
      LastSeenDate(tail, team);
      var prev := Walk(tail);
      assert Walk(gs).1 == Step(prev.1, gs[0]).1;
      StepLastSeen(prev.1, gs[0], team);
      if !Plays(gs[0], team) {
        forall k | NewestGame(gs, team, k)
          ensures Walk(gs).1[team] == gs[k].date
        {
          assert NewestGame(tail, team, k - 1);
        }
        if exists k :: 0 <= k < |gs| && Plays(gs[k], team) {
          var k :| 0 <= k < |gs| && Plays(gs[k], team);
          assert Plays(tail[k - 1], team);
        }
        if exists k :: 0 <= k < |tail| && Plays(tail[k], team) {
          var k :| 0 <= k < |tail| && Plays(tail[k], team);
          assert Plays(gs[k + 1], team);
        }
      } else {
        forall k | NewestGame(gs, team, k)
          ensures k == 0
        {
        }
      }
    }
  }

  /** The walk of a suffix of the rows is the beginning of the walk of all
      of them. */
  lemma {:induction false} WalkOfSuffix(gs: seq<Game>, i: int)
    requires 0 <= i <= |gs|
    ensures Walk(gs[i..]).0 == Walk(gs).0[..|gs| - i]
    decreases i
  {
    if i > 0 {
      assert gs[1..][i - 1..] == gs[i..];
      WalkOfSuffix(gs[1..], i - 1);
    } else {
      assert gs[0..] == gs;
    }
  }

  /** Row `i` finds what one step from the map the older rows `gs[i + 1..]`
      left finds. */
  lemma RowStep(gs: seq<Game>, i: int)
    requires 0 <= i < |gs|
    ensures Walk(gs).0[|gs| - 1 - i] == Step(Walk(gs[i + 1..]).1, gs[i]).0
  {
    var suffix := gs[i..];
    assert suffix[1..] == gs[i + 1..] && suffix[0] == gs[i];
    WalkOfSuffix(gs, i);
    assert Walk(gs).0[|gs| - 1 - i] == Walk(suffix).0[|gs| - 1 - i];
  }

  /** The rows come out in reverse input order: the `p`-th row written is
      input row `|gs| - 1 - p` with its two values appended. */
  lemma OutputOrder(gs: seq<Game>, p: int)
    requires AllInTable(gs) && 0 <= p < |gs|
    ensures Output(gs)[p]
      == gs[|gs| - 1 - p].line + "," + IntText(Rests(gs)[p].home) + "," + IntText(Rests(gs)[p].away)
  {
    assert Walk(gs).0[p].game == gs[|gs| - 1 - p] by {
      RowStep(gs, |gs| - 1 - p);
    }
    WalkInTable(gs);
  }

  /** Row `j` is the game of `team` just before row `i` in time: the newest
      of the older rows in which it plays. */
  predicate PreviousGame(gs: seq<Game>, team: string, i: int, j: int) {
    0 <= i < j < |gs| && Plays(gs[j], team) && forall k :: i < k < j ==> !Plays(gs[k], team)
  }

  /** Before row `i`, a team is in the last-seen map exactly when it has an
      older row, and its entry is the date of its previous game. */
  lemma PreviousGameIsLastSeen(gs: seq<Game>, team: string, i: int)
    requires 0 <= i < |gs|
    ensures (forall j :: i < j < |gs| ==> !Plays(gs[j], team)) ==> team !in Walk(gs[i + 1..]).1
    ensures forall j :: PreviousGame(gs, team, i, j) ==>
      team in Walk(gs[i + 1..]).1 && Walk(gs[i + 1..]).1[team] == gs[j].date
  {
    var older := gs[i + 1..];
    LastSeenDate(older, team);
    if team in Walk(older).1 {
      var k :| 0 <= k < |older| && Plays(older[k], team);
      assert Plays(gs[i + 1 + k], team);
    }
    forall j | PreviousGame(gs, team, i, j)
      ensures team in Walk(older).1 && Walk(older).1[team] == gs[j].date
    {
      assert NewestGame(older, team, j - i - 1);
      assert Plays(older[j - i - 1], team);
    }
  }

  /** What row `i` finds for its home team: nothing when the team has no
      older row, otherwise the date of its previous game, whether it played
      that game at home or away. */
  lemma HomeFinds(gs: seq<Game>, i: int)
    requires 0 <= i < |gs|
    ensures var found := Walk(gs).0[|gs| - 1 - i].home;
      && ((forall j :: i < j < |gs| ==> !Plays(gs[j], gs[i].home)) ==> found == None)
      && (forall j :: PreviousGame(gs, gs[i].home, i, j) ==> found == Some(gs[j].date))
  {
    RowStep(gs, i);
    PreviousGameIsLastSeen(gs, gs[i].home, i);
  }

  /** What row `i` finds for its away team: the row's own date when the away
      team is also the home team; otherwise as for the home team. */
  lemma AwayFinds(gs: seq<Game>, i: int)
    requires 0 <= i < |gs|
    ensures var found := Walk(gs).0[|gs| - 1 - i].away;
      var away := gs[i].away;
      && (away == gs[i].home ==> found == Some(gs[i].date))
      && (away != gs[i].home && (forall j :: i < j < |gs| ==> !Plays(gs[j], away)) ==> found == None)
      && (away != gs[i].home ==> forall j :: PreviousGame(gs, away, i, j) ==> found == Some(gs[j].date))
  {
    RowStep(gs, i);
    PreviousGameIsLastSeen(gs, gs[i].away, i);
  }

  /** The two cases of the value for one team. */
  lemma RestForCases(previous: Option<string>, date: string)
    requires InTable(date) && (previous.Some? ==> InTable(previous.value))
    ensures previous.None? ==> RestFor(previous, date) == FirstAppearance
    ensures previous.Some? ==> RestFor(previous, date) == Difference(ParseOrZero(date), ParseOrZero(previous.value))
  {
  }

  /** Row `i`'s values are computed from what it finds. */
  lemma RestsAt(gs: seq<Game>, i: int)
    requires AllInTable(gs) && 0 <= i < |gs|
    ensures FoundInTable(Walk(gs).0[|gs| - 1 - i]) && Walk(gs).0[|gs| - 1 - i].game == gs[i]
    ensures Rests(gs)[|gs| - 1 - i] == RestDaysOf(Walk(gs).0[|gs| - 1 - i])
  {
    var k := |gs| - 1 - i;
    assert FoundInTable(Walk(gs).0[k]) by {
      WalkInTable(gs);
    }
    var rests := Rests(gs);
    assert rests[k] == RestDaysOf(Walk(gs).0[k]);
    assert Walk(gs).0[k].game == gs[i] by {
      RowStep(gs, i);
    }
  }

  /** The home value of row `i`: 50 when the home team has no older row,
      otherwise the days from the team's previous game to this one. */
  lemma HomeRestDays(gs: seq<Game>, i: int)
    requires AllInTable(gs) && 0 <= i < |gs|
    ensures var rest := Rests(gs)[|gs| - 1 - i].home;
      && ((forall j :: i < j < |gs| ==> !Plays(gs[j], gs[i].home)) ==> rest == FirstAppearance)
      && (forall j :: PreviousGame(gs, gs[i].home, i, j) ==>
            rest == Difference(ParseOrZero(gs[i].date), ParseOrZero(gs[j].date)))
  {
    var found := Walk(gs).0[|gs| - 1 - i].home;
    RestsAt(gs, i);
    RestForCases(found, gs[i].date);
    HomeFinds(gs, i);
  }

  /** The away value of row `i`: 0 when the away team is also the home team
      (its date was just recorded); otherwise as for the home team. */
  lemma AwayRestDays(gs: seq<Game>, i: int)
    requires AllInTable(gs) && 0 <= i < |gs|
    ensures var rest := Rests(gs)[|gs| - 1 - i].away;
      var away := gs[i].away;
      && (away == gs[i].home ==> rest == 0)
      && (away != gs[i].home && (forall j :: i < j < |gs| ==> !Plays(gs[j], away)) ==> rest == FirstAppearance)
      && (away != gs[i].home ==> forall j :: PreviousGame(gs, away, i, j) ==>
            rest == Difference(ParseOrZero(gs[i].date), ParseOrZero(gs[j].date)))
  {
    var found := Walk(gs).0[|gs| - 1 - i].away;
    RestsAt(gs, i);
    RestForCases(found, gs[i].date);
    AwayFinds(gs, i);
    var d := ParseOrZero(gs[i].date);
    assert !Later(d, d);
  }

  /** After a row, both of its teams have the row's date as last-seen date. */
  lemma LastSeenIsCurrentRow(gs: seq<Game>)
    requires gs != []
    ensures gs[0].home in Walk(gs).1 && Walk(gs).1[gs[0].home] == gs[0].date
    ensures gs[0].away in Walk(gs).1 && Walk(gs).1[gs[0].away] == gs[0].date
  {
  }
}
