/** `calculate_and_create_lagged_averages`: for each of 27 metrics and each
    team a deque of the team's values; every record pushes the current
    values, trims each of its two teams to `W + 1` entries, and, once both
    teams have exactly `W + 1`, emits a row whose numbers are forecasts
    made from the `W` entries before the current one. */
module Lagged {

  /** Metrics 0 .. 22 are read from the record; 23 .. 26 are the "allowed"
      metrics, copied from the opponent. */
  const Observed: nat := 23
  const Metrics: nat := 27

  /** The opponent metric an allowed metric copies: field-goal %, two-point
      %, three-point % and turnovers. */
  function AllowedSource(i: nat): nat
    requires Observed <= i < Metrics
  {
    if i == 23 then 3 else if i == 24 then 6 else if i == 25 then 9 else 18
  }

  /** One row of the combined file: the three leading fields (date, home,
      away), 23 home/away value pairs, and the three trailing fields (the
      last one is the rest of the line). */
  datatype GameRecord = GameRecord(
    date: string, home: string, away: string,
    homeStats: seq<real>, awayStats: seq<real>,
    tail: seq<string>)

  predicate WellFormed(r: GameRecord) {
    |r.homeStats| == Observed && |r.awayStats| == Observed && |r.tail| == 3
  }

  predicate AllWellFormed(recs: seq<GameRecord>) {
    forall k :: 0 <= k < |recs| ==> WellFormed(recs[k])
  }

  /** The value the record pushes on the home team's deque of metric `i`. */
  function HomeValue(r: GameRecord, i: nat): real
    requires WellFormed(r) && i < Metrics
  {
    if i < Observed then r.homeStats[i] else r.awayStats[AllowedSource(i)]
  }

  /** The value the record pushes on the away team's deque of metric `i`. */
  function AwayValue(r: GameRecord, i: nat): real
    requires WellFormed(r) && i < Metrics
  {
    if i < Observed then r.awayStats[i] else r.homeStats[AllowedSource(i)]
  }

  /** What the record appends to `team`'s deque of metric `i`: the home
      value, then the away value, for each side the team plays. */
  function PushedValues(r: GameRecord, i: nat, team: string): seq<real>
    requires WellFormed(r) && i < Metrics
  {
    (if team == r.home then [HomeValue(r, i)] else []) + (if team == r.away then [AwayValue(r, i)] else [])
  }

  /** `lagged_features_average`: one map from team to deque per metric. */
  type Table = seq<map<string, seq<real>>>

  /** `lagged_features_average[i][team]`; `operator[]` gives an empty deque
      for a team the map does not hold yet. */
  function Window(t: Table, i: nat, team: string): seq<real>
    requires i < |t|
  {
    if team in t[i] then t[i][team] else []
  }

  function EmptyTable(): (t: Table)
    ensures |t| == Metrics
    ensures forall i, team :: 0 <= i < Metrics ==> Window(t, i, team) == []
  {
    seq(Metrics, i => map[])
  }

  /** `push_back` on one team's deque of one metric. */
  function Append(m: map<string, seq<real>>, team: string, v: real): map<string, seq<real>> {
    m[team := (if team in m then m[team] else []) + [v]]
  }

  /** The two pushes of metric `i`: the home team's value, then the away
      team's. */
  function PushMetric(m: map<string, seq<real>>, r: GameRecord, i: nat): map<string, seq<real>>
    requires WellFormed(r) && i < Metrics
  {
    Append(Append(m, r.home, HomeValue(r, i)), r.away, AwayValue(r, i))
  }

  /** The table after all pushes of a record: every deque gains exactly the
      values the record gives that team for that metric. */
  function Pushed(t: Table, r: GameRecord): (u: Table)
    requires |t| == Metrics && WellFormed(r)
    ensures |u| == Metrics
    ensures forall i, team :: 0 <= i < Metrics ==>
      Window(u, i, team) == Window(t, i, team) + PushedValues(r, i, team)
  {
    seq(Metrics, i requires 0 <= i < Metrics => PushMetric(t[i], r, i))
  }

  /** `pop_front` on all 27 deques of `team`; no other deque changes. */
  function PopFront(t: Table, team: string): (u: Table)
    requires |t| == Metrics
    requires forall i :: 0 <= i < Metrics ==> |Window(t, i, team)| > 0
    ensures |u| == Metrics
    ensures forall i, other :: 0 <= i < Metrics ==>
      Window(u, i, other) == if other == team then Window(t, i, team)[1..] else Window(t, i, other)
  {
    seq(Metrics, i requires 0 <= i < Metrics => t[i][team := Window(t, i, team)[1..]])
  }

  /** Every team's 27 deques have the same length. */
  ghost predicate Even(t: Table) {
    |t| == Metrics && forall i, team :: 0 <= i < Metrics ==> |Window(t, i, team)| == |Window(t, 0, team)|
  }

  /** ... and that length is at most `W + 1`. */
  ghost predicate Bounded(t: Table, W: nat) {
    Even(t) && forall team :: |Window(t, 0, team)| <= W + 1
  }

  lemma PushedKeepsEven(t: Table, r: GameRecord)
    requires Even(t) && WellFormed(r)
    ensures Even(Pushed(t, r))
  {
    var u := Pushed(t, r);
    forall i, team | 0 <= i < Metrics
      ensures |Window(u, i, team)| == |Window(u, 0, team)|
    {
      assert |PushedValues(r, i, team)| == |PushedValues(r, 0, team)|;
    }
  }

  /** The trim of one team: when its metric-0 deque is longer than `W + 1`,
      the front of each of its 27 deques is popped. */
  function Trim(t: Table, team: string, W: nat): (u: Table)
    requires Even(t)
    ensures Even(u)
  {
    if |Window(t, 0, team)| > W + 1 then PopFront(t, team) else t
  }

  /** All the state change of one record: the pushes, then the home trim,
      then the away trim (each decided on its own). */
  function Advance(t: Table, r: GameRecord, W: nat): (u: Table)
    requires Even(t) && WellFormed(r)
    ensures Even(u)
  {
    PushedKeepsEven(t, r);
    Trim(Trim(Pushed(t, r), r.home, W), r.away, W)
  }

  /** Each record keeps every team's deques at one common length of at most
      `W + 1`, even for a record whose two teams are the same. */
  lemma AdvanceKeepsBound(t: Table, r: GameRecord, W: nat)
    requires Bounded(t, W) && WellFormed(r)
    ensures Bounded(Advance(t, r, W), W)
  {
    PushedKeepsEven(t, r);
    var p := Pushed(t, r);
    var a := Trim(p, r.home, W);
    var u := Trim(a, r.away, W);
    forall team
      ensures |Window(u, 0, team)| <= W + 1
    {
      var n := |Window(t, 0, team)|;
      assert |Window(p, 0, team)| == n + |PushedValues(r, 0, team)|;
      TrimWindow(p, r.home, W, 0, team);
      TrimWindow(a, r.away, W, 0, team);
    }
  }

  /** A deque after a trim of `team`: its front is dropped when it belongs
      to `team` and `team`'s deques are longer than `W + 1`. */
  lemma TrimWindow(t: Table, team: string, W: nat, i: nat, other: string)
    requires Even(t) && i < Metrics
    ensures Window(Trim(t, team, W), i, other)
      == if other == team && |Window(t, 0, team)| > W + 1 then Window(t, i, team)[1..] else Window(t, i, other)
  {
  }

  /** The table after each of `recs` in order. */
  function State(recs: seq<GameRecord>, W: nat): (t: Table)
    requires AllWellFormed(recs)
    ensures Bounded(t, W)
    decreases |recs|
  {
    if recs == [] then EmptyTable()
    else
      var prev := State(recs[..|recs| - 1], W);
      AdvanceKeepsBound(prev, recs[|recs| - 1], W);
      Advance(prev, recs[|recs| - 1], W)
  }

  /** The emission gate: both teams' metric-0 deques hold exactly `W + 1`. */
  predicate Gate(t: Table, r: GameRecord, W: nat)
    requires |t| == Metrics
  {
    |Window(t, 0, r.home)| == W + 1 && |Window(t, 0, r.away)| == W + 1
  }

  /** A cell of an output row: a text field passed through, or a number. */
  datatype Cell = Field(text: string) | Number(value: real)

  /** The deque without its last (current) entry. */
  function Prior(w: seq<real>): seq<real>
    requires |w| > 0
  {
    w[..|w| - 1]
  }

  /** Both of the record's teams have a non-empty deque for every metric. */
  ghost predicate Primed(t: Table, r: GameRecord) {
    Even(t) && |Window(t, 0, r.home)| > 0 && |Window(t, 0, r.away)| > 0
  }

  /** The forecast of metric `i` for the home team (`home`) or the away
      team, made from the deque without its newest entry. */
  function Forecast(t: Table, r: GameRecord, i: nat, home: bool, forecast: seq<real> -> real): Cell
    requires Primed(t, r) && i < Metrics
  {
    Number(forecast(Prior(Window(t, i, if home then r.home else r.away))))
  }

  /** The home and away forecasts of metrics `lo .. hi - 1`, in order. */
  function Pairs(t: Table, r: GameRecord, lo: nat, hi: nat, forecast: seq<real> -> real): (cells: seq<Cell>)
    requires Primed(t, r) && lo <= hi <= Metrics
    ensures |cells| == 2 * (hi - lo)
  {
    seq(2 * (hi - lo), k requires 0 <= k < 2 * (hi - lo) => Forecast(t, r, lo + k / 2, k % 2 == 0, forecast))
  }

  /** One more metric adds its home forecast and its away forecast. */
  lemma PairsExtend(t: Table, r: GameRecord, lo: nat, hi: nat, forecast: seq<real> -> real)
    requires Primed(t, r) && lo <= hi < Metrics
    ensures Pairs(t, r, lo, hi + 1, forecast)
      == Pairs(t, r, lo, hi, forecast) + [Forecast(t, r, hi, true, forecast), Forecast(t, r, hi, false, forecast)]
  {
    var longer := Pairs(t, r, lo, hi + 1, forecast);
    var shorter := Pairs(t, r, lo, hi, forecast);
    forall k | 0 <= k < 2 * (hi - lo)
      ensures longer[k] == shorter[k]
    {
    }
    assert longer[2 * (hi - lo)] == Forecast(t, r, hi, true, forecast);
    assert longer[2 * (hi - lo) + 1] == Forecast(t, r, hi, false, forecast);
  }

  /** An emitted row: the three leading fields, the 23 observed pairs, the
      three trailing fields, then the 4 allowed pairs. */
  function Row(t: Table, r: GameRecord, forecast: seq<real> -> real): seq<Cell>
    requires Primed(t, r) && WellFormed(r)
  {
    [Field(r.date), Field(r.home), Field(r.away)]
    + Pairs(t, r, 0, Observed, forecast)
    + [Field(r.tail[0]), Field(r.tail[1]), Field(r.tail[2])]
    + Pairs(t, r, Observed, Metrics, forecast)
  }

  /** The rows emitted for `recs`: after each record, one row when the gate
      is open, none otherwise. */
  function Rows(recs: seq<GameRecord>, W: nat, forecast: seq<real> -> real): (rows: seq<seq<Cell>>)
    requires AllWellFormed(recs)
    ensures |rows| <= |recs|
    decreases |recs|
  {
    if recs == [] then []
    else
      var t := State(recs, W);
      var r := recs[|recs| - 1];
      Rows(recs[..|recs| - 1], W, forecast) + (if Gate(t, r, W) then [Row(t, r, forecast)] else [])
  }

  /** The first loop of a record: for metrics 0 .. 22 the home value, then
      the away value, is pushed, and the four values the allowed metrics
      need are kept; then each allowed metric gets the opponent's value. */
  method PushRecord(lagged: Table, r: GameRecord) returns (next: Table)
    requires |lagged| == Metrics && WellFormed(r)
    ensures next == Pushed(lagged, r)
  {
    next := lagged;
    var homeFg, awayFg, home2Fg, away2Fg, home3Fg, away3Fg, homeTov, awayTov := 0.0, 0.0, 0.0, 0.0, 0.0, 0.0, 0.0, 0.0;
    var i := 0;
    while i < Observed
      invariant 0 <= i <= Observed && |next| == Metrics
      invariant forall j :: 0 <= j < i ==> next[j] == PushMetric(lagged[j], r, j)
      invariant forall j :: i <= j < Metrics ==> next[j] == lagged[j]
      invariant i > 3 ==> homeFg == r.homeStats[3] && awayFg == r.awayStats[3]
      invariant i > 6 ==> home2Fg == r.homeStats[6] && away2Fg == r.awayStats[6]
      invariant i > 9 ==> home3Fg == r.homeStats[9] && away3Fg == r.awayStats[9]
      invariant i > 18 ==> homeTov == r.homeStats[18] && awayTov == r.awayStats[18]
    {
      next := next[i := Append(next[i], r.home, r.homeStats[i])];
      if i == 3 {
        homeFg := r.homeStats[i];
      } else if i == 6 {
        home2Fg := r.homeStats[i];
      } else if i == 9 {
        home3Fg := r.homeStats[i];
      } else if i == 18 {
        homeTov := r.homeStats[i];
      }
      next := next[i := Append(next[i], r.away, r.awayStats[i])];
      if i == 3 {
        awayFg := r.awayStats[i];
      } else if i == 6 {
        away2Fg := r.awayStats[i];
      } else if i == 9 {
        away3Fg := r.awayStats[i];
      } else if i == 18 {
        awayTov := r.awayStats[i];
      }
      i := i + 1;
    }
    next := next[i := Append(Append(next[i], r.home, awayFg), r.away, homeFg)];
    i := i + 1;
    next := next[i := Append(Append(next[i], r.home, away2Fg), r.away, home2Fg)];
    i := i + 1;
    next := next[i := Append(Append(next[i], r.home, away3Fg), r.away, home3Fg)];
    i := i + 1;
    next := next[i := Append(Append(next[i], r.home, awayTov), r.away, homeTov)];
    assert forall j :: 0 <= j < Metrics ==> next[j] == Pushed(lagged, r)[j];
  }

  /** The trim loop: `pop_front` on each of the team's 27 deques. */
  method PopFronts(lagged: Table, team: string) returns (next: Table)
    requires |lagged| == Metrics
    requires forall i :: 0 <= i < Metrics ==> |Window(lagged, i, team)| > 0
    ensures next == PopFront(lagged, team)
  {
    next := lagged;
    for i := 0 to Metrics
      invariant |next| == Metrics
      invariant forall j :: 0 <= j < i ==> next[j] == lagged[j][team := Window(lagged, j, team)[1..]]
      invariant forall j :: i <= j < Metrics ==> next[j] == lagged[j]
    {
      assert Window(next, i, team) == Window(lagged, i, team);
      next := next[i := next[i][team := Window(next, i, team)[1..]]];
    }
    assert forall j :: 0 <= j < Metrics ==> next[j] == PopFront(lagged, team)[j];
  }

  /** The emission: leading fields, a forecast pair per observed metric,
      trailing fields, a forecast pair per allowed metric. */
  method EmitRow(lagged: Table, r: GameRecord, forecast: seq<real> -> real) returns (row: seq<Cell>)
    requires Primed(lagged, r) && WellFormed(r)
    ensures row == Row(lagged, r, forecast)
  {
    row := [Field(r.date), Field(r.home), Field(r.away)];
    var i := 0;
    while i < Observed
      invariant 0 <= i <= Observed
      invariant row == [Field(r.date), Field(r.home), Field(r.away)] + Pairs(lagged, r, 0, i, forecast)
    {
      var homeWindow := Prior(Window(lagged, i, r.home));
      var awayWindow := Prior(Window(lagged, i, r.away));
      PairsExtend(lagged, r, 0, i, forecast);
      row := row + [Number(forecast(homeWindow)), Number(forecast(awayWindow))];
      i := i + 1;
    }
    row := row + [Field(r.tail[0]), Field(r.tail[1]), Field(r.tail[2])];
    ghost var head := row;
    while i < Metrics
      invariant Observed <= i <= Metrics
      invariant row == head + Pairs(lagged, r, Observed, i, forecast)
    {
      var homeWindow := Prior(Window(lagged, i, r.home));
      var awayWindow := Prior(Window(lagged, i, r.away));
      PairsExtend(lagged, r, Observed, i, forecast);
      row := row + [Number(forecast(homeWindow)), Number(forecast(awayWindow))];
      i := i + 1;
    }
  }

  /** The trim of one team: `pop_front` on its 27 deques when its metric-0
      deque holds more than `W + 1` entries. */
  method TrimTeam(lagged: Table, team: string, W: nat) returns (next: Table)
    requires Even(lagged)
    ensures next == Trim(lagged, team, W)
  {
    next := lagged;
    if |Window(lagged, 0, team)| > W + 1 {
      next := PopFronts(lagged, team);
    }
  }

  /** The body of the record loop: push, trim home, trim away, then the row
      when the gate is open. */
  method ProcessRecord(lagged: Table, r: GameRecord, W: nat, forecast: seq<real> -> real)
    returns (next: Table, emitted: seq<seq<Cell>>)
    requires Even(lagged) && WellFormed(r)
    ensures next == Advance(lagged, r, W)
    ensures emitted == if Gate(next, r, W) then [Row(next, r, forecast)] else []
  {
    PushedKeepsEven(lagged, r);
    next := PushRecord(lagged, r);
    next := TrimTeam(next, r.home, W);
    next := TrimTeam(next, r.away, W);
    emitted := [];
    if |Window(next, 0, r.home)| == W + 1 && |Window(next, 0, r.away)| == W + 1 {
      var row := EmitRow(next, r, forecast);
      emitted := [row];
    }
  }

  /** The record loop over the combined file. */
  method CalculateAndCreateLaggedAverages(recs: seq<GameRecord>, W: nat, forecast: seq<real> -> real)
    returns (rows: seq<seq<Cell>>)
    requires AllWellFormed(recs)
    ensures rows == Rows(recs, W, forecast)
  {
    var lagged := EmptyTable();
    rows := [];
    for k := 0 to |recs|
      invariant lagged == State(recs[..k], W)
      invariant rows == Rows(recs[..k], W, forecast)
    {
      assert recs[..k + 1][..k] == recs[..k] && recs[..k + 1][k] == recs[k];
      var emitted;
      lagged, emitted := ProcessRecord(lagged, recs[k], W, forecast);
      rows := rows + emitted;
    }
    assert recs[..|recs|] == recs;
  }

  // Properties of the engine.

  /** The last `n` entries of `s` (all of `s` when it is shorter). */
  function Last(s: seq<real>, n: nat): (l: seq<real>)
    ensures |l| == if |s| <= n then |s| else n
  {
    if |s| <= n then s else s[|s| - n..]
  }

  /** The records before the last one. */
  function Before(recs: seq<GameRecord>): seq<GameRecord>
    requires |recs| > 0
  {
    recs[..|recs| - 1]
  }

  /** In every record the home team and the away team differ. */
  ghost predicate Distinct(recs: seq<GameRecord>) {
    forall k :: 0 <= k < |recs| ==> recs[k].home != recs[k].away
  }

  /** Every value `recs` pushes for `team` on metric `i`, oldest first. */
  function History(recs: seq<GameRecord>, i: nat, team: string): seq<real>
    requires AllWellFormed(recs) && i < Metrics
    decreases |recs|
  {
    if recs == [] then []
    else History(recs[..|recs| - 1], i, team) + PushedValues(recs[|recs| - 1], i, team)
  }

  /** The number of records in which `team` plays. */
  function Appearances(recs: seq<GameRecord>, team: string): (n: nat)
    ensures n <= |recs|
    decreases |recs|
  {
    if recs == [] then 0
    else
      var r := recs[|recs| - 1];
      Appearances(recs[..|recs| - 1], team) + (if team == r.home || team == r.away then 1 else 0)
  }

  /** With distinct teams, each game of a team adds exactly one value to
      each of its histories. */
  lemma {:induction false} HistoryLength(recs: seq<GameRecord>, i: nat, team: string)
    requires AllWellFormed(recs) && Distinct(recs) && i < Metrics
    ensures |History(recs, i, team)| == Appearances(recs, team)
    decreases |recs|
  {
    if recs != [] {
      var prefix := recs[..|recs| - 1];
      assert AllWellFormed(prefix) && Distinct(prefix);
      HistoryLength(prefix, i, team);
    }
  }

  /** One record's effect on one deque of a team, for a record with two
      different teams: the team's values are appended, and the front is
      dropped when the team's deques grow past `W + 1`. */
  lemma AdvanceWindow(t: Table, r: GameRecord, W: nat, i: nat, team: string)
    requires Bounded(t, W) && WellFormed(r) && r.home != r.away && i < Metrics
    ensures var w := Window(t, i, team) + PushedValues(r, i, team);
      Window(Advance(t, r, W), i, team)
        == if |Window(t, 0, team)| + |PushedValues(r, 0, team)| > W + 1 then w[1..] else w
  {
    PushedKeepsEven(t, r);
    var p := Pushed(t, r);
    var a := Trim(p, r.home, W);
    assert Advance(t, r, W) == Trim(a, r.away, W);
    assert Window(p, i, team) == Window(t, i, team) + PushedValues(r, i, team);
    assert |Window(p, 0, team)| == |Window(t, 0, team)| + |PushedValues(r, 0, team)|;
    TrimWindow(p, r.home, W, i, team);
    TrimWindow(a, r.away, W, i, team);
    if team == r.away {
      TrimWindow(p, r.home, W, 0, team);
    } else if team == r.home {
      assert Window(Advance(t, r, W), i, team) == Window(a, i, team);
    } else {
      assert |Window(t, 0, team)| <= W + 1;
    }
  }

  /** Appending at most one value to a sequence keeps its last-`n` window
      in step with the deque: append, then drop the front when too long. */
  lemma LastStep(h: seq<real>, w: seq<real>, pv: seq<real>, n: nat)
    requires 1 <= n && w == Last(h, n) && |pv| <= 1
    ensures Last(h + pv, n) == if |w| + |pv| > n then (w + pv)[1..] else w + pv
  {
    if |h| > n && |pv| == 1 {
      assert (h + pv)[|h| + 1 - n..] == h[|h| - n..][1..] + pv;
    }
  }

  /** The records before the last one keep the properties of the whole. */
  lemma BeforeKeeps(recs: seq<GameRecord>)
    requires |recs| > 0
    ensures AllWellFormed(recs) ==> AllWellFormed(Before(recs))
    ensures Distinct(recs) ==> Distinct(Before(recs))
  {
  }

  /** A deque after the last record of `recs`, from the deque before it. */
  lemma StateStep(recs: seq<GameRecord>, W: nat, i: nat, team: string)
    requires AllWellFormed(recs) && Distinct(recs) && |recs| > 0 && i < Metrics
    ensures AllWellFormed(Before(recs))
    ensures var w := Window(State(Before(recs), W), i, team);
      var pv := PushedValues(recs[|recs| - 1], i, team);
      && |pv| <= 1
      && Window(State(recs, W), i, team) == if |w| + |pv| > W + 1 then (w + pv)[1..] else w + pv
  {
    var r := recs[|recs| - 1];
    BeforeKeeps(recs);
    var t := State(Before(recs), W);
    assert State(recs, W) == Advance(t, r, W);
    assert r.home != r.away;
    assert |Window(t, i, team)| == |Window(t, 0, team)|;
    assert |PushedValues(r, i, team)| == |PushedValues(r, 0, team)|;
    AdvanceWindow(t, r, W, i, team);
  }

  /** One step of `WindowIsRecentHistory`: the property carries over from
      the records before the last one to all of them. */
  lemma RecentHistoryStep(recs: seq<GameRecord>, W: nat, i: nat, team: string)
    requires AllWellFormed(recs) && Distinct(recs) && |recs| > 0 && i < Metrics
    requires AllWellFormed(Before(recs))
    requires Window(State(Before(recs), W), i, team) == Last(History(Before(recs), i, team), W + 1)
    ensures Window(State(recs, W), i, team) == Last(History(recs, i, team), W + 1)
  {
    var prefix := Before(recs);
    StateStep(recs, W, i, team);
    assert History(recs, i, team) == History(prefix, i, team) + PushedValues(recs[|recs| - 1], i, team);
    LastStep(History(prefix, i, team), Window(State(prefix, W), i, team), PushedValues(recs[|recs| - 1], i, team), W + 1);
  }

  /** With distinct teams in every record, a team's deque of a metric is the
      last `W + 1` values of its history. */
  lemma {:induction false} WindowIsRecentHistory(recs: seq<GameRecord>, W: nat, i: nat, team: string)
    requires AllWellFormed(recs) && Distinct(recs) && i < Metrics
    ensures Window(State(recs, W), i, team) == Last(History(recs, i, team), W + 1)
    decreases |recs|
  {
    if recs != [] {
      BeforeKeeps(recs);
      WindowIsRecentHistory(Before(recs), W, i, team);
      RecentHistoryStep(recs, W, i, team);
    }
  }

  /** Dropping the newest value of a full last-`n + 1` window leaves the last
      `n` values before it. */
  lemma LastPrior(h: seq<real>, v: real, n: nat)
    requires |Last(h + [v], n + 1)| == n + 1
    ensures Prior(Last(h + [v], n + 1)) == Last(h, n)
  {
    assert Prior(Last(h + [v], n + 1)) == h[|h| - n..];
  }

  /** The gate opens for a record exactly when each of its two teams has
      played at least `W` earlier games. */
  lemma GateMeaning(recs: seq<GameRecord>, W: nat)
    requires AllWellFormed(recs) && Distinct(recs) && |recs| > 0
    ensures var r := recs[|recs| - 1];
      Gate(State(recs, W), r, W)
      <==> Appearances(Before(recs), r.home) >= W && Appearances(Before(recs), r.away) >= W
  {
    var r := recs[|recs| - 1];
    WindowIsRecentHistory(recs, W, 0, r.home);
    WindowIsRecentHistory(recs, W, 0, r.away);
    HistoryLength(recs, 0, r.home);
    HistoryLength(recs, 0, r.away);
  }

  /** A full deque of a team that plays the last record, without its newest
      entry, is the last `W` values of the team's history before that
      record. */
  lemma PriorWindow(recs: seq<GameRecord>, W: nat, i: nat, team: string, v: real)
    requires AllWellFormed(recs) && Distinct(recs) && |recs| > 0 && i < Metrics
    requires AllWellFormed(Before(recs))
    requires PushedValues(recs[|recs| - 1], i, team) == [v]
    requires |Window(State(recs, W), i, team)| == W + 1
    ensures Prior(Window(State(recs, W), i, team)) == Last(History(Before(recs), i, team), W)
  {
    WindowIsRecentHistory(recs, W, i, team);
    assert History(recs, i, team) == History(Before(recs), i, team) + [v];
    LastPrior(History(Before(recs), i, team), v, W);
  }

  /** No leakage: each forecast of an emitted row is made from exactly the
      last `W` values of the team's games before the current one; the
      current game's value is never among them. */
  lemma ForecastUsesOnlyPriorGames(recs: seq<GameRecord>, W: nat, i: nat)
    requires AllWellFormed(recs) && Distinct(recs) && |recs| > 0 && i < Metrics
    requires Gate(State(recs, W), recs[|recs| - 1], W)
    ensures AllWellFormed(Before(recs))
    ensures var r := recs[|recs| - 1];
      var t := State(recs, W);
      && Primed(t, r)
      && Prior(Window(t, i, r.home)) == Last(History(Before(recs), i, r.home), W)
      && Prior(Window(t, i, r.away)) == Last(History(Before(recs), i, r.away), W)
  {
    var r := recs[|recs| - 1];
    var t := State(recs, W);
    BeforeKeeps(recs);
    assert r.home != r.away;
    assert |Window(t, i, r.home)| == W + 1 && |Window(t, i, r.away)| == W + 1;
    PriorWindow(recs, W, i, r.home, HomeValue(r, i));
    PriorWindow(recs, W, i, r.away, AwayValue(r, i));
  }

  /** Warm-up: while fewer than `W + 1` records have been read, no row is
      emitted. */
  lemma {:induction false} NoRowsDuringWarmUp(recs: seq<GameRecord>, W: nat, forecast: seq<real> -> real)
    requires AllWellFormed(recs) && Distinct(recs) && |recs| <= W
    ensures Rows(recs, W, forecast) == []
    decreases |recs|
  {
    if recs != [] {
      var prefix := recs[..|recs| - 1];
      assert AllWellFormed(prefix) && Distinct(prefix);
      NoRowsDuringWarmUp(prefix, W, forecast);
      GateMeaning(recs, W);
    }
  }

  /** The layout of an emitted row: 60 cells; date, home and away; the home
      and away forecasts of metric `i < 23` at `3 + 2i` and `4 + 2i`; the
      three trailing fields at 49 .. 51; the allowed metrics' forecasts from
      52 on. */
  lemma RowLayout(t: Table, r: GameRecord, forecast: seq<real> -> real)
    requires Primed(t, r) && WellFormed(r)
    ensures var row := Row(t, r, forecast);
      && |row| == 60
      && row[..3] == [Field(r.date), Field(r.home), Field(r.away)]
      && (forall i :: 0 <= i < Observed ==>
            row[3 + 2 * i] == Number(forecast(Prior(Window(t, i, r.home))))
            && row[4 + 2 * i] == Number(forecast(Prior(Window(t, i, r.away)))))
      && row[49..52] == [Field(r.tail[0]), Field(r.tail[1]), Field(r.tail[2])]
      && (forall i :: Observed <= i < Metrics ==>
            row[52 + 2 * (i - Observed)] == Number(forecast(Prior(Window(t, i, r.home))))
            && row[53 + 2 * (i - Observed)] == Number(forecast(Prior(Window(t, i, r.away)))))
  {
    var row := Row(t, r, forecast);
    var head := Pairs(t, r, 0, Observed, forecast);
    var allowed := Pairs(t, r, Observed, Metrics, forecast);
    var tail := [Field(r.tail[0]), Field(r.tail[1]), Field(r.tail[2])];
    assert row == [Field(r.date), Field(r.home), Field(r.away)] + head + tail + allowed;
    assert forall k :: 0 <= k < 46 ==> row[3 + k] == head[k];
    assert forall k :: 0 <= k < 8 ==> row[52 + k] == allowed[k];
    assert row[49..52] == tail;
    forall i | 0 <= i < Observed
      ensures row[3 + 2 * i] == Number(forecast(Prior(Window(t, i, r.home))))
      ensures row[4 + 2 * i] == Number(forecast(Prior(Window(t, i, r.away))))
    {
      assert head[2 * i] == Forecast(t, r, i, true, forecast);
      assert head[2 * i + 1] == Forecast(t, r, i, false, forecast);
    }
    forall i | Observed <= i < Metrics
      ensures row[52 + 2 * (i - Observed)] == Number(forecast(Prior(Window(t, i, r.home))))
      ensures row[53 + 2 * (i - Observed)] == Number(forecast(Prior(Window(t, i, r.away))))
    {
      assert allowed[2 * (i - Observed)] == Forecast(t, r, i, true, forecast);
      assert allowed[2 * (i - Observed) + 1] == Forecast(t, r, i, false, forecast);
    }
  }

  /** The allowed metrics cross over: in a record with two different teams,
      the home team's allowed entry is the away team's observed entry of the
      source metric, and the other way round. */
  lemma AllowedIsOpponentObserved(t: Table, r: GameRecord, i: nat)
    requires |t| == Metrics && WellFormed(r) && r.home != r.away && Observed <= i < Metrics
    ensures var u := Pushed(t, r);
      && Window(u, i, r.home) == Window(t, i, r.home) + [r.awayStats[AllowedSource(i)]]
      && Window(u, i, r.away) == Window(t, i, r.away) + [r.homeStats[AllowedSource(i)]]
      && Window(u, AllowedSource(i), r.away) == Window(t, AllowedSource(i), r.away) + [r.awayStats[AllowedSource(i)]]
      && Window(u, AllowedSource(i), r.home) == Window(t, AllowedSource(i), r.home) + [r.homeStats[AllowedSource(i)]]
  {
    var j := AllowedSource(i);
    assert PushedValues(r, i, r.home) == [r.awayStats[j]];
    assert PushedValues(r, i, r.away) == [r.homeStats[j]];
    assert PushedValues(r, j, r.home) == [r.homeStats[j]];
    assert PushedValues(r, j, r.away) == [r.awayStats[j]];
  }

  /** Every observed metric's deque receives the team's own column of the
      record: the home column for the home team, the away column for the
      away team. */
  lemma ObservedIsOwnColumn(t: Table, r: GameRecord, i: nat)
    requires |t| == Metrics && WellFormed(r) && r.home != r.away && i < Observed
    ensures var u := Pushed(t, r);
      && Window(u, i, r.home) == Window(t, i, r.home) + [r.homeStats[i]]
      && Window(u, i, r.away) == Window(t, i, r.away) + [r.awayStats[i]]
  {
    assert PushedValues(r, i, r.home) == [r.homeStats[i]];
    assert PushedValues(r, i, r.away) == [r.awayStats[i]];
  }
}
