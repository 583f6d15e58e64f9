/**
 * Match records and what one match, and then a whole list of matches, does
 * to the rating table (a map from player name to rating). This module is the
 * value-level specification of the game loop; Tournament.RatingTable runs
 * the same loop in place and is proved equal to it.
 */
module Matches {
  import opened Wrappers
  import opened EloRating

  /** The run's settings: scale T, factor K and the starting rating (the -T, -K and -E flags). */
  datatype Config = Config(t: int, k: int, eloStart: int)

  /** The defaults of the three settings. */
  const Defaults := Config(400, 128, 1500)

  /** One line of the match list: two players per team and the two teams' scores. */
  datatype Game = Game(team1First: string, team1Second: string,
                       team2First: string, team2Second: string,
                       score1: int, score2: int)

  /** Why a run stops: a match names someone not on the roster, or the scale is zero. */
  datatype Error = MissingPlayer(name: string) | ZeroScale

  type Table = map<string, real>

  /** What a run over a list of matches leaves: the table as it stands, and the failure if there was one. */
  datatype Outcome = Outcome(table: Table, failure: Option<Error>)

  predicate AllPresent(table: Table, g: Game) {
    g.team1First in table && g.team1Second in table && g.team2First in table && g.team2Second in table
  }

  /** What a change `d` does to `name`: `d` once per place on team 1, `-d` once per place on team 2. */
  function Shift(g: Game, name: string, d: real): real {
    (if g.team1First == name then d else 0.0) + (if g.team1Second == name then d else 0.0)
    - (if g.team2First == name then d else 0.0) - (if g.team2Second == name then d else 0.0)
  }

  /** The one rating change of a match, as computed from the table before the match. */
  function GameDelta(cfg: Config, m: Math, table: Table, g: Game): (d: real)
    requires cfg.t != 0 && AllPresent(table, g)
    ensures g.score1 + g.score2 == 0 ==> d == 0.0
    ensures cfg.k > 0 && 0 <= g.score1 && 0 <= g.score2 ==> -(cfg.k as real) < d < cfg.k as real
  {
    EloDiffTeam(m, table[g.team1First], table[g.team1Second], table[g.team2First], table[g.team2Second],
                g.score1, g.score2, cfg.t, cfg.k)
  }

  /** `players[name] += d` */
  function Credit(table: Table, name: string, d: real): (r: Table)
    requires name in table
    ensures r.Keys == table.Keys
    ensures r[name] == table[name] + d
    ensures forall other :: other in table && other != name ==> r[other] == table[other]
  {
    table[name := table[name] + d]
  }

  /** `players[name] -= d` */
  function Debit(table: Table, name: string, d: real): (r: Table)
    requires name in table
    ensures r.Keys == table.Keys
    ensures r[name] == table[name] - d
    ensures forall other :: other in table && other != name ==> r[other] == table[other]
  {
    table[name := table[name] - d]
  }

  /**
   * One match: look the four players up (the first absent one is the error),
   * compute the change once from the pre-match ratings, then credit team 1
   * and debit team 2 one entry at a time.
   *
   * The match fails exactly when a named player is absent or the scale is
   * zero; it never adds or drops a name; and every player's new rating is the
   * old one plus the change once for every time they stand in team 1, minus
   * once for every time they stand in team 2 (so players not in the match
   * keep their rating and a repeated name accumulates).
   */
  function ApplyGame(cfg: Config, m: Math, table: Table, g: Game): (r: Result<Table, Error>)
    ensures r.Failure? <==> !AllPresent(table, g) || cfg.t == 0
    ensures r.Failure? && r.error.MissingPlayer? ==>
      r.error.name !in table &&
      r.error.name in [g.team1First, g.team1Second, g.team2First, g.team2Second]
    ensures r == Failure(ZeroScale) ==> AllPresent(table, g) && cfg.t == 0
    ensures r.Success? ==> r.value.Keys == table.Keys
    ensures r.Success? ==> forall name :: name in table ==>
      r.value[name] == table[name] + Shift(g, name, GameDelta(cfg, m, table, g))
    ensures r.Success? ==> forall name ::
      name in table && name !in [g.team1First, g.team1Second, g.team2First, g.team2Second] ==>
        r.value[name] == table[name]
  {
    if g.team1First !in table then Failure(MissingPlayer(g.team1First))
    else if g.team1Second !in table then Failure(MissingPlayer(g.team1Second))
    else if g.team2First !in table then Failure(MissingPlayer(g.team2First))
    else if g.team2Second !in table then Failure(MissingPlayer(g.team2Second))
    else if cfg.t == 0 then Failure(ZeroScale)
    else
      var eloChange := GameDelta(cfg, m, table, g);
      Success(Settle(table, g, eloChange))
  }

  /** The reported missing player is the first absent one in argument order: team 1 first, then team 2. */
  lemma FirstMissingReported(cfg: Config, m: Math, table: Table, g: Game)
    ensures g.team1First !in table ==> ApplyGame(cfg, m, table, g) == Failure(MissingPlayer(g.team1First))
    ensures g.team1First in table && g.team1Second !in table ==>
      ApplyGame(cfg, m, table, g) == Failure(MissingPlayer(g.team1Second))
    ensures g.team1First in table && g.team1Second in table && g.team2First !in table ==>
      ApplyGame(cfg, m, table, g) == Failure(MissingPlayer(g.team2First))
    ensures g.team1First in table && g.team1Second in table && g.team2First in table && g.team2Second !in table ==>
      ApplyGame(cfg, m, table, g) == Failure(MissingPlayer(g.team2Second))
  {
  }

  /** The four updates of one match, in order, each reading the entry as the previous one left it. */
  function Settle(table: Table, g: Game, d: real): (r: Table)
    requires AllPresent(table, g)
    ensures r.Keys == table.Keys
    ensures forall name :: name in table ==> r[name] == table[name] + Shift(g, name, d)
  {
    SettleSteps(table, g, d);
    var t1 := Credit(table, g.team1First, d);
    var t2 := Credit(t1, g.team1Second, d);
    var t3 := Debit(t2, g.team2First, d);
    Debit(t3, g.team2Second, d)
  }

  /** The four updates, followed for one name at a time. */
  lemma SettleSteps(table: Table, g: Game, d: real)
    requires AllPresent(table, g)
    ensures forall name :: name in table ==>
      Debit(Debit(Credit(Credit(table, g.team1First, d), g.team1Second, d), g.team2First, d), g.team2Second, d)[name]
        == table[name] + Shift(g, name, d)
  {
    forall name | name in table
      ensures Debit(Debit(Credit(Credit(table, g.team1First, d), g.team1Second, d), g.team2First, d), g.team2Second, d)[name]
        == table[name] + Shift(g, name, d)
    {
      var t1 := Credit(table, g.team1First, d);
      var t2 := Credit(t1, g.team1Second, d);
      var t3 := Debit(t2, g.team2First, d);
      var t4 := Debit(t3, g.team2Second, d);
      assert t1[name] == table[name] + (if g.team1First == name then d else 0.0);
      assert t2[name] == t1[name] + (if g.team1Second == name then d else 0.0);
      assert t3[name] == t2[name] - (if g.team2First == name then d else 0.0);
      assert t4[name] == t3[name] - (if g.team2Second == name then d else 0.0);
    }
  }

  /** All matches in list order; the first failing match stops the run and leaves the table as it was before it. */
  function Fold(cfg: Config, m: Math, table: Table, games: seq<Game>): (o: Outcome)
    ensures o.table.Keys == table.Keys
    decreases |games|
  {
    if games == [] then Outcome(table, None)
    else
      match ApplyGame(cfg, m, table, games[0])
      case Failure(e) => Outcome(table, Some(e))
      case Success(next) => Fold(cfg, m, next, games[1..])
  }

  // ---------------------------------------------------------------------
  // Sums of ratings

  predicate Distinct(names: seq<string>) {
    forall i, j :: 0 <= i < j < |names| ==> names[i] != names[j]
  }

  /** `names` lists the table's keys, each once. */
  ghost predicate Lists(names: seq<string>, table: Table) {
    && Distinct(names)
    && (forall name :: name in table <==> name in names)
    && (forall i :: 0 <= i < |names| ==> names[i] in table)
  }

  /** The sum of the ratings of `names`. */
  function Total(names: seq<string>, table: Table): real
    requires forall i :: 0 <= i < |names| ==> names[i] in table
  {
    if names == [] then 0.0 else table[names[0]] + Total(names[1..], table)
  }

  /** Changing one listed rating by `d` changes the sum by `d`. */
  lemma {:induction false} TotalUpdate(names: seq<string>, table: Table, name: string, v: real)
    requires Distinct(names) && name in names && name in table
    requires forall i :: 0 <= i < |names| ==> names[i] in table
    ensures Total(names, table[name := v]) == Total(names, table) + (v - table[name])
  {
    if names[0] == name {
      TotalUnchanged(names[1..], table, name, v);
    } else {
      assert Distinct(names[1..]) by {
        assert forall i :: 0 <= i < |names| - 1 ==> names[1..][i] == names[i + 1];
      }
      TotalUpdate(names[1..], table, name, v);
    }
  }

  /** Changing a rating not listed leaves the sum alone. */
  lemma {:induction false} TotalUnchanged(names: seq<string>, table: Table, name: string, v: real)
    requires name !in names
    requires forall i :: 0 <= i < |names| ==> names[i] in table
    ensures Total(names, table[name := v]) == Total(names, table)
  {
    if names != [] {
      TotalUnchanged(names[1..], table, name, v);
    }
  }

  /** A match keeps the sum of all ratings: team 1 gains what team 2 loses, even when names repeat. */
  lemma ApplyGameZeroSum(cfg: Config, m: Math, names: seq<string>, table: Table, g: Game)
    requires Lists(names, table)
    ensures ApplyGame(cfg, m, table, g).Success? ==>
      Lists(names, ApplyGame(cfg, m, table, g).value) &&
      Total(names, ApplyGame(cfg, m, table, g).value) == Total(names, table)
  {
    if AllPresent(table, g) && cfg.t != 0 {
      SettleZeroSum(names, table, g, GameDelta(cfg, m, table, g));
    }
  }

  lemma SettleZeroSum(names: seq<string>, table: Table, g: Game, d: real)
    requires Lists(names, table) && AllPresent(table, g)
    ensures Lists(names, Settle(table, g, d))
    ensures Total(names, Settle(table, g, d)) == Total(names, table)
  {
    var t1 := Credit(table, g.team1First, d);
    var t2 := Credit(t1, g.team1Second, d);
    var t3 := Debit(t2, g.team2First, d);
    var t4 := Debit(t3, g.team2Second, d);
    CreditTotal(names, table, g.team1First, d);
    CreditTotal(names, t1, g.team1Second, d);
    CreditTotal(names, t2, g.team2First, -d);
    assert Debit(t2, g.team2First, d) == Credit(t2, g.team2First, -d);
    CreditTotal(names, t3, g.team2Second, -d);
    assert Debit(t3, g.team2Second, d) == Credit(t3, g.team2Second, -d);
  }

  /** Adding `d` to one listed rating adds `d` to the sum and keeps the listing. */
  lemma CreditTotal(names: seq<string>, table: Table, name: string, d: real)
    requires Lists(names, table) && name in table
    ensures Lists(names, Credit(table, name, d))
    ensures Total(names, Credit(table, name, d)) == Total(names, table) + d
  {
    TotalUpdate(names, table, name, table[name] + d);
  }

  /** A run keeps the sum of all ratings, whether it finishes or stops at a failing match. */
  lemma {:induction false} FoldZeroSum(cfg: Config, m: Math, names: seq<string>, table: Table, games: seq<Game>)
    requires Lists(names, table)
    ensures Lists(names, Fold(cfg, m, table, games).table)
    ensures Total(names, Fold(cfg, m, table, games).table) == Total(names, table)
    decreases |games|
  {
    if games != [] {
      ApplyGameZeroSum(cfg, m, names, table, games[0]);
      match ApplyGame(cfg, m, table, games[0])
      case Failure(_) =>
      case Success(next) => FoldZeroSum(cfg, m, names, next, games[1..]);
    }
  }

  // ---------------------------------------------------------------------
  // Further properties of single matches and of runs

  /** A match in which no points were scored changes nothing (when it does not fail). */
  lemma ZeroScoreNoOp(cfg: Config, m: Math, table: Table, g: Game)
    requires g.score1 + g.score2 == 0
    requires AllPresent(table, g) && cfg.t != 0
    ensures ApplyGame(cfg, m, table, g) == Success(table)
  {
    assert GameDelta(cfg, m, table, g) == 0.0;
    SettleNothing(table, g);
  }

  /** Settling a change of zero leaves the table as it was. */
  lemma SettleNothing(table: Table, g: Game)
    requires AllPresent(table, g)
    ensures Settle(table, g, 0.0) == table
  {
    var r := Settle(table, g, 0.0);
    assert forall name :: name in table ==> Shift(g, name, 0.0) == 0.0;
    SameEntries(r, table);
  }

  /** A match whose players are all present, at a non-zero scale, settles its change on the table. */
  lemma ApplyGameSettles(cfg: Config, m: Math, table: Table, g: Game)
    requires cfg.t != 0 && AllPresent(table, g)
    ensures ApplyGame(cfg, m, table, g) == Success(Settle(table, g, GameDelta(cfg, m, table, g)))
  {
  }

  /** Two tables with the same keys and the same rating under every key are equal. */
  lemma SameEntries(a: Table, b: Table)
    requires a.Keys == b.Keys && forall name :: name in a ==> a[name] == b[name]
    ensures a == b
  {
  }

  /** Running `a + b` is running `a` and then, if nothing failed, running `b` on the result. */
  lemma {:induction false} FoldAppend(cfg: Config, m: Math, table: Table, a: seq<Game>, b: seq<Game>)
    ensures Fold(cfg, m, table, a + b) ==
      var first := Fold(cfg, m, table, a);
      if first.failure.None? then Fold(cfg, m, first.table, b) else first
    decreases |a|
  {
    if a == [] {
      assert a + b == b;
    } else {
      assert (a + b)[0] == a[0];
      assert (a + b)[1..] == a[1..] + b;
      match ApplyGame(cfg, m, table, a[0])
      case Failure(_) =>
      case Success(next) => FoldAppend(cfg, m, next, a[1..], b);
    }
  }

  /** One more match at the end of the list is applied last, to the table all earlier matches left. */
  lemma FoldSnoc(cfg: Config, m: Math, table: Table, games: seq<Game>, g: Game)
    ensures Fold(cfg, m, table, games + [g]) ==
      var first := Fold(cfg, m, table, games);
      if first.failure.Some? then first
      else match ApplyGame(cfg, m, first.table, g)
        case Failure(e) => Outcome(first.table, Some(e))
        case Success(next) => Outcome(next, None)
  {
    FoldAppend(cfg, m, table, games, [g]);
    var first := Fold(cfg, m, table, games);
    if first.failure.None? {
      FoldOne(cfg, m, first.table, g);
    }
  }

  /** A run of one match is that match's outcome. */
  lemma FoldOne(cfg: Config, m: Math, table: Table, g: Game)
    ensures Fold(cfg, m, table, [g]) ==
      match ApplyGame(cfg, m, table, g)
        case Failure(e) => Outcome(table, Some(e))
        case Success(next) => Outcome(next, None)
  {
    assert [g][1..] == [];
  }

  /**
   * A run fails with a missing player only if that name is absent from the
   * table and is named by one of the matches: a name is never created.
   */
  lemma {:induction false} FoldMissingPlayer(cfg: Config, m: Math, table: Table, games: seq<Game>)
    ensures var o := Fold(cfg, m, table, games);
      o.failure.Some? && o.failure.value.MissingPlayer? ==>
        o.failure.value.name !in table &&
        exists i :: 0 <= i < |games| && o.failure.value.name in
          [games[i].team1First, games[i].team1Second, games[i].team2First, games[i].team2Second]
    decreases |games|
  {
    if games != [] {
      match ApplyGame(cfg, m, table, games[0])
      case Failure(_) =>
      case Success(next) =>
        FoldMissingPlayer(cfg, m, next, games[1..]);
        var o := Fold(cfg, m, next, games[1..]);
        if o.failure.Some? && o.failure.value.MissingPlayer? {
          var i :| 0 <= i < |games| - 1 && o.failure.value.name in
            [games[1..][i].team1First, games[1..][i].team1Second, games[1..][i].team2First, games[1..][i].team2Second];
          assert games[1..][i] == games[i + 1];
        }
    }
  }

  /**
   * A run finishes exactly when every match names only players on the table
   * and, if there is any match at all, the scale is not zero; otherwise it
   * stops at a failure.
   */
  lemma {:induction false} FoldSucceeds(cfg: Config, m: Math, table: Table, games: seq<Game>)
    ensures Fold(cfg, m, table, games).failure.None? <==>
      (games == [] || cfg.t != 0) && forall i :: 0 <= i < |games| ==> AllPresent(table, games[i])
    decreases |games|
  {
    if games != [] {
      var r := ApplyGame(cfg, m, table, games[0]);
      if r.Failure? {
        assert Fold(cfg, m, table, games).failure == Some(r.error);
        assert !AllPresent(table, games[0]) || cfg.t == 0;
      } else {
        var next := r.value;
        assert Fold(cfg, m, table, games) == Fold(cfg, m, next, games[1..]);
        assert AllPresent(table, games[0]) && cfg.t != 0;
        FoldSucceeds(cfg, m, next, games[1..]);
        LaterMatchesPresent(next, table, games);
      }
    }
  }

  /** When the first match is fully present, the later ones are present in a table with the same keys exactly when all are. */
  lemma LaterMatchesPresent(next: Table, table: Table, games: seq<Game>)
    requires next.Keys == table.Keys && games != [] && AllPresent(table, games[0])
    ensures (forall i :: 0 <= i < |games[1..]| ==> AllPresent(next, games[1..][i])) <==>
            (forall i :: 0 <= i < |games| ==> AllPresent(table, games[i]))
  {
    assert forall i :: 0 <= i < |games[1..]| ==> games[1..][i] == games[i + 1];
    if forall i :: 0 <= i < |games[1..]| ==> AllPresent(next, games[1..][i]) {
      forall i | 0 <= i < |games| ensures AllPresent(table, games[i]) {
        if i > 0 {
          assert AllPresent(next, games[1..][i - 1]);
        }
      }
    }
  }
}
