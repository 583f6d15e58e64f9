/**
 * The run itself: the rating table as a mutable object, loaded from the
 * roster and updated in place match by match, then ranked. Each method is
 * proved to compute exactly what the value-level definitions in Matches,
 * Roster and Ranking say.
 */
module Tournament {
  import opened Wrappers
  import opened EloRating
  import opened Matches
  import opened Roster
  import opened Ranking

  /** The rating the roster loader gives every player when called without an argument. */
  const DefaultStart: int := 1500

  /** The players dictionary: names in insertion order and each name's rating. */
  class RatingTable {
    var names: seq<string>
    var ratings: Table

    /** Every rated player is listed once, and only rated players are listed. */
    ghost predicate Valid()
      reads this
    {
      Lists(names, ratings)
    }

    /** load_players: set each roster line's name to the starting rating, in roster order. */
    constructor FromRoster(roster: seq<string>, eloStart: int)
      ensures Valid()
      ensures names == RosterOrder(roster)
      ensures ratings == InitialRatings(roster, eloStart as real)
    {
      names := [];
      ratings := map[];
      new;
      var i := 0;
      while i < |roster|
        invariant 0 <= i <= |roster|
        invariant names == RosterOrder(roster[..i])
        invariant ratings == InitialRatings(roster[..i], eloStart as real)
      {
        var player := roster[i];
        assert roster[..i + 1] == roster[..i] + [player];
        LoadStep(roster[..i], player, eloStart as real);
        if player !in ratings {
          names := names + [player];
        }
        ratings := ratings[player := eloStart as real];
        i := i + 1;
      }
      assert roster[..|roster|] == roster;
      StartingTableListed(roster, eloStart as real);
    }

    /**
     * One match: look up the four ratings, compute the change once, then
     * apply it to the four entries one after the other. A missing player or a
     * zero scale stops before anything is written.
     */
    method Play(cfg: Config, m: Math, g: Game) returns (failure: Option<Error>)
      requires Valid()
      modifies this
      ensures Valid() && names == old(names)
      ensures match ApplyGame(cfg, m, old(ratings), g)
        case Failure(e) => failure == Some(e) && ratings == old(ratings)
        case Success(next) => failure.None? && ratings == next
    {
      if g.team1First !in ratings { return Some(MissingPlayer(g.team1First)); }
      if g.team1Second !in ratings { return Some(MissingPlayer(g.team1Second)); }
      if g.team2First !in ratings { return Some(MissingPlayer(g.team2First)); }
      if g.team2Second !in ratings { return Some(MissingPlayer(g.team2Second)); }
      if cfg.t == 0 { return Some(ZeroScale); }
      var eloChange := EloDiffTeam(m, ratings[g.team1First], ratings[g.team1Second],
                                   ratings[g.team2First], ratings[g.team2Second],
                                   g.score1, g.score2, cfg.t, cfg.k);
      ghost var before := ratings;
      assert ApplyGame(cfg, m, before, g) == Success(Settle(before, g, eloChange));
      ApplyChange(g, eloChange);
      failure := None;
    }

    /** The four in-place updates of one match: team 1 gains `eloChange`, team 2 loses it. */
    method ApplyChange(g: Game, eloChange: real)
      requires Valid() && AllPresent(ratings, g)
      modifies this
      ensures Valid() && names == old(names)
      ensures ratings == Settle(old(ratings), g, eloChange)
    {
      ratings := Credit(ratings, g.team1First, eloChange);
      ratings := Credit(ratings, g.team1Second, eloChange);
      ratings := Debit(ratings, g.team2First, eloChange);
      ratings := Debit(ratings, g.team2Second, eloChange);
    }

    /** The game loop: every match in list order, stopping at the first failure. */
    method ProcessGames(cfg: Config, m: Math, games: seq<Game>) returns (failure: Option<Error>)
      requires Valid()
      modifies this
      ensures Valid() && names == old(names)
      ensures Fold(cfg, m, old(ratings), games) == Outcome(ratings, failure)
    {
      var i := 0;
      while i < |games|
        invariant 0 <= i <= |games|
        invariant Valid() && names == old(names)
        invariant Fold(cfg, m, old(ratings), games) == Fold(cfg, m, ratings, games[i..])
      {
        assert games[i..][1..] == games[i + 1..];
        failure := Play(cfg, m, games[i]);
        if failure.Some? {
          return;
        }
        i := i + 1;
      }
      failure := None;
    }

    /** `players.items()`: the entries in insertion order. */
    function Entries(): (s: seq<Entry>)
      reads this
      requires Valid()
      ensures |s| == |names|
      ensures forall i :: 0 <= i < |s| ==> s[i].name == names[i] && s[i].rating == ratings[names[i]]
    {
      Items(names, ratings)
    }
  }

  /** The four players of a match are all on the roster. */
  predicate OnRoster(roster: seq<string>, g: Game) {
    g.team1First in roster && g.team1Second in roster && g.team2First in roster && g.team2Second in roster
  }

  /**
   * What a run produces from a roster loaded at `start`: the ranking lines,
   * one per roster name, or the error that stopped it. It finishes exactly
   * when every match names only roster players and, if there are matches,
   * the scale is not zero; a missing player it reports is off the roster and
   * named by one of the matches.
   */
  function Results(cfg: Config, m: Math, start: real, roster: seq<string>, games: seq<Game>)
    : (r: Result<seq<Standing>, Error>)
    ensures r.Success? <==>
      (games == [] || cfg.t != 0) && forall i :: 0 <= i < |games| ==> OnRoster(roster, games[i])
    ensures r.Success? ==> |r.value| == |RosterOrder(roster)|
    ensures r.Failure? && r.error.MissingPlayer? ==>
      r.error.name !in roster &&
      exists i :: 0 <= i < |games| && r.error.name in
        [games[i].team1First, games[i].team1Second, games[i].team2First, games[i].team2Second]
  {
    var table := InitialRatings(roster, start);
    var o := Fold(cfg, m, table, games);
    FoldSucceeds(cfg, m, table, games);
    FoldMissingPlayer(cfg, m, table, games);
    LoadedPresent(roster, start, games);
    if o.failure.Some? then Failure(o.failure.value)
    else
      StartingTableListed(roster, start);
      Success(Standings(Items(RosterOrder(roster), o.table)))
  }

  /**
   * A finished run ranks exactly the roster's names; with one line per
   * distinct roster name, each name is ranked exactly once.
   */
  lemma ResultsRankRoster(cfg: Config, m: Math, start: real, roster: seq<string>, games: seq<Game>)
    ensures var r := Results(cfg, m, start, roster, games);
      r.Success? ==> forall name :: name in roster <==> exists i :: 0 <= i < |r.value| && r.value[i].name == name
  {
    var table := InitialRatings(roster, start);
    var o := Fold(cfg, m, table, games);
    if o.failure.None? {
      StartingTableListed(roster, start);
      StandingsNames(RosterOrder(roster), o.table);
      assert Results(cfg, m, start, roster, games) == Success(Standings(Items(RosterOrder(roster), o.table)));
    }
  }

  /** A match is fully present in the loaded table exactly when its players are on the roster. */
  lemma LoadedPresent(roster: seq<string>, start: real, games: seq<Game>)
    ensures forall i :: 0 <= i < |games| ==>
      (AllPresent(InitialRatings(roster, start), games[i]) <==> OnRoster(roster, games[i]))
  {
  }

  /** The run as written: the roster is loaded at the loader's default rating, whatever the -E setting says. */
  method RunAsWritten(cfg: Config, m: Math, roster: seq<string>, games: seq<Game>)
    returns (r: Result<seq<Standing>, Error>)
    ensures r == Results(cfg, m, DefaultStart as real, roster, games)
  {
    var players := new RatingTable.FromRoster(roster, DefaultStart);
    var failure := players.ProcessGames(cfg, m, games);
    if failure.Some? {
      return Failure(failure.value);
    }
    r := Success(Standings(players.Entries()));
  }

  /** The run with the -E setting honoured: the roster is loaded at the configured starting rating. */
  method Run(cfg: Config, m: Math, roster: seq<string>, games: seq<Game>)
    returns (r: Result<seq<Standing>, Error>)
    ensures r == Results(cfg, m, cfg.eloStart as real, roster, games)
  {
    var players := new RatingTable.FromRoster(roster, cfg.eloStart);
    var failure := players.ProcessGames(cfg, m, games);
    if failure.Some? {
      return Failure(failure.value);
    }
    r := Success(Standings(players.Entries()));
  }

  /** As written, a one-player roster with -E 1000 and no matches still ranks the player at 1500. */
  lemma AsWrittenIgnoresStartFlag(m: Math)
    ensures var cfg := Config(400, 128, 1000);
      Results(cfg, m, DefaultStart as real, ["A"], []) == Success([Standing(1, "A", 1500.0, Icon(0))]) &&
      Results(cfg, m, cfg.eloStart as real, ["A"], []) == Success([Standing(1, "A", 1000.0, Icon(0))])
  {
    var cfg := Config(400, 128, 1000);
    assert ["A"][..0] == [];
    assert RosterOrder(["A"]) == ["A"];
    forall start: real ensures Results(cfg, m, start, ["A"], []) == Success([Standing(1, "A", start, Icon(0))]) {
      var table := InitialRatings(["A"], start);
      assert table == map["A" := start];
      assert Fold(cfg, m, table, []) == Outcome(table, None);
      var items := Items(["A"], table);
      assert items == [Entry("A", start)];
      assert Ranked(items) == items by {
        assert items[1..] == [];
      }
      var lines := Standings(items);
      assert |lines| == 1 && lines[0] == Standing(1, "A", start, Icon(0));
      assert lines == [Standing(1, "A", start, Icon(0))];
    }
  }

  /** With the setting honoured and before any match, every roster name is ranked once, at the configured rating. */
  lemma RunStartsAtConfiguredRating(cfg: Config, m: Math, roster: seq<string>)
    ensures Results(cfg, m, cfg.eloStart as real, roster, []).Success?
    ensures var lines := Results(cfg, m, cfg.eloStart as real, roster, []).value;
      |lines| == |RosterOrder(roster)| &&
      (forall i :: 0 <= i < |lines| ==> lines[i].rating == cfg.eloStart as real && lines[i].name in roster) &&
      (forall name :: name in roster ==> exists i :: 0 <= i < |lines| && lines[i].name == name)
  {
    var start := cfg.eloStart as real;
    NoGamesResults(cfg, m, start, roster);
    UniformRanking(RosterOrder(roster), InitialRatings(roster, start), start);
  }

  /** With no matches the run ranks the starting table as loaded. */
  lemma NoGamesResults(cfg: Config, m: Math, start: real, roster: seq<string>)
    ensures Results(cfg, m, start, roster, [])
         == Success(Standings(Items(RosterOrder(roster), InitialRatings(roster, start))))
  {
    StartingTableListed(roster, start);
  }

  /** The ranking of listed names that all stand at `v`: every name once, all at `v`. */
  lemma UniformRanking(names: seq<string>, table: Table, v: real)
    requires forall k :: 0 <= k < |names| ==> names[k] in table && table[names[k]] == v
    ensures var lines := Standings(Items(names, table));
      |lines| == |names| &&
      (forall i :: 0 <= i < |lines| ==> lines[i].rating == v && lines[i].name in names) &&
      (forall name :: name in names ==> exists i :: 0 <= i < |lines| && lines[i].name == name)
  {
    StandingsFromListed(names, table, v);
    StandingsCover(names, table);
  }

  /** Every ranking line carries a listed name and, when all listed names stand at `v`, the rating `v`. */
  lemma StandingsFromListed(names: seq<string>, table: Table, v: real)
    requires forall k :: 0 <= k < |names| ==> names[k] in table && table[names[k]] == v
    ensures var lines := Standings(Items(names, table));
      forall i :: 0 <= i < |lines| ==> lines[i].rating == v && lines[i].name in names
  {
    StandingsListed(names, table);
  }

  /** Every ranking line carries a listed name with that name's rating in the table. */
  lemma StandingsListed(names: seq<string>, table: Table)
    requires forall k :: 0 <= k < |names| ==> names[k] in table
    ensures var lines := Standings(Items(names, table));
      forall i :: 0 <= i < |lines| ==> lines[i].name in names && lines[i].rating == table[lines[i].name]
  {
    var items := Items(names, table);
    var lines := Standings(items);
    var ranked := Ranked(items);
    forall i | 0 <= i < |lines| ensures lines[i].name in names && lines[i].rating == table[lines[i].name] {
      assert ranked[i] in multiset(items);
      var k :| 0 <= k < |items| && items[k] == ranked[i];
      assert names[k] == lines[i].name;
    }
  }

  /** The ranking lines name exactly the listed names. */
  lemma StandingsNames(names: seq<string>, table: Table)
    requires forall k :: 0 <= k < |names| ==> names[k] in table
    ensures var lines := Standings(Items(names, table));
      forall name :: name in names <==> exists i :: 0 <= i < |lines| && lines[i].name == name
  {
    StandingsListed(names, table);
    StandingsCover(names, table);
  }

  /** Every listed name gets a ranking line. */
  lemma StandingsCover(names: seq<string>, table: Table)
    requires forall k :: 0 <= k < |names| ==> names[k] in table
    ensures var lines := Standings(Items(names, table));
      forall name :: name in names ==> exists i :: 0 <= i < |lines| && lines[i].name == name
  {
    var items := Items(names, table);
    var lines := Standings(items);
    var ranked := Ranked(items);
    forall name | name in names ensures exists i :: 0 <= i < |lines| && lines[i].name == name {
      var k :| 0 <= k < |names| && names[k] == name;
      assert items[k] in multiset(ranked);
      var i :| 0 <= i < |ranked| && ranked[i] == items[k];
      assert lines[i].name == name;
    }
    assert lines == Standings(Items(names, table));
  }

  /** The sum of `n` listed ratings that are all `v` is `n * v`. */
  lemma {:induction false} TotalOfUniform(names: seq<string>, table: Table, v: real)
    requires forall i :: 0 <= i < |names| ==> names[i] in table && table[names[i]] == v
    ensures Total(names, table) == (|names| as real) * v
  {
    if names != [] {
      TotalOfUniform(names[1..], table, v);
    }
  }

  /**
   * A whole run keeps the total rating of the starting table, whether it
   * finishes or stops at a failing match.
   */
  lemma RunConservesTotal(cfg: Config, m: Math, start: real, roster: seq<string>, games: seq<Game>)
    ensures Lists(RosterOrder(roster), Fold(cfg, m, InitialRatings(roster, start), games).table)
    ensures Total(RosterOrder(roster), Fold(cfg, m, InitialRatings(roster, start), games).table)
         == Total(RosterOrder(roster), InitialRatings(roster, start))
  {
    StartingTableListed(roster, start);
    FoldZeroSum(cfg, m, RosterOrder(roster), InitialRatings(roster, start), games);
  }

  /**
   * A run from a table whose `n` listed players all stand at `v` ends, or
   * stops, with those players' ratings summing to `n * v`. The roster loader
   * gives such a table: `RosterOrder(roster)` lists `InitialRatings(roster,
   * start)`, every entry at `start` (Roster.StartingTableListed).
   */
  lemma RunKeepsStartingTotal(cfg: Config, m: Math, names: seq<string>, table: Table, v: real, games: seq<Game>)
    requires Lists(names, table)
    requires forall name :: name in table ==> table[name] == v
    ensures Lists(names, Fold(cfg, m, table, games).table)
    ensures Total(names, Fold(cfg, m, table, games).table) == (|names| as real) * v
  {
    FoldZeroSum(cfg, m, names, table, games);
    TotalOfUniform(names, table, v);
  }

  /** The four updates of `A B C D` on four distinct players who all stand at `v`. */
  lemma SettleFourPlayers(v: real, d: real)
    ensures Settle(map["A" := v, "B" := v, "C" := v, "D" := v], Game("A", "B", "C", "D", 1, 0), d)
         == map["A" := v + d, "B" := v + d, "C" := v - d, "D" := v - d]
  {
    var table := map["A" := v, "B" := v, "C" := v, "D" := v];
    var r := Settle(table, Game("A", "B", "C", "D", 1, 0), d);
    var expected := map["A" := v + d, "B" := v + d, "C" := v - d, "D" := v - d];
    assert r.Keys == expected.Keys;
    assert forall name :: name in r ==> r[name] == expected[name];
  }

  /**
   * The worked example: four players at 1500, one match A B C D 1 0, scale
   * 400, factor 128. Both pooled ratings are 1500, the expectation is one
   * half, and the change is 64.
   */
  lemma EvenMatchScenario(m: Math)
    requires UnitAtZero(m) && LogInverse(m)
    ensures Fold(Defaults, m, InitialRatings(["A", "B", "C", "D"], 1500.0), [Game("A", "B", "C", "D", 1, 0)])
         == Outcome(map["A" := 1564.0, "B" := 1564.0, "C" := 1436.0, "D" := 1436.0], None)
  {
    FourPlayersLoaded();
    EvenMatchApplied(m);
    SingleMatchFold(Defaults, m, map["A" := 1500.0, "B" := 1500.0, "C" := 1500.0, "D" := 1500.0],
                    Game("A", "B", "C", "D", 1, 0),
                    map["A" := 1564.0, "B" := 1564.0, "C" := 1436.0, "D" := 1436.0]);
  }

  /** A run of one match that succeeds ends with that match's table. */
  lemma SingleMatchFold(cfg: Config, m: Math, table: Table, g: Game, next: Table)
    requires ApplyGame(cfg, m, table, g) == Success(next)
    ensures Fold(cfg, m, table, [g]) == Outcome(next, None)
  {
    FoldSnoc(cfg, m, table, [], g);
    assert [] + [g] == [g];
  }

  /** The example's one match, applied to the four players at 1500. */
  lemma EvenMatchApplied(m: Math)
    requires UnitAtZero(m) && LogInverse(m)
    ensures ApplyGame(Defaults, m, map["A" := 1500.0, "B" := 1500.0, "C" := 1500.0, "D" := 1500.0],
                      Game("A", "B", "C", "D", 1, 0))
         == Success(map["A" := 1564.0, "B" := 1564.0, "C" := 1436.0, "D" := 1436.0])
  {
    var table := map["A" := 1500.0, "B" := 1500.0, "C" := 1500.0, "D" := 1500.0];
    var g := Game("A", "B", "C", "D", 1, 0);
    EvenMatchDelta(m);
    SettleFourPlayers(1500.0, 64.0);
    assert ApplyGame(Defaults, m, table, g) == Success(Settle(table, g, 64.0));
  }

  /** Loading the roster A, B, C, D at 1500 gives the four players at 1500. */
  lemma FourPlayersLoaded()
    ensures InitialRatings(["A", "B", "C", "D"], 1500.0)
         == map["A" := 1500.0, "B" := 1500.0, "C" := 1500.0, "D" := 1500.0]
  {
    var table := InitialRatings(["A", "B", "C", "D"], 1500.0);
    var expected := map["A" := 1500.0, "B" := 1500.0, "C" := 1500.0, "D" := 1500.0];
    assert table.Keys == expected.Keys;
  }

  /** Four players at 1500, score 1 to 0, default settings: the change is 64. */
  lemma EvenMatchDelta(m: Math)
    requires UnitAtZero(m) && LogInverse(m)
    ensures GameDelta(Defaults, m, map["A" := 1500.0, "B" := 1500.0, "C" := 1500.0, "D" := 1500.0],
                      Game("A", "B", "C", "D", 1, 0)) == 64.0
  {
    EvenTeamsDelta(m, 1500.0, 1, 0, 400, 128);
  }

  /**
   * The same example ranked: A, B at 1564 then C, D at 1436, each tie in
   * roster order, medals on the first three.
   */
  lemma EvenMatchRanking(m: Math)
    requires UnitAtZero(m) && LogInverse(m)
    ensures Results(Defaults, m, 1500.0, ["A", "B", "C", "D"], [Game("A", "B", "C", "D", 1, 0)])
         == Success([Standing(1, "A", 1564.0, Icon(0)), Standing(2, "B", 1564.0, Icon(1)),
                     Standing(3, "C", 1436.0, Icon(2)), Standing(4, "D", 1436.0, Icon(3))])
  {
    EvenMatchScenario(m);
    ResultsOfFinishedRun(Defaults, m, 1500.0, ["A", "B", "C", "D"], [Game("A", "B", "C", "D", 1, 0)],
                         map["A" := 1564.0, "B" := 1564.0, "C" := 1436.0, "D" := 1436.0]);
    FourPlayersOrder();
    FinalStandings();
  }

  /** A run that finishes ranks its final table in the roster's key order. */
  lemma ResultsOfFinishedRun(cfg: Config, m: Math, start: real, roster: seq<string>, games: seq<Game>, final: Table)
    requires Fold(cfg, m, InitialRatings(roster, start), games) == Outcome(final, None)
    ensures forall i :: 0 <= i < |RosterOrder(roster)| ==> RosterOrder(roster)[i] in final
    ensures Results(cfg, m, start, roster, games) == Success(Standings(Items(RosterOrder(roster), final)))
  {
  }

  /** The final table of the example, ranked. */
  lemma FinalStandings()
    ensures Standings(Items(["A", "B", "C", "D"], map["A" := 1564.0, "B" := 1564.0, "C" := 1436.0, "D" := 1436.0]))
         == [Standing(1, "A", 1564.0, Icon(0)), Standing(2, "B", 1564.0, Icon(1)),
             Standing(3, "C", 1436.0, Icon(2)), Standing(4, "D", 1436.0, Icon(3))]
  {
    FinalItems();
    FinalRanked();
    StandingsOfFour([Entry("A", 1564.0), Entry("B", 1564.0), Entry("C", 1436.0), Entry("D", 1436.0)]);
  }

  /** Four entries that the sort leaves in place, ranked. */
  lemma StandingsOfFour(items: seq<Entry>)
    requires |items| == 4 && Ranked(items) == items
    ensures Standings(items) == [Standing(1, items[0].name, items[0].rating, Icon(0)),
                                 Standing(2, items[1].name, items[1].rating, Icon(1)),
                                 Standing(3, items[2].name, items[2].rating, Icon(2)),
                                 Standing(4, items[3].name, items[3].rating, Icon(3))]
  {
    var lines := Standings(items);
    assert lines[0] == Standing(1, items[0].name, items[0].rating, Icon(0));
    assert lines[1] == Standing(2, items[1].name, items[1].rating, Icon(1));
    assert lines[2] == Standing(3, items[2].name, items[2].rating, Icon(2));
    assert lines[3] == Standing(4, items[3].name, items[3].rating, Icon(3));
  }

  /** The final items are already best first, so the stable sort leaves them in place. */
  lemma FinalRanked()
    ensures var items := [Entry("A", 1564.0), Entry("B", 1564.0), Entry("C", 1436.0), Entry("D", 1436.0)];
      Ranked(items) == items
  {
    var items := [Entry("A", 1564.0), Entry("B", 1564.0), Entry("C", 1436.0), Entry("D", 1436.0)];
    assert NonIncreasing(items);
    RankedSorted(items);
  }

  /** The final table's items in roster order. */
  lemma FinalItems()
    ensures Items(["A", "B", "C", "D"], map["A" := 1564.0, "B" := 1564.0, "C" := 1436.0, "D" := 1436.0])
         == [Entry("A", 1564.0), Entry("B", 1564.0), Entry("C", 1436.0), Entry("D", 1436.0)]
  {
    var names := ["A", "B", "C", "D"];
    var s := Items(names, map["A" := 1564.0, "B" := 1564.0, "C" := 1436.0, "D" := 1436.0]);
    assert s[0] == Entry("A", 1564.0) && s[1] == Entry("B", 1564.0);
    assert s[2] == Entry("C", 1436.0) && s[3] == Entry("D", 1436.0);
  }

  /** The roster A, B, C, D keeps its order as the table's key order. */
  lemma FourPlayersOrder()
    ensures RosterOrder(["A", "B", "C", "D"]) == ["A", "B", "C", "D"]
  {
    var roster := ["A", "B", "C", "D"];
    assert Distinct(roster);
    RosterOrderDistinct(roster);
  }

  /**
   * The order of the matches matters. Starting from the four players at
   * 1500, the match A B C D 1 0 followed by the return match A B C D 0 1
   * leaves A at another rating than the two matches the other way round
   * (given 10^0 = 1 and log10(10^x) = x).
   */
  lemma PathDependence(m: Math)
    requires UnitAtZero(m) && LogInverse(m)
    ensures var start := InitialRatings(["A", "B", "C", "D"], 1500.0);
      var won, lost := Game("A", "B", "C", "D", 1, 0), Game("A", "B", "C", "D", 0, 1);
      Fold(Defaults, m, start, [won, lost]).table["A"] != Fold(Defaults, m, start, [lost, won]).table["A"]
  {
    FourPlayersLoaded();
    OrderMatters(m, "A", "B", "C", "D", 1500.0);
  }

  /**
   * Four distinct players at `v`, default settings: a win of `a, b` over
   * `c, d` then the lost return match leaves `a` elsewhere than the two
   * matches the other way round.
   */
  lemma OrderMatters(m: Math, a: string, b: string, c: string, d: string, v: real)
    requires UnitAtZero(m) && LogInverse(m)
    requires a != b && a != c && a != d && b != c && b != d && c != d
    ensures var even := map[a := v, b := v, c := v, d := v];
      var won, lost := Game(a, b, c, d, 1, 0), Game(a, b, c, d, 0, 1);
      Fold(Defaults, m, even, [won, lost]).table[a] != Fold(Defaults, m, even, [lost, won]).table[a]
  {
    WonThenLost(m, a, b, c, d, v);
    LostThenWon(m, a, b, c, d, v);
    OrderChangesA(m, v);
  }

  /** A win then the lost return match: `a` ends where the return match moves it from 64 up. */
  lemma WonThenLost(m: Math, a: string, b: string, c: string, d: string, v: real)
    requires UnitAtZero(m) && LogInverse(m)
    requires a != b && a != c && a != d && b != c && b != d && c != d
    ensures Fold(Defaults, m, map[a := v, b := v, c := v, d := v], [Game(a, b, c, d, 1, 0), Game(a, b, c, d, 0, 1)]).table[a]
         == (v + 64.0) + EloDiffTeam(m, v + 64.0, v + 64.0, v - 64.0, v - 64.0, 0, 1, 400, 128)
  {
    var ahead := map[a := v + 64.0, b := v + 64.0, c := v - 64.0, d := v - 64.0];
    var lost := Game(a, b, c, d, 0, 1);
    EvenPairsApplied(m, a, b, c, d, v, 1, 0, 64.0);
    FirstOfPairs(Defaults, m, a, b, c, d, v + 64.0, v - 64.0, 0, 1);
    TwoMatchFold(Defaults, m, map[a := v, b := v, c := v, d := v], Game(a, b, c, d, 1, 0), lost, ahead, ApplyGame(Defaults, m, ahead, lost).value);
  }

  /** A loss then the won return match: `a` ends where the return match moves it from 64 down. */
  lemma LostThenWon(m: Math, a: string, b: string, c: string, d: string, v: real)
    requires UnitAtZero(m) && LogInverse(m)
    requires a != b && a != c && a != d && b != c && b != d && c != d
    ensures Fold(Defaults, m, map[a := v, b := v, c := v, d := v], [Game(a, b, c, d, 0, 1), Game(a, b, c, d, 1, 0)]).table[a]
         == (v - 64.0) + EloDiffTeam(m, v - 64.0, v - 64.0, v + 64.0, v + 64.0, 1, 0, 400, 128)
  {
    var behind := map[a := v - 64.0, b := v - 64.0, c := v + 64.0, d := v + 64.0];
    var won := Game(a, b, c, d, 1, 0);
    EvenPairsApplied(m, a, b, c, d, v, 0, 1, -64.0);
    FirstOfPairs(Defaults, m, a, b, c, d, v - 64.0, v + 64.0, 1, 0);
    TwoMatchFold(Defaults, m, map[a := v, b := v, c := v, d := v], Game(a, b, c, d, 0, 1), won, behind, ApplyGame(Defaults, m, behind, won).value);
  }

  /** Two pairs at `x` and `y`: the first player of team 1 moves by the teams' Elo change. */
  lemma FirstOfPairs(cfg: Config, m: Math, a: string, b: string, c: string, d: string, x: real, y: real, s1: int, s2: int)
    requires cfg.t != 0
    requires a != b && a != c && a != d && b != c && b != d && c != d
    ensures ApplyGame(cfg, m, map[a := x, b := x, c := y, d := y], Game(a, b, c, d, s1, s2)).Success?
    ensures ApplyGame(cfg, m, map[a := x, b := x, c := y, d := y], Game(a, b, c, d, s1, s2)).value[a]
         == x + EloDiffTeam(m, x, x, y, y, s1, s2, cfg.t, cfg.k)
  {
    var table := map[a := x, b := x, c := y, d := y];
    var g := Game(a, b, c, d, s1, s2);
    RatingAfter(cfg, m, table, g, a);
    PairsDelta(cfg, m, a, b, c, d, x, y, s1, s2);
  }

  /** Four distinct players at `v`, default settings: team 1 moves by `delta`, team 2 by `-delta`. */
  lemma EvenPairsApplied(m: Math, a: string, b: string, c: string, d: string, v: real, s1: int, s2: int, delta: real)
    requires UnitAtZero(m) && LogInverse(m)
    requires a != b && a != c && a != d && b != c && b != d && c != d
    requires s1 + s2 != 0 && delta == 128.0 * (WinFraction(s1, s2) - 0.5)
    ensures ApplyGame(Defaults, m, map[a := v, b := v, c := v, d := v], Game(a, b, c, d, s1, s2))
         == Success(map[a := v + delta, b := v + delta, c := v - delta, d := v - delta])
  {
    var table := map[a := v, b := v, c := v, d := v];
    var g := Game(a, b, c, d, s1, s2);
    EvenTeamsDelta(m, v, s1, s2, 400, 128);
    PairsDelta(Defaults, m, a, b, c, d, v, v, s1, s2);
    assert GameDelta(Defaults, m, table, g) == delta;
    ApplyGameSettles(Defaults, m, table, g);
    SettlePairs(a, b, c, d, v, delta, s1, s2);
  }

  /** The four updates on four distinct players who all stand at `v`. */
  lemma SettlePairs(a: string, b: string, c: string, d: string, v: real, delta: real, s1: int, s2: int)
    requires a != b && a != c && a != d && b != c && b != d && c != d
    ensures Settle(map[a := v, b := v, c := v, d := v], Game(a, b, c, d, s1, s2), delta)
         == map[a := v + delta, b := v + delta, c := v - delta, d := v - delta]
  {
    var r := Settle(map[a := v, b := v, c := v, d := v], Game(a, b, c, d, s1, s2), delta);
    var expected := map[a := v + delta, b := v + delta, c := v - delta, d := v - delta];
    assert r.Keys == expected.Keys;
    assert forall name :: name in r ==> r[name] == expected[name];
  }

  /** `a, b` at `x` against `c, d` at `y`: the change is that of the four ratings. */
  lemma PairsDelta(cfg: Config, m: Math, a: string, b: string, c: string, d: string, x: real, y: real, s1: int, s2: int)
    requires cfg.t != 0
    requires a != b && a != c && a != d && b != c && b != d && c != d
    ensures GameDelta(cfg, m, map[a := x, b := x, c := y, d := y], Game(a, b, c, d, s1, s2))
         == EloDiffTeam(m, x, x, y, y, s1, s2, cfg.t, cfg.k)
  {
    var table := map[a := x, b := x, c := y, d := y];
    assert table[a] == x && table[b] == x && table[c] == y && table[d] == y;
  }

  /** One player's rating after a successful match. */
  lemma RatingAfter(cfg: Config, m: Math, table: Table, g: Game, name: string)
    requires ApplyGame(cfg, m, table, g).Success? && name in table
    ensures ApplyGame(cfg, m, table, g).value[name] == table[name] + Shift(g, name, GameDelta(cfg, m, table, g))
  {
  }

  /** Two matches in a row, both succeeding: the run ends with the second one's table. */
  lemma TwoMatchFold(cfg: Config, m: Math, table: Table, g: Game, h: Game, mid: Table, next: Table)
    requires ApplyGame(cfg, m, table, g) == Success(mid)
    requires ApplyGame(cfg, m, mid, h) == Success(next)
    ensures Fold(cfg, m, table, [g, h]) == Outcome(next, None)
  {
    FoldPair(cfg, m, table, g, h);
    SingleMatchFold(cfg, m, table, g, mid);
    SingleMatchFold(cfg, m, mid, h, next);
  }

  /** Two matches are the first one, then, if it did not fail, the second on its table. */
  lemma FoldPair(cfg: Config, m: Math, table: Table, g: Game, h: Game)
    ensures Fold(cfg, m, table, [g, h]) ==
      var first := Fold(cfg, m, table, [g]);
      if first.failure.None? then Fold(cfg, m, first.table, [h]) else first
  {
    FoldAppend(cfg, m, table, [g], [h]);
    assert [g] + [h] == [g, h];
  }

  /**
   * A pair 64 ahead losing the return match does not end where a pair 64
   * behind winning it does: v + 64 - 128 / (1 + 10^-0.32) against
   * v + 64 - 128 / (1 + 10^0.32).
   */
  lemma OrderChangesA(m: Math, v: real)
    requires LogInverse(m)
    ensures (v + 64.0) + EloDiffTeam(m, v + 64.0, v + 64.0, v - 64.0, v - 64.0, 0, 1, 400, 128)
         != (v - 64.0) + EloDiffTeam(m, v - 64.0, v - 64.0, v + 64.0, v + 64.0, 1, 0, 400, 128)
  {
    var high, low := AvgElo(m, v + 64.0, v + 64.0, 400), AvgElo(m, v - 64.0, v - 64.0, 400);
    assert high == v + 64.0 && low == v - 64.0;
    var x := ((v - 64.0) - (v + 64.0)) / 400.0;
    var y := ((v + 64.0) - (v - 64.0)) / 400.0;
    assert x == -0.32 && y == 0.32;
    assert AvgWin(m, v + 64.0, v - 64.0, 400) == 1.0 / (1.0 + m.pow10(x));
    assert AvgWin(m, v - 64.0, v + 64.0, 400) == 1.0 / (1.0 + m.pow10(y));
    DistinctShares(m, x, y);
  }

  /** Where log10 undoes 10^x, two different exponents give two different expected shares. */
  lemma DistinctShares(m: Math, x: real, y: real)
    requires LogInverse(m) && x != y
    ensures 1.0 / (1.0 + m.pow10(x)) != 1.0 / (1.0 + m.pow10(y))
  {
    assert m.log10(m.pow10(x)) == x && m.log10(m.pow10(y)) == y;
    var q1, q2 := m.pow10(x), m.pow10(y);
    assert q1 > 0.0 && q2 > 0.0 && q1 != q2;
  }
}
