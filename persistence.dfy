/**
 * `load_data` / `save_data` at the level of CSV rows: a file is a sequence of
 * rows, a row a sequence of fields, and a missing file is `None`.
 */
module Persistence {
  import opened Wrappers
  import opened OrderedMaps
  import opened Entities
  import Text

  type Row = seq<string>

  /** The contents of `database/teams.csv`, `games.csv` and `matches.csv`;
      `None` where opening the file raises FileNotFoundError. */
  datatype Disk = Disk(teams: Option<seq<Row>>, games: Option<seq<Row>>, matches: Option<seq<Row>>)

  datatype Resource = TeamsFile | GamesFile | MatchesFile

  /** The exceptions `load_data` lets escape: a row too short to index
      (IndexError) or a score `int` cannot read (ValueError). Rows are
      numbered from 0. */
  datatype LoadError =
    | ShortRow(resource: Resource, row: nat)
    | BadScore(row: nat, text: string)

  // ---------------------------------------------------------------- save

  function TeamRow(item: (string, int)): Row {
    [item.0, Text.IntToString(item.1)]
  }

  function MatchRow(m: Match): Row {
    [m.date, m.game, m.team1, m.team2, m.winner]
  }

  /** `writer.writerow([team, score])` for each item of `self.teams`. */
  function EncodeTeams(t: Teams): (rows: seq<Row>)
    requires t.Valid()
    ensures |rows| == |t.keys|
  {
    var items := t.Items();
    seq(|items|, i requires 0 <= i < |items| => TeamRow(items[i]))
  }

  /** `writer.writerow([game])` for each key of `self.games`. */
  function EncodeGames(g: Games): (rows: seq<Row>)
    ensures |rows| == |g.keys|
  {
    seq(|g.keys|, i requires 0 <= i < |g.keys| => [g.keys[i]])
  }

  /** One five-field row per match, in list order. */
  function EncodeMatches(ms: seq<Match>): (rows: seq<Row>)
    ensures |rows| == |ms|
  {
    seq(|ms|, i requires 0 <= i < |ms| => MatchRow(ms[i]))
  }

  /** What `save_data` leaves on disk: all three files, overwritten in full. */
  function Save(s: Store): (d: Disk)
    requires s.Valid()
    ensures d.teams.Some? && d.games.Some? && d.matches.Some?
  {
    Disk(Some(EncodeTeams(s.teams)), Some(EncodeGames(s.games)), Some(EncodeMatches(s.matches)))
  }

  method WriteTeams(t: Teams) returns (rows: seq<Row>)
    requires t.Valid()
    ensures rows == EncodeTeams(t)
  {
    rows := [];
    var i := 0;
    while i < |t.keys|
      invariant 0 <= i <= |t.keys|
      invariant rows == EncodeTeams(t)[..i]
    {
      var name := t.keys[i];
      rows := rows + [[name, Text.IntToString(t.vals[name])]];
      i := i + 1;
    }
  }

  method WriteGames(g: Games) returns (rows: seq<Row>)
    ensures rows == EncodeGames(g)
  {
    rows := [];
    var i := 0;
    while i < |g.keys|
      invariant 0 <= i <= |g.keys|
      invariant rows == EncodeGames(g)[..i]
    {
      rows := rows + [[g.keys[i]]];
      i := i + 1;
    }
  }

  method WriteMatches(ms: seq<Match>) returns (rows: seq<Row>)
    ensures rows == EncodeMatches(ms)
  {
    rows := [];
    var i := 0;
    while i < |ms|
      invariant 0 <= i <= |ms|
      invariant rows == EncodeMatches(ms)[..i]
    {
      var m := ms[i];
      rows := rows + [[m.date, m.game, m.team1, m.team2, m.winner]];
      i := i + 1;
    }
  }

  /** `save_data`. */
  method SaveData(s: Store) returns (d: Disk)
    requires s.Valid()
    ensures d == Save(s)
  {
    var t := WriteTeams(s.teams);
    var g := WriteGames(s.games);
    var m := WriteMatches(s.matches);
    d := Disk(Some(t), Some(g), Some(m));
  }

  // ---------------------------------------------------------------- load

  /** `self.teams[row[0]] = int(row[1])`. */
  function TeamStep(t: Teams, row: Row, i: nat): (r: Result<Teams, LoadError>)
    ensures r.Ok? <==> |row| >= 2 && Text.ParseInt(row[1]).Some?
    ensures r.Ok? ==> r.value == t.Put(row[0], Text.ParseInt(row[1]).value)
    ensures |row| < 2 ==> r == Err(ShortRow(TeamsFile, i))
    ensures |row| >= 2 && r.Err? ==> r == Err(BadScore(i, row[1]))
  {
    if |row| < 2 then Err(ShortRow(TeamsFile, i))
    else match Text.ParseInt(row[1])
      case None => Err(BadScore(i, row[1]))
      case Some(n) => Ok(t.Put(row[0], n))
  }

  /** `self.games[row[0]] = []`. */
  function GameStep(g: Games, row: Row, i: nat): (r: Result<Games, LoadError>)
    ensures r.Ok? <==> |row| >= 1
    ensures r.Ok? ==> r.value == g.Put(row[0], ())
    ensures r.Err? ==> r == Err(ShortRow(GamesFile, i))
  {
    if |row| < 1 then Err(ShortRow(GamesFile, i))
    else Ok(g.Put(row[0], ()))
  }

  /** `self.matches.append({...})` from the first five fields. */
  function MatchStep(ms: seq<Match>, row: Row, i: nat): (r: Result<seq<Match>, LoadError>)
    ensures r.Ok? <==> |row| >= 5
    ensures r.Ok? ==> |r.value| == |ms| + 1 && r.value[..|ms|] == ms
    ensures r.Ok? ==> r.value[|ms|] == Match(row[0], row[1], row[2], row[3], row[4])
    ensures r.Err? ==> r == Err(ShortRow(MatchesFile, i))
  {
    if |row| < 5 then Err(ShortRow(MatchesFile, i))
    else Ok(ms + [Match(row[0], row[1], row[2], row[3], row[4])])
  }

  /** A team row written by `save_data` reads back as the entry it was
      written from. */
  lemma TeamRowReadBack(t: Teams, name: string, score: int, i: nat)
    ensures TeamStep(t, TeamRow((name, score)), i) == Ok(t.Put(name, score))
  {
    Text.IntToStringRoundTrip(score);
  }

  /** The same for a game row. */
  lemma GameRowReadBack(g: Games, title: string, i: nat)
    ensures GameStep(g, [title], i) == Ok(g.Put(title, ()))
  {
  }

  /** The same for a match row. */
  lemma MatchRowReadBack(ms: seq<Match>, m: Match, i: nat)
    ensures MatchStep(ms, MatchRow(m), i) == Ok(ms + [m])
  {
    var r := MatchStep(ms, MatchRow(m), i);
    assert r.value == r.value[..|ms|] + [r.value[|ms|]];
  }

  /** Reading rows in order into a collection, stopping at the first row
      that raises. */
  function DecodeRows<V>(rows: seq<Row>, init: V, step: (V, Row, nat) -> Result<V, LoadError>): Result<V, LoadError>
  {
    if rows == [] then Ok(init)
    else match DecodeRows(rows[..|rows| - 1], init, step)
      case Err(e) => Err(e)
      case Ok(v) => step(v, rows[|rows| - 1], |rows| - 1)
  }

  /** Once a row raises, the rows after it are never read. */
  lemma {:induction false} DecodeRowsStops<V>(rows: seq<Row>, n: nat, init: V, step: (V, Row, nat) -> Result<V, LoadError>)
    requires n <= |rows| && DecodeRows(rows[..n], init, step).Err?
    ensures DecodeRows(rows, init, step) == DecodeRows(rows[..n], init, step)
  {
    if n < |rows| {
      assert rows[..|rows| - 1][..n] == rows[..n];
      DecodeRowsStops(rows[..|rows| - 1], n, init, step);
    } else {
      assert rows[..n] == rows;
    }
  }

  /** The row-reading loop that all three parts of `load_data` run. */
  method LoadRows<V>(rows: seq<Row>, init: V, step: (V, Row, nat) -> Result<V, LoadError>) returns (r: Result<V, LoadError>)
    ensures r == DecodeRows(rows, init, step)
  {
    var acc := init;
    var i := 0;
    while i < |rows|
      invariant 0 <= i <= |rows|
      invariant DecodeRows(rows[..i], init, step) == Ok(acc)
    {
      assert rows[..i + 1][..i] == rows[..i];
      var next := step(acc, rows[i], i);
      if next.Err? {
        DecodeRowsStops(rows, i + 1, init, step);
        return next;
      }
      acc := next.value;
      i := i + 1;
    }
    assert rows[..i] == rows;
    r := Ok(acc);
  }

  lemma {:induction false} TeamRowsValid(rows: seq<Row>)
    ensures var r := DecodeRows(rows, Empty(), TeamStep); r.Ok? ==> r.value.Valid()
  {
    if rows != [] {
      TeamRowsValid(rows[..|rows| - 1]);
    }
  }

  lemma {:induction false} GameRowsValid(rows: seq<Row>)
    ensures var r := DecodeRows(rows, Empty(), GameStep); r.Ok? ==> r.value.Valid()
  {
    if rows != [] {
      GameRowsValid(rows[..|rows| - 1]);
    }
  }

  /** The teams part of `load_data`; a missing file leaves `{}`. */
  function DecodeTeams(file: Option<seq<Row>>): (r: Result<Teams, LoadError>)
    ensures r.Ok? ==> r.value.Valid()
    ensures file.None? ==> r == Ok(Empty())
  {
    match file
    case None => Ok(Empty())
    case Some(rows) => TeamRowsValid(rows); DecodeRows(rows, Empty(), TeamStep)
  }

  /** The games part of `load_data`; a missing file leaves `{}`. */
  function DecodeGames(file: Option<seq<Row>>): (r: Result<Games, LoadError>)
    ensures r.Ok? ==> r.value.Valid()
    ensures file.None? ==> r == Ok(Empty())
  {
    match file
    case None => Ok(Empty())
    case Some(rows) => GameRowsValid(rows); DecodeRows(rows, Empty(), GameStep)
  }

  /** The matches part of `load_data`; a missing file leaves `[]`. */
  function DecodeMatches(file: Option<seq<Row>>): (r: Result<seq<Match>, LoadError>)
    ensures file.None? ==> r == Ok([])
  {
    match file
    case None => Ok([])
    case Some(rows) => DecodeRows(rows, [], MatchStep)
  }

  /** `load_data`: teams, then games, then matches; the first exception
      aborts the load. */
  function Load(d: Disk): (r: Result<Store, LoadError>)
    ensures r.Ok? ==> r.value.Valid()
  {
    var teams :- DecodeTeams(d.teams);
    var games :- DecodeGames(d.games);
    var matches :- DecodeMatches(d.matches);
    Ok(Store(teams, games, matches))
  }

  method LoadFile<V>(file: Option<seq<Row>>, init: V, step: (V, Row, nat) -> Result<V, LoadError>) returns (r: Result<V, LoadError>)
    ensures file.None? ==> r == Ok(init)
    ensures file.Some? ==> r == DecodeRows(file.value, init, step)
  {
    if file.None? {
      return Ok(init);
    }
    r := LoadRows(file.value, init, step);
  }

  /** `load_data`, row by row. */
  method LoadData(d: Disk) returns (r: Result<Store, LoadError>)
    ensures r == Load(d)
  {
    var teams := LoadFile(d.teams, Empty(), TeamStep);
    if teams.Err? {
      return Err(teams.error);
    }
    var games := LoadFile(d.games, Empty(), GameStep);
    if games.Err? {
      return Err(games.error);
    }
    var matches := LoadFile(d.matches, [], MatchStep);
    if matches.Err? {
      return Err(matches.error);
    }
    r := Ok(Store(teams.value, games.value, matches.value));
  }

  // ---------------------------------------------------------- round trip

  lemma {:induction false} TeamsRoundTripPrefix(t: Teams, n: nat)
    requires t.Valid() && n <= |t.keys|
    ensures DecodeRows(EncodeTeams(t)[..n], Empty(), TeamStep) == Ok(Prefix(t, n))
  {
    var rows := EncodeTeams(t);
    if n == 0 {
      assert Prefix(t, 0) == Empty();
    } else {
      TeamsRoundTripPrefix(t, n - 1);
      assert rows[..n][..n - 1] == rows[..n - 1];
      var k := t.keys[n - 1];
      assert rows[n - 1] == TeamRow((k, t.vals[k]));
      TeamRowReadBack(Prefix(t, n - 1), k, t.vals[k], n - 1);
      PrefixStep(t, n - 1);
    }
  }

  lemma {:induction false} GamesRoundTripPrefix(g: Games, n: nat)
    requires g.Valid() && n <= |g.keys|
    ensures DecodeRows(EncodeGames(g)[..n], Empty(), GameStep) == Ok(Prefix(g, n))
  {
    var rows := EncodeGames(g);
    if n == 0 {
      assert Prefix(g, 0) == Empty();
    } else {
      GamesRoundTripPrefix(g, n - 1);
      assert rows[..n][..n - 1] == rows[..n - 1];
      var k := g.keys[n - 1];
      assert rows[n - 1] == [k];
      assert g.vals[k] == ();
      PrefixStep(g, n - 1);
    }
  }

  lemma {:induction false} MatchesRoundTripPrefix(ms: seq<Match>, n: nat)
    requires n <= |ms|
    ensures DecodeRows(EncodeMatches(ms)[..n], [], MatchStep) == Ok(ms[..n])
  {
    if n > 0 {
      MatchesRoundTripPrefix(ms, n - 1);
      var rows := EncodeMatches(ms);
      assert rows[..n][..n - 1] == rows[..n - 1];
      assert ms[..n] == ms[..n - 1] + [ms[n - 1]];
    }
  }

  /** Loading what `save_data` wrote gives back the same store: team names,
      scores and order, game titles in order, matches in order. */
  lemma SaveThenLoad(s: Store)
    requires s.Valid()
    ensures Load(Save(s)) == Ok(s)
  {
    TeamsRoundTripPrefix(s.teams, |s.teams.keys|);
    GamesRoundTripPrefix(s.games, |s.games.keys|);
    MatchesRoundTripPrefix(s.matches, |s.matches|);
    assert EncodeTeams(s.teams)[..|s.teams.keys|] == EncodeTeams(s.teams);
    assert EncodeGames(s.games)[..|s.games.keys|] == EncodeGames(s.games);
    assert EncodeMatches(s.matches)[..|s.matches|] == EncodeMatches(s.matches);
    assert s.matches[..|s.matches|] == s.matches;
    PrefixAll(s.teams);
    PrefixAll(s.games);
  }

  /** With every file missing, the store starts empty. */
  lemma LoadNothing()
    ensures Load(Disk(None, None, None)) == Ok(Store(Empty(), Empty(), []))
  {
  }
}
