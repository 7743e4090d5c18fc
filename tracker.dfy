/**
 * `ESRTracker`'s state and the submit callbacks that change it. Each
 * successful change is followed by `save_data`, modelled as `disk` becoming
 * the rows of the new state; a rejected change leaves everything, the disk
 * included, as it was.
 */
module Tracker {
  import opened Wrappers
  import opened OrderedMaps
  import opened Entities
  import opened Persistence
  import Text

  /** What the callback reports in its result label. */
  datatype Outcome =
    | Added(name: string)     // "Team '...' added successfully!", "Game '...' added successfully!"
    | Removed(name: string)   // "Team '...' removed successfully!", "Game '...' removed successfully!"
    | Recorded                // "Match recorded successfully!"
    | Blank                   // "Please enter a team name.", "Please enter a game title."
    | AlreadyExists           // "Team already exists!", "Game already exists!"
    | NotFound                // "Error: Team not found.", "Error: Game not found."
    | FieldsMissing           // "Please fill out all fields."

  /** The initial score of a new team: `int(team_score)` when the stripped
      entry `isdigit()`, otherwise 0. */
  function InitialScore(score: string): (n: nat)
    ensures Text.IsDigits(score) ==> Text.ParseInt(score) == Some(n)
    ensures !Text.IsDigits(score) ==> n == 0
  {
    if Text.IsDigits(score) then Text.DigitsValue(score) else 0
  }

  /** Typing a number's decimal digits gives that number as initial score. */
  lemma InitialScoreOfDigits(n: nat)
    ensures InitialScore(Text.NatToString(n)) == n
  {
    Text.NatToStringRoundTrip(n);
  }

  /** An entry that is not all digits, the empty one included, gives 0. */
  lemma InitialScoreDefault(score: string)
    requires !Text.IsDigits(score)
    ensures InitialScore(score) == 0
  {
  }

  /** Whether `t` gets the point for `m`: it is the winner and played. */
  predicate WonBy(m: Match, t: string) {
    t == m.winner && (t == m.team1 || t == m.team2)
  }

  /** `self.teams[team] += 1` raises KeyError unless the credited team is in
      the map. */
  predicate CanCredit(teams: Teams, m: Match) {
    (m.winner == m.team1 || m.winner == m.team2) ==> m.winner in teams.vals
  }

  /** The score update of `submit_match_result`: team1 gets the point if it
      is the winner, otherwise team2 if it is; no one else changes. */
  function Credit(teams: Teams, m: Match): (r: Teams)
    requires teams.Valid() && CanCredit(teams, m)
    ensures r.Valid() && r.keys == teams.keys && r.vals.Keys == teams.vals.Keys
    ensures forall t :: t in r.vals ==> r.vals[t] == teams.vals[t] + (if WonBy(m, t) then 1 else 0)
  {
    if m.winner == m.team1 then teams.Put(m.team1, teams.vals[m.team1] + 1)
    else if m.winner == m.team2 then teams.Put(m.team2, teams.vals[m.team2] + 1)
    else teams
  }

  /** Crediting a run of matches one by one. */
  function CreditAll(teams: Teams, ms: seq<Match>): (r: Teams)
    requires teams.Valid()
    requires forall i :: 0 <= i < |ms| ==> ms[i].winner in teams.vals
    ensures r.Valid() && r.keys == teams.keys && r.vals.Keys == teams.vals.Keys
  {
    if ms == [] then teams
    else
      var p := ms[..|ms| - 1];
      var prev := CreditAll(teams, p);
      Credit(prev, ms[|ms| - 1])
  }

  /** How many of the matches name `t` as winner. */
  function WinsOf(ms: seq<Match>, t: string): nat {
    if ms == [] then 0
    else WinsOf(ms[..|ms| - 1], t) + (if ms[|ms| - 1].winner == t then 1 else 0)
  }

  /** When every winner is one of its match's teams, recording the matches
      raises each team's score by the number of matches it won. */
  lemma {:induction false} CreditAllCountsWins(teams: Teams, ms: seq<Match>, t: string)
    requires teams.Valid()
    requires forall i :: 0 <= i < |ms| ==> ms[i].winner in teams.vals
    requires forall i :: 0 <= i < |ms| ==> ms[i].winner == ms[i].team1 || ms[i].winner == ms[i].team2
    requires t in teams.vals
    ensures CreditAll(teams, ms).vals[t] == teams.vals[t] + WinsOf(ms, t)
  {
    if ms != [] {
      var p := ms[..|ms| - 1];
      assert forall i :: 0 <= i < |p| ==> p[i] == ms[i];
      CreditAllCountsWins(teams, p, t);
    }
  }

  class ESRTracker {
    var teams: Teams
    var games: Games
    var matches: seq<Match>
    /** The three CSV files as `save_data` last wrote them. */
    var disk: Disk

    ghost predicate Valid()
      reads this
    {
      teams.Valid() && games.Valid()
    }

    function Snapshot(): (s: Store)
      reads this
      ensures s.teams == teams && s.games == games && s.matches == matches
    {
      Store(teams, games, matches)
    }

    /** The state right after `load_data` succeeded on `d`. */
    constructor (d: Disk, s: Store)
      requires s.Valid()
      ensures Valid() && Snapshot() == s && disk == d
    {
      teams := s.teams;
      games := s.games;
      matches := s.matches;
      disk := d;
    }

    /** `__init__` up to the UI: load the three files; an exception escaping
        `load_data` ends the program. */
    static method Launch(d: Disk) returns (r: Result<ESRTracker, LoadError>)
      ensures r.Err? <==> Load(d).Err?
      ensures r.Err? ==> r.error == Load(d).error
      ensures r.Ok? ==> fresh(r.value) && r.value.Valid()
                        && r.value.Snapshot() == Load(d).value && r.value.disk == d
    {
      var loaded := LoadData(d);
      if loaded.Err? {
        return Err(loaded.error);
      }
      var t := new ESRTracker(d, loaded.value);
      r := Ok(t);
    }

    /** `save_data`: all three files rewritten from the current state. */
    method SaveData()
      requires Valid()
      modifies this`disk
      ensures disk == Save(Snapshot())
    {
      disk := Persistence.SaveData(Store(teams, games, matches));
    }

    /** `submit_new_team`. */
    method AddTeam(nameEntry: string, scoreEntry: string) returns (o: Outcome)
      requires Valid()
      modifies this
      ensures Valid()
      ensures var name := Text.Strip(nameEntry);
        if name == [] then o == Blank && unchanged(this)
        else if name in old(teams.vals) then o == AlreadyExists && unchanged(this)
        else
          && o == Added(name)
          && teams == old(teams).Put(name, InitialScore(Text.Strip(scoreEntry)))
          && teams.keys == old(teams.keys) + [name]
          && teams.vals == old(teams.vals)[name := InitialScore(Text.Strip(scoreEntry))]
          && games == old(games) && matches == old(matches)
          && disk == Save(Snapshot())
    {
      var name := Text.Strip(nameEntry);
      var score := Text.Strip(scoreEntry);
      if name == [] {
        return Blank;
      }
      if name in teams.vals {
        return AlreadyExists;
      }
      if Text.IsDigits(score) {
        teams := teams.Put(name, Text.DigitsValue(score));
      } else {
        teams := teams.Put(name, 0);
      }
      SaveData();
      o := Added(name);
    }

    /** `remove_selected_team`, given the selected row's name. */
    method RemoveTeam(name: string) returns (o: Outcome)
      requires Valid()
      modifies this
      ensures Valid()
      ensures
        if name !in old(teams.vals) then o == NotFound && unchanged(this)
        else
          && o == Removed(name)
          && teams == old(teams).Remove(name)
          && teams.keys == Without(old(teams.keys), name)
          && teams.vals == old(teams.vals) - {name}
          && games == old(games) && matches == old(matches)
          && disk == Save(Snapshot())
    {
      if name !in teams.vals {
        return NotFound;
      }
      teams := teams.Remove(name);
      SaveData();
      o := Removed(name);
    }

    /** `submit_new_game`. */
    method AddGame(titleEntry: string) returns (o: Outcome)
      requires Valid()
      modifies this
      ensures Valid()
      ensures var title := Text.Strip(titleEntry);
        if title == [] then o == Blank && unchanged(this)
        else if title in old(games.vals) then o == AlreadyExists && unchanged(this)
        else
          && o == Added(title)
          && games.keys == old(games.keys) + [title]
          && games.vals == old(games.vals)[title := ()]
          && teams == old(teams) && matches == old(matches)
          && disk == Save(Snapshot())
    {
      var title := Text.Strip(titleEntry);
      if title == [] {
        return Blank;
      }
      if title in games.vals {
        return AlreadyExists;
      }
      games := games.Put(title, ());
      SaveData();
      o := Added(title);
    }

    /** `remove_selected_game`, given the selected row's title. */
    method RemoveGame(title: string) returns (o: Outcome)
      requires Valid()
      modifies this
      ensures Valid()
      ensures
        if title !in old(games.vals) then o == NotFound && unchanged(this)
        else
          && o == Removed(title)
          && games.keys == Without(old(games.keys), title)
          && games.vals == old(games.vals) - {title}
          && teams == old(teams) && matches == old(matches)
          && disk == Save(Snapshot())
    {
      if title !in games.vals {
        return NotFound;
      }
      games := games.Remove(title);
      SaveData();
      o := Removed(title);
    }

    /** `submit_match_result`: with every field filled in, append the match
        and credit the winner. */
    method RecordMatch(date: string, game: string, team1: string, team2: string, winner: string)
      returns (o: Outcome)
      requires Valid()
      requires date != [] && game != [] && team1 != [] && team2 != [] && winner != []
               ==> CanCredit(teams, Match(date, game, team1, team2, winner))
      modifies this
      ensures Valid()
      ensures var m := Match(date, game, team1, team2, winner);
        if date == [] || game == [] || team1 == [] || team2 == [] || winner == [] then
          o == FieldsMissing && unchanged(this)
        else
          && o == Recorded
          && matches == old(matches) + [m]
          && teams == Credit(old(teams), m)
          && teams.keys == old(teams.keys)
          && (forall t :: t in teams.vals <==> t in old(teams.vals))
          && (forall t :: t in teams.vals ==> teams.vals[t] == old(teams.vals[t]) + (if WonBy(m, t) then 1 else 0))
          && games == old(games)
          && disk == Save(Snapshot())
    {
      if date == [] || game == [] || team1 == [] || team2 == [] || winner == [] {
        return FieldsMissing;
      }
      ghost var before := teams;
      matches := matches + [Match(date, game, team1, team2, winner)];
      if winner == team1 {
        teams := teams.Put(team1, teams.vals[team1] + 1);
      } else if winner == team2 {
        teams := teams.Put(team2, teams.vals[team2] + 1);
      }
      assert teams == Credit(before, Match(date, game, team1, team2, winner));
      SaveData();
      o := Recorded;
    }
  }

  /** Adding a team under a fresh name and then removing that name gives the
      team map back exactly, order included; games and matches never move. */
  method AddThenRemoveTeam(tracker: ESRTracker, nameEntry: string, scoreEntry: string)
    returns (added: Outcome, removed: Outcome)
    requires tracker.Valid()
    requires Text.Strip(nameEntry) != [] && Text.Strip(nameEntry) !in tracker.teams.vals
    modifies tracker
    ensures tracker.Valid()
    ensures added == Added(Text.Strip(nameEntry)) && removed == Removed(Text.Strip(nameEntry))
    ensures tracker.teams == old(tracker.teams)
    ensures tracker.games == old(tracker.games) && tracker.matches == old(tracker.matches)
  {
    var name := Text.Strip(nameEntry);
    ghost var before := tracker.teams;
    added := tracker.AddTeam(nameEntry, scoreEntry);
    removed := tracker.RemoveTeam(name);
    PutFreshThenRemove(before, name, InitialScore(Text.Strip(scoreEntry)));
  }
}
