/** The three collections the tracker keeps in memory. */
module Entities {
  import opened OrderedMaps

  /** One recorded match, the five fields of a `matches` entry. */
  datatype Match = Match(date: string, game: string, team1: string, team2: string, winner: string)

  /** `self.teams`: team name to score, in insertion order. */
  type Teams = OrderedMap<int>

  /** `self.games`: game titles in insertion order; every value is the empty
      list `[]`, written here as `()`. */
  type Games = OrderedMap<()>

  /** A snapshot of the store: teams, games and matches. */
  datatype Store = Store(teams: Teams, games: Games, matches: seq<Match>) {
    ghost predicate Valid() { teams.Valid() && games.Valid() }
  }
}
