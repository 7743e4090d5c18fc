# ESR Tracker: a verified model of its store and scoreboards

The E-Sports Results Tracker (`esr_tracker.py`) is a Tkinter desktop
program. It keeps three collections in memory: teams with their points,
games, and the match results recorded so far. It mirrors them in three CSV
files, `database/teams.csv`, `database/games.csv` and `database/matches.csv`.
This project models, in Dafny, everything the program does with that data
behind its windows:

- **Mutations.** These are the submit callbacks that add or remove a team
  or a game, and the one that records a match and credits the winner. Each
  successful change is followed by `save_data`.
- **Queries.** These are the read-only views: the last five matches by
  date, the overall scoreboard, and the per-game scoreboard.
- **Storage.** These are `load_data` and `save_data`, at the level of CSV
  rows.

Modules follow the program's structure:

| file | module | contents |
|---|---|---|
| `wrappers.dfy` | `Wrappers` | `Option` and `Result` |
| `text.dfy` | `Text` | `str.strip`, `str.isdigit`, `int(...)` and `str(...)` on ASCII text |
| `ordered_map.dfy` | `OrderedMaps` | a Python `dict`: a map plus its insertion order |
| `entities.dfy` | `Entities` | a match record, `Teams`, `Games` and the whole store |
| `dates.dfy` | `Dates` | `datetime.strptime(s, '%Y-%m-%d')` and the order of dates |
| `sorting.dfy` | `Sorting` | `sorted(..., key=..., reverse=True)` as a stable insertion sort |
| `persistence.dfy` | `Persistence` | `load_data` and `save_data` over rows of the three files |
| `scoreboard.dfy` | `Scoreboard` | the three views |
| `tracker.dfy` | `Tracker` | class `ESRTracker`: the state and the submit callbacks |

The `ESRTracker` class holds:

- the fields `teams`, `games` and `matches`;
- a `disk` field for what the three files last held.

Every callback method states its whole new state, on both paths:

- on success, the new collections are stated and `disk` becomes
  `Save(Snapshot())`;
- on rejection, `unchanged(this)` holds.

Python's `dict` is modelled as an `OrderedMap`:

- its `keys` sequence keeps insertion order;
- assignment to an existing key keeps that key's place;
- `del` drops the key and leaves every other key in order.

This matters because the order of `items()` is what the scoreboards show
for teams with equal scores.

`sorted(..., reverse=True)` is modelled as a stable descending insertion
sort. The lemma `Sorting.SortDescFacts` proves four things about it:

- it is a permutation of its input;
- it is ordered by non-increasing key;
- it keeps the input order among elements with equal keys;
- its output has the same length as its input.

A date key is the parsed (year, month, day) triple. The sort uses the
integer `Ordinal = year*10000 + month*100 + day`, and `Dates.OrdinalOrder`
proves that this integer orders valid dates exactly as the lexicographic
order of the triples does.

Three behaviours of the code shape the model:

- `save_data` opens each file directly for writing. It is not an atomic
  replace. Here saving is one step that sets all three files.
- `load_data` only tolerates a missing file, which leaves that collection
  empty. A row too short to index, or a score `int()` rejects, raises out of
  `load_data`, and so out of start-up. `Persistence.Load` returns those
  cases as `Err(ShortRow(..))` and `Err(BadScore(..))`.
- A team's initial score is `int(score)` when the stripped entry is all
  digits, and 0 otherwise, the empty entry included.

## Model

| member | source | states |
|---|---|---|
| Text.Strip | esr_tracker.py:174-175 | `.strip()` returns the contiguous slice of the entry that remains after cutting whitespace from both ends; everything cut is whitespace, and the result neither starts nor ends with whitespace |
| Text.StripIdempotent | esr_tracker.py:174-175 | stripping an already stripped name changes nothing |
| Text.NatToStringRoundTrip | esr_tracker.py:66 | `str(n)` of a score is a non-empty string of digits with no leading zero whose decimal value is `n` |
| Text.ParseInt | esr_tracker.py:33 | `int(text)` succeeds exactly when the text is an optional sign and digits, surrounded only by tab-to-carriage-return and space; a string of digits gives its decimal value, and a negative result means a leading `-` |
| Text.SeparatorRejected | esr_tracker.py:33 | a score field with a 0x1C separator before its digits is rejected, while one padded with tab and space is read |
| Text.IntToStringRoundTrip | esr_tracker.py:33 | `int(str(n)) == n` for every integer score, negative ones included, so a saved score reads back unchanged |
| Tracker.InitialScore | esr_tracker.py:179-182 | an all-digit entry gives exactly `int(team_score)`, and any other entry gives 0 |
| Tracker.InitialScoreOfDigits | esr_tracker.py:179-180 | an entry that is the decimal text of `n` gives the new team `n` points |
| Tracker.InitialScoreDefault | esr_tracker.py:181-182 | an entry that is not all digits, the blank one included, gives 0 points |
| OrderedMaps.OrderedMap.Put | esr_tracker.py:180 | `d[k] = v` maps `k` to `v`; a new key goes to the end of the order and an existing key keeps its place; a valid map stays valid |
| OrderedMaps.OrderedMap.Remove | esr_tracker.py:221 | `del d[k]` removes exactly `k` from the map and the order, and every other key keeps its value and relative order |
| OrderedMaps.OrderedMap.Items | esr_tracker.py:65 | `items()` lists every key once, in insertion order, paired with its value |
| OrderedMaps.PutFreshThenRemove | esr_tracker.py:216-222 | inserting a fresh key and deleting it again restores the map, order included |
| Tracker.AddThenRemoveTeam | esr_tracker.py:173-222 | adding a team under a fresh name and then removing it leaves the team map exactly as before, and games and matches untouched |
| Tracker.ESRTracker.AddTeam | esr_tracker.py:173-189 | a blank stripped name gives `Blank` and a known name gives `AlreadyExists`, both with nothing changed; otherwise the name is appended with its initial score, games and matches are untouched, and the files hold the new state |
| Tracker.ESRTracker.RemoveTeam | esr_tracker.py:216-228 | an unknown name gives `NotFound` with nothing changed; otherwise exactly that team leaves the map and the order, and the files hold the new state |
| Tracker.ESRTracker.AddGame | esr_tracker.py:268-279 | the same contract as `AddTeam`, on the game map, with teams and matches untouched |
| Tracker.ESRTracker.RemoveGame | esr_tracker.py:304-316 | the same contract as `RemoveTeam`, on the game map |
| Tracker.ESRTracker.RecordMatch | esr_tracker.py:366-391 | an empty field gives `FieldsMissing` with nothing changed; otherwise the match is appended, team1 gets a point if it won, else team2 if it won, no other score or key changes, games are untouched and the files hold the new state |
| Tracker.Credit | esr_tracker.py:383-386 | crediting a match keeps the team keys and their order, adds one point to the winner when it is one of the two teams, and leaves every other score as it was |
| Tracker.CreditAllCountsWins | esr_tracker.py:383-386 | after a run of recorded matches whose winners played, each team's score is its initial score plus the number of matches it won |
| Tracker.ESRTracker.Launch | esr_tracker.py:7-22 | start-up succeeds exactly when `load_data` does, and then the store is what the files decode to; otherwise the error is the one `load_data` raises |
| Tracker.ESRTracker.SaveData | esr_tracker.py:61-84 | after `save_data`, the three files are the rows of the current teams, games and matches |
| Persistence.WriteTeams | esr_tracker.py:62-66 | the write loop produces one `[team, str(score)]` row per team, in dict order |
| Persistence.WriteGames | esr_tracker.py:68-72 | the write loop produces one `[game]` row per game, in dict order |
| Persistence.WriteMatches | esr_tracker.py:74-84 | the write loop produces one five-field row per match, in list order |
| Persistence.SaveData | esr_tracker.py:61-84 | `save_data` writes all three files, each the encoding of its collection |
| Persistence.TeamStep | esr_tracker.py:33 | a team row succeeds exactly when it has two fields and the second is an integer, and then sets that team's score; a short row is `ShortRow` and a bad score is `BadScore` |
| Persistence.GameStep | esr_tracker.py:42 | a game row succeeds exactly when it has a field, and then inserts that title |
| Persistence.MatchStep | esr_tracker.py:51-57 | a match row succeeds exactly when it has five fields, and then appends the match built from them, in field order |
| Persistence.TeamRowReadBack | esr_tracker.py:33 | reading back a row that `save_data` wrote for a team restores that team's score |
| Persistence.GameRowReadBack | esr_tracker.py:42 | reading back a row that `save_data` wrote for a game restores that game |
| Persistence.MatchRowReadBack | esr_tracker.py:51-57 | reading back a row that `save_data` wrote for a match appends that same match |
| Persistence.LoadRows | esr_tracker.py:30-33 | the read loop gives the same result as folding the row step over the rows, stopping at the first row that raises |
| Persistence.DecodeRowsStops | esr_tracker.py:30-33 | once a row raises, no later row has any effect |
| Persistence.DecodeTeams | esr_tracker.py:28-35 | a missing teams file gives `{}`; a decoded team map is always a valid ordered map |
| Persistence.DecodeGames | esr_tracker.py:37-44 | a missing games file gives `{}`; a decoded game map is always valid |
| Persistence.DecodeMatches | esr_tracker.py:46-59 | a missing matches file gives `[]` |
| Persistence.Load | esr_tracker.py:27-59 | a successful load always yields a valid store |
| Persistence.LoadData | esr_tracker.py:27-59 | the three read loops, file by file, give exactly `Load` of the files |
| Persistence.LoadNothing | esr_tracker.py:27-59 | with all three files missing, the store starts empty |
| Persistence.SaveThenLoad | esr_tracker.py:27-84 | loading what `save_data` wrote gives back the same teams, scores, games, matches and orders |
| Dates.ParseDate | esr_tracker.py:436 | a date that parses is a real calendar date in years 1 to 9999; a failure names the rejected text |
| Dates.FormatThenParse | esr_tracker.py:436 | the `%Y-%m-%d` text of every valid date parses back to that date |
| Dates.ParseThenFormat | esr_tracker.py:436 | a text that parses is exactly the canonical text of its date, so two different texts never parse to the same date |
| Dates.OrdinalOrder | esr_tracker.py:436 | on valid dates the integer sort key orders exactly as `datetime` does, and equal keys mean equal dates |
| Scoreboard.MatchKeyOrder | esr_tracker.py:436 | the sort key of a match, its parsed date, orders matches exactly as their dates, and equal keys mean equal dates |
| Sorting.SortDescFacts | esr_tracker.py:467 | `sorted(..., reverse=True)` is a permutation of its input, ordered by non-increasing key, and keeps the input order of equal keys |
| Sorting.LeftOutNoLarger | esr_tracker.py:439 | an element of a descending sequence that is not among its first `n` has a key no larger than any of those `n` |
| Scoreboard.RecentMatches | esr_tracker.py:436-439 | the view fails exactly when some stored date does not parse, and it then names the first such date in list order |
| Scoreboard.RecentMatchesSize | esr_tracker.py:439 | the view shows `min(5, number of matches)` matches, every one of them stored |
| Scoreboard.RecentMatchesOrder | esr_tracker.py:436 | the shown matches run from the latest date to the earliest |
| Scoreboard.RecentMatchesLatest | esr_tracker.py:436-439 | no stored match left out of the view has a later date than a shown one |
| Scoreboard.RecentMatchesStable | esr_tracker.py:436-439 | for each date, the shown matches are the first stored matches of that date, in stored order |
| Scoreboard.RecentMatchesEmpty | esr_tracker.py:436-439 | with no matches recorded, the view shows none |
| Scoreboard.OverallStandings | esr_tracker.py:467 | the scoreboard lists every (team, points) pair once, highest points first, with equal points in insertion order |
| Scoreboard.PlayedGames | esr_tracker.py:492-494 | the games offered are exactly those of some recorded match, and none are offered when no match is recorded |
| Scoreboard.PlayedGameHasStandings | esr_tracker.py:492-516 | a game offered for selection has at least one match and at least one team on its scoreboard |
| Scoreboard.ForGame | esr_tracker.py:507 | the filter adds nothing, and every match it keeps is of the selected game |
| Scoreboard.ForGameCount | esr_tracker.py:507 | the filter keeps every match of the selected game, as often as it is stored, and no other match |
| Scoreboard.ForGameAppend | esr_tracker.py:507 | the filter keeps stored order: filtering a concatenation is the concatenation of the filtered parts |
| Scoreboard.ForGameSingle | esr_tracker.py:507 | a single match is kept exactly when it is of the selected game |
| Scoreboard.TallyMeaning | esr_tracker.py:510-516 | the tally lists each team that appears in a slot, in order of first appearance, with its number of winning slots |
| Scoreboard.CountEffect | esr_tracker.py:513-516 | one visit of the inner loop appends a team seen for the first time with 0 points, adds a point when that team is the winner, and leaves every other entry and its place unchanged |
| Scoreboard.CountTeam | esr_tracker.py:513-516 | the statements of the inner loop body compute exactly that visit |
| Scoreboard.CountMatch | esr_tracker.py:512-516 | the inner loop over `[team1, team2]` extends the tally by that match's two slots |
| Scoreboard.GameScores | esr_tracker.py:507-516 | the nested loops compute the tally of the selected game's matches, in their meaning above |
| Scoreboard.GameStandings | esr_tracker.py:503-519 | the per-game scoreboard is that tally's items, highest first, a permutation that keeps the tally's order among equal counts |
| Scoreboard.TallyTeams | esr_tracker.py:510-514 | the teams on a game's scoreboard are exactly those that played one of its matches |
| Scoreboard.SlotWinsBound | esr_tracker.py:510-516 | when no match pits a team against itself, a team's count is the number of its matches it won, and so at most the number it played |
| Scoreboard.SelfMatchCountsTwice | esr_tracker.py:512-516 | a match naming one team as both players and the winner counts two points for it |
| Scoreboard.OtherGameIgnored | esr_tracker.py:507 | recording a match of another game leaves a game's scoreboard unchanged |

## Left out

- The Tkinter windows, menus, buttons, labels and Treeviews are left out. Each callback is modelled from the values it reads out of
  its widgets to the `Outcome` its result label reports.
- File I/O is modelled at the level of CSV rows. A file is `None` when
  missing and `Some(rows)` otherwise. CSV quoting and the other I/O errors
  (permissions, a full disk) are not modelled.
- `save_data` is one step here. The source overwrites the three files in
  turn, so a crash between them can leave them inconsistent.
- `Text.IsSpace`, `Text.IsIntSpace` and `Text.IsDigits` classify ASCII
  only. Python's `str.isspace`, `str.isdigit` and `int()` also accept
  Unicode whitespace and digits, and `int()` accepts `_` between digits.
- Text.ParseInt: CPython 3.11 and later reject, by default, a decimal
  text longer than 4300 digits, raising `ValueError`. The model reads
  numerals of any length. A score entry that long makes `submit_new_team`
  raise and add nothing, but `Tracker.ESRTracker.AddTeam` adds the team. A
  score that long in `teams.csv` makes `load_data` raise, but the model
  loads it.
- `Dates.ParseDate` accepts only the zero-padded ten-character form.
  `strptime` also accepts one-digit months and days, such as `2024-1-5`.
- Tracker.ESRTracker.RecordMatch: `self.teams[team] += 1` raises
  `KeyError` when the selected winner is not a known team. The method
  requires that the credited team be present rather than modelling that
  exception.
- Tracker.ESRTracker.RemoveTeam: the selected name is taken as stored.
  The source reads it back from the Treeview with
  `tree.item(...)['values'][0]`, which returns any name that `int()`
  accepts (such as "2048", "+7", "-7" or "1_0") as a number. The source
  then reports "Error: Team not found." and changes nothing, but the model
  removes the team. It also leaves out the `IndexError` that
  `tree.selection()[0]` raises when nothing is selected.
- Tracker.ESRTracker.RemoveGame: the same two gaps as `RemoveTeam`, for
  game titles. For a title such as "2048", the source reports "Error: Game
  not found." and changes nothing, but the model removes the game.
- Nothing checks that a recorded match's game and teams exist, nor that
  the winner is one of the two teams. The model, like the source, leaves
  this unchecked. In this case `Credit` gives no one a point.
- The game list in the per-game view is alphabetised. The default
  selection is an arbitrary element of a Python set. Both are display
  choices and are not modelled.
- `Scoreboard.RecentMatches` returns an error where the source's
  `strptime` raises `ValueError` out of the view.
