/**
 * The read-only queries: the last five matches, the overall scoreboard and
 * the per-game scoreboard.
 */
module Scoreboard {
  import opened Wrappers
  import opened OrderedMaps
  import opened Entities
  import opened Dates
  import opened Sorting

  // ------------------------------------------------------ last 5 matches

  /** How many matches `display_last_5_matches` shows. */
  const RecentCount: nat := 5

  /** The sort key of a match: the integer key of its parsed date. It is
      only used once every date has parsed. */
  function MatchKey(m: Match): int {
    match ParseDate(m.date)
    case Ok(d) => Ordinal(d)
    case Err(_) => 0
  }

  /** On matches whose dates parse, the sort key orders them as their
      dates, and equal keys mean equal dates. */
  lemma MatchKeyOrder(a: Match, b: Match)
    requires ParseDate(a.date).Ok? && ParseDate(b.date).Ok?
    ensures MatchKey(a) <= MatchKey(b) <==> DateLe(DateOf(a), DateOf(b))
    ensures MatchKey(a) == MatchKey(b) <==> DateOf(a) == DateOf(b)
  {
    OrdinalOrder(DateOf(a), DateOf(b));
  }

  function DateOf(m: Match): Date
    requires ParseDate(m.date).Ok?
  {
    ParseDate(m.date).value
  }

  predicate AllDated(ms: seq<Match>) {
    forall i :: 0 <= i < |ms| ==> ParseDate(ms[i].date).Ok?
  }

  /** The position of the first match, from `start` on, whose date strptime
      rejects, or `|ms|` when there is none: `sorted` computes every key, in
      list order, before it compares any. */
  function FirstInvalid(ms: seq<Match>, start: nat): (r: nat)
    requires start <= |ms|
    ensures start <= r <= |ms|
    ensures forall j :: start <= j < r ==> ParseDate(ms[j].date).Ok?
    ensures r < |ms| ==> ParseDate(ms[r].date).Err?
    decreases |ms| - start
  {
    if start == |ms| || ParseDate(ms[start].date).Err? then start
    else FirstInvalid(ms, start + 1)
  }

  /** `sorted(self.matches, key=<date>, reverse=True)[:5]`; an unparseable
      date makes the whole query fail, naming the first such date. */
  function RecentMatches(ms: seq<Match>): (r: Result<seq<Match>, DateError>)
    ensures r.Err? <==> !AllDated(ms)
    ensures r.Err? ==> exists i :: 0 <= i < |ms| && r.error == InvalidDate(ms[i].date)
                                    && ParseDate(ms[i].date).Err? && AllDated(ms[..i])
  {
    var i := FirstInvalid(ms, 0);
    if i < |ms| then
      assert AllDated(ms[..i]);
      Err(InvalidDate(ms[i].date))
    else
      var n := if |ms| < RecentCount then |ms| else RecentCount;
      SortDescFacts(ms, MatchKey);
      Ok(SortDesc(ms, MatchKey)[..n])
  }

  /** The last-matches list is at most five matches, all from the store. */
  lemma RecentMatchesSize(ms: seq<Match>)
    requires AllDated(ms)
    ensures RecentMatches(ms).Ok?
    ensures var r := RecentMatches(ms).value;
      && |r| == (if |ms| < RecentCount then |ms| else RecentCount)
      && multiset(r) <= multiset(ms)
      && AllDated(r)
  {
    var s := SortDesc(ms, MatchKey);
    SortDescFacts(ms, MatchKey);
    var n := if |ms| < RecentCount then |ms| else RecentCount;
    assert s == s[..n] + s[n..];
    forall i | 0 <= i < n ensures ParseDate(s[..n][i].date).Ok? {
      assert s[i] in multiset(ms);
    }
  }

  /** The last-matches list runs from the latest date down. */
  lemma RecentMatchesOrder(ms: seq<Match>)
    requires AllDated(ms)
    ensures RecentMatches(ms).Ok? && AllDated(RecentMatches(ms).value)
    ensures var r := RecentMatches(ms).value;
      forall i, j :: 0 <= i < j < |r| ==> DateLe(DateOf(r[j]), DateOf(r[i]))
  {
    RecentMatchesSize(ms);
    var r := RecentMatches(ms).value;
    SortDescFacts(ms, MatchKey);
    forall i, j | 0 <= i < j < |r| ensures DateLe(DateOf(r[j]), DateOf(r[i])) {
      OrdinalOrder(DateOf(r[j]), DateOf(r[i]));
    }
  }

  /** Matches of one date appear in the list in their stored order: for each
      date key, the shown matches are the first ones of the store. */
  lemma RecentMatchesStable(ms: seq<Match>)
    requires AllDated(ms)
    ensures RecentMatches(ms).Ok?
    ensures var r := RecentMatches(ms).value;
      forall k :: IsPrefix(WithKey(r, MatchKey, k), WithKey(ms, MatchKey, k))
  {
    var s := SortDesc(ms, MatchKey);
    SortDescFacts(ms, MatchKey);
    var n := if |ms| < RecentCount then |ms| else RecentCount;
    forall k ensures IsPrefix(WithKey(s[..n], MatchKey, k), WithKey(ms, MatchKey, k)) {
      WithKeyPrefix(s, n, MatchKey, k);
    }
  }

  /** No match left out of the list is later than any match in it. */
  lemma RecentMatchesLatest(ms: seq<Match>)
    requires AllDated(ms)
    ensures RecentMatches(ms).Ok? && AllDated(RecentMatches(ms).value)
    ensures var r := RecentMatches(ms).value;
      forall m, i :: m in multiset(ms) - multiset(r) && 0 <= i < |r| ==> DateLe(DateOf(m), DateOf(r[i]))
  {
    RecentMatchesSize(ms);
    var s := SortDesc(ms, MatchKey);
    SortDescFacts(ms, MatchKey);
    var n := if |ms| < RecentCount then |ms| else RecentCount;
    var r := s[..n];
    LeftOutNoLarger(s, n, MatchKey);
    forall m, i | m in multiset(ms) - multiset(r) && 0 <= i < |r| ensures DateLe(DateOf(m), DateOf(r[i])) {
      DatedMember(ms, m);
      MatchKeyOrder(m, r[i]);
    }
  }

  lemma DatedMember(ms: seq<Match>, m: Match)
    requires AllDated(ms) && m in multiset(ms)
    ensures ParseDate(m.date).Ok?
  {
    var j :| 0 <= j < |ms| && ms[j] == m;
  }

  /** With no matches recorded there is nothing to show. */
  lemma RecentMatchesEmpty()
    ensures RecentMatches([]) == Ok([])
  {
  }

  // --------------------------------------------------- overall scoreboard

  function Score(item: (string, int)): int { item.1 }

  /** `sorted(self.teams.items(), key=lambda x: x[1], reverse=True)`: every
      (name, score) pair of the team map, highest score first, teams with
      equal scores in insertion order. */
  function OverallStandings(t: Teams): (r: seq<(string, int)>)
    requires t.Valid()
    ensures |r| == |t.keys|
    ensures multiset(r) == multiset(t.Items())
    ensures SortedDesc(r, Score)
    ensures forall k :: WithKey(r, Score, k) == WithKey(t.Items(), Score, k)
  {
    SortDescFacts(t.Items(), Score);
    SortDesc(t.Items(), Score)
  }

  // -------------------------------------------------- per-game scoreboard

  /** `set(match['game'] for match in self.matches)`: the games offered for
      selection, none exactly when no match is recorded. */
  function PlayedGames(ms: seq<Match>): (r: set<string>)
    ensures forall g :: g in r <==> exists i :: 0 <= i < |ms| && ms[i].game == g
    ensures r == {} <==> ms == []
  {
    var r := set i | 0 <= i < |ms| :: ms[i].game;
    assert ms != [] ==> ms[0].game in r;
    r
  }

  /** `[match for match in self.matches if match['game'] == selected_game]` */
  function ForGame(ms: seq<Match>, g: string): (r: seq<Match>)
    ensures |r| <= |ms|
    ensures forall i :: 0 <= i < |r| ==> r[i].game == g
  {
    if ms == [] then []
    else
      var last := ms[|ms| - 1];
      ForGame(ms[..|ms| - 1], g) + (if last.game == g then [last] else [])
  }

  /** The filter keeps every match of the selected game as often as it is
      stored, and no other match. */
  lemma {:induction false} ForGameCount(ms: seq<Match>, g: string)
    ensures forall m :: multiset(ForGame(ms, g))[m] == if m.game == g then multiset(ms)[m] else 0
  {
    if ms != [] {
      var p := ms[..|ms| - 1];
      assert ms == p + [ms[|ms| - 1]];
      ForGameCount(p, g);
    }
  }

  /** The filter keeps stored order: filtering a concatenation filters
      each part. */
  lemma {:induction false} ForGameAppend(a: seq<Match>, b: seq<Match>, g: string)
    ensures ForGame(a + b, g) == ForGame(a, g) + ForGame(b, g)
  {
    if b == [] {
      assert a + b == a;
    } else {
      var ab, p, last := a + b, b[..|b| - 1], b[|b| - 1];
      assert ab[..|ab| - 1] == a + p;
      assert ab[|ab| - 1] == last;
      var tail := if last.game == g then [last] else [];
      assert ForGame(ab, g) == ForGame(a + p, g) + tail;
      assert ForGame(b, g) == ForGame(p, g) + tail;
      ForGameAppend(a, p, g);
    }
  }

  /** A single match is kept exactly when it is of the selected game. */
  lemma ForGameSingle(m: Match, g: string)
    ensures ForGame([m], g) == if m.game == g then [m] else []
  {
    assert [m][..0] == [];
  }

  /** One iteration of `for team in [match['team1'], match['team2']]`: the
      team in that slot and the match's winner. */
  datatype Slot = Slot(team: string, winner: string)

  function MatchSlots(m: Match): seq<Slot> {
    [Slot(m.team1, m.winner), Slot(m.team2, m.winner)]
  }

  /** Every (match, slot) pair, in the order the nested loops visit them. */
  function Slots(ms: seq<Match>): (r: seq<Slot>)
    ensures |r| == 2 * |ms|
  {
    if ms == [] then [] else Slots(ms[..|ms| - 1]) + MatchSlots(ms[|ms| - 1])
  }

  function SlotTeams(slots: seq<Slot>): (r: seq<string>)
    ensures |r| == |slots|
    ensures forall i :: 0 <= i < |slots| ==> r[i] == slots[i].team
  {
    if slots == [] then [] else SlotTeams(slots[..|slots| - 1]) + [slots[|slots| - 1].team]
  }

  /** The distinct elements of `s` in order of first appearance. */
  function FirstAppearance(s: seq<string>): (r: seq<string>)
    ensures Distinct(r)
    ensures forall x :: x in r <==> x in s
  {
    if s == [] then []
    else
      var p := FirstAppearance(s[..|s| - 1]);
      assert forall x :: x in s <==> x in s[..|s| - 1] || x == s[|s| - 1];
      if s[|s| - 1] in p then p else p + [s[|s| - 1]]
  }

  /** The (match, slot) pairs whose team is `t` and is the winner. */
  function SlotWins(slots: seq<Slot>, t: string): nat {
    if slots == [] then 0
    else
      var last := slots[|slots| - 1];
      SlotWins(slots[..|slots| - 1], t) + (if last.team == t && t == last.winner then 1 else 0)
  }

  /** The body of the inner loop: `if team not in game_scores:
      game_scores[team] = 0`, then one more point when the team won. */
  function Count(scores: OrderedMap<int>, slot: Slot): (r: OrderedMap<int>)
    requires scores.Valid()
    ensures r.Valid()
  {
    var m := if slot.team in scores.vals then scores else scores.Put(slot.team, 0);
    if slot.team == slot.winner then m.Put(slot.team, m.vals[slot.team] + 1) else m
  }

  /** One visit of the inner loop appends a team seen for the first time
      with 0 points, gives the team a point when it is the winner, and
      leaves every other team's entry and place as they were. */
  lemma CountEffect(scores: OrderedMap<int>, slot: Slot)
    requires scores.Valid()
    ensures var r := Count(scores, slot);
      && slot.team in r.vals
      && r.keys == (if slot.team in scores.vals then scores.keys else scores.keys + [slot.team])
      && r.vals[slot.team] == (if slot.team in scores.vals then scores.vals[slot.team] else 0)
                              + (if slot.team == slot.winner then 1 else 0)
      && forall t :: t in scores.vals && t != slot.team ==> t in r.vals && r.vals[t] == scores.vals[t]
  {
  }

  /** A team in no slot has won no slot. */
  lemma {:induction false} SlotWinsAbsent(slots: seq<Slot>, t: string)
    requires t !in SlotTeams(slots)
    ensures SlotWins(slots, t) == 0
  {
    if slots != [] {
      var p := slots[..|slots| - 1];
      assert SlotTeams(slots) == SlotTeams(p) + [slots[|slots| - 1].team];
      SlotWinsAbsent(p, t);
    }
  }

  lemma SlotStep(slots: seq<Slot>, x: Slot, t: string)
    ensures SlotTeams(slots + [x]) == SlotTeams(slots) + [x.team]
    ensures FirstAppearance(SlotTeams(slots + [x]))
            == var ks := FirstAppearance(SlotTeams(slots)); if x.team in ks then ks else ks + [x.team]
    ensures SlotWins(slots + [x], t) == SlotWins(slots, t) + (if x.team == t && t == x.winner then 1 else 0)
  {
    var after := slots + [x];
    assert after[..|after| - 1] == slots;
    var ts := SlotTeams(slots);
    assert (ts + [x.team])[..|ts|] == ts;
  }

  /** The `game_scores` dict after the loops have visited `slots`. */
  function Tally(slots: seq<Slot>): (r: OrderedMap<int>)
    ensures r.Valid()
  {
    if slots == [] then Empty() else Count(Tally(slots[..|slots| - 1]), slots[|slots| - 1])
  }

  /** What `game_scores` holds, stated outright: every team seen in a slot,
      in order of first appearance, with its number of winning slots. */
  ghost predicate Tallies(scores: OrderedMap<int>, slots: seq<Slot>) {
    && scores.Valid()
    && scores.keys == FirstAppearance(SlotTeams(slots))
    && (forall t :: t in scores.vals ==> scores.vals[t] == SlotWins(slots, t))
  }

  lemma {:induction false} TallyMeaning(slots: seq<Slot>)
    ensures Tallies(Tally(slots), slots)
  {
    if slots != [] {
      var p := slots[..|slots| - 1];
      var x := slots[|slots| - 1];
      assert slots == p + [x];
      TallyMeaning(p);
      SlotStep(p, x, x.team);
      if x.team !in FirstAppearance(SlotTeams(p)) {
        SlotWinsAbsent(p, x.team);
      }
      var r := Tally(slots);
      forall t | t in r.vals ensures r.vals[t] == SlotWins(slots, t) {
        SlotStep(p, x, t);
      }
    }
  }

  lemma TallySnoc(seen: seq<Slot>, slot: Slot)
    ensures Tally(seen + [slot]) == Count(Tally(seen), slot)
  {
    assert (seen + [slot])[..|seen|] == seen;
  }

  lemma SlotsSnoc(ms: seq<Match>, i: nat)
    requires i < |ms|
    ensures Slots(ms[..i + 1]) == Slots(ms[..i]) + MatchSlots(ms[i])
  {
    assert ms[..i + 1][..i] == ms[..i];
  }

  /** The body of the inner loop on one team of a match. */
  method CountTeam(scores: OrderedMap<int>, team: string, winner: string) returns (r: OrderedMap<int>)
    requires scores.Valid()
    ensures r == Count(scores, Slot(team, winner))
  {
    r := scores;
    if team !in r.vals {
      r := r.Put(team, 0);
    }
    if team == winner {
      r := r.Put(team, r.vals[team] + 1);
    }
  }

  /** The inner loop of `display_game_scoreboard`, `for team in
      [match['team1'], match['team2']]`, on one match. */
  method CountMatch(scores: OrderedMap<int>, m: Match, ghost seen: seq<Slot>) returns (r: OrderedMap<int>)
    requires scores == Tally(seen)
    ensures r == Tally(seen + MatchSlots(m))
  {
    var pair := [m.team1, m.team2];
    ghost var s0, s1 := Slot(m.team1, m.winner), Slot(m.team2, m.winner);
    ghost var r1 := Count(scores, s0);
    r := scores;
    var j := 0;
    while j < 2
      invariant 0 <= j <= 2 && r.Valid()
      invariant j == 0 ==> r == scores
      invariant j == 1 ==> r == r1
      invariant j == 2 ==> r == Count(r1, s1)
    {
      r := CountTeam(r, pair[j], m.winner);
      j := j + 1;
    }
    TallySnoc(seen, s0);
    TallySnoc(seen + [s0], s1);
    assert seen + [s0] + [s1] == seen + MatchSlots(m);
  }

  /** The nested loops of `display_game_scoreboard` that build `game_scores`
      from the matches of the selected game. */
  method GameScores(ms: seq<Match>, g: string) returns (scores: OrderedMap<int>)
    ensures scores == Tally(Slots(ForGame(ms, g)))
    ensures Tallies(scores, Slots(ForGame(ms, g)))
  {
    var gms := ForGame(ms, g);
    scores := Empty();
    var i := 0;
    while i < |gms|
      invariant 0 <= i <= |gms|
      invariant scores == Tally(Slots(gms[..i]))
    {
      scores := CountMatch(scores, gms[i], Slots(gms[..i]));
      SlotsSnoc(gms, i);
      i := i + 1;
    }
    assert gms[..i] == gms;
    TallyMeaning(Slots(gms));
  }

  /** The per-game scoreboard: `sorted(game_scores.items(), key=lambda x: x[1],
      reverse=True)`. */
  method GameStandings(ms: seq<Match>, g: string) returns (r: seq<(string, int)>)
    ensures var tally := Tally(Slots(ForGame(ms, g)));
      && Tallies(tally, Slots(ForGame(ms, g)))
      && multiset(r) == multiset(tally.Items())
      && SortedDesc(r, Score)
      && (forall k :: WithKey(r, Score, k) == WithKey(tally.Items(), Score, k))
  {
    var scores := GameScores(ms, g);
    r := SortDesc(scores.Items(), Score);
    SortDescFacts(scores.Items(), Score);
  }

  /** A team is in some slot exactly when it played some match. */
  lemma {:induction false} SlotTeamsPlayed(ms: seq<Match>, t: string)
    ensures t in SlotTeams(Slots(ms)) <==> exists i :: 0 <= i < |ms| && (ms[i].team1 == t || ms[i].team2 == t)
  {
    if ms != [] {
      var p := ms[..|ms| - 1];
      var m := ms[|ms| - 1];
      SlotTeamsPlayed(p, t);
      var s := Slots(ms);
      assert s == Slots(p) + MatchSlots(m);
      assert SlotTeams(s) == SlotTeams(Slots(p)) + [m.team1, m.team2];
      if exists i :: 0 <= i < |p| && (p[i].team1 == t || p[i].team2 == t) {
        var i :| 0 <= i < |p| && (p[i].team1 == t || p[i].team2 == t);
        assert ms[i] == p[i];
      }
      if exists i :: 0 <= i < |ms| && (ms[i].team1 == t || ms[i].team2 == t) {
        var i :| 0 <= i < |ms| && (ms[i].team1 == t || ms[i].team2 == t);
        if i < |p| {
          assert p[i] == ms[i];
        }
      }
    }
  }

  /** The teams on a game's scoreboard are exactly those that played it, as
      team1 or team2. */
  lemma {:induction false} TallyTeams(ms: seq<Match>, scores: OrderedMap<int>, t: string)
    requires Tallies(scores, Slots(ms))
    ensures t in scores.vals <==> exists i :: 0 <= i < |ms| && (ms[i].team1 == t || ms[i].team2 == t)
  {
    SlotTeamsPlayed(ms, t);
  }

  /** How many of the matches `t` played in. */
  function Played(ms: seq<Match>, t: string): nat {
    if ms == [] then 0
    else
      var m := ms[|ms| - 1];
      Played(ms[..|ms| - 1], t) + (if m.team1 == t || m.team2 == t then 1 else 0)
  }

  /** How many of the matches name `t` as winner while `t` played. */
  function WonAsPlayer(ms: seq<Match>, t: string): nat {
    if ms == [] then 0
    else
      var m := ms[|ms| - 1];
      WonAsPlayer(ms[..|ms| - 1], t) + (if m.winner == t && (m.team1 == t || m.team2 == t) then 1 else 0)
  }

  /** When no match pits a team against itself, a team's count on a game's
      scoreboard is the number of those matches it played and won, hence at
      most the number it played. */
  lemma {:induction false} SlotWinsBound(ms: seq<Match>, t: string)
    requires forall i :: 0 <= i < |ms| ==> ms[i].team1 != ms[i].team2
    ensures SlotWins(Slots(ms), t) == WonAsPlayer(ms, t)
    ensures SlotWins(Slots(ms), t) <= Played(ms, t)
  {
    if ms != [] {
      var p := ms[..|ms| - 1];
      var m := ms[|ms| - 1];
      SlotWinsBound(p, t);
      var s := Slots(ms);
      var s1 := Slots(p) + [Slot(m.team1, m.winner)];
      assert s == s1 + [Slot(m.team2, m.winner)];
      assert s[..|s| - 1] == s1;
      assert s1[..|s1| - 1] == Slots(p);
    }
  }

  /** A match of another game leaves a game's scoreboard as it was. */
  lemma OtherGameIgnored(ms: seq<Match>, m: Match, g: string)
    requires m.game != g
    ensures ForGame(ms + [m], g) == ForGame(ms, g)
  {
    assert (ms + [m])[..|ms|] == ms;
  }

  /** A game offered for selection always has a non-empty scoreboard. */
  lemma PlayedGameHasStandings(ms: seq<Match>, g: string)
    requires g in PlayedGames(ms)
    ensures ForGame(ms, g) != []
    ensures Tally(Slots(ForGame(ms, g))).keys != []
  {
    var i :| 0 <= i < |ms| && ms[i].game == g;
    ForGameCount(ms, g);
    assert multiset(ms)[ms[i]] > 0;
    var slots := Slots(ForGame(ms, g));
    TallyMeaning(slots);
    assert slots[0].team in SlotTeams(slots);
  }

  /** A match that names one team as both players and winner gives that team
      two points on the game's scoreboard, since the inner loop visits it
      twice. */
  lemma SelfMatchCountsTwice(m: Match)
    requires m.team1 == m.team2 == m.winner
    ensures Tally(Slots([m])).vals == map[m.team1 := 2]
  {
    assert Slots([m]) == [] + MatchSlots(m);
    assert Tally([Slot(m.team1, m.winner)]) == Count(Empty(), Slot(m.team1, m.winner));
  }
}
