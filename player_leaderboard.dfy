/**
 * The player's leaderboard in the demo. It orders teams differently from
 * the backend's query: score first, then stage, then the earlier
 * registration, and it lists every team with no cut-off.
 */
module PlayerLeaderboard {
  import opened Sorting
  import opened DemoTypes

  /** The comparator of `sortedTeams`. */
  function PlayerCompare(a: Team, b: Team): int {
    if a.score != b.score then b.score - a.score
    else if a.currentStage != b.currentStage then b.currentStage - a.currentStage
    else a.createdAt - b.createdAt
  }

  lemma PlayerCompareIsComparator()
    ensures IsComparator(PlayerCompare)
  {
  }

  /** a may be listed above b: higher score, or equal score and higher stage, or both equal and registered no later. */
  predicate RanksBefore(a: Team, b: Team) {
    || a.score > b.score
    || (a.score == b.score && a.currentStage > b.currentStage)
    || (a.score == b.score && a.currentStage == b.currentStage && a.createdAt <= b.createdAt)
  }

  /** `sortedTeams`: the teams, copied and sorted; the provider's list is left as it is. */
  function SortedTeams(teams: seq<Team>): (r: seq<Team>)
    ensures |r| == |teams| && multiset(r) == multiset(teams)
    ensures forall i, j :: 0 <= i < j < |r| ==> RanksBefore(r[i], r[j])
  {
    PlayerCompareIsComparator();
    SortSorted(teams, PlayerCompare);
    Sort(teams, PlayerCompare)
  }

  /** A row of the board: the displayed rank and its team. */
  datatype RankedTeam = RankedTeam(rank: nat, team: Team)

  /** The rows of the board: rank is position + 1, every team appears. */
  function Ranked(teams: seq<Team>): (r: seq<RankedTeam>)
    ensures |r| == |teams|
    ensures forall i :: 0 <= i < |r| ==> r[i].rank == i + 1
    ensures forall i :: 0 <= i < |r| ==> r[i].team == SortedTeams(teams)[i]
    ensures multiset(seq(|r|, i requires 0 <= i < |r| => r[i].team)) == multiset(teams)
  {
    var sorted := SortedTeams(teams);
    var r := seq(|sorted|, i requires 0 <= i < |sorted| => RankedTeam(i + 1, sorted[i]));
    assert seq(|r|, i requires 0 <= i < |r| => r[i].team) == sorted;
    r
  }

  /** The team ranked first has a score no other team beats. */
  lemma FirstRankHasTopScore(teams: seq<Team>, t: Team)
    requires t in teams
    ensures |Ranked(teams)| > 0 && Ranked(teams)[0].rank == 1
    ensures Ranked(teams)[0].team.score >= t.score
  {
    var sorted := SortedTeams(teams);
    var r := Ranked(teams);
    assert seq(|r|, i requires 0 <= i < |r| => r[i].team) == sorted;
    assert t in multiset(sorted);
    var j :| 0 <= j < |sorted| && sorted[j] == t;
    if j > 0 {
      assert RanksBefore(sorted[0], sorted[j]);
    }
  }

  /**
   * Three teams with equal scores: the two at stage 5 come first, the
   * earlier-registered of them on top, then the team at stage 4.
   */
  lemma TieBreakExample(a: Team, b: Team, c: Team)
    requires a.score == 300 && a.currentStage == 4
    requires b.score == 300 && b.currentStage == 5
    requires c.score == 300 && c.currentStage == 5
    requires c.createdAt < a.createdAt < b.createdAt
    ensures SortedTeams([a, b, c]) == [c, b, a]
  {
    assert PlayerCompare(b, c) > 0;
    assert PlayerCompare(a, c) > 0;
    assert PlayerCompare(a, b) > 0;
    SortReversesThree(a, b, c, PlayerCompare);
  }
}
