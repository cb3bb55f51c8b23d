/**
 * Team handlers of the hosted backend: registration, join by code, the
 * leaderboard query and the direct progress override.
 */
module ConvexTeams {
  import opened Common
  import opened Sorting
  import opened ConvexSchema

  /** How many teams the leaderboard query returns at most. */
  const LeaderboardSize: nat := 10

  /** `createTeam`: a team at stage 1 with no points, under a fresh id and the given code. */
  method CreateTeam(db: Database, name: string, members: seq<string>, teamCode: string, now: int)
    returns (teamId: Id, code: string)
    requires db.Valid()
    modifies db
    ensures db.Valid()
    ensures db.nodes == old(db.nodes) && db.submissions == old(db.submissions) && db.gameSettings == old(db.gameSettings)
    ensures teamId == old(db.nextId) && code == teamCode
    ensures db.teams == old(db.teams) + [Team(teamId, name, members, 1, 0, now, teamCode)]
  {
    teamId := db.FreshId();
    db.teams := db.teams + [Team(teamId, name, members, 1, 0, now, teamCode)];
    assert TeamIds(db.teams) == TeamIds(old(db.teams)) + [teamId];
    code := teamCode;
  }

  /** `joinTeam`: the first team whose code is exactly the argument. */
  function JoinTeam(teams: seq<Team>, teamCode: string): (r: Option<Team>)
    ensures r.None? <==> forall i :: 0 <= i < |teams| ==> teams[i].teamCode != teamCode
    ensures r.Some? ==> exists i :: IsFirst(teams, (t: Team) => t.teamCode == teamCode, i) && teams[i] == r.value
  {
    Find(teams, (t: Team) => t.teamCode == teamCode)
  }

  /**
   * A newly created team can be joined with its code unless an earlier team
   * already holds that code, in which case the earlier team is found.
   */
  lemma JoinAfterCreate(teams: seq<Team>, t: Team)
    ensures JoinTeam(teams, t.teamCode).None? ==> JoinTeam(teams + [t], t.teamCode) == Some(t)
    ensures JoinTeam(teams, t.teamCode).Some? ==> JoinTeam(teams + [t], t.teamCode) == JoinTeam(teams, t.teamCode)
  {
    FindSnoc(teams, t, (u: Team) => u.teamCode == t.teamCode);
  }

  /** The leaderboard comparator: higher stage first, then higher score. */
  function LeaderboardCompare(a: Team, b: Team): int {
    if b.currentStage != a.currentStage then b.currentStage - a.currentStage
    else b.score - a.score
  }

  lemma LeaderboardCompareIsComparator()
    ensures IsComparator(LeaderboardCompare)
  {
  }

  /** a is listed no later than b on the backend leaderboard. */
  predicate RanksAtLeast(a: Team, b: Team) {
    a.currentStage > b.currentStage || (a.currentStage == b.currentStage && a.score >= b.score)
  }

  /** `getLeaderboard`: all teams sorted by the comparator, cut to the first ten. */
  function GetLeaderboard(teams: seq<Team>): (r: seq<Team>)
    ensures |r| <= LeaderboardSize
  {
    Take(Sort(teams, LeaderboardCompare), LeaderboardSize)
  }

  /**
   * The leaderboard lists min(10, n) stored teams, each at most as often as
   * stored, ordered by stage and then score, and no team left off it ranks
   * above a team on it.
   */
  lemma LeaderboardSpec(teams: seq<Team>)
    ensures var r := GetLeaderboard(teams);
      && |r| == (if |teams| < LeaderboardSize then |teams| else LeaderboardSize)
      && multiset(r) <= multiset(teams)
      && (forall i, j :: 0 <= i < j < |r| ==> RanksAtLeast(r[i], r[j]))
      && (forall t :: t in r ==> t in teams)
  {
    var sorted := Sort(teams, LeaderboardCompare);
    SortedRanks(teams);
    TakeMultiset(sorted, LeaderboardSize);
    TakeWithin(sorted, LeaderboardSize);
    SortSameElements(teams, LeaderboardCompare);
  }

  /** The sorted teams are in leaderboard order. */
  lemma SortedRanks(teams: seq<Team>)
    ensures forall i, j :: 0 <= i < j < |Sort(teams, LeaderboardCompare)| ==>
      RanksAtLeast(Sort(teams, LeaderboardCompare)[i], Sort(teams, LeaderboardCompare)[j])
  {
    var sorted := Sort(teams, LeaderboardCompare);
    LeaderboardCompareIsComparator();
    SortSorted(teams, LeaderboardCompare);
    forall i, j | 0 <= i < j < |sorted| ensures RanksAtLeast(sorted[i], sorted[j]) {
      assert LeaderboardCompare(sorted[i], sorted[j]) <= 0;
    }
  }

  /** No team that the ten-team cut leaves out ranks above one that it keeps. */
  lemma LeaderboardCutFair(teams: seq<Team>, shown: Team, left: Team)
    requires shown in GetLeaderboard(teams)
    requires left in Sort(teams, LeaderboardCompare)[|GetLeaderboard(teams)|..]
    ensures RanksAtLeast(shown, left)
  {
    var sorted := Sort(teams, LeaderboardCompare);
    var n := |GetLeaderboard(teams)|;
    LeaderboardCompareIsComparator();
    SortSorted(teams, LeaderboardCompare);
    assert GetLeaderboard(teams) == sorted[..n];
    SortedPrefixFirst(sorted, LeaderboardCompare, n, shown, left);
  }

  /** The teams table after `updateTeamProgress`, or its error. */
  function UpdateTeamProgressStep(teams: seq<Team>, teamId: Id, newStage: int, pointsToAdd: int): (r: Result<seq<Team>>)
    ensures r.Error? <==> GetTeam(teams, teamId).None?
    ensures r.Error? ==> r.message == "Team not found"
    ensures r.Ok? ==> |r.value| == |teams| && var i := TeamIndex(teams, teamId).value;
      && r.value[i] == teams[i].(currentStage := newStage, score := teams[i].score + pointsToAdd)
      && forall j :: 0 <= j < |teams| && j != i ==> r.value[j] == teams[j]
  {
    match TeamIndex(teams, teamId)
    case None => Error("Team not found")
    case Some(i) => Ok(teams[i := teams[i].(currentStage := newStage, score := teams[i].score + pointsToAdd)])
  }

  /** The override may move a team back: its new stage is the argument, whatever the old one was. */
  lemma ProgressOverrideCanLowerStage(t: Team)
    requires t.currentStage == 3
    ensures var r := UpdateTeamProgressStep([t], t.id, 1, 0);
      r.Ok? && r.value[0].currentStage == 1 && r.value[0].score == t.score
  {
    assert TeamIndex([t], t.id) == Some(0);
  }

  /** `updateTeamProgress`: sets the stage, adds the points, or throws. */
  method UpdateTeamProgress(db: Database, teamId: Id, newStage: int, pointsToAdd: int) returns (r: Result<()>)
    requires db.Valid()
    modifies db
    ensures db.Valid() && db.nextId == old(db.nextId)
    ensures db.nodes == old(db.nodes) && db.submissions == old(db.submissions) && db.gameSettings == old(db.gameSettings)
    ensures var step := UpdateTeamProgressStep(old(db.teams), teamId, newStage, pointsToAdd);
      && (step.Error? ==> r == Error(step.message) && db.teams == old(db.teams))
      && (step.Ok? ==> r == Ok(()) && db.teams == step.value)
  {
    var step := UpdateTeamProgressStep(db.teams, teamId, newStage, pointsToAdd);
    match step
    case Error(msg) =>
      r := Error(msg);
    case Ok(updated) =>
      assert TeamIds(updated) == TeamIds(db.teams);
      db.teams := updated;
      r := Ok(());
  }
}
