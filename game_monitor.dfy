/**
 * The admin's monitor in the demo: per-team submission counts, the team
 * table ordered by score alone, the overview counters and each team's
 * status label.
 */
module GameMonitor {
  import opened Common
  import opened Sorting
  import opened DemoTypes

  /** A team with the counts of its submissions by status. */
  datatype TeamStats = TeamStats(
    team: Team,
    totalSubmissions: nat,
    acceptedSubmissions: nat,
    pendingSubmissions: nat,
    rejectedSubmissions: nat)

  /** The counts of one team's submissions. */
  function StatsOf(team: Team, submissions: seq<Submission>): (r: TeamStats)
    ensures r.team == team
    ensures r.totalSubmissions == Count(submissions, (s: Submission) => s.teamId == team.id)
    ensures r.acceptedSubmissions == Count(submissions, (s: Submission) => s.teamId == team.id && s.status == Accepted)
    ensures r.pendingSubmissions == Count(submissions, (s: Submission) => s.teamId == team.id && s.status == Pending)
    ensures r.rejectedSubmissions == Count(submissions, (s: Submission) => s.teamId == team.id && s.status == Rejected)
    ensures r.acceptedSubmissions + r.pendingSubmissions + r.rejectedSubmissions == r.totalSubmissions
  {
    var own := Filter(submissions, (s: Submission) => s.teamId == team.id);
    FilterFilter(submissions, (s: Submission) => s.teamId == team.id, (s: Submission) => s.status == Accepted,
                 (s: Submission) => s.teamId == team.id && s.status == Accepted);
    FilterFilter(submissions, (s: Submission) => s.teamId == team.id, (s: Submission) => s.status == Pending,
                 (s: Submission) => s.teamId == team.id && s.status == Pending);
    FilterFilter(submissions, (s: Submission) => s.teamId == team.id, (s: Submission) => s.status == Rejected,
                 (s: Submission) => s.teamId == team.id && s.status == Rejected);
    FilterThreeWay(own, (s: Submission) => s.status == Accepted, (s: Submission) => s.status == Pending,
                   (s: Submission) => s.status == Rejected);
    TeamStats(team, |own|,
      Count(own, (s: Submission) => s.status == Accepted),
      Count(own, (s: Submission) => s.status == Pending),
      Count(own, (s: Submission) => s.status == Rejected))
  }

  /** `teamStats`: the counts for every team, in the provider's order. */
  function AllTeamStats(teams: seq<Team>, submissions: seq<Submission>): (r: seq<TeamStats>)
    ensures |r| == |teams|
    ensures forall i :: 0 <= i < |r| ==> r[i] == StatsOf(teams[i], submissions)
  {
    seq(|teams|, i requires 0 <= i < |teams| => StatsOf(teams[i], submissions))
  }

  /** The comparator of the monitor's table: higher score first, nothing else. */
  function ByScore(a: TeamStats, b: TeamStats): int {
    b.team.score - a.team.score
  }

  /** `sortedTeams`: the team statistics ordered by score, highest first. */
  function SortedTeamStats(teams: seq<Team>, submissions: seq<Submission>): (r: seq<TeamStats>)
    ensures multiset(r) == multiset(AllTeamStats(teams, submissions))
    ensures forall i, j :: 0 <= i < j < |r| ==> r[i].team.score >= r[j].team.score
  {
    assert IsComparator(ByScore);
    SortSorted(AllTeamStats(teams, submissions), ByScore);
    Sort(AllTeamStats(teams, submissions), ByScore)
  }

  /** The monitor's overview counters. */
  datatype MonitorStats = MonitorStats(
    totalTeams: nat,
    totalNodes: nat,
    totalSubmissions: nat,
    pendingReviews: nat,
    completedGames: nat)

  /** A team is past the last node. */
  predicate Finished(t: Team, nodeCount: nat) {
    t.currentStage > nodeCount
  }

  /** `gameStats`. */
  function GetMonitorStats(teams: seq<Team>, nodes: seq<Node>, submissions: seq<Submission>): (r: MonitorStats)
    ensures r.totalTeams == |teams| && r.totalNodes == |nodes| && r.totalSubmissions == |submissions|
    ensures r.pendingReviews == Count(submissions, (s: Submission) => s.status == Pending)
    ensures r.completedGames == Count(teams, (t: Team) => Finished(t, |nodes|))
    ensures r.pendingReviews <= r.totalSubmissions && r.completedGames <= r.totalTeams
    ensures forall t :: t in teams && Finished(t, |nodes|) ==> r.completedGames > 0
    ensures forall s :: s in submissions && s.status == Pending ==> r.pendingReviews > 0
  {
    MonitorStats(|teams|, |nodes|, |submissions|,
      Count(submissions, (s: Submission) => s.status == Pending),
      Count(teams, (t: Team) => Finished(t, |nodes|)))
  }

  /** No team has more pending answers than the overview's pending count. */
  lemma TeamPendingWithinTotal(t: Team, teams: seq<Team>, nodes: seq<Node>, submissions: seq<Submission>)
    ensures StatsOf(t, submissions).pendingSubmissions <= GetMonitorStats(teams, nodes, submissions).pendingReviews
  {
    FilterNestedCount(submissions, (s: Submission) => s.teamId == t.id, (s: Submission) => s.status == Pending);
  }

  /** The label of the status column. */
  datatype StatusLabel = AwaitingReview | Done | Playing

  /** The label's text. */
  function LabelText(l: StatusLabel): string {
    match l
    case AwaitingReview => "Pending"
    case Done => "Finished"
    case Playing => "Active"
  }

  /** Any pending answer wins over completion; a finished team without one is Finished; the rest are Active. */
  function Label(stats: TeamStats, nodeCount: nat): (r: StatusLabel)
    ensures r == AwaitingReview <==> stats.pendingSubmissions > 0
    ensures r == Done <==> stats.pendingSubmissions == 0 && Finished(stats.team, nodeCount)
    ensures r == Playing <==> stats.pendingSubmissions == 0 && !Finished(stats.team, nodeCount)
  {
    if stats.pendingSubmissions > 0 then AwaitingReview
    else if Finished(stats.team, nodeCount) then Done
    else Playing
  }

  /**
   * A team counted among the completed games shows Finished unless one of
   * its answers awaits review; a team shown Finished is always counted.
   */
  lemma FinishedLabelMatchesCount(t: Team, teams: seq<Team>, nodes: seq<Node>, submissions: seq<Submission>)
    requires t in teams
    ensures var stats := StatsOf(t, submissions);
      && (Label(stats, |nodes|) == Done ==> t in Filter(teams, (u: Team) => Finished(u, |nodes|)))
      && (t in Filter(teams, (u: Team) => Finished(u, |nodes|)) ==>
            Label(stats, |nodes|) == Done || Label(stats, |nodes|) == AwaitingReview)
  {
  }
}
