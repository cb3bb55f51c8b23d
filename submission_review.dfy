/**
 * The admin's review screen in the demo: the pending and reviewed lists,
 * the ten most recent reviews, and the team-name and clue lookups shown on
 * each entry.
 */
module SubmissionReview {
  import opened Common
  import opened Sorting
  import opened DemoTypes
  import opened GameContext

  /** `pendingSubmissions`. */
  function PendingList(submissions: seq<Submission>): (r: seq<Submission>)
    ensures forall s :: s in r <==> s in submissions && s.status == Pending
  {
    Filter(submissions, (s: Submission) => s.status == Pending)
  }

  /** `reviewedSubmissions`: accepted or rejected. */
  function ReviewedList(submissions: seq<Submission>): (r: seq<Submission>)
    ensures forall s :: s in r <==> s in submissions && s.status != Pending
  {
    Filter(submissions, (s: Submission) => s.status != Pending)
  }

  /** Every submission is on exactly one of the two lists, as often as it is stored. */
  lemma ReviewListsPartition(submissions: seq<Submission>)
    ensures |PendingList(submissions)| + |ReviewedList(submissions)| == |submissions|
    ensures multiset(PendingList(submissions)) + multiset(ReviewedList(submissions)) == multiset(submissions)
    ensures forall s :: !(s in PendingList(submissions) && s in ReviewedList(submissions))
  {
    FilterPartition(submissions, (s: Submission) => s.status == Pending, (s: Submission) => s.status != Pending);
  }

  /** `reviewedAt || 0`. */
  function ReviewTime(s: Submission): int {
    if s.reviewedAt.Some? then s.reviewedAt.value else 0
  }

  /** The comparator of the recent-reviews list: latest review first. */
  function LatestFirst(a: Submission, b: Submission): int {
    ReviewTime(b) - ReviewTime(a)
  }

  /** How many reviews the screen lists. */
  const RecentLimit: nat := 10

  /** Latest review first. */
  ghost predicate ReviewOrdered(s: seq<Submission>) {
    forall i, j :: 0 <= i < j < |s| ==> ReviewTime(s[i]) >= ReviewTime(s[j])
  }

  /** Sorting the reviewed submissions orders them by review time and keeps the same elements. */
  lemma LatestFirstSorted(reviewed: seq<Submission>)
    ensures forall s :: s in Sort(reviewed, LatestFirst) <==> s in reviewed
    ensures ReviewOrdered(Sort(reviewed, LatestFirst))
  {
    assert IsComparator(LatestFirst);
    SortSorted(reviewed, LatestFirst);
    SortSameElements(reviewed, LatestFirst);
  }

  /** A prefix of an ordered list is ordered. */
  lemma TakeOrdered(sorted: seq<Submission>, n: nat)
    requires ReviewOrdered(sorted)
    ensures ReviewOrdered(Take(sorted, n))
  {
  }

  /** The reviewed submissions, latest review first, cut to ten. */
  function RecentReviews(submissions: seq<Submission>): (r: seq<Submission>)
    ensures |r| == if |ReviewedList(submissions)| < RecentLimit then |ReviewedList(submissions)| else RecentLimit
    ensures forall s :: s in r ==> s in submissions && s.status != Pending
    ensures multiset(r) <= multiset(ReviewedList(submissions))
    ensures forall i, j :: 0 <= i < j < |r| ==> ReviewTime(r[i]) >= ReviewTime(r[j])
  {
    var sorted := Sort(ReviewedList(submissions), LatestFirst);
    LatestFirstSorted(ReviewedList(submissions));
    TakeWithin(sorted, RecentLimit);
    TakeMultiset(sorted, RecentLimit);
    TakeOrdered(sorted, RecentLimit);
    Take(sorted, RecentLimit)
  }

  /** No reviewed submission left off the list was reviewed later than one on it. */
  lemma RecentReviewsCutFair(submissions: seq<Submission>, shown: Submission, left: Submission)
    requires shown in RecentReviews(submissions)
    requires left in Sort(ReviewedList(submissions), LatestFirst)[|RecentReviews(submissions)|..]
    ensures ReviewTime(shown) >= ReviewTime(left)
  {
    var sorted := Sort(ReviewedList(submissions), LatestFirst);
    assert RecentReviews(submissions) == Take(sorted, RecentLimit);
    LatestFirstSorted(ReviewedList(submissions));
    PrefixReviewedLater(sorted, RecentLimit, shown, left);
  }

  /** In a list ordered latest review first, an entry of a prefix was reviewed no earlier than one after it. */
  lemma PrefixReviewedLater(sorted: seq<Submission>, n: nat, shown: Submission, left: Submission)
    requires ReviewOrdered(sorted)
    requires shown in Take(sorted, n)
    requires left in sorted[|Take(sorted, n)|..]
    ensures ReviewTime(shown) >= ReviewTime(left)
  {
    var m := |Take(sorted, n)|;
    var i :| 0 <= i < m && Take(sorted, n)[i] == shown;
    var k :| 0 <= k < |sorted[m..]| && sorted[m..][k] == left;
    assert sorted[i] == shown && sorted[m + k] == left;
  }

  /** `getTeamName`: the first team's name, or 'Unknown Team' when there is none or its name is empty. */
  function GetTeamName(teams: seq<Team>, teamId: string): (r: string)
    ensures JoinTeam(teams, teamId).Some? && JoinTeam(teams, teamId).value.name != "" ==>
      r == JoinTeam(teams, teamId).value.name
    ensures JoinTeam(teams, teamId).None? || JoinTeam(teams, teamId).value.name == "" ==> r == "Unknown Team"
  {
    match JoinTeam(teams, teamId)
    case Some(team) => if team.name != "" then team.name else "Unknown Team"
    case None => "Unknown Team"
  }

  /** How many characters of a clue the entry shows. */
  const ClueLength: nat := 50

  /**
   * `getNodeClue` as written: the first 50 characters and "...". For a
   * missing node the concatenation reads "undefined...", which is never
   * empty, so the 'Unknown Node' fallback is never taken.
   */
  function GetNodeClue(nodes: seq<Node>, nodeId: int): (r: string)
    ensures GetNodeById(nodes, nodeId).Some? ==> r == Take(GetNodeById(nodes, nodeId).value.clue, ClueLength) + "..."
    ensures GetNodeById(nodes, nodeId).None? ==> r == "undefined..."
    ensures |r| >= 3 && r[|r| - 3..] == "..."
  {
    match GetNodeById(nodes, nodeId)
    case Some(node) => Take(node.clue, ClueLength) + "..."
    case None => "undefined..."
  }

  /** The fallback text is unreachable: every result ends in "...", and 'Unknown Node' does not. */
  lemma NodeClueNeverUnknown(nodes: seq<Node>, nodeId: int)
    ensures GetNodeClue(nodes, nodeId) != "Unknown Node"
  {
    var r := GetNodeClue(nodes, nodeId);
    assert r[|r| - 1] == '.';
    assert "Unknown Node"[11] == 'e';
  }

  /** The lookup the fallback evidently intends: the shortened clue, or 'Unknown Node'. */
  function GetNodeClueIntended(nodes: seq<Node>, nodeId: int): (r: string)
    ensures GetNodeById(nodes, nodeId).Some? ==> r == GetNodeClue(nodes, nodeId)
    ensures GetNodeById(nodes, nodeId).None? ==> r == "Unknown Node"
  {
    match GetNodeById(nodes, nodeId)
    case Some(node) => Take(node.clue, ClueLength) + "..."
    case None => "Unknown Node"
  }
}
