/**
 * Submission handlers of the hosted backend: answering, the three queries
 * and the review that advances a team. The review does not look at the
 * submission's previous status, so reviewing a submission again overwrites
 * the verdict and a second approval credits the team a second time;
 * `ReviewPendingStep` is a guarded variant, not part of the source, that
 * makes the transition single-shot.
 */
module ConvexSubmissions {
  import opened Common
  import opened Sorting
  import opened ConvexSchema

  /** Points per accepted answer when no settings are stored or the stored value is 0. */
  const DefaultPointsPerNode: int := 100

  /** `submitAnswer`: appends a pending submission under a fresh id; the answer is not checked. */
  method SubmitAnswer(db: Database, teamId: Id, nodeId: int, submittedAnswer: string, now: int)
    returns (submissionId: Id)
    requires db.Valid()
    modifies db
    ensures db.Valid()
    ensures db.teams == old(db.teams) && db.nodes == old(db.nodes) && db.gameSettings == old(db.gameSettings)
    ensures submissionId == old(db.nextId)
    ensures db.submissions == old(db.submissions) + [Submission(submissionId, teamId, nodeId, submittedAnswer, Pending, now, None, None)]
  {
    submissionId := db.FreshId();
    db.submissions := db.submissions + [Submission(submissionId, teamId, nodeId, submittedAnswer, Pending, now, None, None)];
    assert SubmissionIds(db.submissions) == SubmissionIds(old(db.submissions)) + [submissionId];
  }

  /** A submission together with its team document (null when the team is gone). */
  datatype WithTeam = WithTeam(submission: Submission, team: Option<Team>)

  /** Pairs every submission with its team, in order. */
  function JoinTeams(submissions: seq<Submission>, teams: seq<Team>): (r: seq<WithTeam>)
    ensures |r| == |submissions|
    ensures forall i :: 0 <= i < |r| ==>
      r[i].submission == submissions[i] && r[i].team == GetTeam(teams, submissions[i].teamId)
  {
    if |submissions| == 0 then []
    else [WithTeam(submissions[0], GetTeam(teams, submissions[0].teamId))] + JoinTeams(submissions[1..], teams)
  }

  /** `getPendingSubmissions`: the pending submissions, each with its team. */
  function GetPendingSubmissions(submissions: seq<Submission>, teams: seq<Team>): (r: seq<WithTeam>)
    ensures |r| == Count(submissions, (s: Submission) => s.status == Pending)
    ensures forall i :: 0 <= i < |r| ==>
      && r[i].submission in submissions && r[i].submission.status == Pending
      && r[i].team == GetTeam(teams, r[i].submission.teamId)
    ensures forall s :: s in submissions && s.status == Pending ==> exists i :: 0 <= i < |r| && r[i].submission == s
  {
    var pending := Filter(submissions, (s: Submission) => s.status == Pending);
    JoinTeamsCovers(pending, teams);
    JoinTeams(pending, teams)
  }

  /** Every joined entry carries a submission of the list, and every submission of the list has an entry. */
  lemma JoinTeamsCovers(submissions: seq<Submission>, teams: seq<Team>)
    ensures forall i :: 0 <= i < |JoinTeams(submissions, teams)| ==> JoinTeams(submissions, teams)[i].submission in submissions
    ensures forall s :: s in submissions ==>
      exists i :: 0 <= i < |JoinTeams(submissions, teams)| && JoinTeams(submissions, teams)[i].submission == s
  {
    var r := JoinTeams(submissions, teams);
    forall i | 0 <= i < |r| ensures r[i].submission in submissions {
      assert r[i].submission == submissions[i];
    }
    forall s | s in submissions ensures exists i :: 0 <= i < |r| && r[i].submission == s {
      var i :| 0 <= i < |submissions| && submissions[i] == s;
      assert r[i].submission == s;
    }
  }

  /** `getTeamSubmissions`: exactly the submissions of one team. */
  function GetTeamSubmissions(submissions: seq<Submission>, teamId: Id): (r: seq<Submission>)
    ensures forall s :: s in r <==> s in submissions && s.teamId == teamId
    ensures forall s :: multiset(r)[s] == if s.teamId == teamId then multiset(submissions)[s] else 0
  {
    Filter(submissions, (s: Submission) => s.teamId == teamId)
  }

  /** Comparator of `getAllSubmissions`: the most recently submitted first. */
  function NewestFirst(a: WithTeam, b: WithTeam): int {
    b.submission.submittedAt - a.submission.submittedAt
  }

  /** `getAllSubmissions`: every submission with its team, newest first. */
  function GetAllSubmissions(submissions: seq<Submission>, teams: seq<Team>): (r: seq<WithTeam>)
    ensures multiset(r) == multiset(JoinTeams(submissions, teams))
    ensures forall i, j :: 0 <= i < j < |r| ==> r[i].submission.submittedAt >= r[j].submission.submittedAt
  {
    assert IsComparator(NewestFirst);
    SortSorted(JoinTeams(submissions, teams), NewestFirst);
    Sort(JoinTeams(submissions, teams), NewestFirst)
  }

  /**
   * Points credited per accepted answer: `gameSettings?.pointsPerNode || 100`
   * on the first settings document, so a missing record or a stored 0 both
   * fall back to 100.
   */
  function PointsPerNode(gameSettings: seq<Settings>): (p: int)
    ensures gameSettings == [] ==> p == DefaultPointsPerNode
    ensures gameSettings != [] && gameSettings[0].pointsPerNode == 0 ==> p == DefaultPointsPerNode
    ensures gameSettings != [] && gameSettings[0].pointsPerNode != 0 ==> p == gameSettings[0].pointsPerNode
    ensures p != 0
  {
    if gameSettings == [] || gameSettings[0].pointsPerNode == 0 then DefaultPointsPerNode
    else gameSettings[0].pointsPerNode
  }

  /** The submission patched by a review. */
  function Reviewed(s: Submission, approved: bool, adminId: string, now: int): (r: Submission)
    ensures r.status == if approved then Accepted else Rejected
    ensures r.reviewedBy == Some(adminId) && r.reviewedAt == Some(now)
    ensures r.(status := s.status, reviewedAt := s.reviewedAt, reviewedBy := s.reviewedBy) == s
  {
    s.(status := if approved then Accepted else Rejected, reviewedAt := Some(now), reviewedBy := Some(adminId))
  }

  /** The team patched by an approval: one stage further and `points` richer. */
  function Credited(t: Team, points: int): (r: Team)
    ensures r.currentStage == t.currentStage + 1 && r.score == t.score + points
    ensures r.(currentStage := t.currentStage, score := t.score) == t
  {
    t.(currentStage := t.currentStage + 1, score := t.score + points)
  }

  /** The two tables a review writes. */
  datatype ReviewState = ReviewState(submissions: seq<Submission>, teams: seq<Team>)

  /**
   * `reviewSubmission` on the submission and team tables: throws when the
   * submission or, on approval, its team is missing (leaving both tables as
   * they were); otherwise records the verdict and, on approval, credits the
   * team. The previous status plays no part.
   */
  function ReviewStep(st: ReviewState, gameSettings: seq<Settings>, submissionId: Id,
                      approved: bool, adminId: string, now: int): (r: Result<ReviewState>)
    ensures r == Error("Submission not found") <==> SubmissionIndex(st.submissions, submissionId).None?
    ensures r == Error("Team not found") <==>
      && SubmissionIndex(st.submissions, submissionId).Some? && approved
      && GetTeam(st.teams, st.submissions[SubmissionIndex(st.submissions, submissionId).value].teamId).None?
    ensures r.Ok? <==>
      && SubmissionIndex(st.submissions, submissionId).Some?
      && (!approved || GetTeam(st.teams, st.submissions[SubmissionIndex(st.submissions, submissionId).value].teamId).Some?)
    ensures r.Ok? ==> var i := SubmissionIndex(st.submissions, submissionId).value;
      r.value.submissions == st.submissions[i := Reviewed(st.submissions[i], approved, adminId, now)]
    ensures r.Ok? && !approved ==> r.value.teams == st.teams
    ensures r.Ok? && approved ==>
      var i := SubmissionIndex(st.submissions, submissionId).value;
      var k := TeamIndex(st.teams, st.submissions[i].teamId).value;
      r.value.teams == st.teams[k := Credited(st.teams[k], PointsPerNode(gameSettings))]
  {
    match SubmissionIndex(st.submissions, submissionId)
    case None => Error("Submission not found")
    case Some(i) =>
      var submissions' := st.submissions[i := Reviewed(st.submissions[i], approved, adminId, now)];
      if !approved then Ok(ReviewState(submissions', st.teams))
      else
        match TeamIndex(st.teams, st.submissions[i].teamId)
        case None => Error("Team not found")
        case Some(k) =>
          Ok(ReviewState(submissions', st.teams[k := Credited(st.teams[k], PointsPerNode(gameSettings))]))
  }

  /**
   * An approval moves exactly one team exactly one stage on and adds the
   * configured points to its score; every other team is untouched.
   */
  lemma ApprovalCreditsOneTeam(st: ReviewState, gameSettings: seq<Settings>, submissionId: Id, adminId: string, now: int)
    requires ReviewStep(st, gameSettings, submissionId, true, adminId, now).Ok?
    ensures var st' := ReviewStep(st, gameSettings, submissionId, true, adminId, now).value;
      && |st'.teams| == |st.teams|
      && (exists k ::
            && 0 <= k < |st.teams|
            && st.teams[k].id == st.submissions[SubmissionIndex(st.submissions, submissionId).value].teamId
            && st'.teams[k].currentStage == st.teams[k].currentStage + 1
            && st'.teams[k].score == st.teams[k].score + PointsPerNode(gameSettings)
            && st'.teams[k].name == st.teams[k].name && st'.teams[k].members == st.teams[k].members
            && (forall j :: 0 <= j < |st.teams| && j != k ==> st'.teams[j] == st.teams[j]))
  {
    var i := SubmissionIndex(st.submissions, submissionId).value;
    var k := TeamIndex(st.teams, st.submissions[i].teamId).value;
    assert st.teams[k].id == st.submissions[i].teamId;
  }

  /** Ids of a table are left alone by a review, so a second review finds the same documents. */
  lemma ReviewKeepsIds(st: ReviewState, gameSettings: seq<Settings>, submissionId: Id, approved: bool, adminId: string, now: int)
    requires ReviewStep(st, gameSettings, submissionId, approved, adminId, now).Ok?
    ensures var st' := ReviewStep(st, gameSettings, submissionId, approved, adminId, now).value;
      && SubmissionIndex(st'.submissions, submissionId) == SubmissionIndex(st.submissions, submissionId)
      && |st'.teams| == |st.teams|
      && (forall j :: 0 <= j < |st.teams| ==> st'.teams[j].id == st.teams[j].id)
      && (forall j :: 0 <= j < |st.submissions| ==> st'.submissions[j].teamId == st.submissions[j].teamId)
  {
    var st' := ReviewStep(st, gameSettings, submissionId, approved, adminId, now).value;
    var i := SubmissionIndex(st.submissions, submissionId).value;
    assert IsFirst(st'.submissions, (s: Submission) => s.id == submissionId, i);
    FirstIndexUnique(st'.submissions, (s: Submission) => s.id == submissionId, i);
  }

  /**
   * Nothing stops a second approval of the same submission: approving it
   * twice moves its team two stages on and credits the points twice.
   */
  lemma ReapprovalCreditsTwice(st: ReviewState, gameSettings: seq<Settings>, submissionId: Id,
                                adminId: string, now1: int, now2: int)
    requires ReviewStep(st, gameSettings, submissionId, true, adminId, now1).Ok?
    ensures var st1 := ReviewStep(st, gameSettings, submissionId, true, adminId, now1).value;
      var r2 := ReviewStep(st1, gameSettings, submissionId, true, adminId, now2);
      && r2.Ok?
      && var i := SubmissionIndex(st.submissions, submissionId).value;
      var k := TeamIndex(st.teams, st.submissions[i].teamId).value;
      && r2.value.teams[k].currentStage == st.teams[k].currentStage + 2
      && r2.value.teams[k].score == st.teams[k].score + 2 * PointsPerNode(gameSettings)
  {
    var st1 := ReviewStep(st, gameSettings, submissionId, true, adminId, now1).value;
    var i := SubmissionIndex(st.submissions, submissionId).value;
    var teamId := st.submissions[i].teamId;
    var k := TeamIndex(st.teams, teamId).value;
    ReviewKeepsIds(st, gameSettings, submissionId, true, adminId, now1);
    assert st1.submissions[i].teamId == teamId;
    assert IsFirst(st1.teams, (t: Team) => t.id == teamId, k);
    FirstIndexUnique(st1.teams, (t: Team) => t.id == teamId, k);
  }

  /** Overwriting a verdict: rejecting an accepted submission marks it rejected. */
  lemma ReReviewOverwritesStatus(st: ReviewState, gameSettings: seq<Settings>, submissionId: Id, adminId: string, now: int)
    requires SubmissionIndex(st.submissions, submissionId).Some?
    requires st.submissions[SubmissionIndex(st.submissions, submissionId).value].status == Accepted
    ensures var r := ReviewStep(st, gameSettings, submissionId, false, adminId, now);
      && r.Ok? && r.value.teams == st.teams
      && r.value.submissions[SubmissionIndex(st.submissions, submissionId).value].status == Rejected
  {
  }

  /**
   * Guarded review (not in the source): refuses a submission that is no
   * longer pending and otherwise behaves as the review.
   */
  function ReviewPendingStep(st: ReviewState, gameSettings: seq<Settings>, submissionId: Id,
                             approved: bool, adminId: string, now: int): (r: Result<ReviewState>)
    ensures r == Error("Submission already reviewed") <==>
      SubmissionIndex(st.submissions, submissionId).Some? &&
      st.submissions[SubmissionIndex(st.submissions, submissionId).value].status != Pending
    ensures !(SubmissionIndex(st.submissions, submissionId).Some? &&
              st.submissions[SubmissionIndex(st.submissions, submissionId).value].status != Pending) ==>
      r == ReviewStep(st, gameSettings, submissionId, approved, adminId, now)
  {
    match SubmissionIndex(st.submissions, submissionId)
    case None => Error("Submission not found")
    case Some(i) =>
      if st.submissions[i].status != Pending then Error("Submission already reviewed")
      else ReviewStep(st, gameSettings, submissionId, approved, adminId, now)
  }

  /**
   * With the guard a submission is credited at most once: once a guarded
   * review has succeeded, every further guarded review of it is refused.
   */
  lemma GuardedReviewExactlyOnce(st: ReviewState, gameSettings: seq<Settings>, submissionId: Id,
                                 approved1: bool, approved2: bool, adminId: string, now1: int, now2: int)
    requires ReviewPendingStep(st, gameSettings, submissionId, approved1, adminId, now1).Ok?
    ensures var st1 := ReviewPendingStep(st, gameSettings, submissionId, approved1, adminId, now1).value;
      ReviewPendingStep(st1, gameSettings, submissionId, approved2, adminId, now2) == Error("Submission already reviewed")
  {
    var st1 := ReviewPendingStep(st, gameSettings, submissionId, approved1, adminId, now1).value;
    ReviewKeepsIds(st, gameSettings, submissionId, approved1, adminId, now1);
    var i := SubmissionIndex(st.submissions, submissionId).value;
    assert st1.submissions[i].status != Pending;
  }

  /** `reviewSubmission`: the review step on the database, or the error it throws. */
  method ReviewSubmission(db: Database, submissionId: Id, approved: bool, adminId: string, now: int)
    returns (r: Result<bool>)
    requires db.Valid()
    modifies db
    ensures db.Valid() && db.nextId == old(db.nextId)
    ensures db.nodes == old(db.nodes) && db.gameSettings == old(db.gameSettings)
    ensures var step := ReviewStep(ReviewState(old(db.submissions), old(db.teams)), old(db.gameSettings),
                                   submissionId, approved, adminId, now);
      && (step.Error? ==> r == Error(step.message) && db.submissions == old(db.submissions) && db.teams == old(db.teams))
      && (step.Ok? ==> r == Ok(true) && db.submissions == step.value.submissions && db.teams == step.value.teams)
  {
    var i := SubmissionIndex(db.submissions, submissionId);
    if i.None? {
      return Error("Submission not found");
    }
    var submission := db.submissions[i.value];
    var submissions' := db.submissions[i.value := Reviewed(submission, approved, adminId, now)];
    if approved {
      var k := TeamIndex(db.teams, submission.teamId);
      if k.None? {
        // the thrown error rolls the status patch back
        return Error("Team not found");
      }
      var points := PointsPerNode(db.gameSettings);
      assert TeamIds(db.teams[k.value := Credited(db.teams[k.value], points)]) == TeamIds(db.teams);
      db.teams := db.teams[k.value := Credited(db.teams[k.value], points)];
    }
    assert SubmissionIds(submissions') == SubmissionIds(db.submissions);
    db.submissions := submissions';
    r := Ok(true);
  }
}
