/**
 * The demo's answer form for one node: it is replaced by a waiting notice
 * while the team has a pending answer for that node, ignores a blank
 * answer and submits the trimmed text.
 */
module QuestionForm {
  import opened Common
  import opened Text
  import opened DemoTypes
  import opened GameContext

  /** The submission is the given team's pending answer for the node. */
  predicate PendingFor(s: Submission, currentTeam: Option<Team>, nodeId: int) {
    currentTeam.Some? && s.teamId == currentTeam.value.id && s.nodeId == nodeId && s.status == Pending
  }

  /** `existingSubmission`: the first pending answer of the signed-in team for the node. */
  function ExistingSubmission(submissions: seq<Submission>, currentTeam: Option<Team>, nodeId: int)
    : (r: Option<Submission>)
    ensures r.None? <==> forall i :: 0 <= i < |submissions| ==> !PendingFor(submissions[i], currentTeam, nodeId)
    ensures r.Some? ==> r.value in submissions && PendingFor(r.value, currentTeam, nodeId)
    ensures r.Some? ==> exists i :: 0 <= i < |submissions| && submissions[i] == r.value &&
                                    forall j :: 0 <= j < i ==> !PendingFor(submissions[j], currentTeam, nodeId)
  {
    Find(submissions, (s: Submission) => PendingFor(s, currentTeam, nodeId))
  }

  /** What the form shows. */
  datatype FormView = Hidden | AwaitingReview(answer: string) | AnswerForm

  /**
   * Nothing without the node or a team; the waiting notice with the pending
   * answer while there is one; the form otherwise.
   */
  function View(nodes: seq<Node>, currentTeam: Option<Team>, submissions: seq<Submission>, nodeId: int): (r: FormView)
    ensures r == Hidden <==> GetNodeById(nodes, nodeId).None? || currentTeam.None?
    ensures r.AwaitingReview? <==>
      GetNodeById(nodes, nodeId).Some? && currentTeam.Some? && ExistingSubmission(submissions, currentTeam, nodeId).Some?
    ensures r.AwaitingReview? ==> r.answer == ExistingSubmission(submissions, currentTeam, nodeId).value.submittedAnswer
    ensures r == AnswerForm ==>
      forall i :: 0 <= i < |submissions| ==> !PendingFor(submissions[i], currentTeam, nodeId)
  {
    if GetNodeById(nodes, nodeId).None? || currentTeam.None? then Hidden
    else
      match ExistingSubmission(submissions, currentTeam, nodeId)
      case Some(s) => AwaitingReview(s.submittedAnswer)
      case None => AnswerForm
  }

  /** The text `handleSubmit` sends: nothing for a blank answer, else the trimmed answer. */
  function SubmittedText(answer: string): (r: Option<string>)
    ensures r.None? <==> IsBlank(answer)
    ensures r.Some? ==> r.value != [] && !IsSpace(r.value[0]) && !IsSpace(r.value[|r.value| - 1])
    ensures r.Some? ==> exists a :: CoreOf(answer, r.value, a)
  {
    var t := Trim(answer);
    if t == [] then None else Some(t)
  }

  /**
   * Submitting from the form, which is only offered while the team has no
   * pending answer for the node, leaves exactly one pending answer for it,
   * and the form turns into the waiting notice showing that answer.
   */
  lemma SubmitFromFormLeavesOnePending(nodes: seq<Node>, team: Team, submissions: seq<Submission>,
                                       nodeId: int, s: Submission)
    requires View(nodes, Some(team), submissions, nodeId) == AnswerForm
    requires s.teamId == team.id && s.nodeId == nodeId && s.status == Pending
    ensures Count(submissions + [s], (x: Submission) => PendingFor(x, Some(team), nodeId)) == 1
    ensures View(nodes, Some(team), submissions + [s], nodeId) == AwaitingReview(s.submittedAnswer)
  {
    var p := (x: Submission) => PendingFor(x, Some(team), nodeId);
    FilterNone(submissions, p);
    FilterSnoc(submissions, s, p);
    assert Filter(submissions + [s], p) == [s];
    FindSnoc(submissions, s, p);
    assert ExistingSubmission(submissions + [s], Some(team), nodeId) == Some(s);
  }

  /** The form's own state: the answer being typed. */
  class AnswerState {
    var answer: string

    constructor ()
      ensures answer == ""
    {
      answer := "";
    }

    /**
     * `handleSubmit`, reachable only while the form is shown and so with a
     * signed-in team: a blank answer does nothing; otherwise the trimmed
     * answer is submitted for the team and the field is cleared.
     */
    method HandleSubmit(game: GameProvider, nodeId: int, submissionId: string, now: int)
      returns (submitted: Option<Submission>)
      requires game.Valid() && game.currentTeam.Some?
      modifies this, game`submissions
      ensures game.Valid()
      ensures IsBlank(old(answer)) ==>
        submitted.None? && answer == old(answer) && game.submissions == old(game.submissions)
      ensures !IsBlank(old(answer)) ==>
        && answer == ""
        && submitted == Some(Submission(submissionId, game.currentTeam.value.id, nodeId, Trim(old(answer)),
                                        Pending, now, None, None))
        && game.submissions == old(game.submissions) + [submitted.value]
    {
      match SubmittedText(answer)
      case None =>
        submitted := None;
      case Some(text) =>
        var s := game.SubmitAnswer(game.currentTeam.value.id, nodeId, text, submissionId, now);
        answer := "";
        submitted := Some(s);
    }
  }
}
