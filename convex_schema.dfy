/**
 * The four tables of the hosted backend and the database that holds them.
 * A table is an ordered sequence of documents: every query that ends in
 * `.first()` takes the earliest matching document. The database issues a
 * fresh document id on every insert; each handler runs as one atomic step,
 * and a handler that throws leaves every table as it was (the hosting
 * framework rolls the mutation back).
 */
module ConvexSchema {
  import opened Common

  /** A document id (`_id`). */
  type Id = nat

  /** What a handler returns, or the message of the error it throws. */
  datatype Result<T> = Ok(value: T) | Error(message: string)

  datatype Team = Team(
    id: Id,
    name: string,
    members: seq<string>,
    currentStage: int,
    score: int,
    createdAt: int,
    teamCode: string)

  datatype Node = Node(
    id: Id,
    nodeId: int,
    clue: string,
    question: string,
    correctQrCode: string,
    expectedAnswer: Option<string>,
    createdAt: int,
    isActive: bool)

  datatype Submission = Submission(
    id: Id,
    teamId: Id,
    nodeId: int,
    submittedAnswer: string,
    status: Status,
    submittedAt: int,
    reviewedAt: Option<int>,
    reviewedBy: Option<string>)

  datatype Settings = Settings(
    id: Id,
    totalNodes: int,
    gameActive: bool,
    pointsPerNode: int,
    adminPassword: string)

  /** Document ids of a table are distinct and below the next id to be issued. */
  ghost predicate IdsBelow(ids: seq<Id>, next: Id) {
    && (forall i :: 0 <= i < |ids| ==> ids[i] < next)
    && (forall i, j :: 0 <= i < j < |ids| ==> ids[i] != ids[j])
  }

  function TeamIds(s: seq<Team>): seq<Id> { seq(|s|, i requires 0 <= i < |s| => s[i].id) }
  function NodeIds(s: seq<Node>): seq<Id> { seq(|s|, i requires 0 <= i < |s| => s[i].id) }
  function SubmissionIds(s: seq<Submission>): seq<Id> { seq(|s|, i requires 0 <= i < |s| => s[i].id) }
  function SettingsIds(s: seq<Settings>): seq<Id> { seq(|s|, i requires 0 <= i < |s| => s[i].id) }

  /** `ctx.db.get(teamId)` on the teams table. */
  function GetTeam(teams: seq<Team>, teamId: Id): (r: Option<Team>)
    ensures r.Some? ==> r.value in teams && r.value.id == teamId
    ensures r.None? <==> forall i :: 0 <= i < |teams| ==> teams[i].id != teamId
  {
    Find(teams, (t: Team) => t.id == teamId)
  }

  /** Position of the team document with the given id. */
  function TeamIndex(teams: seq<Team>, teamId: Id): (r: Option<nat>)
    ensures r.Some? ==> r.value < |teams| && teams[r.value].id == teamId
    ensures r.None? <==> GetTeam(teams, teamId).None?
    ensures r.Some? ==> GetTeam(teams, teamId) == Some(teams[r.value])
  {
    FirstIndex(teams, (t: Team) => t.id == teamId)
  }

  /** Position of the submission document with the given id. */
  function SubmissionIndex(submissions: seq<Submission>, submissionId: Id): (r: Option<nat>)
    ensures r.Some? ==> r.value < |submissions| && submissions[r.value].id == submissionId
    ensures r.None? <==> forall i :: 0 <= i < |submissions| ==> submissions[i].id != submissionId
  {
    FirstIndex(submissions, (s: Submission) => s.id == submissionId)
  }

  /** The backend's storage: four tables and the id generator. */
  class Database {
    var teams: seq<Team>
    var nodes: seq<Node>
    var submissions: seq<Submission>
    var gameSettings: seq<Settings>
    var nextId: Id

    ghost predicate Valid()
      reads this
    {
      && IdsBelow(TeamIds(teams), nextId)
      && IdsBelow(NodeIds(nodes), nextId)
      && IdsBelow(SubmissionIds(submissions), nextId)
      && IdsBelow(SettingsIds(gameSettings), nextId)
    }

    constructor ()
      ensures Valid()
      ensures teams == [] && nodes == [] && submissions == [] && gameSettings == []
    {
      teams, nodes, submissions, gameSettings := [], [], [], [];
      nextId := 0;
    }

    /** Issues a document id that no table holds yet. */
    method FreshId() returns (id: Id)
      requires Valid()
      modifies this`nextId
      ensures id == old(nextId) && nextId == id + 1
      ensures Valid()
    {
      id := nextId;
      nextId := nextId + 1;
    }
  }
}
