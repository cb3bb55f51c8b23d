/**
 * Records of the in-memory demo. Unlike the hosted backend, team and
 * submission ids are strings, a node's id is its sequence number, teams
 * carry no join code and the settings hold no password.
 */
module DemoTypes {
  import opened Common

  datatype Team = Team(
    id: string,
    name: string,
    members: seq<string>,
    currentStage: int,
    score: int,
    createdAt: int)

  datatype Node = Node(
    id: int,
    clue: string,
    question: string,
    correctQrCode: string,
    expectedAnswer: Option<string>,
    createdAt: int,
    isActive: bool)

  datatype Submission = Submission(
    id: string,
    teamId: string,
    nodeId: int,
    submittedAnswer: string,
    status: Status,
    submittedAt: int,
    reviewedAt: Option<int>,
    reviewedBy: Option<string>)

  datatype GameSettings = GameSettings(
    id: string,
    totalNodes: int,
    gameActive: bool,
    pointsPerNode: int)
}
