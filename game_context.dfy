/**
 * The in-memory demo's game state (`GameProvider`): three lists, the
 * settings record, the signed-in team and the admin flag, with the actions
 * the screens call. Every action replaces a list by an appended or mapped
 * copy; the model applies each update at once, in program order.
 */
module GameContext {
  import opened Common
  import opened Text
  import opened DemoTypes

  /** `joinTeam`: the first team with that id, or null. */
  function JoinTeam(teams: seq<Team>, teamId: string): (r: Option<Team>)
    ensures r.None? <==> forall i :: 0 <= i < |teams| ==> teams[i].id != teamId
    ensures r.Some? ==> exists i :: IsFirst(teams, (t: Team) => t.id == teamId, i) && teams[i] == r.value
  {
    Find(teams, (t: Team) => t.id == teamId)
  }

  /** `getNodeById`: the first node with that id, if any. */
  function GetNodeById(nodes: seq<Node>, id: int): (r: Option<Node>)
    ensures r.None? <==> forall i :: 0 <= i < |nodes| ==> nodes[i].id != id
    ensures r.Some? ==> exists i :: IsFirst(nodes, (n: Node) => n.id == id, i) && nodes[i] == r.value
  {
    Find(nodes, (n: Node) => n.id == id)
  }

  /** The nodes are numbered 1, 2, ... in list order. */
  predicate SequentialIds(nodes: seq<Node>) {
    forall i :: 0 <= i < |nodes| ==> nodes[i].id == i + 1
  }

  /** Every team has reached at least the first stage. */
  predicate StagesFromOne(teams: seq<Team>) {
    forall i :: 0 <= i < |teams| ==> teams[i].currentStage >= 1
  }

  /** With sequential ids, node k is the k-th of the list, and ids outside 1..n are unknown. */
  lemma NodeByIdSequential(nodes: seq<Node>, id: int)
    requires SequentialIds(nodes)
    ensures GetNodeById(nodes, id) == if 1 <= id <= |nodes| then Some(nodes[id - 1]) else None
  {
    if 1 <= id <= |nodes| {
      assert IsFirst(nodes, (n: Node) => n.id == id, id - 1);
      FirstIndexUnique(nodes, (n: Node) => n.id == id, id - 1);
    }
  }

  /** The secret of a node created by the demo: `node-<id>-secret-<timestamp>`. */
  function NodeSecret(id: nat, now: nat): string {
    "node-" + NatToString(id) + "-secret-" + NatToString(now)
  }

  /** Different nodes, or the same node at different times, get different secrets. */
  lemma NodeSecretInjective(id1: nat, now1: nat, id2: nat, now2: nat)
    requires NodeSecret(id1, now1) == NodeSecret(id2, now2)
    ensures id1 == id2 && now1 == now2
  {
    var s1 := NodeSecret(id1, now1);
    var s2 := NodeSecret(id2, now2);
    assert s1[5..] == NatToString(id1) + "-secret-" + NatToString(now1);
    assert s2[5..] == NatToString(id2) + "-secret-" + NatToString(now2);
    DigitsThenSeparator(NatToString(id1), NatToString(now1), NatToString(id2), NatToString(now2), "-secret-");
    NatToStringRoundTrip(id1);
    NatToStringRoundTrip(id2);
    NatToStringRoundTrip(now1);
    NatToStringRoundTrip(now2);
  }

  const LibraryClue := "Where ancient books whisper secrets of the past, seek the guardian of knowledge."
  const LibraryQuestion := "What year was this library established?"
  const GardenClue := "In the heart where nature meets nurture, find where green thumbs work their magic."
  const GardenQuestion := "Count the number of different plant species in this garden."
  const ArenaClue := "Where echoes of laughter and cheers once filled the air, champions were made."
  const ArenaQuestion := "What sport was primarily played in this arena?"

  /** The three nodes the provider loads when it mounts, stamped with the mount time. */
  function DemoNodes(now: int): (r: seq<Node>)
    ensures |r| == 3 && SequentialIds(r)
    ensures forall i :: 0 <= i < |r| ==> r[i].isActive && r[i].createdAt == now && r[i].expectedAnswer.Some?
  {
    [ Node(1, LibraryClue, LibraryQuestion, "library-secret-2024", Some("1985"), now, true),
      Node(2, GardenClue, GardenQuestion, "garden-secret-2024", Some("12"), now, true),
      Node(3, ArenaClue, ArenaQuestion, "arena-secret-2024", Some("Basketball"), now, true) ]
  }

  /** The settings the provider starts with. */
  const InitialSettings := GameSettings("default", 5, true, 100)

  /** A submission as the demo review leaves it: the verdict, the time and the reviewer `admin`. */
  function MarkReviewed(s: Submission, approved: bool, now: int): (r: Submission)
    ensures r.status == (if approved then Accepted else Rejected)
    ensures r.reviewedAt == Some(now) && r.reviewedBy == Some("admin")
    ensures r.(status := s.status, reviewedAt := s.reviewedAt, reviewedBy := s.reviewedBy) == s
  {
    s.(status := if approved then Accepted else Rejected, reviewedAt := Some(now), reviewedBy := Some("admin"))
  }

  /** The submissions after a review: every submission with that id is marked, the rest are kept. */
  function ReviewedSubmissions(submissions: seq<Submission>, submissionId: string, approved: bool, now: int)
    : (r: seq<Submission>)
    ensures |r| == |submissions|
    ensures forall i :: 0 <= i < |r| ==>
      && r[i].id == submissions[i].id && r[i].teamId == submissions[i].teamId
      && (submissions[i].id == submissionId ==> r[i] == MarkReviewed(submissions[i], approved, now))
      && (submissions[i].id != submissionId ==> r[i] == submissions[i])
  {
    MapWhere(submissions, (s: Submission) => s.id == submissionId, (s: Submission) => MarkReviewed(s, approved, now))
  }

  /** A team credited by an approval: one stage on and `points` more, with no fallback. */
  function Credit(t: Team, points: int): (r: Team)
    ensures r.currentStage == t.currentStage + 1 && r.score == t.score + points
    ensures r.(currentStage := t.currentStage, score := t.score) == t
  {
    t.(currentStage := t.currentStage + 1, score := t.score + points)
  }

  /**
   * The teams after a review. On approval the submission is looked up in the
   * list as it was before the review; when found, every team with its team
   * id is credited. A rejection or an unknown id leaves the teams alone.
   */
  function CreditedTeams(teams: seq<Team>, submissions: seq<Submission>, submissionId: string,
                         approved: bool, points: int): (r: seq<Team>)
    ensures |r| == |teams|
    ensures forall i :: 0 <= i < |r| ==> r[i].(currentStage := teams[i].currentStage, score := teams[i].score) == teams[i]
    ensures !approved || Find(submissions, (s: Submission) => s.id == submissionId).None? ==> r == teams
    ensures approved && Find(submissions, (s: Submission) => s.id == submissionId).Some? ==>
      var teamId := Find(submissions, (s: Submission) => s.id == submissionId).value.teamId;
      forall i :: 0 <= i < |r| ==>
        && (teams[i].id == teamId ==> r[i] == Credit(teams[i], points))
        && (teams[i].id != teamId ==> r[i] == teams[i])
  {
    if !approved then teams
    else
      match Find(submissions, (s: Submission) => s.id == submissionId)
      case None => teams
      case Some(submission) =>
        MapWhere(teams, (t: Team) => t.id == submission.teamId, (t: Team) => Credit(t, points))
  }

  /** A review never moves a team back, so teams stay at stage 1 or later. */
  lemma CreditedTeamsKeepStages(teams: seq<Team>, submissions: seq<Submission>, submissionId: string,
                                approved: bool, points: int)
    requires StagesFromOne(teams)
    ensures var r := CreditedTeams(teams, submissions, submissionId, approved, points);
      StagesFromOne(r) && forall i :: 0 <= i < |r| ==> r[i].currentStage >= teams[i].currentStage
  {
  }

  /**
   * The demo review does not look at the previous status either: approving
   * the same submission twice credits its team twice.
   */
  lemma DemoReapprovalCreditsTwice(teams: seq<Team>, submissions: seq<Submission>, submissionId: string,
                                   points: int, now1: int)
    requires Find(submissions, (s: Submission) => s.id == submissionId).Some?
    ensures var teamId := Find(submissions, (s: Submission) => s.id == submissionId).value.teamId;
      var teams1 := CreditedTeams(teams, submissions, submissionId, true, points);
      var submissions1 := ReviewedSubmissions(submissions, submissionId, true, now1);
      var teams2 := CreditedTeams(teams1, submissions1, submissionId, true, points);
      forall i :: 0 <= i < |teams| && teams[i].id == teamId ==>
        teams2[i].currentStage == teams[i].currentStage + 2 && teams2[i].score == teams[i].score + 2 * points
  {
    var p := (s: Submission) => s.id == submissionId;
    var k := FirstIndex(submissions, p).value;
    var submissions1 := ReviewedSubmissions(submissions, submissionId, true, now1);
    assert IsFirst(submissions1, p, k);
    FirstIndexUnique(submissions1, p, k);
    assert Find(submissions1, p).value.teamId == Find(submissions, p).value.teamId;
  }

  /** A partial settings object: the fields it supplies. */
  datatype SettingsPatch = SettingsPatch(
    id: Option<string>,
    totalNodes: Option<int>,
    gameActive: Option<bool>,
    pointsPerNode: Option<int>)

  /** `{ ...prev, ...patch }`: supplied fields override, omitted ones keep their values. */
  function Merge(prev: GameSettings, patch: SettingsPatch): (r: GameSettings)
    ensures r.id == (if patch.id.Some? then patch.id.value else prev.id)
    ensures r.totalNodes == (if patch.totalNodes.Some? then patch.totalNodes.value else prev.totalNodes)
    ensures r.gameActive == (if patch.gameActive.Some? then patch.gameActive.value else prev.gameActive)
    ensures r.pointsPerNode == (if patch.pointsPerNode.Some? then patch.pointsPerNode.value else prev.pointsPerNode)
  {
    GameSettings(
      if patch.id.Some? then patch.id.value else prev.id,
      if patch.totalNodes.Some? then patch.totalNodes.value else prev.totalNodes,
      if patch.gameActive.Some? then patch.gameActive.value else prev.gameActive,
      if patch.pointsPerNode.Some? then patch.pointsPerNode.value else prev.pointsPerNode)
  }

  /** Spreading `first` and then `second`: the later object wins field by field. */
  function Combine(first: SettingsPatch, second: SettingsPatch): (r: SettingsPatch)
    ensures r.id == (if second.id.Some? then second.id else first.id)
    ensures r.totalNodes == (if second.totalNodes.Some? then second.totalNodes else first.totalNodes)
    ensures r.gameActive == (if second.gameActive.Some? then second.gameActive else first.gameActive)
    ensures r.pointsPerNode == (if second.pointsPerNode.Some? then second.pointsPerNode else first.pointsPerNode)
  {
    SettingsPatch(
      if second.id.Some? then second.id else first.id,
      if second.totalNodes.Some? then second.totalNodes else first.totalNodes,
      if second.gameActive.Some? then second.gameActive else first.gameActive,
      if second.pointsPerNode.Some? then second.pointsPerNode else first.pointsPerNode)
  }

  /**
   * Two updates in a row are one update with the combined patch; an empty
   * patch changes nothing; repeating an update changes nothing more.
   */
  lemma MergeLaws(prev: GameSettings, a: SettingsPatch, b: SettingsPatch)
    ensures Merge(Merge(prev, a), b) == Merge(prev, Combine(a, b))
    ensures Merge(prev, SettingsPatch(None, None, None, None)) == prev
    ensures Merge(Merge(prev, a), a) == Merge(prev, a)
  {
  }

  /** The demo's state and actions. */
  class GameProvider {
    var teams: seq<Team>
    var nodes: seq<Node>
    var submissions: seq<Submission>
    var gameSettings: GameSettings
    var currentTeam: Option<Team>
    var isAdmin: bool

    /** Node ids are 1..n in list order and no team is before stage 1. */
    ghost predicate Valid()
      reads this
    {
      SequentialIds(nodes) && StagesFromOne(teams)
    }

    /** The provider once its mount effect has loaded the demo nodes. */
    constructor (now: int)
      ensures Valid()
      ensures teams == [] && submissions == [] && nodes == DemoNodes(now)
      ensures gameSettings == InitialSettings && currentTeam == None && !isAdmin
    {
      teams := [];
      nodes := DemoNodes(now);
      submissions := [];
      gameSettings := InitialSettings;
      currentTeam := None;
      isAdmin := false;
    }

    /** `createTeam`: appends a team at stage 1 with no points and returns it. */
    method CreateTeam(name: string, members: seq<string>, teamId: string, now: int) returns (team: Team)
      requires Valid()
      modifies this`teams
      ensures Valid()
      ensures team == Team(teamId, name, members, 1, 0, now)
      ensures teams == old(teams) + [team]
      ensures JoinTeam(teams, teamId) ==
        if JoinTeam(old(teams), teamId).Some? then JoinTeam(old(teams), teamId) else Some(team)
    {
      team := Team(teamId, name, members, 1, 0, now);
      FindSnoc(teams, team, (t: Team) => t.id == teamId);
      teams := teams + [team];
    }

    /** `createNode`: appends an active node numbered one past the list length. */
    method CreateNode(clue: string, question: string, expectedAnswer: Option<string>, now: nat)
      returns (node: Node)
      requires Valid()
      modifies this`nodes
      ensures Valid()
      ensures node.id == |old(nodes)| + 1
      ensures node == Node(node.id, clue, question, NodeSecret(node.id, now), expectedAnswer, now, true)
      ensures nodes == old(nodes) + [node]
      ensures GetNodeById(nodes, node.id) == Some(node)
    {
      var id := |nodes| + 1;
      node := Node(id, clue, question, NodeSecret(id, now), expectedAnswer, now, true);
      nodes := nodes + [node];
      NodeByIdSequential(nodes, id);
    }

    /** `submitAnswer`: appends a pending submission, unreviewed, and returns it. */
    method SubmitAnswer(teamId: string, nodeId: int, answer: string, submissionId: string, now: int)
      returns (submission: Submission)
      requires Valid()
      modifies this`submissions
      ensures Valid()
      ensures submission == Submission(submissionId, teamId, nodeId, answer, Pending, now, None, None)
      ensures submissions == old(submissions) + [submission]
    {
      submission := Submission(submissionId, teamId, nodeId, answer, Pending, now, None, None);
      submissions := submissions + [submission];
    }

    /**
     * `reviewSubmission`: marks the submissions and, on approval, credits
     * the team found in the list as it was before, by the current points.
     */
    method ReviewSubmission(submissionId: string, approved: bool, now: int)
      requires Valid()
      modifies this`submissions, this`teams
      ensures Valid()
      ensures submissions == ReviewedSubmissions(old(submissions), submissionId, approved, now)
      ensures teams == CreditedTeams(old(teams), old(submissions), submissionId, approved, gameSettings.pointsPerNode)
    {
      var before := submissions;
      submissions := ReviewedSubmissions(submissions, submissionId, approved, now);
      CreditedTeamsKeepStages(teams, before, submissionId, approved, gameSettings.pointsPerNode);
      teams := CreditedTeams(teams, before, submissionId, approved, gameSettings.pointsPerNode);
    }

    /** `setCurrentTeam`: the team the player is signed in as (a copy, not a reference). */
    method SetCurrentTeam(team: Option<Team>)
      modifies this`currentTeam
      ensures currentTeam == team
    {
      currentTeam := team;
    }

    /** `setAdmin`. */
    method SetAdmin(admin: bool)
      modifies this`isAdmin
      ensures isAdmin == admin
    {
      isAdmin := admin;
    }

    /** `updateGameSettings`: merges the supplied fields into the settings. */
    method UpdateGameSettings(patch: SettingsPatch)
      modifies this`gameSettings
      ensures gameSettings == Merge(old(gameSettings), patch)
    {
      gameSettings := Merge(gameSettings, patch);
    }
  }
}
