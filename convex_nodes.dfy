/**
 * Node handlers of the hosted backend: creating a node with a fresh secret,
 * the node queries, the scan validator and the node update.
 */
module ConvexNodes {
  import opened Common
  import opened ConvexSchema

  /** The two fields a node's QR code carries (its JSON text is not modelled). */
  datatype Payload = Payload(nodeId: int, qrSecret: string)

  /** The fields of a node a successful scan reveals; never the secret. */
  datatype PublicNode = PublicNode(nodeId: int, clue: string, question: string)

  /** Why a scan was refused, in the order the validator checks. */
  datatype ScanError = InvalidFormat | TeamNotFound | UnknownNode | WrongSequence | WrongPlace

  datatype ScanResult = ScanValid(node: PublicNode) | ScanInvalid(error: ScanError)

  /** The message the validator returns with `valid: false`. */
  function Message(e: ScanError): string {
    match e
    case InvalidFormat => "Invalid QR code format!"
    case TeamNotFound => "Team not found!"
    case UnknownNode => "Invalid QR code!"
    case WrongSequence => "Wrong sequence! Complete previous nodes first."
    case WrongPlace => "Haha wrong place! Keep exploring! \U{1F5FA}\U{FE0F}"
  }

  /** Position of the first node document with the given sequence number. */
  function NodeIndex(nodes: seq<Node>, nodeId: int): (r: Option<nat>)
    ensures r.Some? ==> IsFirst(nodes, (n: Node) => n.nodeId == nodeId, r.value)
    ensures r.None? <==> forall i :: 0 <= i < |nodes| ==> nodes[i].nodeId != nodeId
  {
    FirstIndex(nodes, (n: Node) => n.nodeId == nodeId)
  }

  /** `getNode`: the first node with the given sequence number, if any. */
  function GetNode(nodes: seq<Node>, nodeId: int): (r: Option<Node>)
    ensures r.None? <==> forall i :: 0 <= i < |nodes| ==> nodes[i].nodeId != nodeId
    ensures r.Some? ==> NodeIndex(nodes, nodeId).Some? && r.value == nodes[NodeIndex(nodes, nodeId).value]
    ensures r.Some? ==> r.value.nodeId == nodeId
  {
    match NodeIndex(nodes, nodeId)
    case None => None
    case Some(i) => Some(nodes[i])
  }

  /** `getActiveNodes`: the active nodes, in table order. */
  function GetActiveNodes(nodes: seq<Node>): (r: seq<Node>)
    ensures forall n :: n in r <==> n in nodes && n.isActive
    ensures forall n :: multiset(r)[n] == if n.isActive then multiset(nodes)[n] else 0
  {
    Filter(nodes, (n: Node) => n.isActive)
  }

  /** The fields of n a successful scan returns. */
  function Public(n: Node): PublicNode {
    PublicNode(n.nodeId, n.clue, n.question)
  }

  /**
   * `validateQRCode`: decoding first, then the team, the node, the team's
   * stage and last the secret. `decoded` is the result of parsing the
   * scanned text, None when it is not a well-formed payload.
   */
  function ValidateQRCode(teams: seq<Team>, nodes: seq<Node>, teamId: Id, decoded: Option<Payload>): (r: ScanResult)
    ensures r == ScanInvalid(InvalidFormat) <==> decoded.None?
    ensures r == ScanInvalid(TeamNotFound) <==> decoded.Some? && GetTeam(teams, teamId).None?
    ensures r == ScanInvalid(UnknownNode) <==>
      decoded.Some? && GetTeam(teams, teamId).Some? && GetNode(nodes, decoded.value.nodeId).None?
    ensures r == ScanInvalid(WrongSequence) <==>
      && decoded.Some? && GetTeam(teams, teamId).Some? && GetNode(nodes, decoded.value.nodeId).Some?
      && GetTeam(teams, teamId).value.currentStage != decoded.value.nodeId
    ensures r == ScanInvalid(WrongPlace) <==>
      && decoded.Some? && GetTeam(teams, teamId).Some? && GetNode(nodes, decoded.value.nodeId).Some?
      && GetTeam(teams, teamId).value.currentStage == decoded.value.nodeId
      && decoded.value.qrSecret != GetNode(nodes, decoded.value.nodeId).value.correctQrCode
    ensures r.ScanValid? ==>
      && decoded.Some? && GetTeam(teams, teamId).Some? && GetNode(nodes, decoded.value.nodeId).Some?
      && r.node == Public(GetNode(nodes, decoded.value.nodeId).value)
      && r.node.nodeId == GetTeam(teams, teamId).value.currentStage
      && decoded.value.qrSecret == GetNode(nodes, decoded.value.nodeId).value.correctQrCode
  {
    match decoded
    case None => ScanInvalid(InvalidFormat)
    case Some(payload) =>
      match GetTeam(teams, teamId)
      case None => ScanInvalid(TeamNotFound)
      case Some(team) =>
        match GetNode(nodes, payload.nodeId)
        case None => ScanInvalid(UnknownNode)
        case Some(node) =>
          if team.currentStage != payload.nodeId then ScanInvalid(WrongSequence)
          else if payload.qrSecret != node.correctQrCode then ScanInvalid(WrongPlace)
          else ScanValid(Public(node))
  }

  /**
   * The payload a node's creation returns unlocks that node for a team at
   * its stage exactly when no earlier node with the same sequence number
   * holds another secret: the handler does not check that the sequence
   * number is free, and the lookup takes the first match.
   */
  lemma CreatedNodeUnlocks(teams: seq<Team>, nodes: seq<Node>, n: Node, teamId: Id)
    requires GetTeam(teams, teamId).Some? && GetTeam(teams, teamId).value.currentStage == n.nodeId
    ensures ValidateQRCode(teams, nodes + [n], teamId, Some(Payload(n.nodeId, n.correctQrCode))).ScanValid?
        <==> GetNode(nodes, n.nodeId).None? || GetNode(nodes, n.nodeId).value.correctQrCode == n.correctQrCode
    ensures GetNode(nodes, n.nodeId).None? ==>
      ValidateQRCode(teams, nodes + [n], teamId, Some(Payload(n.nodeId, n.correctQrCode))) == ScanValid(Public(n))
  {
    GetNodeSnoc(nodes, n, n.nodeId);
  }

  /** Looking a sequence number up in a table with one more node at its end. */
  lemma GetNodeSnoc(nodes: seq<Node>, n: Node, nodeId: int)
    ensures GetNode(nodes + [n], nodeId) ==
      if GetNode(nodes, nodeId).Some? then GetNode(nodes, nodeId)
      else if n.nodeId == nodeId then Some(n) else None
  {
    var p := (m: Node) => m.nodeId == nodeId;
    FindSnoc(nodes, n, p);
    FindFirstAgrees(nodes, nodeId);
    FindFirstAgrees(nodes + [n], nodeId);
  }

  /** GetNode is the generic first-match search on sequence numbers. */
  lemma FindFirstAgrees(nodes: seq<Node>, nodeId: int)
    ensures GetNode(nodes, nodeId) == Find(nodes, (m: Node) => m.nodeId == nodeId)
  {
  }

  /**
   * A team at stage 2 holding node 3's real payload is told it is out of
   * sequence, not that the code is wrong; a team at stage 1 with node 1's
   * secret succeeds and with another secret is sent to the wrong place.
   */
  lemma ScanScenario(team: Team, n1: Node, n3: Node)
    requires n1.nodeId == 1 && n1.correctQrCode == "abc" && n3.nodeId == 3
    ensures ValidateQRCode([team.(currentStage := 1)], [n1, n3], team.id, Some(Payload(1, "abc")))
      == ScanValid(PublicNode(1, n1.clue, n1.question))
    ensures ValidateQRCode([team.(currentStage := 1)], [n1, n3], team.id, Some(Payload(1, "xyz")))
      == ScanInvalid(WrongPlace)
    ensures ValidateQRCode([team.(currentStage := 2)], [n1, n3], team.id, Some(Payload(3, n3.correctQrCode)))
      == ScanInvalid(WrongSequence)
  {
    assert IsFirst([n1, n3], (n: Node) => n.nodeId == 3, 1);
    FirstIndexUnique([n1, n3], (n: Node) => n.nodeId == 3, 1);
  }

  /** The node table after `updateNode`, or its error. */
  function UpdateNodeStep(nodes: seq<Node>, nodeId: int, clue: string, question: string,
                          expectedAnswer: Option<string>, isActive: bool): (r: Result<seq<Node>>)
    ensures r.Error? <==> GetNode(nodes, nodeId).None?
    ensures r.Error? ==> r.message == "Node not found"
    ensures r.Ok? ==> |r.value| == |nodes|
    ensures r.Ok? ==> forall j :: 0 <= j < |nodes| ==>
      && r.value[j].id == nodes[j].id && r.value[j].nodeId == nodes[j].nodeId
      && r.value[j].correctQrCode == nodes[j].correctQrCode && r.value[j].createdAt == nodes[j].createdAt
    ensures r.Ok? ==> var i := NodeIndex(nodes, nodeId).value;
      && r.value[i].clue == clue && r.value[i].question == question
      && r.value[i].expectedAnswer == expectedAnswer && r.value[i].isActive == isActive
      && forall j :: 0 <= j < |nodes| && j != i ==> r.value[j] == nodes[j]
  {
    match NodeIndex(nodes, nodeId)
    case None => Error("Node not found")
    case Some(i) =>
      Ok(nodes[i := nodes[i].(clue := clue, question := question, expectedAnswer := expectedAnswer, isActive := isActive)])
  }

  /** The other tables are as they were. */
  twostate predicate OnlyNodesChanged(db: Database)
    reads db
  {
    db.teams == old(db.teams) && db.submissions == old(db.submissions) && db.gameSettings == old(db.gameSettings)
  }

  /** `createNode`: inserts an active node under a fresh id and returns its QR payload. */
  method CreateNode(db: Database, nodeId: int, clue: string, question: string,
                    expectedAnswer: Option<string>, secret: string, now: int)
    returns (newNodeId: Id, qrCodeData: Payload)
    requires db.Valid()
    modifies db
    ensures db.Valid() && OnlyNodesChanged(db)
    ensures newNodeId == old(db.nextId)
    ensures db.nodes == old(db.nodes) + [Node(newNodeId, nodeId, clue, question, secret, expectedAnswer, now, true)]
    ensures qrCodeData == Payload(nodeId, secret)
  {
    newNodeId := db.FreshId();
    db.nodes := db.nodes + [Node(newNodeId, nodeId, clue, question, secret, expectedAnswer, now, true)];
    assert NodeIds(db.nodes) == NodeIds(old(db.nodes)) + [newNodeId];
    qrCodeData := Payload(nodeId, secret);
  }

  /** `updateNode`: patches the first node with that sequence number, or throws. */
  method UpdateNode(db: Database, nodeId: int, clue: string, question: string,
                    expectedAnswer: Option<string>, isActive: bool)
    returns (r: Result<()>)
    requires db.Valid()
    modifies db
    ensures db.Valid() && OnlyNodesChanged(db) && db.nextId == old(db.nextId)
    ensures var step := UpdateNodeStep(old(db.nodes), nodeId, clue, question, expectedAnswer, isActive);
      && (step.Error? ==> r == Error(step.message) && db.nodes == old(db.nodes))
      && (step.Ok? ==> r == Ok(()) && db.nodes == step.value)
  {
    var step := UpdateNodeStep(db.nodes, nodeId, clue, question, expectedAnswer, isActive);
    match step
    case Error(msg) =>
      r := Error(msg);
    case Ok(updated) =>
      assert NodeIds(updated) == NodeIds(db.nodes);
      db.nodes := updated;
      r := Ok(());
  }
}
