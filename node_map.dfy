/**
 * The player's map of the hunt in the demo: each node is completed, current
 * or locked relative to the team's stage, locked clues are hidden, and a
 * banner congratulates a team that is past the last node.
 */
module NodeMap {
  import opened Common
  import opened DemoTypes
  import opened GameContext

  datatype NodeStatus = Completed | Current | Locked

  /** `getNodeStatus`: before the stage is done, the stage itself is current, beyond is locked. */
  function GetNodeStatus(currentStage: int, nodeId: int): (r: NodeStatus)
    ensures r == Completed <==> nodeId < currentStage
    ensures r == Current <==> nodeId == currentStage
    ensures r == Locked <==> nodeId > currentStage
  {
    if nodeId < currentStage then Completed
    else if nodeId == currentStage then Current
    else Locked
  }

  /** The clue of a node is shown exactly when the team has reached that node. */
  function ClueShown(currentStage: int, nodeId: int): (r: bool)
    ensures r <==> nodeId <= currentStage
  {
    GetNodeStatus(currentStage, nodeId) != Locked
  }

  /** The completion banner's condition. */
  predicate HuntComplete(currentStage: int, nodes: seq<Node>) {
    currentStage > |nodes|
  }

  /** The map: nothing without a team, otherwise one status per node in list order. */
  function MapView(currentTeam: Option<Team>, nodes: seq<Node>): (r: Option<seq<NodeStatus>>)
    ensures r.None? <==> currentTeam.None?
    ensures r.Some? ==> |r.value| == |nodes| && forall i :: 0 <= i < |nodes| ==>
      r.value[i] == GetNodeStatus(currentTeam.value.currentStage, nodes[i].id)
  {
    match currentTeam
    case None => None
    case Some(team) => Some(seq(|nodes|, i requires 0 <= i < |nodes| => GetNodeStatus(team.currentStage, nodes[i].id)))
  }

  /**
   * With nodes numbered 1..n and a team at stage 1 or later, the banner is
   * shown exactly when every node is completed.
   */
  lemma CompleteIffAllCompleted(currentStage: int, nodes: seq<Node>)
    requires SequentialIds(nodes) && currentStage >= 1
    ensures HuntComplete(currentStage, nodes) <==>
      forall i :: 0 <= i < |nodes| ==> GetNodeStatus(currentStage, nodes[i].id) == Completed
  {
    if |nodes| > 0 && !HuntComplete(currentStage, nodes) {
      var last := |nodes| - 1;
      assert GetNodeStatus(currentStage, nodes[last].id) != Completed;
    }
  }

  /**
   * With nodes numbered 1..n, a team part-way through has exactly one
   * current node, the one at position stage - 1; the rest before it are
   * completed and the rest after it locked.
   */
  lemma OneCurrentNode(currentStage: int, nodes: seq<Node>)
    requires SequentialIds(nodes) && 1 <= currentStage <= |nodes|
    ensures GetNodeStatus(currentStage, nodes[currentStage - 1].id) == Current
    ensures forall i :: 0 <= i < |nodes| && i != currentStage - 1 ==>
      GetNodeStatus(currentStage, nodes[i].id) == (if i < currentStage - 1 then Completed else Locked)
  {
  }
}
