/**
 * The demo's scanner screen: the code check behind a scan and the manual
 * entry field. The demo does not decode a payload; it compares the scanned
 * text with the secret of the node the team is due at.
 */
module QRScanner {
  import opened Common
  import opened Text
  import opened DemoTypes
  import opened GameContext

  /** The banner a validation shows. */
  datatype ScanResult = ScanResult(success: bool, message: string)

  const NoActiveNode := ScanResult(false, "No active node found!")
  const Validated := ScanResult(true, "QR Code validated! You can now answer the question.")
  const WrongPlace := ScanResult(false, "Haha wrong place! Keep exploring! \U{1F5FA}\U{FE0F}")

  /** What one validation does: the banner it shows and the node id it reports through `onValidScan`. */
  datatype Validation = Validation(result: ScanResult, validNodeId: Option<int>)

  /**
   * `validateQRCode`: nothing without a signed-in team; otherwise the node
   * whose id is the team's stage is looked up, and the text must equal its
   * secret exactly.
   */
  function ValidateQRCode(currentTeam: Option<Team>, nodes: seq<Node>, qrData: string): (r: Option<Validation>)
    ensures r.None? <==> currentTeam.None?
    ensures r.Some? ==>
      (r.value.result == NoActiveNode <==> GetNodeById(nodes, currentTeam.value.currentStage).None?)
    ensures r.Some? ==>
      (r.value.result == Validated <==>
        GetNodeById(nodes, currentTeam.value.currentStage).Some?
        && qrData == GetNodeById(nodes, currentTeam.value.currentStage).value.correctQrCode)
    ensures r.Some? ==> r.value.result == NoActiveNode || r.value.result == Validated || r.value.result == WrongPlace
    ensures r.Some? ==> (r.value.validNodeId.Some? <==> r.value.result == Validated)
    ensures r.Some? && r.value.validNodeId.Some? ==> r.value.validNodeId.value == currentTeam.value.currentStage
  {
    match currentTeam
    case None => None
    case Some(team) =>
      match GetNodeById(nodes, team.currentStage)
      case None => Some(Validation(NoActiveNode, None))
      case Some(node) =>
        if qrData == node.correctQrCode then Some(Validation(Validated, Some(node.id)))
        else Some(Validation(WrongPlace, None))
  }

  /**
   * With nodes numbered 1..n, a team is let through exactly by the secret
   * of node `currentStage`; a team past the last node, or before the first,
   * is told there is no active node.
   */
  lemma ScanBySequence(team: Team, nodes: seq<Node>, qrData: string)
    requires SequentialIds(nodes)
    ensures var r := ValidateQRCode(Some(team), nodes, qrData).value;
      && (r.result == NoActiveNode <==> !(1 <= team.currentStage <= |nodes|))
      && (r.result == Validated <==>
            1 <= team.currentStage <= |nodes| && qrData == nodes[team.currentStage - 1].correctQrCode)
  {
    NodeByIdSequential(nodes, team.currentStage);
  }

  /**
   * Another node's real secret earns the same "wrong place" banner as any
   * other text, unless it happens to equal the current node's secret.
   */
  lemma OtherNodesSecretIsWrongPlace(team: Team, nodes: seq<Node>, k: nat)
    requires SequentialIds(nodes) && 1 <= team.currentStage <= |nodes|
    requires k < |nodes| && nodes[k].correctQrCode != nodes[team.currentStage - 1].correctQrCode
    ensures ValidateQRCode(Some(team), nodes, nodes[k].correctQrCode) == Some(Validation(WrongPlace, None))
  {
    NodeByIdSequential(nodes, team.currentStage);
  }

  /** The state the scanner screen keeps: the manual entry field and the banner. */
  class ScannerState {
    var manualCode: string
    var scanResult: Option<ScanResult>

    constructor ()
      ensures manualCode == "" && scanResult == None
    {
      manualCode := "";
      scanResult := None;
    }

    /** `validateQRCode` as the screen runs it: shows the banner, unless there is no team. */
    method Validate(currentTeam: Option<Team>, nodes: seq<Node>, qrData: string) returns (validNodeId: Option<int>)
      modifies this`scanResult
      ensures var v := ValidateQRCode(currentTeam, nodes, qrData);
        && (v.None? ==> scanResult == old(scanResult) && validNodeId.None?)
        && (v.Some? ==> scanResult == Some(v.value.result) && validNodeId == v.value.validNodeId)
    {
      var v := ValidateQRCode(currentTeam, nodes, qrData);
      validNodeId := None;
      if v.Some? {
        scanResult := Some(v.value.result);
        validNodeId := v.value.validNodeId;
      }
    }

    /**
     * `handleManualEntry`: a blank field is ignored; otherwise the trimmed
     * text is validated and the field is cleared.
     */
    method HandleManualEntry(currentTeam: Option<Team>, nodes: seq<Node>) returns (validNodeId: Option<int>)
      modifies this
      ensures IsBlank(old(manualCode)) ==>
        manualCode == old(manualCode) && scanResult == old(scanResult) && validNodeId.None?
      ensures !IsBlank(old(manualCode)) ==>
        var v := ValidateQRCode(currentTeam, nodes, Trim(old(manualCode)));
        && manualCode == ""
        && (v.None? ==> scanResult == old(scanResult) && validNodeId.None?)
        && (v.Some? ==> scanResult == Some(v.value.result) && validNodeId == v.value.validNodeId)
    {
      var code := Trim(manualCode);
      validNodeId := None;
      if code != [] {
        validNodeId := Validate(currentTeam, nodes, code);
        manualCode := "";
      }
    }
  }

  /**
   * Typing a secret with white space around it is as good as typing the
   * secret, for any secret that does not itself start or end with white
   * space (all the demo's secrets).
   */
  lemma PaddedEntryAccepted(team: Team, nodes: seq<Node>, w1: string, secret: string, w2: string)
    requires IsBlank(w1) && IsBlank(w2)
    requires secret != [] && !IsSpace(secret[0]) && !IsSpace(secret[|secret| - 1])
    ensures ValidateQRCode(Some(team), nodes, Trim(w1 + secret + w2)) == ValidateQRCode(Some(team), nodes, secret)
  {
    TrimPadded(w1, secret, w2);
  }
}
