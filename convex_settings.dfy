/**
 * Settings handlers of the hosted backend. The settings table is meant to
 * hold one document; every handler reads or patches the first one.
 */
module ConvexSettings {
  import opened Common
  import opened ConvexSchema
  import opened ConvexNodes

  /** `getGameSettings`: the first settings document, if any. */
  function GetGameSettings(gameSettings: seq<Settings>): (r: Option<Settings>)
    ensures r.None? <==> gameSettings == []
    ensures r.Some? ==> r.value == gameSettings[0]
  {
    if gameSettings == [] then None else Some(gameSettings[0])
  }

  /** What initialization writes: the table afterwards and the id it returns. */
  datatype Initialized = Initialized(gameSettings: seq<Settings>, id: Id)

  /**
   * `initializeGameSettings` on the settings table: patches the first
   * document when there is one and otherwise inserts a document under
   * `freshId`; either way the game is switched on.
   */
  function InitializeStep(gameSettings: seq<Settings>, freshId: Id,
                          totalNodes: int, pointsPerNode: int, adminPassword: string): (r: Initialized)
    ensures |r.gameSettings| == if gameSettings == [] then 1 else |gameSettings|
    ensures r.gameSettings[0] == Settings(r.id, totalNodes, true, pointsPerNode, adminPassword)
    ensures r.id == if gameSettings == [] then freshId else gameSettings[0].id
    ensures r.gameSettings[1..] == if gameSettings == [] then [] else gameSettings[1..]
  {
    if gameSettings == [] then
      Initialized([Settings(freshId, totalNodes, true, pointsPerNode, adminPassword)], freshId)
    else
      var s := gameSettings[0];
      Initialized(gameSettings[0 := s.(totalNodes := totalNodes, pointsPerNode := pointsPerNode,
                                       adminPassword := adminPassword, gameActive := true)], s.id)
  }

  /**
   * After initialization the settings query returns the given values with
   * the game on, the given password is accepted and no other is; the table
   * never grows past one document if it held at most one.
   */
  lemma InitializeThenQuery(gameSettings: seq<Settings>, freshId: Id, totalNodes: int,
                            pointsPerNode: int, adminPassword: string, password: string)
    ensures var r := InitializeStep(gameSettings, freshId, totalNodes, pointsPerNode, adminPassword);
      && GetGameSettings(r.gameSettings) == Some(Settings(r.id, totalNodes, true, pointsPerNode, adminPassword))
      && (VerifyAdminPassword(r.gameSettings, password) <==> password == adminPassword)
      && (|gameSettings| <= 1 ==> |r.gameSettings| == 1)
  {
  }

  /** Initializing twice with the same values leaves the table as initializing once did. */
  lemma InitializeIdempotent(gameSettings: seq<Settings>, freshId1: Id, freshId2: Id,
                             totalNodes: int, pointsPerNode: int, adminPassword: string)
    ensures var r1 := InitializeStep(gameSettings, freshId1, totalNodes, pointsPerNode, adminPassword);
      var r2 := InitializeStep(r1.gameSettings, freshId2, totalNodes, pointsPerNode, adminPassword);
      r2 == r1
  {
    var r1 := InitializeStep(gameSettings, freshId1, totalNodes, pointsPerNode, adminPassword);
    var r2 := InitializeStep(r1.gameSettings, freshId2, totalNodes, pointsPerNode, adminPassword);
    assert r2.gameSettings == [r2.gameSettings[0]] + r2.gameSettings[1..];
    assert r1.gameSettings == [r1.gameSettings[0]] + r1.gameSettings[1..];
  }

  /** The settings table after `updateGameSettings`, or its error: all four fields are overwritten. */
  function UpdateSettingsStep(gameSettings: seq<Settings>, totalNodes: int, gameActive: bool,
                              pointsPerNode: int, adminPassword: string): (r: Result<seq<Settings>>)
    ensures r.Error? <==> gameSettings == []
    ensures r.Error? ==> r.message == "Game settings not found"
    ensures r.Ok? ==> |r.value| == |gameSettings| && r.value[1..] == gameSettings[1..]
    ensures r.Ok? ==> r.value[0] == Settings(gameSettings[0].id, totalNodes, gameActive, pointsPerNode, adminPassword)
  {
    if gameSettings == [] then Error("Game settings not found")
    else
      Ok(gameSettings[0 := gameSettings[0].(totalNodes := totalNodes, gameActive := gameActive,
                                            pointsPerNode := pointsPerNode, adminPassword := adminPassword)])
  }

  /** The settings table after `toggleGameActive`, or its error: only the flag changes. */
  function ToggleStep(gameSettings: seq<Settings>, gameActive: bool): (r: Result<seq<Settings>>)
    ensures r.Error? <==> gameSettings == []
    ensures r.Error? ==> r.message == "Game settings not found"
    ensures r.Ok? ==> |r.value| == |gameSettings| && r.value[1..] == gameSettings[1..]
    ensures r.Ok? ==> r.value[0].gameActive == gameActive && r.value[0].(gameActive := gameSettings[0].gameActive) == gameSettings[0]
  {
    if gameSettings == [] then Error("Game settings not found")
    else Ok(gameSettings[0 := gameSettings[0].(gameActive := gameActive)])
  }

  /**
   * Toggling twice restores the table, and toggling never changes which
   * passwords are accepted.
   */
  lemma ToggleKeepsPassword(gameSettings: seq<Settings>, gameActive: bool, password: string)
    requires gameSettings != []
    ensures var r := ToggleStep(gameSettings, gameActive);
      && r.Ok?
      && (VerifyAdminPassword(r.value, password) <==> VerifyAdminPassword(gameSettings, password))
      && ToggleStep(r.value, gameSettings[0].gameActive) == Ok(gameSettings)
  {
    var r := ToggleStep(gameSettings, gameActive).value;
    assert r[0 := r[0].(gameActive := gameSettings[0].gameActive)] == gameSettings;
  }

  /** After an update exactly the new password is accepted. */
  lemma UpdateThenVerify(gameSettings: seq<Settings>, totalNodes: int, gameActive: bool,
                         pointsPerNode: int, adminPassword: string, password: string)
    requires gameSettings != []
    ensures var r := UpdateSettingsStep(gameSettings, totalNodes, gameActive, pointsPerNode, adminPassword);
      r.Ok? && (VerifyAdminPassword(r.value, password) <==> password == adminPassword)
  {
  }

  /** `verifyAdminPassword`: false without settings, otherwise exact string equality. */
  function VerifyAdminPassword(gameSettings: seq<Settings>, password: string): (r: bool)
    ensures r <==> GetGameSettings(gameSettings).Some? && GetGameSettings(gameSettings).value.adminPassword == password
  {
    if gameSettings == [] then false else gameSettings[0].adminPassword == password
  }

  /** The five counters `getGameStats` returns. */
  datatype GameStats = GameStats(
    activeTeams: nat,
    pendingSubmissions: nat,
    completedSubmissions: nat,
    activeNodes: nat,
    totalSubmissions: nat)

  /** `getGameStats`: every team counts as active; submissions by status; nodes by flag. */
  function GetGameStats(teams: seq<Team>, submissions: seq<Submission>, nodes: seq<Node>): (r: GameStats)
    ensures r.activeTeams == |teams| && r.totalSubmissions == |submissions|
    ensures r.pendingSubmissions == Count(submissions, (s: Submission) => s.status == Pending)
    ensures r.completedSubmissions == Count(submissions, (s: Submission) => s.status == Accepted)
    ensures r.activeNodes == |GetActiveNodes(nodes)|
    ensures r.activeNodes <= |nodes|
    ensures forall n :: n in nodes && n.isActive ==> r.activeNodes > 0
  {
    GameStats(
      |teams|,
      Count(submissions, (s: Submission) => s.status == Pending),
      Count(submissions, (s: Submission) => s.status == Accepted),
      Count(nodes, (n: Node) => n.isActive),
      |submissions|)
  }

  /**
   * Pending and completed answers never outnumber all answers; the gap is
   * exactly the rejected ones.
   */
  lemma GameStatsBalance(teams: seq<Team>, submissions: seq<Submission>, nodes: seq<Node>)
    ensures var r := GetGameStats(teams, submissions, nodes);
      && r.pendingSubmissions + r.completedSubmissions <= r.totalSubmissions
      && r.totalSubmissions - r.pendingSubmissions - r.completedSubmissions
         == Count(submissions, (s: Submission) => s.status == Rejected)
  {
    FilterThreeWay(submissions, (s: Submission) => s.status == Pending,
                   (s: Submission) => s.status == Accepted, (s: Submission) => s.status == Rejected);
  }

  /** The other tables are as they were. */
  twostate predicate OnlySettingsChanged(db: Database)
    reads db
  {
    db.teams == old(db.teams) && db.nodes == old(db.nodes) && db.submissions == old(db.submissions)
  }

  /** `initializeGameSettings`: the initialization step, drawing an id only when it inserts. */
  method InitializeGameSettings(db: Database, totalNodes: int, pointsPerNode: int, adminPassword: string)
    returns (id: Id)
    requires db.Valid()
    modifies db
    ensures db.Valid() && OnlySettingsChanged(db)
    ensures var r := InitializeStep(old(db.gameSettings), old(db.nextId), totalNodes, pointsPerNode, adminPassword);
      db.gameSettings == r.gameSettings && id == r.id
  {
    if db.gameSettings == [] {
      id := db.FreshId();
      db.gameSettings := [Settings(id, totalNodes, true, pointsPerNode, adminPassword)];
    } else {
      var s := db.gameSettings[0];
      var updated := db.gameSettings[0 := s.(totalNodes := totalNodes, pointsPerNode := pointsPerNode,
                                             adminPassword := adminPassword, gameActive := true)];
      assert SettingsIds(updated) == SettingsIds(db.gameSettings);
      db.gameSettings := updated;
      id := s.id;
    }
  }

  /** `updateGameSettings`: overwrites the first document, or throws. */
  method UpdateGameSettings(db: Database, totalNodes: int, gameActive: bool, pointsPerNode: int, adminPassword: string)
    returns (r: Result<()>)
    requires db.Valid()
    modifies db
    ensures db.Valid() && OnlySettingsChanged(db) && db.nextId == old(db.nextId)
    ensures var step := UpdateSettingsStep(old(db.gameSettings), totalNodes, gameActive, pointsPerNode, adminPassword);
      && (step.Error? ==> r == Error(step.message) && db.gameSettings == old(db.gameSettings))
      && (step.Ok? ==> r == Ok(()) && db.gameSettings == step.value)
  {
    var step := UpdateSettingsStep(db.gameSettings, totalNodes, gameActive, pointsPerNode, adminPassword);
    match step
    case Error(msg) =>
      r := Error(msg);
    case Ok(updated) =>
      assert SettingsIds(updated) == SettingsIds(db.gameSettings);
      db.gameSettings := updated;
      r := Ok(());
  }

  /** `toggleGameActive`: sets the flag of the first document, or throws. */
  method ToggleGameActive(db: Database, gameActive: bool) returns (r: Result<()>)
    requires db.Valid()
    modifies db
    ensures db.Valid() && OnlySettingsChanged(db) && db.nextId == old(db.nextId)
    ensures var step := ToggleStep(old(db.gameSettings), gameActive);
      && (step.Error? ==> r == Error(step.message) && db.gameSettings == old(db.gameSettings))
      && (step.Ok? ==> r == Ok(()) && db.gameSettings == step.value)
  {
    var step := ToggleStep(db.gameSettings, gameActive);
    match step
    case Error(msg) =>
      r := Error(msg);
    case Ok(updated) =>
      assert SettingsIds(updated) == SettingsIds(db.gameSettings);
      db.gameSettings := updated;
      r := Ok(());
  }
}
