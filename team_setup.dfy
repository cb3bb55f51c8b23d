/**
 * The demo's team registration screen: the member list being edited, the
 * creation guard with its member filter, and joining an existing team.
 */
module TeamSetup {
  import opened Common
  import opened Text
  import opened DemoTypes
  import opened GameContext

  /** `members.filter(m => m.trim())`: the non-blank entries, in order and untrimmed. */
  function KeptMembers(members: seq<string>): (r: seq<string>)
    ensures forall m :: m in r <==> m in members && !IsBlank(m)
    ensures forall m :: multiset(r)[m] == if IsBlank(m) then 0 else multiset(members)[m]
  {
    Filter(members, (m: string) => !IsBlank(m))
  }

  /** The creation guard: a non-empty name (not trimmed) and at least one non-blank member. */
  function CanCreate(teamName: string, members: seq<string>): (r: bool)
    ensures r <==> teamName != [] && exists i :: 0 <= i < |members| && !IsBlank(members[i])
  {
    assert forall i :: 0 <= i < |members| ==> members[i] in members;
    teamName != [] && |KeptMembers(members)| > 0
  }

  /** An added row is empty, so it changes neither the kept members nor the guard. */
  lemma AddMemberKeepsTeam(teamName: string, members: seq<string>)
    ensures KeptMembers(members + [""]) == KeptMembers(members)
    ensures CanCreate(teamName, members + [""]) == CanCreate(teamName, members)
  {
    FilterSnoc(members, "", (m: string) => !IsBlank(m));
  }

  /** A member typed with spaces around it is passed on with those spaces. */
  lemma MembersNotTrimmed(members: seq<string>)
    requires members == [" Ann ", "  "]
    ensures KeptMembers(members) == [" Ann "]
  {
    assert !IsSpace(" Ann "[1]);
    assert IsBlank("  ");
    assert members[1..] == ["  "];
    assert members[1..][1..] == [];
  }

  /** The state of the registration screen. */
  class TeamSetupForm {
    var teamName: string
    var members: seq<string>
    var joinTeamId: string

    constructor ()
      ensures teamName == "" && members == [""] && joinTeamId == ""
    {
      teamName := "";
      members := [""];
      joinTeamId := "";
    }

    /** `addMember`: one more, empty, row. */
    method AddMember()
      modifies this`members
      ensures members == old(members) + [""]
    {
      members := members + [""];
    }

    /** `updateMember`: replaces the row at `index` (a row the screen shows) and no other. */
    method UpdateMember(index: nat, value: string)
      requires index < |members|
      modifies this`members
      ensures |members| == |old(members)| && members[index] == value
      ensures forall i :: 0 <= i < |members| && i != index ==> members[i] == old(members)[i]
    {
      members := members[index := value];
    }

    /**
     * `handleCreateTeam`: when the guard holds, registers a team with the
     * kept members and signs the player in as that team; otherwise nothing.
     */
    method HandleCreateTeam(game: GameProvider, teamId: string, now: int) returns (created: Option<Team>)
      requires game.Valid()
      modifies game`teams, game`currentTeam
      ensures game.Valid()
      ensures CanCreate(teamName, members) ==>
        && created == Some(Team(teamId, teamName, KeptMembers(members), 1, 0, now))
        && game.teams == old(game.teams) + [created.value]
        && game.currentTeam == created
      ensures !CanCreate(teamName, members) ==>
        created.None? && game.teams == old(game.teams) && game.currentTeam == old(game.currentTeam)
    {
      if CanCreate(teamName, members) {
        var team := game.CreateTeam(teamName, KeptMembers(members), teamId, now);
        game.SetCurrentTeam(Some(team));
        created := Some(team);
      } else {
        created := None;
      }
    }

    /** `handleJoinTeam`: signs the player in as the chosen team when it exists; otherwise nothing. */
    method HandleJoinTeam(game: GameProvider) returns (joined: Option<Team>)
      modifies game`currentTeam
      ensures joined == JoinTeam(game.teams, joinTeamId)
      ensures joined.Some? ==> game.currentTeam == joined
      ensures joined.None? ==> game.currentTeam == old(game.currentTeam)
    {
      joined := JoinTeam(game.teams, joinTeamId);
      if joined.Some? {
        game.SetCurrentTeam(joined);
      }
    }
  }
}
