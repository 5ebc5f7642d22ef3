/**
 * Team creation (createTeam of src/lib/supabase/teams.ts, repeated verbatim in
 * src/lib/supabase.ts): one row for the team, then one `team_players` link row
 * per member in a single batch insert.
 */
module TeamsApi {
  import opened Types
  import opened Backend

  /** The team row: the name, the logo and the ids of the optional role players. */
  datatype TeamRow = TeamRow(
    name: string,
    logoUrl: Option<string>,
    captainId: Option<string>,
    viceCaptainId: Option<string>,
    wicketKeeperId: Option<string>)

  datatype TeamPlayerRow = TeamPlayerRow(teamId: string, playerId: string)

  function TeamRowOf(t: Team): TeamRow
  {
    TeamRow(t.name, t.logoUrl, PlayerId(t.captain), PlayerId(t.viceCaptain), PlayerId(t.wicketKeeper))
  }

  /**
   * Each role id is the id of the role player when there is one and undefined
   * otherwise; the roster plays no part, so a captain need not be a member.
   */
  lemma TeamRowRoles(t: Team, roster: Option<seq<Player>>)
    ensures var r := TeamRowOf(t);
      && r.name == t.name && r.logoUrl == t.logoUrl
      && (r.captainId.Some? <==> t.captain.Some?)
      && (t.captain.Some? ==> r.captainId.value == t.captain.value.id)
      && (r.viceCaptainId.Some? <==> t.viceCaptain.Some?)
      && (t.viceCaptain.Some? ==> r.viceCaptainId.value == t.viceCaptain.value.id)
      && (r.wicketKeeperId.Some? <==> t.wicketKeeper.Some?)
      && (t.wicketKeeper.Some? ==> r.wicketKeeperId.value == t.wicketKeeper.value.id)
    ensures TeamRowOf(t.(players := roster)) == TeamRowOf(t)
  {
  }

  /** `players.map(player => ({ team_id, player_id: player.id }))`. */
  function LinkRows(teamId: string, players: seq<Player>): (r: seq<TeamPlayerRow>)
    ensures |r| == |players|
    ensures forall i :: 0 <= i < |r| ==> r[i].teamId == teamId && r[i].playerId == players[i].id
    decreases |players|
  {
    if players == [] then [] else [TeamPlayerRow(teamId, players[0].id)] + LinkRows(teamId, players[1..])
  }

  /** The link rows of a roster: none when it is absent or empty. */
  function TeamPlayerRows(teamId: string, players: Option<seq<Player>>): seq<TeamPlayerRow>
  {
    if players.Some? && |players.value| > 0 then LinkRows(teamId, players.value) else []
  }

  /** Links of a longer roster are the links of its parts, in the same order. */
  lemma {:induction false} LinkRowsAppend(teamId: string, a: seq<Player>, b: seq<Player>)
    ensures LinkRows(teamId, a + b) == LinkRows(teamId, a) + LinkRows(teamId, b)
    decreases |a|
  {
    if a != [] {
      assert (a + b)[1..] == a[1..] + b;
      LinkRowsAppend(teamId, a[1..], b);
    } else {
      assert a + b == b;
    }
  }

  /** Every member is linked, and only members are linked. */
  lemma LinkRowsMembers(teamId: string, players: seq<Player>, pid: string)
    ensures TeamPlayerRow(teamId, pid) in LinkRows(teamId, players)
            <==> exists i :: 0 <= i < |players| && players[i].id == pid
  {
    var r := LinkRows(teamId, players);
    if exists i :: 0 <= i < |players| && players[i].id == pid {
      var i :| 0 <= i < |players| && players[i].id == pid;
      assert r[i] == TeamPlayerRow(teamId, pid);
    }
  }

  /**
   * createTeam: insert the team row; if that fails nothing is inserted and the
   * result is null (None). Otherwise insert the links in one batch when the
   * roster is non-empty; a failure there returns null although the team row
   * stays in the table. `teamInsert` is the id the service assigns, or None
   * for an error; `linksOk` is the reply to the link insert.
   */
  method CreateTeam(teams: Table<Stored<TeamRow>>, links: Table<TeamPlayerRow>, t: Team,
                    teamInsert: Option<string>, linksOk: bool) returns (r: Option<Stored<TeamRow>>)
    modifies teams, links
    ensures teamInsert.None? ==> r.None? && teams.rows == old(teams.rows) && links.rows == old(links.rows)
    ensures teamInsert.Some? ==>
      var stored := Stored(teamInsert.value, TeamRowOf(t));
      var batch := TeamPlayerRows(teamInsert.value, t.players);
      && teams.rows == old(teams.rows) + [stored]
      && links.rows == old(links.rows) + (if linksOk then batch else [])
      && r == (if linksOk || batch == [] then Some(stored) else None)
  {
    if teamInsert.None? {
      return None;
    }
    var stored := Stored(teamInsert.value, TeamRowOf(t));
    teams.Insert([stored]);
    if t.players.Some? && |t.players.value| > 0 {
      var batch := LinkRows(teamInsert.value, t.players.value);
      if !linksOk {
        return None;
      }
      links.Insert(batch);
    }
    r := Some(stored);
  }
}
