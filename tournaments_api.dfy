/**
 * Tournament creation (createTournament of src/lib/supabase/tournaments.ts,
 * repeated verbatim in src/lib/supabase.ts): one row for the tournament, then
 * one `tournament_teams` link row per participating team in a single batch.
 */
module TournamentsApi {
  import opened Types
  import opened Backend

  datatype TournamentRow = TournamentRow(name: string, startDate: string, endDate: string, status: Option<string>)

  datatype TournamentTeamRow = TournamentTeamRow(tournamentId: string, teamId: string)

  function TournamentRowOf(t: Tournament): TournamentRow
  {
    TournamentRow(t.name, t.startDate, t.endDate,
                  if t.status.Some? then Some(TournamentStatusName(t.status.value)) else None)
  }

  /**
   * The tournament row copies the name, the dates and the status, and nothing
   * of the teams or matches.
   */
  lemma TournamentRowCopies(t: Tournament, teams: Option<seq<Team>>, matches: Option<seq<Match>>)
    ensures var r := TournamentRowOf(t);
      && r.name == t.name && r.startDate == t.startDate && r.endDate == t.endDate
      && (r.status.Some? <==> t.status.Some?)
      && (t.status.Some? ==> r.status.value == TournamentStatusName(t.status.value))
    ensures TournamentRowOf(t.(teams := teams, matches := matches)) == TournamentRowOf(t)
  {
  }

  /** `teams.map(team => ({ tournament_id, team_id: team.id }))`. */
  function LinkRows(tournamentId: string, teams: seq<Team>): (r: seq<TournamentTeamRow>)
    ensures |r| == |teams|
    ensures forall i :: 0 <= i < |r| ==> r[i].tournamentId == tournamentId && r[i].teamId == teams[i].id
    decreases |teams|
  {
    if teams == [] then [] else [TournamentTeamRow(tournamentId, teams[0].id)] + LinkRows(tournamentId, teams[1..])
  }

  /** The link rows of the participants: none when the list is absent or empty. */
  function TournamentTeamRows(tournamentId: string, teams: Option<seq<Team>>): seq<TournamentTeamRow>
  {
    if teams.Some? && |teams.value| > 0 then LinkRows(tournamentId, teams.value) else []
  }

  /** Every participant is linked, and only participants are linked. */
  lemma LinkRowsMembers(tournamentId: string, teams: seq<Team>, tid: string)
    ensures TournamentTeamRow(tournamentId, tid) in LinkRows(tournamentId, teams)
            <==> exists i :: 0 <= i < |teams| && teams[i].id == tid
  {
    var r := LinkRows(tournamentId, teams);
    if exists i :: 0 <= i < |teams| && teams[i].id == tid {
      var i :| 0 <= i < |teams| && teams[i].id == tid;
      assert r[i] == TournamentTeamRow(tournamentId, tid);
    }
  }

  /**
   * createTournament: insert the tournament row, then the links in one batch
   * when there are participants; a failure of either insert returns null (None),
   * and a failed first insert is followed by nothing.
   */
  method CreateTournament(tournaments: Table<Stored<TournamentRow>>, links: Table<TournamentTeamRow>,
                          t: Tournament, rowInsert: Option<string>, linksOk: bool)
    returns (r: Option<Stored<TournamentRow>>)
    modifies tournaments, links
    ensures rowInsert.None? ==>
      r.None? && tournaments.rows == old(tournaments.rows) && links.rows == old(links.rows)
    ensures rowInsert.Some? ==>
      var stored := Stored(rowInsert.value, TournamentRowOf(t));
      var batch := TournamentTeamRows(rowInsert.value, t.teams);
      && tournaments.rows == old(tournaments.rows) + [stored]
      && links.rows == old(links.rows) + (if linksOk then batch else [])
      && r == (if linksOk || batch == [] then Some(stored) else None)
  {
    if rowInsert.None? {
      return None;
    }
    var stored := Stored(rowInsert.value, TournamentRowOf(t));
    tournaments.Insert([stored]);
    if t.teams.Some? && |t.teams.value| > 0 {
      var batch := LinkRows(rowInsert.value, t.teams.value);
      if !linksOk {
        return None;
      }
      links.Insert(batch);
    }
    r := Some(stored);
  }
}
