/**
 * The pickers of the wizard's first and third steps
 * (src/pages/match/components/TeamSelectionStep.tsx and TossDetailsStep.tsx):
 * which teams they offer, which options are disabled, and which field a
 * choice writes.
 */
module WizardSteps {
  import opened Types
  import opened Seqs
  import opened MatchWizard

  /** One entry of a picker. */
  datatype TeamOption = TeamOption(id: string, name: string, disabled: bool)

  /** Every team in order, disabled exactly when its id is `excluded`. */
  function TeamOptions(teams: seq<Team>, excluded: string): (r: seq<TeamOption>)
    ensures |r| == |teams|
    ensures forall i :: 0 <= i < |r| ==>
      r[i].id == teams[i].id && r[i].name == teams[i].name && (r[i].disabled <==> teams[i].id == excluded)
    decreases |teams|
  {
    if teams == [] then []
    else [TeamOption(teams[0].id, teams[0].name, teams[0].id == excluded)] + TeamOptions(teams[1..], excluded)
  }

  /** Team 1's picker: the team chosen as team 2 is disabled. */
  function Team1Options(teams: seq<Team>, d: MatchFormData): seq<TeamOption>
  {
    TeamOptions(teams, d.team2Id)
  }

  /** Team 2's picker: the team chosen as team 1 is disabled. */
  function Team2Options(teams: seq<Team>, d: MatchFormData): seq<TeamOption>
  {
    TeamOptions(teams, d.team1Id)
  }

  function OnTeam1Change(d: MatchFormData, value: string): MatchFormData
  {
    UpdateField(d, "team1Id", value)
  }

  function OnTeam2Change(d: MatchFormData, value: string): MatchFormData
  {
    UpdateField(d, "team2Id", value)
  }

  /**
   * Choosing a team writes only its own field; and an enabled option never
   * makes the two teams equal (a disabled one is not offered for choice).
   */
  lemma TeamPickWritesOneField(teams: seq<Team>, d: MatchFormData, i: nat)
    requires i < |teams|
    ensures OnTeam1Change(d, Team1Options(teams, d)[i].id) == d.(team1Id := teams[i].id)
    ensures OnTeam2Change(d, Team2Options(teams, d)[i].id) == d.(team2Id := teams[i].id)
    ensures !Team1Options(teams, d)[i].disabled ==> OnTeam1Change(d, teams[i].id).team1Id != d.team2Id
    ensures !Team2Options(teams, d)[i].disabled ==> OnTeam2Change(d, teams[i].id).team2Id != d.team1Id
  {
  }

  /** The teams the toss step offers: `teams.filter(t => t.id === team1Id || t.id === team2Id)`. */
  function SelectedTeams(teams: seq<Team>, d: MatchFormData): seq<Team>
  {
    Filter(teams, (t: Team) => t.id == d.team1Id || t.id == d.team2Id)
  }

  /**
   * The toss step offers exactly the teams whose id is one of the two chosen
   * ones, each as often as it appears, in the order of the team list; both of
   * its pickers show this same list.
   */
  lemma SelectedTeamsExact(teams: seq<Team>, d: MatchFormData, t: Team)
    ensures t in SelectedTeams(teams, d) <==> t in teams && (t.id == d.team1Id || t.id == d.team2Id)
    ensures multiset(SelectedTeams(teams, d))[t]
            == if t.id == d.team1Id || t.id == d.team2Id then multiset(teams)[t] else 0
    ensures IsSubseq(SelectedTeams(teams, d), teams)
  {
    FilterMembership(teams, (t: Team) => t.id == d.team1Id || t.id == d.team2Id, t);
    FilterCount(teams, (t: Team) => t.id == d.team1Id || t.id == d.team2Id, t);
    FilterIsSubseq(teams, (t: Team) => t.id == d.team1Id || t.id == d.team2Id);
  }

  function OnTossWinnerChange(d: MatchFormData, value: string): MatchFormData
  {
    UpdateField(d, "tossWinnerId", value)
  }

  function OnBattingFirstChange(d: MatchFormData, value: string): MatchFormData
  {
    UpdateField(d, "battingFirstId", value)
  }

  /**
   * A toss choice writes only its own field, and a choice from the offered
   * list is one of the two teams.
   */
  lemma TossPickWritesOneField(teams: seq<Team>, d: MatchFormData, t: Team)
    requires t in SelectedTeams(teams, d)
    ensures OnTossWinnerChange(d, t.id) == d.(tossWinnerId := t.id)
    ensures OnBattingFirstChange(d, t.id) == d.(battingFirstId := t.id)
    ensures t.id == d.team1Id || t.id == d.team2Id
  {
    SelectedTeamsExact(teams, d, t);
  }

  /** An offered team chosen as toss winner is the toss winner of the submitted match. */
  lemma TossWinnerPickResolves(teams: seq<Team>, tournaments: seq<Tournament>, d: MatchFormData, t: Team)
    requires t in SelectedTeams(teams, d)
    ensures var m := SubmitDraft(OnTossWinnerChange(d, t.id), teams, tournaments);
            m.Some? ==> TeamId(m.value.tossWinner) == Some(t.id)
  {
    SelectedTeamsExact(teams, d, t);
    var d1 := d.(tossWinnerId := t.id);
    assert OnTossWinnerChange(d, t.id) == d1;
    assert TeamById(teams, d1.tossWinnerId).Some?;
  }

  /** An offered team chosen to bat first is the side batting first of the submitted match. */
  lemma BattingFirstPickResolves(teams: seq<Team>, tournaments: seq<Tournament>, d: MatchFormData, t: Team)
    requires t in SelectedTeams(teams, d)
    ensures var m := SubmitDraft(OnBattingFirstChange(d, t.id), teams, tournaments);
            m.Some? ==> TeamId(m.value.battingFirst) == Some(t.id)
  {
    SelectedTeamsExact(teams, d, t);
    var d1 := d.(battingFirstId := t.id);
    assert OnBattingFirstChange(d, t.id) == d1;
    assert TeamById(teams, d1.battingFirstId).Some?;
  }
}
