/**
 * The match-creation wizard's state (useMatchForm of
 * src/pages/match/hooks/useMatchForm.ts): a step counter from 1 to 4 with
 * guards on steps 1 and 3, a form record of eight strings updated one named
 * field at a time, and a submit that resolves the chosen ids and creates the
 * match.
 */
module MatchWizard {
  import opened Types
  import opened Seqs
  import opened Strings
  import opened Backend
  import opened MatchesApi

  datatype MatchFormData = MatchFormData(
    date: string,
    venue: string,
    overs: string,
    team1Id: string,
    team2Id: string,
    tournamentId: string,
    tossWinnerId: string,
    battingFirstId: string)

  /** The first state of the form; `today` is the current date formatted as yyyy-MM-dd. */
  function InitialFormData(today: string): MatchFormData
  {
    MatchFormData(today, "", "20", "", "", "", "", "")
  }

  // Field-wise updates: `{ ...prev, [name]: value }`.

  /** The value of the field called `name`; None when the record has no such field. */
  function FieldValue(d: MatchFormData, name: string): Option<string>
  {
    if name == "date" then Some(d.date)
    else if name == "venue" then Some(d.venue)
    else if name == "overs" then Some(d.overs)
    else if name == "team1Id" then Some(d.team1Id)
    else if name == "team2Id" then Some(d.team2Id)
    else if name == "tournamentId" then Some(d.tournamentId)
    else if name == "tossWinnerId" then Some(d.tossWinnerId)
    else if name == "battingFirstId" then Some(d.battingFirstId)
    else None
  }

  function UpdateField(d: MatchFormData, name: string, value: string): MatchFormData
  {
    if name == "date" then d.(date := value)
    else if name == "venue" then d.(venue := value)
    else if name == "overs" then d.(overs := value)
    else if name == "team1Id" then d.(team1Id := value)
    else if name == "team2Id" then d.(team2Id := value)
    else if name == "tournamentId" then d.(tournamentId := value)
    else if name == "tossWinnerId" then d.(tossWinnerId := value)
    else if name == "battingFirstId" then d.(battingFirstId := value)
    else d
  }

  /** The form record is determined by its eight fields. */
  lemma FieldsDetermineForm(d1: MatchFormData, d2: MatchFormData)
    requires forall f :: FieldValue(d1, f) == FieldValue(d2, f)
    ensures d1 == d2
  {
    assert FieldValue(d1, "date") == FieldValue(d2, "date");
    assert FieldValue(d1, "venue") == FieldValue(d2, "venue");
    assert FieldValue(d1, "overs") == FieldValue(d2, "overs");
    assert FieldValue(d1, "team1Id") == FieldValue(d2, "team1Id");
    assert FieldValue(d1, "team2Id") == FieldValue(d2, "team2Id");
    assert FieldValue(d1, "tournamentId") == FieldValue(d2, "tournamentId");
    assert FieldValue(d1, "tossWinnerId") == FieldValue(d2, "tossWinnerId");
    assert FieldValue(d1, "battingFirstId") == FieldValue(d2, "battingFirstId");
  }

  /**
   * An update sets the named field to the value and leaves every other field
   * as it was; a name that is not a field of the form changes none of them.
   */
  lemma UpdateFieldOnlyNamed(d: MatchFormData, name: string, value: string, f: string)
    ensures FieldValue(UpdateField(d, name, value), f)
            == if f == name && FieldValue(d, f).Some? then Some(value) else FieldValue(d, f)
    ensures FieldValue(d, name).None? ==> UpdateField(d, name, value) == d
  {
  }

  /** Changes to two different inputs give the same form in either order. */
  lemma UpdatesCommute(d: MatchFormData, a: string, x: string, b: string, y: string)
    requires a != b
    ensures UpdateField(UpdateField(d, a, x), b, y) == UpdateField(UpdateField(d, b, y), a, x)
  {
    var l, r := UpdateField(UpdateField(d, a, x), b, y), UpdateField(UpdateField(d, b, y), a, x);
    forall f ensures FieldValue(l, f) == FieldValue(r, f) {
      UpdateFieldOnlyNamed(d, a, x, f);
      UpdateFieldOnlyNamed(UpdateField(d, a, x), b, y, f);
      UpdateFieldOnlyNamed(d, b, y, f);
      UpdateFieldOnlyNamed(UpdateField(d, b, y), a, x, f);
    }
    FieldsDetermineForm(l, r);
  }

  /** Of two changes to the same input, the last one wins. */
  lemma LastWriteWins(d: MatchFormData, a: string, x: string, y: string)
    ensures UpdateField(UpdateField(d, a, x), a, y) == UpdateField(d, a, y)
  {
    var l, r := UpdateField(UpdateField(d, a, x), a, y), UpdateField(d, a, y);
    forall f ensures FieldValue(l, f) == FieldValue(r, f) {
      UpdateFieldOnlyNamed(d, a, x, f);
      UpdateFieldOnlyNamed(UpdateField(d, a, x), a, y, f);
      UpdateFieldOnlyNamed(d, a, y, f);
    }
    FieldsDetermineForm(l, r);
  }

  // The step counter.

  const FirstStep: int := 1
  const LastStep: int := 4

  /** The two guards of `nextStep`; an empty id is falsy. */
  predicate StepBlocked(step: int, d: MatchFormData)
  {
    || (step == 1 && (d.team1Id == "" || d.team2Id == ""))
    || (step == 3 && (d.tossWinnerId == "" || d.battingFirstId == ""))
  }

  function NextStepOf(step: int, d: MatchFormData): int
  {
    if StepBlocked(step, d) then step
    else if step + 1 < LastStep then step + 1 else LastStep
  }

  function PrevStepOf(step: int): int
  {
    if step - 1 > FirstStep then step - 1 else FirstStep
  }

  /** Both moves keep the step between 1 and 4, and move it by at most one. */
  lemma StepBounds(step: int, d: MatchFormData)
    requires FirstStep <= step <= LastStep
    ensures FirstStep <= NextStepOf(step, d) <= LastStep && FirstStep <= PrevStepOf(step) <= LastStep
    ensures step <= NextStepOf(step, d) <= step + 1 && step - 1 <= PrevStepOf(step) <= step
  {
  }

  /**
   * `nextStep` advances exactly when the step is below 4 and not blocked: at
   * step 1 both teams must be chosen, at step 3 the toss winner and the side
   * batting first; steps 2 and 4 have no guard.
   */
  lemma NextStepAdvances(step: int, d: MatchFormData)
    requires FirstStep <= step <= LastStep
    ensures NextStepOf(step, d) == step + 1 <==> step < LastStep && !StepBlocked(step, d)
    ensures step == 1 ==> (NextStepOf(step, d) == 1 <==> d.team1Id == "" || d.team2Id == "")
    ensures step == 3 ==> (NextStepOf(step, d) == 3 <==> d.tossWinnerId == "" || d.battingFirstId == "")
    ensures step == 2 ==> NextStepOf(step, d) == 3
    ensures step == 4 ==> NextStepOf(step, d) == 4
  {
  }

  /** Nothing checks that the two teams differ: the same team twice passes step 1. */
  lemma SameTeamPassesStepOne(d: MatchFormData)
    requires d.team1Id == d.team2Id && d.team1Id != ""
    ensures NextStepOf(1, d) == 2
  {
  }

  // Submitting.

  /** `teams.find(t => t.id === id)`. */
  function TeamById(teams: seq<Team>, id: string): (r: Option<Team>)
    ensures r.None? <==> forall i :: 0 <= i < |teams| ==> teams[i].id != id
    ensures r.Some? ==> r.value.id == id && r.value in teams
  {
    Find(teams, (t: Team) => t.id == id)
  }

  function TournamentById(tournaments: seq<Tournament>, id: string): (r: Option<Tournament>)
    ensures r.None? <==> forall i :: 0 <= i < |tournaments| ==> tournaments[i].id != id
    ensures r.Some? ==> r.value.id == id && r.value in tournaments
  {
    Find(tournaments, (t: Tournament) => t.id == id)
  }

  /**
   * The object handleSubmit passes to createMatch, or None when it returns
   * early because team 1 or team 2 is not among the loaded teams.
   */
  function SubmitDraft(d: MatchFormData, teams: seq<Team>, tournaments: seq<Tournament>): (r: Option<MatchInput>)
    ensures r.None? <==> TeamById(teams, d.team1Id).None? || TeamById(teams, d.team2Id).None?
  {
    var team1 := TeamById(teams, d.team1Id);
    var team2 := TeamById(teams, d.team2Id);
    if team1.None? || team2.None? then None
    else Some(MatchInput(d.date, d.venue, ParseInt(d.overs), team1.value.id, team2.value.id, None,
                         TeamById(teams, d.tossWinnerId), TeamById(teams, d.battingFirstId),
                         Some(MatchStatus.Upcoming), TournamentById(tournaments, d.tournamentId)))
  }

  /**
   * A submitted match carries the chosen team ids, `parseInt` of the overs
   * text and the status Upcoming; the toss winner, the side batting first and
   * the tournament are the chosen ones when they resolve and undefined when
   * they do not.
   */
  lemma SubmitDraftContents(d: MatchFormData, teams: seq<Team>, tournaments: seq<Tournament>)
    requires SubmitDraft(d, teams, tournaments).Some?
    ensures var m := SubmitDraft(d, teams, tournaments).value;
      && m.team1Id == d.team1Id && m.team2Id == d.team2Id
      && m.date == d.date && m.venue == d.venue
      && m.overs == ParseInt(d.overs) && m.status == Some(MatchStatus.Upcoming)
      && m.teams.None?
      && TeamId(m.tossWinner) == (if exists i :: 0 <= i < |teams| && teams[i].id == d.tossWinnerId
                                  then Some(d.tossWinnerId) else None)
      && TeamId(m.battingFirst) == (if exists i :: 0 <= i < |teams| && teams[i].id == d.battingFirstId
                                    then Some(d.battingFirstId) else None)
      && TournamentId(m.tournament) == (if exists i :: 0 <= i < |tournaments| && tournaments[i].id == d.tournamentId
                                        then Some(d.tournamentId) else None)
  {
  }

  /**
   * With the createMatch this page imports (the one of src/lib/supabase.ts,
   * which reads `match.teams`), no wizard submission ever yields a row.
   */
  lemma LegacyCreateMatchRejectsWizard(d: MatchFormData, teams: seq<Team>, tournaments: seq<Tournament>)
    ensures SubmitDraft(d, teams, tournaments).Some? ==>
            LegacyMatchRowOf(SubmitDraft(d, teams, tournaments).value).None?
  {
  }

  /**
   * With the createMatch of src/lib/supabase/matches.ts, a submission that
   * resolves both teams yields a row holding the chosen teams, the parsed
   * overs and the status 'Upcoming'.
   */
  lemma WizardMatchRow(d: MatchFormData, teams: seq<Team>, tournaments: seq<Tournament>)
    requires SubmitDraft(d, teams, tournaments).Some?
    ensures var row := MatchRowOf(SubmitDraft(d, teams, tournaments).value);
      && row.team1Id == d.team1Id && row.team2Id == d.team2Id
      && row.overs == ParseInt(d.overs) && row.status == Some("Upcoming")
  {
    SubmitDraftContents(d, teams, tournaments);
  }

  /** The hook's state. */
  class MatchForm {
    var currentStep: int
    var isLoading: bool
    var matchDetails: MatchFormData

    ghost predicate Valid()
      reads this
    {
      FirstStep <= currentStep <= LastStep
    }

    constructor (today: string)
      ensures Valid() && currentStep == 1 && !isLoading && matchDetails == InitialFormData(today)
    {
      currentStep := 1;
      isLoading := false;
      matchDetails := InitialFormData(today);
    }

    method NextStep()
      requires Valid()
      modifies this
      ensures Valid() && currentStep == NextStepOf(old(currentStep), matchDetails)
      ensures matchDetails == old(matchDetails) && isLoading == old(isLoading)
    {
      if currentStep == 1 && (matchDetails.team1Id == "" || matchDetails.team2Id == "") {
        return;
      }
      if currentStep == 3 && (matchDetails.tossWinnerId == "" || matchDetails.battingFirstId == "") {
        return;
      }
      currentStep := if currentStep + 1 < LastStep then currentStep + 1 else LastStep;
    }

    method PrevStep()
      requires Valid()
      modifies this
      ensures Valid() && currentStep == PrevStepOf(old(currentStep))
      ensures matchDetails == old(matchDetails) && isLoading == old(isLoading)
    {
      currentStep := if currentStep - 1 > FirstStep then currentStep - 1 else FirstStep;
    }

    /** The change handler of the text inputs: the input's name and its new value. */
    method HandleInputChange(name: string, value: string)
      modifies this
      ensures matchDetails == UpdateField(old(matchDetails), name, value)
      ensures currentStep == old(currentStep) && isLoading == old(isLoading)
    {
      matchDetails := UpdateField(matchDetails, name, value);
    }

    /** The change handler of the pickers. */
    method HandleSelectChange(name: string, value: string)
      modifies this
      ensures matchDetails == UpdateField(old(matchDetails), name, value)
      ensures currentStep == old(currentStep) && isLoading == old(isLoading)
    {
      matchDetails := UpdateField(matchDetails, name, value);
    }

    /**
     * handleSubmit as written: the hook imports the createMatch of
     * src/lib/supabase.ts, and the object it passes has no `teams`, so no
     * submission creates a match; `inserted` is the id the service would
     * assign. The loading flag is cleared on every path.
     */
    method HandleSubmit(teams: seq<Team>, tournaments: seq<Tournament>, matches: Table<Stored<MatchRow>>,
                        inserted: Option<string>) returns (created: Option<Stored<MatchRow>>)
      requires Valid()
      modifies this, matches
      ensures Valid() && !isLoading
      ensures currentStep == old(currentStep) && matchDetails == old(matchDetails)
      ensures created.None? && matches.rows == old(matches.rows)
    {
      isLoading := true;
      var draft := SubmitDraft(matchDetails, teams, tournaments);
      if draft.None? {
        isLoading := false;
        return None;
      }
      LegacyCreateMatchRejectsWizard(matchDetails, teams, tournaments);
      created := LegacyCreateMatch(matches, draft.value, inserted);
      isLoading := false;
    }

    /**
     * handleSubmit with the createMatch of src/lib/supabase/matches.ts, which
     * takes the team ids from `team1Id`/`team2Id`: a draft that resolves both
     * teams is inserted as its match row.
     */
    method HandleSubmitCorrected(teams: seq<Team>, tournaments: seq<Tournament>, matches: Table<Stored<MatchRow>>,
                                 inserted: Option<string>) returns (created: Option<Stored<MatchRow>>)
      requires Valid()
      modifies this, matches
      ensures Valid() && !isLoading
      ensures currentStep == old(currentStep) && matchDetails == old(matchDetails)
      ensures var draft := SubmitDraft(matchDetails, teams, tournaments);
        && (draft.None? ==> created.None? && matches.rows == old(matches.rows))
        && (draft.Some? ==>
              && created == (if inserted.Some? then Some(Stored(inserted.value, MatchRowOf(draft.value))) else None)
              && matches.rows == old(matches.rows) + (if created.Some? then [created.value] else []))
    {
      isLoading := true;
      var draft := SubmitDraft(matchDetails, teams, tournaments);
      if draft.None? {
        isLoading := false;
        return None;
      }
      created := CreateMatch(matches, draft.value, inserted);
      isLoading := false;
    }
  }
}
