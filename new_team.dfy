/**
 * The team-creation page (src/pages/NewTeam.tsx): the roster selection that
 * one click toggles, the form schema, and the submit that refuses an empty
 * roster and looks the role players up in the full player list.
 */
module NewTeamPage {
  import opened Types
  import opened Seqs
  import opened Backend
  import opened TeamsApi

  // Toggling a player in the selection.

  predicate HasId(s: seq<Player>, id: string)
  {
    exists i :: 0 <= i < |s| && s[i].id == id
  }

  predicate UniqueIds(s: seq<Player>)
  {
    forall i, j :: 0 <= i < j < |s| ==> s[i].id != s[j].id
  }

  /** `prev.filter(p => p.id !== id)`. */
  function WithoutId(s: seq<Player>, id: string): seq<Player>
  {
    Filter(s, (p: Player) => p.id != id)
  }

  /** togglePlayer's update of the selection. */
  function Toggle(selected: seq<Player>, player: Player): seq<Player>
  {
    if Find(selected, (p: Player) => p.id == player.id).Some? then WithoutId(selected, player.id)
    else selected + [player]
  }

  /**
   * A selected id is removed, every entry carrying it, and the other entries
   * keep their order and their number of occurrences.
   */
  lemma ToggleRemoves(selected: seq<Player>, player: Player)
    requires HasId(selected, player.id)
    ensures var r := Toggle(selected, player);
      && !HasId(r, player.id)
      && IsSubseq(r, selected)
      && forall q: Player :: q.id != player.id ==> multiset(r)[q] == multiset(selected)[q]
  {
    var r := WithoutId(selected, player.id);
    assert Toggle(selected, player) == r;
    FilterIsSubseq(selected, (p: Player) => p.id != player.id);
    forall q: Player | q.id != player.id
      ensures multiset(r)[q] == multiset(selected)[q]
    {
      FilterCount(selected, (p: Player) => p.id != player.id, q);
    }
  }

  /** An unselected player is appended at the end. */
  lemma ToggleAppends(selected: seq<Player>, player: Player)
    requires !HasId(selected, player.id)
    ensures Toggle(selected, player) == selected + [player]
  {
  }

  /** Toggling never introduces a duplicate id. */
  lemma ToggleKeepsUniqueIds(selected: seq<Player>, player: Player)
    requires UniqueIds(selected)
    ensures UniqueIds(Toggle(selected, player))
  {
    if HasId(selected, player.id) {
      WithoutIdUnique(selected, player.id);
    } else {
      var r := selected + [player];
      assert forall i :: 0 <= i < |selected| ==> r[i] == selected[i];
    }
  }

  lemma {:induction false} WithoutIdUnique(s: seq<Player>, id: string)
    requires UniqueIds(s)
    ensures UniqueIds(WithoutId(s, id))
    decreases |s|
  {
    if s != [] {
      WithoutIdUnique(s[1..], id);
      var rest := WithoutId(s[1..], id);
      if s[0].id != id {
        FilterIsSubseq(s[1..], (p: Player) => p.id != id);
        forall q | q in rest ensures q.id != s[0].id {
          FilterMembership(s[1..], (p: Player) => p.id != id, q);
          var k :| 0 <= k < |s[1..]| && s[1..][k] == q;
          assert s[k + 1] == q;
        }
        var r := WithoutId(s, id);
        assert r == [s[0]] + rest;
        forall i, j | 0 <= i < j < |r| ensures r[i].id != r[j].id {
          if i == 0 {
            assert r[j] == rest[j - 1] && rest[j - 1] in rest;
          } else {
            assert r[i] == rest[i - 1] && r[j] == rest[j - 1];
          }
        }
      }
    }
  }

  /** Toggling an unselected player twice gives back the selection exactly. */
  lemma ToggleTwiceAbsent(selected: seq<Player>, player: Player)
    requires !HasId(selected, player.id)
    ensures Toggle(Toggle(selected, player), player) == selected
  {
    var once := selected + [player];
    assert once[|selected|].id == player.id;
    assert Find(once, (p: Player) => p.id == player.id).Some?;
    FilterAppend(selected, [player], (p: Player) => p.id != player.id);
    FilterAll(selected, (p: Player) => p.id != player.id);
  }

  /**
   * Toggling a selected player twice, in a selection without duplicate ids,
   * moves it to the end (as the object passed in, which carries the same id).
   */
  lemma ToggleTwicePresent(selected: seq<Player>, player: Player, i: nat)
    requires UniqueIds(selected) && i < |selected| && selected[i].id == player.id
    ensures Toggle(Toggle(selected, player), player) == selected[..i] + selected[i + 1..] + [player]
  {
    var rest := selected[..i] + selected[i + 1..];
    assert selected == selected[..i] + [selected[i]] + selected[i + 1..];
    RemoveUniqueId(selected, player.id, i);
    assert Find(selected, (p: Player) => p.id == player.id).Some? by {
      assert selected[i].id == player.id;
    }
    assert Toggle(selected, player) == rest;
    ToggleAppends(rest, player);
  }

  /** In a selection without duplicate ids, removing an id removes exactly its one entry. */
  lemma RemoveUniqueId(selected: seq<Player>, id: string, i: nat)
    requires UniqueIds(selected) && i < |selected| && selected[i].id == id
    ensures WithoutId(selected, id) == selected[..i] + selected[i + 1..]
    ensures !HasId(selected[..i] + selected[i + 1..], id)
  {
    var before, after := selected[..i], selected[i + 1..];
    assert selected == before + [selected[i]] + after;
    assert forall k :: 0 <= k < |before| ==> before[k].id != id;
    assert forall k :: 0 <= k < |after| ==> after[k].id != id by {
      forall k | 0 <= k < |after| ensures after[k].id != id {
        assert after[k] == selected[i + 1 + k];
      }
    }
    WithoutOthers(before, selected[i], after, id);
    var rest := before + after;
    forall k | 0 <= k < |rest| ensures rest[k].id != id {
      if k >= |before| {
        assert rest[k] == after[k - |before|];
      }
    }
  }

  lemma WithoutOthers(before: seq<Player>, p: Player, after: seq<Player>, id: string)
    requires p.id == id
    requires forall k :: 0 <= k < |before| ==> before[k].id != id
    requires forall k :: 0 <= k < |after| ==> after[k].id != id
    ensures WithoutId(before + [p] + after, id) == before + after
  {
    var pred := (q: Player) => q.id != id;
    FilterAppend(before + [p], after, pred);
    FilterAppend(before, [p], pred);
    FilterAll(before, pred);
    FilterAll(after, pred);
    assert Filter([p], pred) == [];
  }

  // The form.

  datatype TeamFormValues = TeamFormValues(
    name: string,
    captainId: Option<string>,
    viceCaptainId: Option<string>,
    wicketKeeperId: Option<string>)

  /** teamSchema: the name needs at least 2 characters; the role ids are optional strings. */
  function TeamFormIssues(v: TeamFormValues): (r: seq<string>)
    ensures r == [] <==> |v.name| >= 2
  {
    if |v.name| < 2 then ["Team name must be at least 2 characters"] else []
  }

  /** `players.find(p => p.id === id)`, where an undefined id matches no player. */
  function PlayerById(players: seq<Player>, id: Option<string>): (r: Option<Player>)
    ensures r.Some? ==> id.Some? && r.value.id == id.value && r.value in players
    ensures r.None? <==> id.None? || !HasId(players, id.value)
  {
    if id.None? then None else Find(players, (p: Player) => p.id == id.value)
  }

  /** The team onSubmit passes to createTeam (the id is assigned by the insert). */
  function TeamDataOf(v: TeamFormValues, players: seq<Player>, selected: seq<Player>,
                      logoPreview: Option<string>): Team
  {
    Team("", v.name,
         if logoPreview.Some? && logoPreview.value != "" then logoPreview else None,
         PlayerById(players, v.captainId), PlayerById(players, v.viceCaptainId),
         PlayerById(players, v.wicketKeeperId), Some(selected))
  }

  /**
   * The role players come from the full player list, whatever is selected:
   * a captain need not be in the roster. The roster is the selection.
   */
  lemma RolesFromFullList(v: TeamFormValues, players: seq<Player>, s1: seq<Player>, s2: seq<Player>,
                          logo: Option<string>)
    ensures var t1 := TeamDataOf(v, players, s1, logo);
      var t2 := TeamDataOf(v, players, s2, logo);
      && t1.captain == t2.captain && t1.viceCaptain == t2.viceCaptain && t1.wicketKeeper == t2.wicketKeeper
      && t1.players == Some(s1)
      && (v.captainId.Some? && HasId(players, v.captainId.value) ==>
            t1.captain.Some? && t1.captain.value.id == v.captainId.value)
  {
  }

  /** The page's state. */
  class NewTeamForm {
    var players: seq<Player>
    var selectedPlayers: seq<Player>
    var logoPreview: Option<string>
    var isSubmitting: bool

    constructor ()
      ensures players == [] && selectedPlayers == [] && logoPreview.None? && !isSubmitting
    {
      players, selectedPlayers, logoPreview, isSubmitting := [], [], None, false;
    }

    method TogglePlayer(player: Player)
      modifies this
      ensures selectedPlayers == Toggle(old(selectedPlayers), player)
      ensures players == old(players) && logoPreview == old(logoPreview) && isSubmitting == old(isSubmitting)
    {
      selectedPlayers := Toggle(selectedPlayers, player);
    }

    /**
     * onSubmit: an empty selection is refused before anything is created;
     * otherwise the team is built and createTeam is called (its replies are
     * `teamInsert` and `linksOk`), and the submitting flag ends cleared.
     */
    method OnSubmit(v: TeamFormValues, teams: Table<Stored<TeamRow>>, links: Table<TeamPlayerRow>,
                    teamInsert: Option<string>, linksOk: bool) returns (created: Option<Stored<TeamRow>>)
      modifies this, teams, links
      ensures players == old(players) && selectedPlayers == old(selectedPlayers) && logoPreview == old(logoPreview)
      ensures selectedPlayers == [] ==>
        created.None? && teams.rows == old(teams.rows) && links.rows == old(links.rows)
        && isSubmitting == old(isSubmitting)
      ensures selectedPlayers != [] ==>
        var t := TeamDataOf(v, players, selectedPlayers, logoPreview);
        && !isSubmitting
        && (teamInsert.None? ==> created.None? && teams.rows == old(teams.rows) && links.rows == old(links.rows))
        && (teamInsert.Some? ==>
              && teams.rows == old(teams.rows) + [Stored(teamInsert.value, TeamRowOf(t))]
              && links.rows == old(links.rows)
                               + (if linksOk then TeamPlayerRows(teamInsert.value, t.players) else [])
              && created == (if linksOk then Some(Stored(teamInsert.value, TeamRowOf(t))) else None))
    {
      if |selectedPlayers| == 0 {
        return None;
      }
      isSubmitting := true;
      var t := TeamDataOf(v, players, selectedPlayers, logoPreview);
      created := CreateTeam(teams, links, t, teamInsert, linksOk);
      isSubmitting := false;
    }
  }
}
