/**
 * The tournament list page (src/pages/Tournaments.tsx): the three status
 * groups, the status badge and the team count of a card.
 */
module TournamentsPage {
  import opened Types
  import opened Seqs
  import opened TournamentsApi

  predicate IsOngoing(t: Tournament) { t.status == Some(Ongoing) }

  predicate IsUpcoming(t: Tournament) { t.status == Some(TournamentStatus.Upcoming) }

  predicate IsCompleted(t: Tournament) { t.status == Some(TournamentStatus.Completed) }

  function OngoingTournaments(ts: seq<Tournament>): seq<Tournament> { Filter(ts, IsOngoing) }

  function UpcomingTournaments(ts: seq<Tournament>): seq<Tournament> { Filter(ts, IsUpcoming) }

  function CompletedTournaments(ts: seq<Tournament>): seq<Tournament> { Filter(ts, IsCompleted) }

  /**
   * Each group holds exactly the tournaments of its status, in their order;
   * the groups are disjoint, and a 'Live' tournament or one without a status
   * is in none of them.
   */
  lemma GroupsExact(ts: seq<Tournament>, t: Tournament)
    ensures t in OngoingTournaments(ts) <==> t in ts && t.status == Some(Ongoing)
    ensures t in UpcomingTournaments(ts) <==> t in ts && t.status == Some(TournamentStatus.Upcoming)
    ensures t in CompletedTournaments(ts) <==> t in ts && t.status == Some(TournamentStatus.Completed)
    ensures !(t in OngoingTournaments(ts) && t in UpcomingTournaments(ts))
    ensures !(t in OngoingTournaments(ts) && t in CompletedTournaments(ts))
    ensures !(t in UpcomingTournaments(ts) && t in CompletedTournaments(ts))
    ensures t.status.None? || t.status == Some(TournamentStatus.Live) ==>
      t !in OngoingTournaments(ts) && t !in UpcomingTournaments(ts) && t !in CompletedTournaments(ts)
    ensures IsSubseq(OngoingTournaments(ts), ts) && IsSubseq(UpcomingTournaments(ts), ts)
            && IsSubseq(CompletedTournaments(ts), ts)
  {
    FilterMembership(ts, IsOngoing, t);
    FilterMembership(ts, IsUpcoming, t);
    FilterMembership(ts, IsCompleted, t);
    FilterIsSubseq(ts, IsOngoing);
    FilterIsSubseq(ts, IsUpcoming);
    FilterIsSubseq(ts, IsCompleted);
  }

  /** A 'Live' tournament, which the type allows, is listed nowhere on this page. */
  lemma LiveTournamentHidden(ts: seq<Tournament>, t: Tournament)
    requires t in ts && t.status == Some(TournamentStatus.Live)
    ensures t !in OngoingTournaments(ts) + UpcomingTournaments(ts) + CompletedTournaments(ts)
  {
    GroupsExact(ts, t);
  }

  /** getStatusBadge: the label of the badge, or None (no badge). */
  function StatusBadge(status: Option<TournamentStatus>): (r: Option<string>)
    ensures r.Some? <==> status == Some(Ongoing) || status == Some(TournamentStatus.Upcoming)
                         || status == Some(TournamentStatus.Completed)
    ensures r.Some? ==> r.value == TournamentStatusName(status.value)
  {
    if status.None? then None
    else
      match status.value
      case Ongoing => Some("Ongoing")
      case Upcoming => Some("Upcoming")
      case Completed => Some("Completed")
      case Live => None
  }

  /** `tournament.teams?.length || 0`. */
  function TeamCount(t: Tournament): nat
  {
    if t.teams.Some? then |t.teams.value| else 0
  }

  /**
   * The count a card shows is the number of teams, 0 without a list, and it is
   * the number of link rows createTournament writes for the same teams.
   */
  lemma TeamCountIsLinkCount(t: Tournament, tournamentId: string)
    ensures TeamCount(t) == |TournamentTeamRows(tournamentId, t.teams)|
    ensures t.teams.None? ==> TeamCount(t) == 0
  {
  }
}
