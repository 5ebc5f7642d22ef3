/**
 * The match list page (src/pages/Matches.tsx): the three status groups and
 * what a card shows under its header.
 */
module MatchesPage {
  import opened Types
  import opened Seqs

  predicate IsLive(m: Match) { m.status == Some(MatchStatus.Live) }

  predicate IsUpcoming(m: Match) { m.status == Some(MatchStatus.Upcoming) }

  /** 'Completed' and 'Super Over' are shown together. */
  predicate IsFinished(m: Match) { m.status == Some(MatchStatus.Completed) || m.status == Some(SuperOver) }

  predicate HasNoStatus(m: Match) { m.status.None? }

  function LiveMatches(ms: seq<Match>): seq<Match> { Filter(ms, IsLive) }

  function UpcomingMatches(ms: seq<Match>): seq<Match> { Filter(ms, IsUpcoming) }

  function CompletedMatches(ms: seq<Match>): seq<Match> { Filter(ms, IsFinished) }

  /**
   * Each group holds exactly the matches of its statuses, as often as they
   * occur and in the order of the list; no match is in two groups, and a
   * match without a status is in none.
   */
  lemma GroupsExact(ms: seq<Match>, m: Match)
    ensures m in LiveMatches(ms) <==> m in ms && m.status == Some(MatchStatus.Live)
    ensures m in UpcomingMatches(ms) <==> m in ms && m.status == Some(MatchStatus.Upcoming)
    ensures m in CompletedMatches(ms)
            <==> m in ms && (m.status == Some(MatchStatus.Completed) || m.status == Some(SuperOver))
    ensures multiset(LiveMatches(ms))[m] == if IsLive(m) then multiset(ms)[m] else 0
    ensures multiset(UpcomingMatches(ms))[m] == if IsUpcoming(m) then multiset(ms)[m] else 0
    ensures multiset(CompletedMatches(ms))[m] == if IsFinished(m) then multiset(ms)[m] else 0
    ensures !(m in LiveMatches(ms) && m in UpcomingMatches(ms))
    ensures !(m in LiveMatches(ms) && m in CompletedMatches(ms))
    ensures !(m in UpcomingMatches(ms) && m in CompletedMatches(ms))
    ensures m.status.None? ==> m !in LiveMatches(ms) && m !in UpcomingMatches(ms) && m !in CompletedMatches(ms)
  {
    FilterMembership(ms, IsLive, m);
    FilterMembership(ms, IsUpcoming, m);
    FilterMembership(ms, IsFinished, m);
    FilterCount(ms, IsLive, m);
    FilterCount(ms, IsUpcoming, m);
    FilterCount(ms, IsFinished, m);
  }

  lemma GroupsKeepOrder(ms: seq<Match>)
    ensures IsSubseq(LiveMatches(ms), ms) && IsSubseq(UpcomingMatches(ms), ms) && IsSubseq(CompletedMatches(ms), ms)
  {
    FilterIsSubseq(ms, IsLive);
    FilterIsSubseq(ms, IsUpcoming);
    FilterIsSubseq(ms, IsFinished);
  }

  /** Together the groups hold every match that has a status, once each. */
  lemma {:induction false} GroupSizes(ms: seq<Match>)
    ensures |LiveMatches(ms)| + |UpcomingMatches(ms)| + |CompletedMatches(ms)|
            + |Filter(ms, HasNoStatus)| == |ms|
    decreases |ms|
  {
    if ms != [] {
      GroupSizes(ms[1..]);
      var m, rest := ms[0], ms[1..];
      assert Filter(ms, IsLive) == (if IsLive(m) then [m] else []) + Filter(rest, IsLive);
      assert Filter(ms, IsUpcoming) == (if IsUpcoming(m) then [m] else []) + Filter(rest, IsUpcoming);
      assert Filter(ms, IsFinished) == (if IsFinished(m) then [m] else []) + Filter(rest, IsFinished);
      assert Filter(ms, HasNoStatus) == (if HasNoStatus(m) then [m] else []) + Filter(rest, HasNoStatus);
      assert (if IsLive(m) then 1 else 0) + (if IsUpcoming(m) then 1 else 0) + (if IsFinished(m) then 1 else 0)
             + (if HasNoStatus(m) then 1 else 0) == 1 by {
        if m.status.Some? {
          match m.status.value
          case Upcoming =>
          case Live =>
          case Completed =>
          case SuperOver =>
        }
      }
    }
  }

  // The card.

  datatype Score = Score(team: string, runs: int, wickets: int)

  /** Below the header a card shows a result, a live panel (with or without a score), or nothing. */
  datatype CardBody =
    | ResultLine(winner: string, margin: string, manOfTheMatch: Option<string>)
    | LivePanel(score: Option<Score>)
    | NoBody

  function LastInningsScore(m: Match): Option<Score>
  {
    if m.innings.Some? && |m.innings.value| > 0 then
      var last := m.innings.value[|m.innings.value| - 1];
      Some(Score(last.teamBatting.name, last.totalRuns, last.totalWickets))
    else None
  }

  function CardBodyOf(m: Match, isLive: bool, isCompleted: bool): CardBody
  {
    if isCompleted && m.result.Some? then
      ResultLine(m.result.value.winner.name, m.result.value.margin,
                 if m.result.value.manOfTheMatch.Some? then Some(m.result.value.manOfTheMatch.value.name) else None)
    else if isLive then LivePanel(LastInningsScore(m))
    else NoBody
  }

  /**
   * Cards of the live group show the batting side and runs/wickets of the
   * last innings, and only when there is an innings; cards of the completed
   * group show the result when there is one; upcoming cards show neither.
   */
  lemma CardBodies(m: Match)
    ensures var live := CardBodyOf(m, true, false);
      && live.LivePanel?
      && (live.score.Some? <==> m.innings.Some? && |m.innings.value| > 0)
      && (live.score.Some? ==>
            var last := m.innings.value[|m.innings.value| - 1];
            live.score.value == Score(last.teamBatting.name, last.totalRuns, last.totalWickets))
    ensures var done := CardBodyOf(m, false, true);
      && (done.ResultLine? <==> m.result.Some?)
      && (m.result.None? ==> done == NoBody)
      && (done.ResultLine? ==> done.winner == m.result.value.winner.name && done.margin == m.result.value.margin)
    ensures CardBodyOf(m, false, false) == NoBody
  {
  }
}
