/**
 * Match scoring against the database (src/lib/supabase/matches.ts; recordBall,
 * updatePlayerStats and createInnings are repeated verbatim in
 * src/lib/supabase.ts, whose createMatch differs and is modelled separately).
 */
module MatchesApi {
  import opened Types
  import opened PlayerStats
  import opened Backend

  /** The row recordBall inserts into 'balls'; an absent optional part leaves its columns undefined. */
  datatype BallRow = BallRow(
    inningsId: string,
    overId: string,
    ballNumber: int,
    batsmanId: string,
    bowlerId: string,
    runs: int,
    extrasType: Option<string>,
    extrasRuns: Option<int>,
    wicketType: Option<string>,
    playerOutId: Option<string>,
    fielderId: Option<string>)

  /** `ball.wicket?.playerOut.id`. */
  function PlayerOutId(ball: Ball): Option<string>
  {
    if ball.wicket.Some? then Some(ball.wicket.value.playerOut.id) else None
  }

  function BallRowOf(inningsId: string, overId: string, ball: Ball): BallRow
  {
    BallRow(
      inningsId, overId, ball.ballNumber, ball.batsman.id, ball.bowler.id, ball.runs,
      if ball.extras.Some? then Some(ExtrasTypeName(ball.extras.value.kind)) else None,
      if ball.extras.Some? then Some(ball.extras.value.runs) else None,
      if ball.wicket.Some? then Some(WicketTypeName(ball.wicket.value.kind)) else None,
      PlayerOutId(ball),
      if ball.wicket.Some? then PlayerId(ball.wicket.value.fielder) else None)
  }

  // Reading a stored row back.

  function ParseExtrasType(s: string): Option<ExtrasType>
  {
    if s == "Wide" then Some(Wide)
    else if s == "No Ball" then Some(NoBall)
    else if s == "Bye" then Some(Bye)
    else if s == "Leg Bye" then Some(LegBye)
    else None
  }

  function ParseWicketType(s: string): Option<WicketType>
  {
    if s == "Bowled" then Some(Bowled)
    else if s == "Caught" then Some(Caught)
    else if s == "LBW" then Some(Lbw)
    else if s == "Run Out" then Some(RunOut)
    else if s == "Stumped" then Some(Stumped)
    else if s == "Hit Wicket" then Some(HitWicket)
    else None
  }

  /** A player known only by the id a row holds. */
  function PlayerStub(id: string): Player
  {
    Player(id, "", NoHand, NoHand, NoBowling, None, None)
  }

  function ExtrasOfRow(row: BallRow): Option<Extras>
  {
    if row.extrasType.Some? && ParseExtrasType(row.extrasType.value).Some? && row.extrasRuns.Some?
    then Some(Extras(ParseExtrasType(row.extrasType.value).value, row.extrasRuns.value))
    else None
  }

  function WicketOfRow(row: BallRow): Option<Wicket>
  {
    if row.wicketType.Some? && ParseWicketType(row.wicketType.value).Some? && row.playerOutId.Some?
    then Some(Wicket(ParseWicketType(row.wicketType.value).value, PlayerStub(row.playerOutId.value),
                     if row.fielderId.Some? then Some(PlayerStub(row.fielderId.value)) else None))
    else None
  }

  /** The statistics calls a stored row calls for, computed from the row alone. */
  function ReplayCalls(row: BallRow): seq<StatsCall>
  {
    var ball := Ball("", row.inningsId, row.overId, row.ballNumber, PlayerStub(row.batsmanId),
                     PlayerStub(row.bowlerId), row.runs, ExtrasOfRow(row), WicketOfRow(row));
    StatsCalls(row.batsmanId, row.bowlerId, ball, row.playerOutId)
  }

  /**
   * The ball row keeps the ball's number, players, runs, extras (kind and runs)
   * and dismissal (kind, player out, fielder); in particular the statistics
   * calls can be recomputed from the stored row, and they are the ones
   * recordBall issued when it inserted it.
   */
  lemma BallRowRoundTrip(inningsId: string, overId: string, ball: Ball)
    ensures var row := BallRowOf(inningsId, overId, ball);
      && row.inningsId == inningsId && row.overId == overId
      && row.ballNumber == ball.ballNumber && row.runs == ball.runs
      && row.batsmanId == ball.batsman.id && row.bowlerId == ball.bowler.id
      && ExtrasOfRow(row) == ball.extras
      && (ball.wicket.None? <==> row.wicketType.None? && row.playerOutId.None? && row.fielderId.None?)
      && (ball.wicket.Some? ==>
            && WicketOfRow(row).Some?
            && WicketOfRow(row).value.kind == ball.wicket.value.kind
            && WicketOfRow(row).value.playerOut.id == ball.wicket.value.playerOut.id
            && PlayerId(WicketOfRow(row).value.fielder) == PlayerId(ball.wicket.value.fielder))
      && ReplayCalls(row) == StatsCalls(ball.batsman.id, ball.bowler.id, ball, PlayerOutId(ball))
  {
    var row := BallRowOf(inningsId, overId, ball);
    if ball.extras.Some? {
      var k := ball.extras.value.kind;
      assert ParseExtrasType(ExtrasTypeName(k)) == Some(k) by {
        match k
        case Wide =>
        case NoBall =>
        case Bye =>
        case LegBye =>
      }
    }
    if ball.wicket.Some? {
      var k := ball.wicket.value.kind;
      assert ParseWicketType(WicketTypeName(k)) == Some(k) by {
        match k
        case Bowled =>
        case Caught =>
        case Lbw =>
        case RunOut =>
        case Stumped =>
        case HitWicket =>
      }
    }
  }

  /**
   * One awaited procedure call, the one at `index` of the planned calls; it
   * throws, and so is not made, when it is the one at index `throwsAt`.
   */
  method TryCall(stats: StatsStore, c: StatsCall, ghost before: seq<StatsCall>, ghost plan: seq<StatsCall>,
                 index: nat, throwsAt: Option<nat>) returns (done: bool)
    requires stats.Valid() && index < |plan| && plan[index] == c
    requires stats.calls == before + plan[..index]
    modifies stats
    ensures stats.Valid() && stats.initial == old(stats.initial)
    ensures done <==> throwsAt.None? || throwsAt.value != index
    ensures stats.calls == before + plan[..if done then index + 1 else index]
  {
    done := throwsAt.None? || throwsAt.value != index;
    if done {
      stats.Call(c);
      assert plan[..index + 1] == plan[..index] + [c];
      assert stats.calls == before + plan[..index + 1];
    }
  }

  /** The planned calls: an optional call, a call, and an optional call. */
  function Plan(first: Option<StatsCall>, middle: StatsCall, last: Option<StatsCall>): (r: seq<StatsCall>)
    ensures |r| == (if first.Some? then 1 else 0) + 1 + (if last.Some? then 1 else 0)
  {
    (if first.Some? then [first.value] else []) + [middle] + (if last.Some? then [last.value] else [])
  }

  /**
   * The planned calls awaited one after the other; a throw ends the sequence,
   * is caught, and yields false.
   */
  method IssuePlan(stats: StatsStore, first: Option<StatsCall>, middle: StatsCall, last: Option<StatsCall>,
                   throwsAt: Option<nat>) returns (ok: bool)
    requires stats.Valid()
    modifies stats
    ensures stats.Valid() && stats.initial == old(stats.initial)
    ensures stats.calls == old(stats.calls) + Issued(Plan(first, middle, last), throwsAt)
    ensures ok <==> Issued(Plan(first, middle, last), throwsAt) == Plan(first, middle, last)
  {
    ghost var cs := Plan(first, middle, last);
    ghost var before := stats.calls;
    var midAt: nat := if first.Some? then 1 else 0;
    assert first.Some? ==> cs[0] == first.value;
    assert cs[midAt] == middle;
    assert last.Some? ==> cs[midAt + 1] == last.value;
    assert |cs| == midAt + 1 + (if last.Some? then 1 else 0);
    assert stats.calls == before + cs[..0];
    if first.Some? {
      ok := TryCall(stats, first.value, before, cs, 0, throwsAt);
      if !ok {
        Settled(cs, throwsAt, 0);
        return;
      }
    }
    ok := TryCall(stats, middle, before, cs, midAt, throwsAt);
    if !ok {
      Settled(cs, throwsAt, midAt);
      return;
    }
    if last.Some? {
      ok := TryCall(stats, last.value, before, cs, midAt + 1, throwsAt);
      if !ok {
        Settled(cs, throwsAt, midAt + 1);
        return;
      }
    }
    Settled(cs, throwsAt, |cs|);
  }

  /**
   * When the calls before `made` were made and the one at `made` threw (or
   * none is left), the calls made are the issued ones.
   */
  lemma Settled(cs: seq<StatsCall>, throwsAt: Option<nat>, made: nat)
    requires made <= |cs|
    requires made < |cs| ==> throwsAt == Some(made)
    requires made == |cs| ==> throwsAt.None? || throwsAt.value >= made
    ensures Issued(cs, throwsAt) == cs[..made]
    ensures made == |cs| <==> Issued(cs, throwsAt) == cs
  {
    if made == |cs| {
      assert cs[..made] == cs;
    }
  }

  /**
   * updatePlayerStats: the batsman call (when the batsman is credited), the
   * bowler call, and the dismissal call (when a player is out), in that order.
   */
  method UpdatePlayerStats(stats: StatsStore, batsmanId: string, bowlerId: string, ball: Ball,
                           playerOutId: Option<string>, throwsAt: Option<nat>) returns (ok: bool)
    requires stats.Valid()
    modifies stats
    ensures stats.Valid() && stats.initial == old(stats.initial)
    ensures var issued := Issued(StatsCalls(batsmanId, bowlerId, ball, playerOutId), throwsAt);
      stats.calls == old(stats.calls) + issued
      && stats.totals == ApplyCalls(old(stats.totals), issued)
    ensures ok <==> Issued(StatsCalls(batsmanId, bowlerId, ball, playerOutId), throwsAt)
                    == StatsCalls(batsmanId, bowlerId, ball, playerOutId)
  {
    var batting := if CreditsBatsman(ball) then Some(UpdateBatsmanStats(batsmanId, BatsmanDeltaOf(ball))) else None;
    var bowling := UpdateBowlerStats(bowlerId, BowlerDeltaOf(ball));
    var out := DismissedPlayer(playerOutId);
    var dismissal := if out.Some? then Some(UpdateDismissal(out.value)) else None;
    assert Plan(batting, bowling, dismissal) == StatsCalls(batsmanId, bowlerId, ball, playerOutId);
    ok := IssuePlan(stats, batting, bowling, dismissal, throwsAt);
    ApplyCallsAppend(stats.initial, old(stats.calls), Issued(Plan(batting, bowling, dismissal), throwsAt));
  }

  /**
   * recordBall: insert the ball row; only when the insert succeeded, update the
   * statistics and return the inserted row, whatever happens to the statistics.
   * A failed insert changes nothing and returns null (None).
   */
  method RecordBall(balls: Table<Stored<BallRow>>, stats: StatsStore, matchId: string, inningsId: string,
                    overId: string, ball: Ball, inserted: Option<string>, throwsAt: Option<nat>)
    returns (r: Option<Stored<BallRow>>)
    requires stats.Valid()
    modifies balls, stats
    ensures stats.Valid() && stats.initial == old(stats.initial)
    ensures inserted.None? ==>
      r.None? && balls.rows == old(balls.rows)
      && stats.calls == old(stats.calls) && stats.totals == old(stats.totals)
    ensures inserted.Some? ==>
      var issued := Issued(StatsCalls(ball.batsman.id, ball.bowler.id, ball, PlayerOutId(ball)), throwsAt);
      && r == Some(Stored(inserted.value, BallRowOf(inningsId, overId, ball)))
      && balls.rows == old(balls.rows) + [r.value]
      && stats.calls == old(stats.calls) + issued
      && stats.totals == ApplyCalls(old(stats.totals), issued)
  {
    if inserted.None? {
      return None;
    }
    var data := Stored(inserted.value, BallRowOf(inningsId, overId, ball));
    balls.Insert([data]);
    var _ := UpdatePlayerStats(stats, ball.batsman.id, ball.bowler.id, ball, PlayerOutId(ball), throwsAt);
    r := Some(data);
  }

  // Matches and innings.

  /** The object createMatch receives: a Match without id, innings and result. */
  datatype MatchInput = MatchInput(
    date: string,
    venue: string,
    overs: Option<int>,
    team1Id: string,
    team2Id: string,
    teams: Option<MatchTeams>,
    tossWinner: Option<Team>,
    battingFirst: Option<Team>,
    status: Option<MatchStatus>,
    tournament: Option<Tournament>)

  datatype MatchRow = MatchRow(
    date: string,
    venue: string,
    overs: Option<int>,
    team1Id: string,
    team2Id: string,
    tossWinnerId: Option<string>,
    battingFirstId: Option<string>,
    status: Option<string>,
    tournamentId: Option<string>)

  /** createMatch of src/lib/supabase/matches.ts: the team ids come from team1Id and team2Id. */
  function MatchRowOf(m: MatchInput): (r: MatchRow)
    ensures r.team1Id == m.team1Id && r.team2Id == m.team2Id
    ensures r.overs == m.overs && r.venue == m.venue && r.date == m.date
    ensures (r.status.Some? <==> m.status.Some?) && (m.status.Some? ==> r.status.value == MatchStatusName(m.status.value))
    ensures r.tossWinnerId == TeamId(m.tossWinner) && r.battingFirstId == TeamId(m.battingFirst)
    ensures r.tournamentId == TournamentId(m.tournament)
  {
    MatchRow(m.date, m.venue, m.overs, m.team1Id, m.team2Id, TeamId(m.tossWinner), TeamId(m.battingFirst),
             if m.status.Some? then Some(MatchStatusName(m.status.value)) else None,
             TournamentId(m.tournament))
  }

  /**
   * createMatch of src/lib/supabase.ts: the team ids are read from
   * `match.teams.team1.id`; without `teams` the read throws, the exception is
   * caught, and no row is built (None).
   */
  function LegacyMatchRowOf(m: MatchInput): (r: Option<MatchRow>)
    ensures r.None? <==> m.teams.None?
    ensures r.Some? ==> r.value.team1Id == m.teams.value.team1.id && r.value.team2Id == m.teams.value.team2.id
  {
    if m.teams.None? then None
    else Some(MatchRowOf(m).(team1Id := m.teams.value.team1.id, team2Id := m.teams.value.team2.id))
  }

  /**
   * createMatch of src/lib/supabase.ts: the row is built before the insert is
   * sent, so a read of the missing `teams` throws before anything is written;
   * the exception is caught and null is returned. Otherwise it is the insert
   * of that row, with `inserted` as the service's reply.
   */
  method LegacyCreateMatch(matches: Table<Stored<MatchRow>>, m: MatchInput, inserted: Option<string>)
    returns (r: Option<Stored<MatchRow>>)
    modifies matches
    ensures m.teams.None? ==> r.None?
    ensures r == if LegacyMatchRowOf(m).Some? && inserted.Some?
                 then Some(Stored(inserted.value, LegacyMatchRowOf(m).value)) else None
    ensures matches.rows == old(matches.rows) + (if r.Some? then [r.value] else [])
  {
    r := None;
    var row := LegacyMatchRowOf(m);
    if row.Some? && inserted.Some? {
      r := Some(Stored(inserted.value, row.value));
      matches.Insert([r.value]);
    }
  }

  method CreateMatch(matches: Table<Stored<MatchRow>>, m: MatchInput, inserted: Option<string>)
    returns (r: Option<Stored<MatchRow>>)
    modifies matches
    ensures r == if inserted.Some? then Some(Stored(inserted.value, MatchRowOf(m))) else None
    ensures matches.rows == old(matches.rows) + (if r.Some? then [r.value] else [])
  {
    r := None;
    if inserted.Some? {
      r := Some(Stored(inserted.value, MatchRowOf(m)));
      matches.Insert([r.value]);
    }
  }

  /** The row createInnings inserts: the team ids, and every total and counter verbatim. */
  datatype InningsRow = InningsRow(
    matchId: string,
    teamBattingId: string,
    teamBowlingId: string,
    totalRuns: int,
    totalWickets: int,
    extrasWides: int,
    extrasNoBalls: int,
    extrasByes: int,
    extrasLegByes: int,
    completed: bool)

  function InningsRowOf(i: Innings): InningsRow
  {
    InningsRow(i.matchId, i.teamBatting.id, i.teamBowling.id, i.totalRuns, i.totalWickets,
               i.extras.wides, i.extras.noBalls, i.extras.byes, i.extras.legByes, i.completed)
  }

  /** An innings read back from its row, given what the row does not hold. */
  function InningsOfRow(row: InningsRow, id: string, teamBatting: Team, teamBowling: Team,
                        overs: Option<seq<Over>>): Innings
  {
    Innings(id, row.matchId, teamBatting, teamBowling, row.totalRuns, row.totalWickets,
            InningsExtras(row.extrasWides, row.extrasNoBalls, row.extrasByes, row.extrasLegByes),
            row.completed, overs)
  }

  /** The innings row loses only the id, the overs and the teams beyond their ids. */
  lemma InningsRowRoundTrip(i: Innings)
    ensures InningsRowOf(i).teamBattingId == i.teamBatting.id
    ensures InningsRowOf(i).teamBowlingId == i.teamBowling.id
    ensures InningsOfRow(InningsRowOf(i), i.id, i.teamBatting, i.teamBowling, i.overs) == i
  {
  }

  method CreateInnings(innings: Table<Stored<InningsRow>>, i: Innings, inserted: Option<string>)
    returns (r: Option<Stored<InningsRow>>)
    modifies innings
    ensures r == if inserted.Some? then Some(Stored(inserted.value, InningsRowOf(i))) else None
    ensures innings.rows == old(innings.rows) + (if r.Some? then [r.value] else [])
  {
    r := None;
    if inserted.Some? {
      r := Some(Stored(inserted.value, InningsRowOf(i)));
      innings.Insert([r.value]);
    }
  }
}
