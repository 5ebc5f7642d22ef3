/**
 * What one recorded ball does to player statistics (updatePlayerStats of
 * src/lib/supabase/matches.ts, repeated verbatim in src/lib/supabase.ts): the
 * batsman credit, the bowler charge and the dismissal, each as the arguments of
 * a call to a stored procedure.
 *
 * The procedures themselves (update_batsman_stats, update_bowler_stats,
 * update_dismissal) are not part of this model's source. ApplyCall reads each
 * one as adding its arguments to the player's running totals; everything about
 * the client's behaviour is stated on the calls, independently of that reading.
 */
module PlayerStats {
  import opened Types

  datatype BatsmanDelta = BatsmanDelta(runs: int, balls: int, fours: int, sixes: int)

  datatype BowlerDelta = BowlerDelta(balls: int, runs: int, wickets: int)

  /** One stored-procedure call with the arguments the client passes. */
  datatype StatsCall =
    | UpdateBatsmanStats(playerId: string, batting: BatsmanDelta)
    | UpdateBowlerStats(playerId: string, bowling: BowlerDelta)
    | UpdateDismissal(playerId: string)

  /** `ball.runs > 0 && !ball.extras`: only a scoring ball without extras credits the batsman. */
  predicate CreditsBatsman(ball: Ball)
  {
    ball.runs > 0 && ball.extras.None?
  }

  function BatsmanDeltaOf(ball: Ball): BatsmanDelta
  {
    BatsmanDelta(ball.runs, 1, if ball.runs == 4 then 1 else 0, if ball.runs == 6 then 1 else 0)
  }

  predicate IsExtra(ball: Ball, kind: ExtrasType)
  {
    ball.extras.Some? && ball.extras.value.kind == kind
  }

  /** `ball.extras?.runs || 0`. */
  function ExtrasRuns(ball: Ball): int
  {
    if ball.extras.Some? then ball.extras.value.runs else 0
  }

  function BowlerDeltaOf(ball: Ball): BowlerDelta
  {
    BowlerDelta(
      if IsExtra(ball, Wide) || IsExtra(ball, NoBall) then 0 else 1,
      if IsExtra(ball, Bye) || IsExtra(ball, LegBye) then 0 else ball.runs + ExtrasRuns(ball),
      if ball.wicket.Some? && ball.wicket.value.kind != RunOut then 1 else 0)
  }

  /** `if (playerOutId)`: an absent id and the empty string are both falsy. */
  function DismissedPlayer(playerOutId: Option<string>): Option<string>
  {
    if playerOutId.Some? && playerOutId.value != "" then playerOutId else None
  }

  /** The calls updatePlayerStats makes, in the order it makes them. */
  function StatsCalls(batsmanId: string, bowlerId: string, ball: Ball, playerOutId: Option<string>)
    : seq<StatsCall>
  {
    (if CreditsBatsman(ball) then [UpdateBatsmanStats(batsmanId, BatsmanDeltaOf(ball))] else [])
    + [UpdateBowlerStats(bowlerId, BowlerDeltaOf(ball))]
    + (var out := DismissedPlayer(playerOutId);
       if out.Some? then [UpdateDismissal(out.value)] else [])
  }

  /**
   * The calls that take effect when the call at index `throwsAt` (if any) throws:
   * the ones before it. The surrounding try/catch swallows the exception.
   */
  function Issued(calls: seq<StatsCall>, throwsAt: Option<nat>): (r: seq<StatsCall>)
    ensures |r| <= |calls| && r == calls[..|r|]
    ensures throwsAt.Some? && throwsAt.value < |calls| ==> r == calls[..throwsAt.value]
    ensures throwsAt.None? || throwsAt.value >= |calls| ==> r == calls
  {
    if throwsAt.Some? && throwsAt.value < |calls| then calls[..throwsAt.value] else calls
  }

  // The client's rules, stated on the calls.

  predicate IsBatsmanCall(c: StatsCall) { c.UpdateBatsmanStats? }
  predicate IsBowlerCall(c: StatsCall) { c.UpdateBowlerStats? }
  predicate IsDismissalCall(c: StatsCall) { c.UpdateDismissal? }

  /**
   * The batsman is credited exactly when the ball scores and has no extras, and
   * then once, with the ball's runs, one ball faced, and a four (six) exactly
   * when the runs are 4 (6). Dot balls and every ball with extras credit nothing.
   */
  lemma BatsmanRule(batsmanId: string, bowlerId: string, ball: Ball, playerOutId: Option<string>)
    ensures var cs := StatsCalls(batsmanId, bowlerId, ball, playerOutId);
      (exists i :: 0 <= i < |cs| && IsBatsmanCall(cs[i])) <==> ball.runs > 0 && ball.extras.None?
    ensures var cs := StatsCalls(batsmanId, bowlerId, ball, playerOutId);
      forall i :: 0 <= i < |cs| && IsBatsmanCall(cs[i]) ==>
        i == 0 && cs[i].playerId == batsmanId
        && cs[i].batting.runs == ball.runs && cs[i].batting.balls == 1
        && (cs[i].batting.fours == 1 <==> ball.runs == 4) && 0 <= cs[i].batting.fours <= 1
        && (cs[i].batting.sixes == 1 <==> ball.runs == 6) && 0 <= cs[i].batting.sixes <= 1
  {
    var cs := StatsCalls(batsmanId, bowlerId, ball, playerOutId);
    if CreditsBatsman(ball) {
      assert IsBatsmanCall(cs[0]);
    }
  }

  /**
   * Every ball charges its bowler through exactly one call: no ball for a wide or
   * a no-ball (one for every other ball, byes and leg-byes included), no runs for
   * a bye or leg-bye (the runs plus the extras' runs otherwise), and a wicket
   * exactly when there is one that is not a run out.
   */
  lemma BowlerRule(batsmanId: string, bowlerId: string, ball: Ball, playerOutId: Option<string>)
    ensures var cs := StatsCalls(batsmanId, bowlerId, ball, playerOutId);
      exists i :: 0 <= i < |cs| && IsBowlerCall(cs[i])
    ensures var cs := StatsCalls(batsmanId, bowlerId, ball, playerOutId);
      forall i :: 0 <= i < |cs| && IsBowlerCall(cs[i]) ==>
        var d := cs[i].bowling;
        cs[i].playerId == bowlerId
        && (d.balls == if ball.extras.Some? && ball.extras.value.kind in {Wide, NoBall} then 0 else 1)
        && (d.runs == if ball.extras.Some? && ball.extras.value.kind in {Bye, LegBye} then 0
                      else ball.runs + (if ball.extras.Some? then ball.extras.value.runs else 0))
        && (d.wickets == if ball.wicket.Some? && ball.wicket.value.kind != RunOut then 1 else 0)
    ensures var cs := StatsCalls(batsmanId, bowlerId, ball, playerOutId);
      forall i, j :: 0 <= i < j < |cs| ==> !(IsBowlerCall(cs[i]) && IsBowlerCall(cs[j]))
  {
    var cs := StatsCalls(batsmanId, bowlerId, ball, playerOutId);
    var k := if CreditsBatsman(ball) then 1 else 0;
    assert IsBowlerCall(cs[k]);
  }

  /**
   * A dismissal is recorded exactly when a non-empty player-out id is given, and
   * only for that player; it is the last call.
   */
  lemma DismissalRule(batsmanId: string, bowlerId: string, ball: Ball, playerOutId: Option<string>)
    ensures var cs := StatsCalls(batsmanId, bowlerId, ball, playerOutId);
      (exists i :: 0 <= i < |cs| && IsDismissalCall(cs[i]))
      <==> playerOutId.Some? && playerOutId.value != ""
    ensures var cs := StatsCalls(batsmanId, bowlerId, ball, playerOutId);
      forall i :: 0 <= i < |cs| && IsDismissalCall(cs[i]) ==>
        i == |cs| - 1 && Some(cs[i].playerId) == playerOutId
  {
    var cs := StatsCalls(batsmanId, bowlerId, ball, playerOutId);
    if DismissedPlayer(playerOutId).Some? {
      assert IsDismissalCall(cs[|cs| - 1]);
    }
  }

  // The additive reading of the stored procedures.

  datatype StatsRecord = StatsRecord(
    runs: int, ballsFaced: int, fours: int, sixes: int,
    ballsBowled: int, runsConceded: int, wickets: int, dismissals: int)

  const NoStats := StatsRecord(0, 0, 0, 0, 0, 0, 0, 0)

  function StatsOf(m: map<string, StatsRecord>, id: string): StatsRecord
  {
    if id in m then m[id] else NoStats
  }

  /** A call adds its figures to the totals of the player it names. */
  function ApplyCall(m: map<string, StatsRecord>, c: StatsCall): (r: map<string, StatsRecord>)
    ensures forall id :: id != c.playerId ==> StatsOf(r, id) == StatsOf(m, id)
  {
    var s := StatsOf(m, c.playerId);
    match c
    case UpdateBatsmanStats(id, d) =>
      m[id := s.(runs := s.runs + d.runs, ballsFaced := s.ballsFaced + d.balls,
                 fours := s.fours + d.fours, sixes := s.sixes + d.sixes)]
    case UpdateBowlerStats(id, d) =>
      m[id := s.(ballsBowled := s.ballsBowled + d.balls, runsConceded := s.runsConceded + d.runs,
                 wickets := s.wickets + d.wickets)]
    case UpdateDismissal(id) =>
      m[id := s.(dismissals := s.dismissals + 1)]
  }

  /** The totals after the calls, applied in order. */
  function ApplyCalls(m: map<string, StatsRecord>, cs: seq<StatsCall>): map<string, StatsRecord>
    decreases |cs|
  {
    if cs == [] then m else ApplyCall(ApplyCalls(m, cs[..|cs| - 1]), cs[|cs| - 1])
  }

  lemma {:induction false} ApplyCallsAppend(m: map<string, StatsRecord>, a: seq<StatsCall>, b: seq<StatsCall>)
    ensures ApplyCalls(m, a + b) == ApplyCalls(ApplyCalls(m, a), b)
    decreases |b|
  {
    if b == [] {
      assert a + b == a;
    } else {
      assert (a + b)[..|a + b| - 1] == a + b[..|b| - 1];
      ApplyCallsAppend(m, a, b[..|b| - 1]);
    }
  }

  // What one call changes in the totals of a player `x`.

  lemma BatsmanCallEffect(m: map<string, StatsRecord>, id: string, d: BatsmanDelta, x: string)
    ensures var a := StatsOf(ApplyCall(m, UpdateBatsmanStats(id, d)), x);
      var b := StatsOf(m, x);
      var hit := x == id;
      && a.runs == b.runs + (if hit then d.runs else 0)
      && a.ballsFaced == b.ballsFaced + (if hit then d.balls else 0)
      && a.fours == b.fours + (if hit then d.fours else 0)
      && a.sixes == b.sixes + (if hit then d.sixes else 0)
      && a.ballsBowled == b.ballsBowled && a.runsConceded == b.runsConceded
      && a.wickets == b.wickets && a.dismissals == b.dismissals
  {
  }

  lemma BowlerCallEffect(m: map<string, StatsRecord>, id: string, d: BowlerDelta, x: string)
    ensures var a := StatsOf(ApplyCall(m, UpdateBowlerStats(id, d)), x);
      var b := StatsOf(m, x);
      var hit := x == id;
      && a.runs == b.runs && a.ballsFaced == b.ballsFaced && a.fours == b.fours && a.sixes == b.sixes
      && a.ballsBowled == b.ballsBowled + (if hit then d.balls else 0)
      && a.runsConceded == b.runsConceded + (if hit then d.runs else 0)
      && a.wickets == b.wickets + (if hit then d.wickets else 0)
      && a.dismissals == b.dismissals
  {
  }

  lemma DismissalCallEffect(m: map<string, StatsRecord>, id: string, x: string)
    ensures var a := StatsOf(ApplyCall(m, UpdateDismissal(id)), x);
      var b := StatsOf(m, x);
      && a.runs == b.runs && a.ballsFaced == b.ballsFaced && a.fours == b.fours && a.sixes == b.sixes
      && a.ballsBowled == b.ballsBowled && a.runsConceded == b.runsConceded && a.wickets == b.wickets
      && a.dismissals == b.dismissals + (if x == id then 1 else 0)
  {
  }

  /** Applying a single call. */
  lemma ApplyOneCall(m: map<string, StatsRecord>, c: StatsCall)
    ensures ApplyCalls(m, [c]) == ApplyCall(m, c)
  {
    assert [c][..0] == [];
  }

  /**
   * The effect of one fully processed ball on any player's totals, stated with
   * the ball's own fields: batting figures move only for a scoring ball without
   * extras, bowling figures follow the wide/no-ball, bye/leg-bye and run-out
   * exceptions, and a dismissal is counted for the named player.
   */
  lemma BallEffect(m: map<string, StatsRecord>, batsmanId: string, bowlerId: string, ball: Ball,
                   playerOutId: Option<string>, x: string)
    ensures var before := StatsOf(m, x);
      var after := StatsOf(ApplyCalls(m, StatsCalls(batsmanId, bowlerId, ball, playerOutId)), x);
      var credited := x == batsmanId && ball.runs > 0 && ball.extras.None?;
      var bowled := x == bowlerId;
      && after.runs == before.runs + (if credited then ball.runs else 0)
      && after.ballsFaced == before.ballsFaced + (if credited then 1 else 0)
      && after.fours == before.fours + (if credited && ball.runs == 4 then 1 else 0)
      && after.sixes == before.sixes + (if credited && ball.runs == 6 then 1 else 0)
      && after.ballsBowled == before.ballsBowled
           + (if bowled && !(ball.extras.Some? && ball.extras.value.kind in {Wide, NoBall}) then 1 else 0)
      && after.runsConceded == before.runsConceded
           + (if bowled && !(ball.extras.Some? && ball.extras.value.kind in {Bye, LegBye})
              then ball.runs + (if ball.extras.Some? then ball.extras.value.runs else 0) else 0)
      && after.wickets == before.wickets
           + (if bowled && ball.wicket.Some? && ball.wicket.value.kind != RunOut then 1 else 0)
      && after.dismissals == before.dismissals
           + (if playerOutId == Some(x) && x != "" then 1 else 0)
  {
    var bat := UpdateBatsmanStats(batsmanId, BatsmanDeltaOf(ball));
    var bowl := UpdateBowlerStats(bowlerId, BowlerDeltaOf(ball));
    var out := DismissedPlayer(playerOutId);
    var bats := if CreditsBatsman(ball) then [bat] else [];
    var dis := if out.Some? then [UpdateDismissal(out.value)] else [];
    assert StatsCalls(batsmanId, bowlerId, ball, playerOutId) == bats + [bowl] + dis;
    ApplyCallsAppend(m, bats + [bowl], dis);
    ApplyCallsAppend(m, bats, [bowl]);
    var m1 := ApplyCalls(m, bats);
    var m2 := ApplyCalls(m1, [bowl]);
    if CreditsBatsman(ball) {
      ApplyOneCall(m, bat);
      BatsmanCallEffect(m, batsmanId, BatsmanDeltaOf(ball), x);
    } else {
      assert m1 == m;
    }
    ApplyOneCall(m1, bowl);
    BowlerCallEffect(m1, bowlerId, BowlerDeltaOf(ball), x);
    if out.Some? {
      ApplyOneCall(m2, UpdateDismissal(out.value));
      DismissalCallEffect(m2, out.value, x);
    } else {
      assert ApplyCalls(m2, dis) == m2;
    }
  }
}
