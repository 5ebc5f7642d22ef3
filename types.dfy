/**
 * The application's entities, one datatype per interface of src/types/index.ts.
 * An optional member (`x?: T`) or a nullable one (`T | null`) becomes an Option;
 * a string-literal union becomes an enumeration whose constructors print back to
 * the literal through a `...Name` function.
 */
module Types {

  datatype Option<+T> = None | Some(value: T)

  /** "Right" | "Left" | "None" (battingHand and bowlingHand). */
  datatype Hand = Right | Left | NoHand

  /** The seven bowling types; NoBowling is the literal "None". */
  datatype BowlingType =
    | OffSpin | LegSpin | LeftArmOrthodox | LeftArmChinaman | MediumFast | Fast | NoBowling

  function HandName(h: Hand): string
  {
    match h
    case Right => "Right"
    case Left => "Left"
    case NoHand => "None"
  }

  function BowlingTypeName(b: BowlingType): string
  {
    match b
    case OffSpin => "Off Spin"
    case LegSpin => "Leg Spin"
    case LeftArmOrthodox => "Left-arm Orthodox"
    case LeftArmChinaman => "Left-arm Chinaman"
    case MediumFast => "Medium Fast"
    case Fast => "Fast"
    case NoBowling => "None"
  }

  datatype Player = Player(
    id: string,
    name: string,
    battingHand: Hand,
    bowlingHand: Hand,
    bowlingType: BowlingType,
    photoUrl: Option<string>,
    teams: Option<seq<Team>>)

  datatype Team = Team(
    id: string,
    name: string,
    logoUrl: Option<string>,
    captain: Option<Player>,
    viceCaptain: Option<Player>,
    wicketKeeper: Option<Player>,
    players: Option<seq<Player>>)

  /** 'Upcoming' | 'Live' | 'Completed' | 'Ongoing'. */
  datatype TournamentStatus = Upcoming | Live | Completed | Ongoing

  /**
   * The interface declares `teams` as required, but every reader of it
   * (the tournament card and createTournament) guards against its absence,
   * because the records come from an untyped join; hence an Option here.
   */
  datatype Tournament = Tournament(
    id: string,
    name: string,
    startDate: string,
    endDate: string,
    teams: Option<seq<Team>>,
    status: Option<TournamentStatus>,
    matches: Option<seq<Match>>)

  /** 'Upcoming' | 'Live' | 'Completed' | 'Super Over'. */
  datatype MatchStatus = Upcoming | Live | Completed | SuperOver

  datatype MatchResult = MatchResult(winner: Team, margin: string, manOfTheMatch: Option<Player>)

  datatype MatchTeams = MatchTeams(team1: Team, team2: Team)

  datatype Match = Match(
    id: string,
    team1Id: string,
    team2Id: string,
    date: string,
    venue: string,
    overs: Option<int>,
    result: Option<MatchResult>,
    status: Option<MatchStatus>,
    teams: Option<MatchTeams>,
    tossWinner: Option<Team>,
    battingFirst: Option<Team>,
    tournament: Option<Tournament>,
    innings: Option<seq<Innings>>,
    winner: Option<Team>,
    margin: Option<string>,
    manOfTheMatch: Option<Player>)

  /** The four extras counters of an innings. */
  datatype InningsExtras = InningsExtras(wides: int, noBalls: int, byes: int, legByes: int)

  datatype Innings = Innings(
    id: string,
    matchId: string,
    teamBatting: Team,
    teamBowling: Team,
    totalRuns: int,
    totalWickets: int,
    extras: InningsExtras,
    completed: bool,
    overs: Option<seq<Over>>)

  datatype Over = Over(
    id: string,
    inningsId: string,
    overNumber: int,
    bowler: Player,
    runs: int,
    wickets: int,
    balls: Option<seq<Ball>>)

  /** 'Wide' | 'No Ball' | 'Bye' | 'Leg Bye'. */
  datatype ExtrasType = Wide | NoBall | Bye | LegBye

  datatype Extras = Extras(kind: ExtrasType, runs: int)

  /** 'Bowled' | 'Caught' | 'LBW' | 'Run Out' | 'Stumped' | 'Hit Wicket'. */
  datatype WicketType = Bowled | Caught | Lbw | RunOut | Stumped | HitWicket

  datatype Wicket = Wicket(kind: WicketType, playerOut: Player, fielder: Option<Player>)

  datatype Ball = Ball(
    id: string,
    inningsId: string,
    overId: string,
    ballNumber: int,
    batsman: Player,
    bowler: Player,
    runs: int,
    extras: Option<Extras>,
    wicket: Option<Wicket>)

  /** A browser File as the application reads it: its name and its size in bytes. */
  datatype FileInfo = FileInfo(name: string, size: int)

  function ExtrasTypeName(k: ExtrasType): string
  {
    match k
    case Wide => "Wide"
    case NoBall => "No Ball"
    case Bye => "Bye"
    case LegBye => "Leg Bye"
  }

  function WicketTypeName(k: WicketType): string
  {
    match k
    case Bowled => "Bowled"
    case Caught => "Caught"
    case Lbw => "LBW"
    case RunOut => "Run Out"
    case Stumped => "Stumped"
    case HitWicket => "Hit Wicket"
  }

  function MatchStatusName(s: MatchStatus): string
  {
    match s
    case Upcoming => "Upcoming"
    case Live => "Live"
    case Completed => "Completed"
    case SuperOver => "Super Over"
  }

  function TournamentStatusName(s: TournamentStatus): string
  {
    match s
    case Upcoming => "Upcoming"
    case Live => "Live"
    case Completed => "Completed"
    case Ongoing => "Ongoing"
  }

  /** The id of an optional entity, as `x?.id` reads it. */
  function PlayerId(p: Option<Player>): Option<string>
  {
    if p.Some? then Some(p.value.id) else None
  }

  function TeamId(t: Option<Team>): Option<string>
  {
    if t.Some? then Some(t.value.id) else None
  }

  function TournamentId(t: Option<Tournament>): Option<string>
  {
    if t.Some? then Some(t.value.id) else None
  }
}
