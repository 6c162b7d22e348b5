/** Enumerations and records of the relational store, shared by every other module.
    Money is in whole cents, decimal odds are in thousandths (columns of scale 2 and 3), and
    handicap/total lines are in hundredths. A catalogue row is keyed by its unique reference. */
module Domain {
  datatype Option<+T> = None | Some(value: T)

  datatype FixtureStatus = Scheduled | Live | Ended | Postponed | Cancelled
  datatype EventStatus = Scheduled | Live | Suspended | Ended | Cancelled
  datatype MarketType = MatchResult | Handicap | Total | DoubleChance | BothTeamsScore
  datatype MarketStatus = Open | Suspended | Settled | Void
  datatype SelectionStatus = Open | Suspended | Settled | Void
  datatype BetStatus = Pending | Accepted | Rejected | Won | Lost | Void
  datatype LegResult = Won | Lost | Void

  datatype Sport = Sport(name: string, slug: string)
  datatype League = League(sport: string, name: string, region: Option<string>)
  datatype Team = Team(sport: string, name: string)
  datatype Fixture = Fixture(league: string, home: string, away: string, startsAt: int, status: FixtureStatus)
  datatype Event = Event(fixture: string, status: EventStatus, homeScore: Option<int>, awayScore: Option<int>)
  datatype Market = Market(event: string, kind: MarketType, status: MarketStatus, line: Option<int>)
  datatype Selection = Selection(market: string, name: string, status: SelectionStatus, price: nat)

  /** `history` is the odds-snapshot table, oldest first; `offered` lists the enabled
      (league, casino group) pairs. */
  datatype Catalogue = Catalogue(
    sports: map<string, Sport>,
    leagues: map<string, League>,
    teams: map<string, Team>,
    fixtures: map<string, Fixture>,
    events: map<string, Event>,
    markets: map<string, Market>,
    selections: map<string, Selection>,
    history: map<string, seq<nat>>,
    offered: set<(string, string)>)

  /** A bet leg. The four optional columns are frozen at placement; they are null on legs
      written before that migration. */
  datatype Leg = Leg(
    selection: string,
    market: string,
    event: string,
    selectionName: string,
    price: nat,
    marketType: Option<MarketType>,
    marketLine: Option<int>,
    homeTeamName: Option<string>,
    awayTeamName: Option<string>,
    outcome: Option<LegResult>)

  /** Home and away team names of a fixture, through the team rows. */
  function TeamNames(cat: Catalogue, fixture: string): Option<(string, string)> {
    if fixture in cat.fixtures && cat.fixtures[fixture].home in cat.teams && cat.fixtures[fixture].away in cat.teams
    then Some((cat.teams[cat.fixtures[fixture].home].name, cat.teams[cat.fixtures[fixture].away].name))
    else None
  }
}
