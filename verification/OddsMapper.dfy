/** The odds-provider mapper: nested loops over insertion-ordered maps build one snapshot of sports,
    leagues, teams, fixtures, events, markets and selections. */
module OddsMapper {
  import opened Domain
  import opened OddsLabels
  import opened ProviderSnapshot

  // Insertion-ordered maps

  datatype RawTable<V> = RawTable(keys: seq<string>, rows: map<string, V>)

  predicate Ordered<V>(t: RawTable<V>) {
    && (forall k :: k in t.keys ==> k in t.rows)
    && (forall k :: k in t.rows ==> k in t.keys)
    && (forall i, j :: 0 <= i < j < |t.keys| ==> t.keys[i] != t.keys[j])
  }

  type Table<V> = t: RawTable<V> | Ordered(t) witness RawTable([], map[])

  function Put<V>(t: Table<V>, key: string, row: V): (r: Table<V>)
    ensures r.rows == t.rows[key := row]
  {
    RawTable(if key in t.rows then t.keys else t.keys + [key], t.rows[key := row])
  }

  function Entries<V>(t: Table<V>): (list: seq<(string, V)>)
    ensures |list| == |t.keys|
    ensures forall i :: 0 <= i < |list| ==> list[i].0 == t.keys[i] && list[i].0 in t.rows && list[i].1 == t.rows[list[i].0]
  {
    seq(|t.keys|, i requires 0 <= i < |t.keys| => assert t.keys[i] in t.keys; (t.keys[i], t.rows[t.keys[i]]))
  }

  // Provider data

  datatype ApiSport = ApiSport(key: string, group: string, title: string)
  datatype ApiMarket = ApiMarket(key: string, outcomes: seq<Outcome>)
  datatype Bookmaker = Bookmaker(key: string, markets: seq<ApiMarket>)

  /** Times and scores are parsed; None stands for a score that is not a number. */
  datatype EventOdds = EventOdds(id: string, commenceTime: int, homeTeam: string, awayTeam: string, bookmakers: seq<Bookmaker>)
  datatype ScoreEntry = ScoreEntry(name: string, score: Option<int>)
  datatype EventScore = EventScore(id: string, commenceTime: int, completed: bool, homeTeam: string, awayTeam: string,
                                   scores: seq<ScoreEntry>)

  datatype Feed = Feed(
    sportKeys: seq<string>,
    apiSports: seq<ApiSport>,
    oddsBySport: map<string, seq<EventOdds>>,
    scoresBySport: map<string, seq<EventScore>>,
    marketKeys: set<string>)

  // The snapshot under construction

  datatype Draft = Draft(
    sports: Table<Sport>,
    leagues: Table<League>,
    teams: Table<Team>,
    fixtures: Table<Fixture>,
    events: Table<Event>,
    markets: Table<Market>,
    selections: Table<NewSelection>)

  // Helpers

  function FirstPart(s: string): string {
    if s == "" || s[0] == '_' then "" else [s[0]] + FirstPart(s[1..])
  }

  const CONFIGURED_GROUPS := {"basketball", "baseball", "americanfootball", "soccer"}

  datatype SportConfig = SportConfig(group: string, leagueName: string, bookmaker: string)

  function Title(sport: Option<ApiSport>, key: string): string {
    if sport.Some? then sport.value.title else key
  }

  function ResolveSportConfig(key: string, sport: Option<ApiSport>, slug: string -> string): SportConfig {
    var group := FirstPart(key);
    if key in CONFIGURED_GROUPS then SportConfig(key, if Title(sport, key) == "" then key else Title(sport, key), "")
    else if group in CONFIGURED_GROUPS then SportConfig(group, Title(sport, key), "")
    else SportConfig(if sport.Some? then slug(sport.value.group) else group, Title(sport, key), "")
  }

  /** The last entry with this key, as a map built from the list would hold. */
  function FindSport(sports: seq<ApiSport>, key: string): Option<ApiSport> {
    if sports == [] then None
    else if sports[|sports| - 1].key == key then Some(sports[|sports| - 1])
    else FindSport(sports[..|sports| - 1], key)
  }

  function FindScore(scores: seq<ScoreEntry>, name: string): Option<int> {
    if scores == [] then None else if scores[0].name == name then scores[0].score else FindScore(scores[1..], name)
  }

  function FindBookmaker(bookmakers: seq<Bookmaker>, key: string): Option<Bookmaker> {
    if bookmakers == [] then None
    else if bookmakers[0].key == key then Some(bookmakers[0])
    else FindBookmaker(bookmakers[1..], key)
  }

  function PickBookmaker(bookmakers: seq<Bookmaker>, preferred: string): Option<Bookmaker> {
    if bookmakers == [] then None
    else if preferred != "" && FindBookmaker(bookmakers, preferred).Some? then FindBookmaker(bookmakers, preferred)
    else Some(bookmakers[0])
  }

  function FixtureStatusOf(commenceTime: int, completed: bool, now: int): FixtureStatus {
    if completed then FixtureStatus.Ended
    else if commenceTime > now then FixtureStatus.Scheduled
    else FixtureStatus.Live
  }

  function EventStatusOf(commenceTime: int, completed: bool, now: int): EventStatus {
    match FixtureStatusOf(commenceTime, completed, now)
    case Ended => EventStatus.Ended
    case Live => EventStatus.Live
    case _ => EventStatus.Scheduled
  }

  function MarketTypeOf(key: string): Option<MarketType> {
    if key == "h2h" then Some(MarketType.MatchResult)
    else if key == "spreads" then Some(MarketType.Handicap)
    else if key == "totals" then Some(MarketType.Total)
    else None
  }

  function TeamKey(sport: string, name: string, slug: string -> string): string {
    sport + "_" + slug(name)
  }

  function MarketRef(event: string, bookmaker: string, market: string): string {
    event + ":" + bookmaker + ":" + market
  }

  function SelectionRef(market: string, o: Outcome, slug: string -> string): string {
    market + ":" + slug(o.name) + ":" + if o.point.Some? then Show(o.point.value) else "np"
  }

  function OddsOf(feed: Feed, sport: string): seq<EventOdds> {
    if sport in feed.oddsBySport then feed.oddsBySport[sport] else []
  }

  function ScoresOf(feed: Feed, sport: string): seq<EventScore> {
    if sport in feed.scoresBySport then feed.scoresBySport[sport] else []
  }

  // The loops, as folds

  function IndexScores(index: map<string, EventScore>, scores: seq<EventScore>): map<string, EventScore> {
    if scores == [] then index
    else
      var last := scores[|scores| - 1];
      IndexScores(index, scores[..|scores| - 1])[last.id := last]
  }

  function ScoresByEventId(feed: Feed, sportKeys: seq<string>): map<string, EventScore> {
    if sportKeys == [] then map[]
    else IndexScores(ScoresByEventId(feed, sportKeys[..|sportKeys| - 1]), ScoresOf(feed, sportKeys[|sportKeys| - 1]))
  }

  predicate Done(index: map<string, EventScore>, id: string) {
    id in index && index[id].completed
  }

  function AddSelection(d: Draft, market: string, done: bool, o: Outcome, slug: string -> string): Draft {
    d.(selections := Put(d.selections, SelectionRef(market, o, slug),
                         NewSelection(market, SelectionLabel(o), if done then SelectionStatus.Settled else SelectionStatus.Open, o.price)))
  }

  function AddSelections(d: Draft, market: string, done: bool, outcomes: seq<Outcome>, slug: string -> string): Draft {
    if outcomes == [] then d
    else AddSelection(AddSelections(d, market, done, outcomes[..|outcomes| - 1], slug), market, done, outcomes[|outcomes| - 1], slug)
  }

  /** The market row, for a supported market. */
  function PutMarket(d: Draft, event: string, ref: string, m: ApiMarket, kind: MarketType, done: bool): Draft {
    d.(markets := Put(d.markets, ref, Market(event, kind, if done then MarketStatus.Settled else MarketStatus.Open, MarketLine(m.outcomes))))
  }

  function AddMarket(d: Draft, feed: Feed, event: string, bookmaker: string, done: bool, m: ApiMarket, slug: string -> string): Draft {
    var kind, ref := MarketTypeOf(m.key), MarketRef(event, bookmaker, m.key);
    if m.key !in feed.marketKeys || kind.None? then d
    else AddSelections(PutMarket(d, event, ref, m, kind.value, done), ref, done, m.outcomes, slug)
  }

  function AddMarkets(d: Draft, feed: Feed, event: string, bookmaker: string, done: bool, ms: seq<ApiMarket>, slug: string -> string): Draft {
    if ms == [] then d
    else AddMarket(AddMarkets(d, feed, event, bookmaker, done, ms[..|ms| - 1], slug), feed, event, bookmaker, done, ms[|ms| - 1], slug)
  }

  /** Teams, fixture and event of one match. */
  function AddMatch(d: Draft, sport: string, group: string, id: string, commenceTime: int, home: string, away: string,
                    completed: bool, scores: seq<ScoreEntry>, now: int, slug: string -> string): Draft
  {
    var homeKey, awayKey := TeamKey(sport, home, slug), TeamKey(sport, away, slug);
    d.(teams := Put(Put(d.teams, homeKey, Team(group, home)), awayKey, Team(group, away)),
       fixtures := Put(d.fixtures, id, Fixture(sport, homeKey, awayKey, commenceTime, FixtureStatusOf(commenceTime, completed, now))),
       events := Put(d.events, id, Event(id, EventStatusOf(commenceTime, completed, now), FindScore(scores, home), FindScore(scores, away))))
  }

  function AddEvent(d: Draft, feed: Feed, index: map<string, EventScore>, sport: string, config: SportConfig, e: EventOdds,
                    now: int, slug: string -> string): Draft
  {
    var done, bookmaker := Done(index, e.id), PickBookmaker(e.bookmakers, config.bookmaker);
    var d1 := AddMatch(d, sport, config.group, e.id, e.commenceTime, e.homeTeam, e.awayTeam, done,
                       if e.id in index then index[e.id].scores else [], now, slug);
    if bookmaker.None? then d1 else AddMarkets(d1, feed, e.id, bookmaker.value.key, done, bookmaker.value.markets, slug)
  }

  function AddEvents(d: Draft, feed: Feed, index: map<string, EventScore>, sport: string, config: SportConfig,
                     es: seq<EventOdds>, now: int, slug: string -> string): Draft
  {
    if es == [] then d
    else AddEvent(AddEvents(d, feed, index, sport, config, es[..|es| - 1], now, slug), feed, index, sport, config, es[|es| - 1], now, slug)
  }

  /** A score without odds still refreshes status and result. */
  function AddScore(d: Draft, sport: string, config: SportConfig, odds: set<string>, s: EventScore, now: int, slug: string -> string): Draft {
    if s.id in odds || s.id in d.events.rows then d
    else AddMatch(d, sport, config.group, s.id, s.commenceTime, s.homeTeam, s.awayTeam, s.completed, s.scores, now, slug)
  }

  function AddScores(d: Draft, sport: string, config: SportConfig, odds: set<string>, ss: seq<EventScore>, now: int, slug: string -> string): Draft {
    if ss == [] then d
    else AddScore(AddScores(d, sport, config, odds, ss[..|ss| - 1], now, slug), sport, config, odds, ss[|ss| - 1], now, slug)
  }

  function OpenSport(d: Draft, sport: string, apiSport: Option<ApiSport>, config: SportConfig): Draft {
    var d1 := if config.group in d.sports.rows then d
              else d.(sports := Put(d.sports, config.group,
                                    Sport(if apiSport.Some? then apiSport.value.group else config.group, config.group)));
    d1.(leagues := Put(d1.leagues, sport, League(config.group, config.leagueName, None)))
  }

  function EventIds(es: seq<EventOdds>): (ids: set<string>)
    ensures forall i :: 0 <= i < |es| ==> es[i].id in ids
  {
    set i | 0 <= i < |es| :: es[i].id
  }

  function AddSport(d: Draft, feed: Feed, index: map<string, EventScore>, sport: string, now: int, slug: string -> string): Draft {
    var apiSport := FindSport(feed.apiSports, sport);
    var config := ResolveSportConfig(sport, apiSport, slug);
    var d1 := AddEvents(OpenSport(d, sport, apiSport, config), feed, index, sport, config, OddsOf(feed, sport), now, slug);
    AddScores(d1, sport, config, EventIds(OddsOf(feed, sport)), ScoresOf(feed, sport), now, slug)
  }

  const EMPTY := Draft(RawTable([], map[]), RawTable([], map[]), RawTable([], map[]), RawTable([], map[]),
                       RawTable([], map[]), RawTable([], map[]), RawTable([], map[]))

  function AddSports(feed: Feed, index: map<string, EventScore>, sports: seq<string>, now: int, slug: string -> string): Draft {
    if sports == [] then EMPTY
    else AddSport(AddSports(feed, index, sports[..|sports| - 1], now, slug), feed, index, sports[|sports| - 1], now, slug)
  }

  function Finish(d: Draft): Snapshot {
    Snapshot(Entries(d.sports), Entries(d.leagues), Entries(d.teams), Entries(d.fixtures), Entries(d.events), Entries(d.markets),
             Entries(d.selections))
  }

  function Mapped(feed: Feed, now: int, slug: string -> string): Snapshot {
    Finish(AddSports(feed, ScoresByEventId(feed, feed.sportKeys), feed.sportKeys, now, slug))
  }

  // What the folds keep

  predicate LeaguesOk(leagues: map<string, League>, sports: set<string>) {
    forall k :: k in leagues ==> leagues[k].sport in sports
  }

  predicate TeamsOk(teams: map<string, Team>, sports: set<string>) {
    forall k :: k in teams ==> teams[k].sport in sports
  }

  predicate FixturesOk(fixtures: map<string, Fixture>, leagues: set<string>, teams: set<string>) {
    forall k :: k in fixtures ==> fixtures[k].league in leagues && fixtures[k].home in teams && fixtures[k].away in teams
  }

  predicate EventsOk(events: map<string, Event>, fixtures: set<string>) {
    forall k :: k in events ==> events[k].fixture in fixtures
  }

  /** A market is settled exactly when its event is reported completed, which is exactly when its
      event is ended. */
  predicate MarketOk(m: Market, events: map<string, Event>, index: map<string, EventScore>) {
    && m.event in events
    && (events[m.event].status == EventStatus.Ended <==> Done(index, m.event))
    && m.status == if Done(index, m.event) then MarketStatus.Settled else MarketStatus.Open
  }

  predicate MarketsOk(markets: map<string, Market>, events: map<string, Event>, index: map<string, EventScore>) {
    forall k :: k in markets ==> MarketOk(markets[k], events, index)
  }

  predicate SelectionsOk(selections: map<string, NewSelection>, markets: set<string>) {
    forall k :: k in selections ==> selections[k].market in markets
  }

  /** Every parent is there, and market and event status agree. */
  predicate Sound(d: Draft, index: map<string, EventScore>) {
    && LeaguesOk(d.leagues.rows, d.sports.rows.Keys)
    && TeamsOk(d.teams.rows, d.sports.rows.Keys)
    && FixturesOk(d.fixtures.rows, d.leagues.rows.Keys, d.teams.rows.Keys)
    && EventsOk(d.events.rows, d.fixtures.rows.Keys)
    && MarketsOk(d.markets.rows, d.events.rows, index)
    && SelectionsOk(d.selections.rows, d.markets.rows.Keys)
  }

  predicate Ready(d: Draft, index: map<string, EventScore>, sport: string, group: string) {
    Sound(d, index) && sport in d.leagues.rows && group in d.sports.rows
  }

  lemma {:induction false} SelectionsKeepSound(d: Draft, index: map<string, EventScore>, sport: string, group: string,
                                               market: string, done: bool, outcomes: seq<Outcome>, slug: string -> string)
    requires Ready(d, index, sport, group) && market in d.markets.rows
    ensures var t := AddSelections(d, market, done, outcomes, slug);
            Ready(t, index, sport, group) && t.(selections := d.selections) == d
  {
    hide Ordered, LeaguesOk, TeamsOk, FixturesOk, EventsOk, MarketsOk, SelectionRef, SelectionLabel;
    if outcomes != [] {
      SelectionsKeepSound(d, index, sport, group, market, done, outcomes[..|outcomes| - 1], slug);
    }
  }

  lemma PutMarketKeepsSound(d: Draft, index: map<string, EventScore>, sport: string, group: string, event: string,
                            ref: string, m: ApiMarket, kind: MarketType)
    requires Ready(d, index, sport, group) && event in d.events.rows
    requires d.events.rows[event].status == EventStatus.Ended <==> Done(index, event)
    ensures var t := PutMarket(d, event, ref, m, kind, Done(index, event));
            Ready(t, index, sport, group) && t.(markets := d.markets) == d && ref in t.markets.rows
  {
    hide Ordered, LeaguesOk, TeamsOk, FixturesOk, EventsOk, MarketLine, Done;
  }

  lemma MarketKeepsSound(d: Draft, feed: Feed, index: map<string, EventScore>, sport: string, group: string, event: string,
                         bookmaker: string, m: ApiMarket, slug: string -> string)
    requires Ready(d, index, sport, group) && event in d.events.rows
    requires d.events.rows[event].status == EventStatus.Ended <==> Done(index, event)
    ensures var t := AddMarket(d, feed, event, bookmaker, Done(index, event), m, slug);
            Ready(t, index, sport, group) && t.(selections := d.selections, markets := d.markets) == d
  {
    hide AddSelections, Ready, PutMarket, Done, MarketTypeOf;
    var kind, ref := MarketTypeOf(m.key), MarketRef(event, bookmaker, m.key);
    if m.key in feed.marketKeys && kind.Some? {
      PutMarketKeepsSound(d, index, sport, group, event, ref, m, kind.value);
      var d1 := PutMarket(d, event, ref, m, kind.value, Done(index, event));
      SelectionsKeepSound(d1, index, sport, group, ref, Done(index, event), m.outcomes, slug);
    }
  }

  lemma {:induction false} MarketsKeepSound(d: Draft, feed: Feed, index: map<string, EventScore>, sport: string, group: string,
                                            event: string, bookmaker: string, ms: seq<ApiMarket>, slug: string -> string)
    requires Ready(d, index, sport, group) && event in d.events.rows
    requires d.events.rows[event].status == EventStatus.Ended <==> Done(index, event)
    ensures var t := AddMarkets(d, feed, event, bookmaker, Done(index, event), ms, slug);
            Ready(t, index, sport, group) && t.(selections := d.selections, markets := d.markets) == d
  {
    hide AddMarket, Ready;
    if ms != [] {
      MarketsKeepSound(d, feed, index, sport, group, event, bookmaker, ms[..|ms| - 1], slug);
      var front := AddMarkets(d, feed, event, bookmaker, Done(index, event), ms[..|ms| - 1], slug);
      MarketKeepsSound(front, feed, index, sport, group, event, bookmaker, ms[|ms| - 1], slug);
    }
  }

  /** A match may replace an event with the same id, but only with the same status when the event has markets. */
  lemma MatchKeepsSound(d: Draft, index: map<string, EventScore>, sport: string, group: string, id: string, commenceTime: int,
                        home: string, away: string, completed: bool, scores: seq<ScoreEntry>, now: int, slug: string -> string)
    requires Ready(d, index, sport, group)
    requires completed == Done(index, id) || id !in d.events.rows
    ensures var t := AddMatch(d, sport, group, id, commenceTime, home, away, completed, scores, now, slug);
            && Ready(t, index, sport, group) && t.events.rows.Keys == d.events.rows.Keys + {id}
            && (t.events.rows[id].status == EventStatus.Ended <==> completed)
  {
    hide Ordered, TeamKey, Done, FindScore, LeaguesOk, SelectionsOk;
    var t := AddMatch(d, sport, group, id, commenceTime, home, away, completed, scores, now, slug);
    EventKeepsMarkets(d.markets.rows, d.events.rows, index, id, t.events.rows[id]);
    hide MarketsOk;
  }

  lemma EventKeepsMarkets(markets: map<string, Market>, events: map<string, Event>, index: map<string, EventScore>, id: string, e: Event)
    requires MarketsOk(markets, events, index)
    requires id !in events || (e.status == EventStatus.Ended <==> Done(index, id))
    ensures MarketsOk(markets, events[id := e], index)
  {
    hide Done;
  }

  lemma EventKeepsSound(d: Draft, feed: Feed, index: map<string, EventScore>, sport: string, config: SportConfig, e: EventOdds,
                        now: int, slug: string -> string)
    requires Ready(d, index, sport, config.group)
    ensures var t := AddEvent(d, feed, index, sport, config, e, now, slug);
            && Ready(t, index, sport, config.group) && t.events.rows.Keys == d.events.rows.Keys + {e.id}
            && (t.events.rows[e.id].status == EventStatus.Ended <==> Done(index, e.id))
  {
    hide AddMatch, AddMarkets, Ready, Done;
    var scores, bookmaker := if e.id in index then index[e.id].scores else [], PickBookmaker(e.bookmakers, config.bookmaker);
    MatchKeepsSound(d, index, sport, config.group, e.id, e.commenceTime, e.homeTeam, e.awayTeam, Done(index, e.id), scores, now, slug);
    if bookmaker.Some? {
      var d1 := AddMatch(d, sport, config.group, e.id, e.commenceTime, e.homeTeam, e.awayTeam, Done(index, e.id), scores, now, slug);
      MarketsKeepSound(d1, feed, index, sport, config.group, e.id, bookmaker.value.key, bookmaker.value.markets, slug);
    }
  }

  /** Later sports keep an event's status, or set it to what the scores report. */
  predicate Kept(d: Draft, t: Draft, index: map<string, EventScore>) {
    forall id :: id in d.events.rows ==>
      id in t.events.rows && (t.events.rows[id].status == d.events.rows[id].status
                              || (t.events.rows[id].status == EventStatus.Ended <==> Done(index, id)))
  }

  /** The match is an event of the draft, ended exactly when it is reported completed. */
  predicate Covered(d: Draft, index: map<string, EventScore>, id: string) {
    id in d.events.rows && (d.events.rows[id].status == EventStatus.Ended <==> Done(index, id))
  }

  predicate AllCovered(d: Draft, index: map<string, EventScore>, es: seq<EventOdds>) {
    forall i :: 0 <= i < |es| ==> Covered(d, index, es[i].id)
  }

  predicate Known(d: Draft, odds: set<string>, ss: seq<EventScore>) {
    forall i :: 0 <= i < |ss| ==> ss[i].id in odds || ss[i].id in d.events.rows
  }

  lemma CoveredKept(d: Draft, t: Draft, index: map<string, EventScore>, es: seq<EventOdds>)
    requires AllCovered(d, index, es) && Kept(d, t, index)
    ensures AllCovered(t, index, es)
  {
    hide Ordered, Done;
  }

  lemma KnownKept(d: Draft, t: Draft, index: map<string, EventScore>, odds: set<string>, ss: seq<EventScore>)
    requires Known(d, odds, ss) && Kept(d, t, index)
    ensures Known(t, odds, ss)
  {
    hide Ordered, Done;
  }

  lemma KeptTransitive(d: Draft, t: Draft, u: Draft, index: map<string, EventScore>)
    requires Kept(d, t, index) && Kept(t, u, index)
    ensures Kept(d, u, index)
  {
    hide Ordered, Done;
  }

  lemma CoverOne(d: Draft, index: map<string, EventScore>, es: seq<EventOdds>)
    requires es != [] && AllCovered(d, index, es[..|es| - 1]) && Covered(d, index, es[|es| - 1].id)
    ensures AllCovered(d, index, es)
  {
    hide Covered;
    forall i | 0 <= i < |es| ensures Covered(d, index, es[i].id) {
      assert i < |es| - 1 ==> es[..|es| - 1][i] == es[i];
    }
  }

  lemma {:induction false} EventsKeepSound(d: Draft, feed: Feed, index: map<string, EventScore>, sport: string, config: SportConfig,
                                           es: seq<EventOdds>, now: int, slug: string -> string)
    requires Ready(d, index, sport, config.group)
    ensures var t := AddEvents(d, feed, index, sport, config, es, now, slug);
            Ready(t, index, sport, config.group) && Kept(d, t, index) && AllCovered(t, index, es)
  {
    KeptItself(d, index);
    hide Ordered, AddEvent, Ready, Done, Kept, Covered;
    if es != [] {
      hide AllCovered;
      EventsKeepSound(d, feed, index, sport, config, es[..|es| - 1], now, slug);
      var front, last := AddEvents(d, feed, index, sport, config, es[..|es| - 1], now, slug), es[|es| - 1];
      var t := AddEvent(front, feed, index, sport, config, last, now, slug);
      EventIsKept(front, feed, index, sport, config, last, now, slug);
      KeptTransitive(d, front, t, index);
      CoveredKept(front, t, index, es[..|es| - 1]);
      CoverOne(t, index, es);
    }
  }

  lemma KeptItself(d: Draft, index: map<string, EventScore>)
    ensures Kept(d, d, index)
  {
    hide Ordered, Done;
  }

  lemma EventIsKept(d: Draft, feed: Feed, index: map<string, EventScore>, sport: string, config: SportConfig, e: EventOdds,
                    now: int, slug: string -> string)
    requires Ready(d, index, sport, config.group)
    ensures var t := AddEvent(d, feed, index, sport, config, e, now, slug);
            Ready(t, index, sport, config.group) && Kept(d, t, index) && Covered(t, index, e.id)
  {
    hide Ordered, AddEvent, Ready, Done;
    EventKeepsSound(d, feed, index, sport, config, e, now, slug);
    EventKeepsOthers(d, feed, index, sport, config, e, now, slug);
  }

  lemma EventKeepsOthers(d: Draft, feed: Feed, index: map<string, EventScore>, sport: string, config: SportConfig, e: EventOdds,
                         now: int, slug: string -> string)
    requires Ready(d, index, sport, config.group)
    ensures var t := AddEvent(d, feed, index, sport, config, e, now, slug);
            forall id :: id in d.events.rows && id != e.id ==> id in t.events.rows && t.events.rows[id] == d.events.rows[id]
  {
    hide AddMarkets, Ready, Done, Ordered;
    var scores, bookmaker := if e.id in index then index[e.id].scores else [], PickBookmaker(e.bookmakers, config.bookmaker);
    MatchKeepsSound(d, index, sport, config.group, e.id, e.commenceTime, e.homeTeam, e.awayTeam, Done(index, e.id), scores, now, slug);
    if bookmaker.Some? {
      var d1 := AddMatch(d, sport, config.group, e.id, e.commenceTime, e.homeTeam, e.awayTeam, Done(index, e.id), scores, now, slug);
      MarketsKeepSound(d1, feed, index, sport, config.group, e.id, bookmaker.value.key, bookmaker.value.markets, slug);
    }
  }

  lemma ScoreKeepsSound(d: Draft, index: map<string, EventScore>, sport: string, config: SportConfig, odds: set<string>,
                        s: EventScore, now: int, slug: string -> string)
    requires Ready(d, index, sport, config.group)
    ensures var t := AddScore(d, sport, config, odds, s, now, slug);
            && Ready(t, index, sport, config.group) && Kept(d, t, index) && (s.id in odds || s.id in t.events.rows)
  {
    hide Ordered, Ready, Done, AddMatch, Kept;
    KeptItself(d, index);
    if s.id !in odds && s.id !in d.events.rows {
      MatchKeepsSound(d, index, sport, config.group, s.id, s.commenceTime, s.homeTeam, s.awayTeam, s.completed, s.scores, now, slug);
      MatchKeepsOthers(d, sport, config.group, s.id, s.commenceTime, s.homeTeam, s.awayTeam, s.completed, s.scores, now, slug);
      OthersKept(d, AddScore(d, sport, config, odds, s, now, slug), index, s.id);
    }
  }

  lemma OthersKept(d: Draft, t: Draft, index: map<string, EventScore>, id: string)
    requires id !in d.events.rows
    requires forall k :: k in d.events.rows && k != id ==> k in t.events.rows && t.events.rows[k] == d.events.rows[k]
    ensures Kept(d, t, index)
  {
    hide Ordered, Done;
  }

  lemma MatchKeepsOthers(d: Draft, sport: string, group: string, id: string, commenceTime: int, home: string, away: string,
                         completed: bool, scores: seq<ScoreEntry>, now: int, slug: string -> string)
    ensures var t := AddMatch(d, sport, group, id, commenceTime, home, away, completed, scores, now, slug);
            forall k :: k in d.events.rows && k != id ==> k in t.events.rows && t.events.rows[k] == d.events.rows[k]
  {
    hide Ordered, EventStatusOf, FixtureStatusOf, TeamKey, FindScore;
  }

  lemma KnowOne(d: Draft, odds: set<string>, ss: seq<EventScore>)
    requires ss != [] && Known(d, odds, ss[..|ss| - 1]) && (ss[|ss| - 1].id in odds || ss[|ss| - 1].id in d.events.rows)
    ensures Known(d, odds, ss)
  {
    hide Ordered;
    forall i | 0 <= i < |ss| ensures ss[i].id in odds || ss[i].id in d.events.rows {
      assert i < |ss| - 1 ==> ss[..|ss| - 1][i] == ss[i];
    }
  }

  lemma {:induction false} ScoresKeepSound(d: Draft, index: map<string, EventScore>, sport: string, config: SportConfig,
                                           odds: set<string>, ss: seq<EventScore>, now: int, slug: string -> string)
    requires Ready(d, index, sport, config.group)
    ensures var t := AddScores(d, sport, config, odds, ss, now, slug);
            Ready(t, index, sport, config.group) && Kept(d, t, index) && Known(t, odds, ss)
  {
    KeptItself(d, index);
    hide Ordered, AddScore, Ready, Done, Kept;
    if ss != [] {
      hide Known;
      ScoresKeepSound(d, index, sport, config, odds, ss[..|ss| - 1], now, slug);
      var front := AddScores(d, sport, config, odds, ss[..|ss| - 1], now, slug);
      var t := AddScore(front, sport, config, odds, ss[|ss| - 1], now, slug);
      ScoreKeepsSound(front, index, sport, config, odds, ss[|ss| - 1], now, slug);
      KeptTransitive(d, front, t, index);
      KnownKept(front, t, index, odds, ss[..|ss| - 1]);
      KnowOne(t, odds, ss);
    }
  }

  lemma OpenSportKeepsSound(d: Draft, index: map<string, EventScore>, sport: string, apiSport: Option<ApiSport>, config: SportConfig)
    requires Sound(d, index)
    ensures Ready(OpenSport(d, sport, apiSport, config), index, sport, config.group)
    ensures OpenSport(d, sport, apiSport, config).events == d.events
  {
    hide Ordered, EventsOk, MarketsOk, SelectionsOk;
  }

  /** Every match the sport's odds or scores mention is an event; with odds, its status is as reported. */
  predicate SportCovered(d: Draft, feed: Feed, index: map<string, EventScore>, sport: string) {
    AllCovered(d, index, OddsOf(feed, sport)) && Known(d, {}, ScoresOf(feed, sport))
  }

  lemma OddsAreKnown(d: Draft, index: map<string, EventScore>, es: seq<EventOdds>, ss: seq<EventScore>)
    requires AllCovered(d, index, es) && Known(d, EventIds(es), ss)
    ensures Known(d, {}, ss)
  {
    hide Ordered, Done;
    forall i | 0 <= i < |ss| ensures ss[i].id in d.events.rows {
      if ss[i].id in EventIds(es) {
        var j :| 0 <= j < |es| && es[j].id == ss[i].id;
        assert Covered(d, index, es[j].id);
      }
    }
  }

  lemma SportKeepsSound(d: Draft, feed: Feed, index: map<string, EventScore>, sport: string, now: int, slug: string -> string)
    requires Sound(d, index)
    ensures var t := AddSport(d, feed, index, sport, now, slug);
            Sound(t, index) && Kept(d, t, index) && SportCovered(t, feed, index, sport)
  {
    hide Ordered, Sound, OpenSport, AddEvents, AddScores, Done, FindSport, ResolveSportConfig, AllCovered, Known;
    var apiSport := FindSport(feed.apiSports, sport);
    var config := ResolveSportConfig(sport, apiSport, slug);
    var es, ss := OddsOf(feed, sport), ScoresOf(feed, sport);
    OpenSportKeepsSound(d, index, sport, apiSport, config);
    var d0 := OpenSport(d, sport, apiSport, config);
    EventsKeepSound(d0, feed, index, sport, config, es, now, slug);
    var d1 := AddEvents(d0, feed, index, sport, config, es, now, slug);
    ScoresKeepSound(d1, index, sport, config, EventIds(es), ss, now, slug);
    var t := AddScores(d1, sport, config, EventIds(es), ss, now, slug);
    CoveredKept(d1, t, index, es);
    OddsAreKnown(t, index, es, ss);
    assert Kept(d, d0, index) by { KeptItself(d, index); }
    KeptTransitive(d, d0, d1, index);
    KeptTransitive(d, d1, t, index);
  }

  lemma SportCoveredKept(d: Draft, t: Draft, feed: Feed, index: map<string, EventScore>, sport: string)
    requires SportCovered(d, feed, index, sport) && Kept(d, t, index)
    ensures SportCovered(t, feed, index, sport)
  {
    hide *;
    CoveredParts(d, feed, index, sport);
    CoveredKept(d, t, index, OddsOf(feed, sport));
    KnownKept(d, t, index, {}, ScoresOf(feed, sport));
    CoveredParts(t, feed, index, sport);
  }

  lemma CoveredParts(d: Draft, feed: Feed, index: map<string, EventScore>, sport: string)
    ensures SportCovered(d, feed, index, sport)
       <==> AllCovered(d, index, OddsOf(feed, sport)) && Known(d, {}, ScoresOf(feed, sport))
  {}

  lemma {:induction false} SportsKeepSound(feed: Feed, index: map<string, EventScore>, sports: seq<string>, now: int, slug: string -> string)
    ensures var t := AddSports(feed, index, sports, now, slug);
            Sound(t, index) && forall i :: 0 <= i < |sports| ==> SportCovered(t, feed, index, sports[i])
  {
    if sports != [] {
      hide Ordered, Sound, AddSport, Done, SportCovered, Kept;
      SportsKeepSound(feed, index, sports[..|sports| - 1], now, slug);
      var front, last := AddSports(feed, index, sports[..|sports| - 1], now, slug), sports[|sports| - 1];
      SportKeepsSound(front, feed, index, last, now, slug);
      forall i | 0 <= i < |sports| ensures SportCovered(AddSport(front, feed, index, last, now, slug), feed, index, sports[i]) {
        if i < |sports| - 1 {
          assert sports[..|sports| - 1][i] == sports[i];
          SportCoveredKept(front, AddSport(front, feed, index, last, now, slug), feed, index, sports[i]);
        }
      }
    }
  }

  /** The mapped snapshot is closed, its references are unique and a market is settled exactly when its
      event is ended. */
  lemma MappedIsClosed(feed: Feed, now: int, slug: string -> string)
    ensures var snap := Mapped(feed, now, slug); Closed(snap) && AllUnique(snap) && StatusesAgree(snap)
  {
    hide AddSports, ScoresByEventId;
    SportsKeepSound(feed, ScoresByEventId(feed, feed.sportKeys), feed.sportKeys, now, slug);
    SoundIsClosed(AddSports(feed, ScoresByEventId(feed, feed.sportKeys), feed.sportKeys, now, slug), ScoresByEventId(feed, feed.sportKeys));
  }

  lemma EntryRefs<V>(t: Table<V>)
    ensures Refs(Entries(t)) == t.rows.Keys && UniqueRefs(Entries(t))
  {
    forall k | k in t.rows ensures k in Refs(Entries(t)) {
      var i :| 0 <= i < |t.keys| && t.keys[i] == k;
      assert Entries(t)[i].0 == k;
    }
  }

  lemma SoundIsClosed(d: Draft, index: map<string, EventScore>)
    requires Sound(d, index)
    ensures Closed(Finish(d)) && AllUnique(Finish(d)) && StatusesAgree(Finish(d))
  {
    hide Ordered, Sound, StatusesAgree, Done, UniqueRefs, Refs;
    SoundStatuses(d, index);
    SoundParents(d, index);
    SoundMatches(d, index);
    EntryRefs(d.sports);
    EntryRefs(d.leagues);
    EntryRefs(d.teams);
    EntryRefs(d.fixtures);
    EntryRefs(d.events);
    EntryRefs(d.markets);
    EntryRefs(d.selections);
    hide Entries;
  }

  lemma SoundParents(d: Draft, index: map<string, EventScore>)
    requires Sound(d, index)
    ensures forall i | 0 <= i < |Entries(d.leagues)| :: Entries(d.leagues)[i].1.sport in d.sports.rows.Keys
    ensures forall i | 0 <= i < |Entries(d.teams)| :: Entries(d.teams)[i].1.sport in d.sports.rows.Keys
    ensures forall i | 0 <= i < |Entries(d.selections)| :: Entries(d.selections)[i].1.market in d.markets.rows.Keys
    ensures forall i | 0 <= i < |Entries(d.markets)| :: Entries(d.markets)[i].1.event in d.events.rows.Keys
  {
    hide Ordered, Done, MarketsOk, FixturesOk, EventsOk;
    MarketEvents(d, index);
  }

  lemma SoundMatches(d: Draft, index: map<string, EventScore>)
    requires Sound(d, index)
    ensures forall i | 0 <= i < |Entries(d.fixtures)| ::
              var f := Entries(d.fixtures)[i].1;
              f.league in d.leagues.rows.Keys && f.home in d.teams.rows.Keys && f.away in d.teams.rows.Keys
    ensures forall i | 0 <= i < |Entries(d.events)| :: Entries(d.events)[i].1.fixture in d.fixtures.rows.Keys
  {
    hide Ordered, Done, MarketsOk, LeaguesOk, TeamsOk, SelectionsOk;
  }

  predicate MarketsHaveEvents(d: Draft) {
    forall k :: k in d.markets.rows ==> d.markets.rows[k].event in d.events.rows
  }

  lemma MarketEvents(d: Draft, index: map<string, EventScore>)
    requires MarketsOk(d.markets.rows, d.events.rows, index)
    ensures MarketsHaveEvents(d)
  {
    hide Ordered, Done;
  }

  lemma SoundStatuses(d: Draft, index: map<string, EventScore>)
    requires Sound(d, index)
    ensures StatusesAgree(Finish(d))
  {
    hide Ordered, Done, LeaguesOk, TeamsOk, FixturesOk, EventsOk, SelectionsOk;
  }

  /** Nothing the feed mentions is lost: every match of a requested sport is an event of the snapshot,
      and one with odds is ended exactly when the scores report it completed. */
  lemma EveryMatchIsMapped(feed: Feed, now: int, slug: string -> string, sport: string)
    requires sport in feed.sportKeys
    ensures var snap, index := Mapped(feed, now, slug), ScoresByEventId(feed, feed.sportKeys);
            && (forall i :: 0 <= i < |ScoresOf(feed, sport)| ==> ScoresOf(feed, sport)[i].id in Refs(snap.events))
            && (forall i :: 0 <= i < |OddsOf(feed, sport)| ==> EndedAsReported(snap, index, OddsOf(feed, sport)[i].id))
  {
    hide AddSports, ScoresByEventId, Done, OddsOf, ScoresOf, Ordered, Entries;
    var index := ScoresByEventId(feed, feed.sportKeys);
    var d := AddSports(feed, index, feed.sportKeys, now, slug);
    SportsKeepSound(feed, index, feed.sportKeys, now, slug);
    EntryRefs(d.events);
    var n :| 0 <= n < |feed.sportKeys| && feed.sportKeys[n] == sport;
    assert SportCovered(d, feed, index, sport);
    forall i | 0 <= i < |OddsOf(feed, sport)| ensures EndedAsReported(Mapped(feed, now, slug), index, OddsOf(feed, sport)[i].id) {
      assert Covered(d, index, OddsOf(feed, sport)[i].id);
      hide SportCovered, AllCovered, Known;
    }
  }

  predicate EndedAsReported(snap: Snapshot, index: map<string, EventScore>, id: string) {
    && id in Refs(snap.events)
    && forall i :: 0 <= i < |snap.events| && snap.events[i].0 == id ==>
         (snap.events[i].1.status == EventStatus.Ended <==> Done(index, id))
  }

  // The mapper as it runs

  lemma NextSelection(d: Draft, market: string, done: bool, outcomes: seq<Outcome>, slug: string -> string, i: nat)
    requires i < |outcomes|
    ensures AddSelections(d, market, done, outcomes[..i + 1], slug)
         == AddSelection(AddSelections(d, market, done, outcomes[..i], slug), market, done, outcomes[i], slug)
  {
    hide AddSelection;
    assert outcomes[..i + 1][..i] == outcomes[..i];
  }

  lemma NextMarket(d: Draft, feed: Feed, event: string, bookmaker: string, done: bool, ms: seq<ApiMarket>, slug: string -> string, i: nat)
    requires i < |ms|
    ensures AddMarkets(d, feed, event, bookmaker, done, ms[..i + 1], slug)
         == AddMarket(AddMarkets(d, feed, event, bookmaker, done, ms[..i], slug), feed, event, bookmaker, done, ms[i], slug)
  {
    hide AddMarket;
    assert ms[..i + 1][..i] == ms[..i];
  }

  lemma NextEvent(d: Draft, feed: Feed, index: map<string, EventScore>, sport: string, config: SportConfig, es: seq<EventOdds>,
                  now: int, slug: string -> string, i: nat)
    requires i < |es|
    ensures AddEvents(d, feed, index, sport, config, es[..i + 1], now, slug)
         == AddEvent(AddEvents(d, feed, index, sport, config, es[..i], now, slug), feed, index, sport, config, es[i], now, slug)
  {
    hide AddEvent;
    assert es[..i + 1][..i] == es[..i];
  }

  lemma NextScore(d: Draft, sport: string, config: SportConfig, odds: set<string>, ss: seq<EventScore>, now: int,
                  slug: string -> string, i: nat)
    requires i < |ss|
    ensures AddScores(d, sport, config, odds, ss[..i + 1], now, slug)
         == AddScore(AddScores(d, sport, config, odds, ss[..i], now, slug), sport, config, odds, ss[i], now, slug)
  {
    hide AddScore;
    assert ss[..i + 1][..i] == ss[..i];
  }

  lemma NextSport(feed: Feed, index: map<string, EventScore>, sports: seq<string>, now: int, slug: string -> string, i: nat)
    requires i < |sports|
    ensures AddSports(feed, index, sports[..i + 1], now, slug)
         == AddSport(AddSports(feed, index, sports[..i], now, slug), feed, index, sports[i], now, slug)
  {
    hide AddSport;
    assert sports[..i + 1][..i] == sports[..i];
  }

  /** The two inner loops: the markets of one bookmaker and their outcomes. */
  method MapMarkets(before: Draft, feed: Feed, event: string, bookmaker: string, done: bool, ms: seq<ApiMarket>, slug: string -> string)
    returns (d: Draft)
    ensures d == AddMarkets(before, feed, event, bookmaker, done, ms, slug)
  {
    hide Ordered, AddSelection, MarketTypeOf, MarketRef;
    d := before;
    for i := 0 to |ms|
      invariant d == AddMarkets(before, feed, event, bookmaker, done, ms[..i], slug)
    {
      NextMarket(before, feed, event, bookmaker, done, ms, slug, i);
      var m := ms[i];
      var kind, ref := MarketTypeOf(m.key), MarketRef(event, bookmaker, m.key);
      if m.key in feed.marketKeys && kind.Some? {
        ghost var front := d;
        d := PutMarket(d, event, ref, m, kind.value, done);
        for j := 0 to |m.outcomes|
          invariant d == AddSelections(PutMarket(front, event, ref, m, kind.value, done), ref, done, m.outcomes[..j], slug)
        {
          NextSelection(PutMarket(front, event, ref, m, kind.value, done), ref, done, m.outcomes, slug, j);
          d := AddSelection(d, ref, done, m.outcomes[j], slug);
        }
        assert m.outcomes[..|m.outcomes|] == m.outcomes;
      }
    }
    assert ms[..|ms|] == ms;
  }

  /** One sport: its league, its matches with odds, then the matches that only have a score. */
  method MapSport(before: Draft, feed: Feed, index: map<string, EventScore>, sport: string, now: int, slug: string -> string)
    returns (d: Draft)
    ensures d == AddSport(before, feed, index, sport, now, slug)
  {
    hide Ordered, FindSport, ResolveSportConfig, OpenSport, AddMatch, AddMarkets, Done, PickBookmaker;
    var apiSport := FindSport(feed.apiSports, sport);
    var config := ResolveSportConfig(sport, apiSport, slug);
    ghost var d0 := OpenSport(before, sport, apiSport, config);
    d := OpenSport(before, sport, apiSport, config);
    var es, ss := OddsOf(feed, sport), ScoresOf(feed, sport);
    for i := 0 to |es|
      invariant d == AddEvents(d0, feed, index, sport, config, es[..i], now, slug)
    {
      NextEvent(d0, feed, index, sport, config, es, now, slug, i);
      var e := es[i];
      var done := Done(index, e.id);
      d := AddMatch(d, sport, config.group, e.id, e.commenceTime, e.homeTeam, e.awayTeam, done,
                    if e.id in index then index[e.id].scores else [], now, slug);
      var bookmaker := PickBookmaker(e.bookmakers, config.bookmaker);
      if bookmaker.Some? {
        d := MapMarkets(d, feed, e.id, bookmaker.value.key, done, bookmaker.value.markets, slug);
      }
    }
    assert es[..|es|] == es;
    ghost var d1 := d;
    var oddsEventIds := EventIds(es);
    for i := 0 to |ss|
      invariant d == AddScores(d1, sport, config, oddsEventIds, ss[..i], now, slug)
    {
      NextScore(d1, sport, config, oddsEventIds, ss, now, slug, i);
      var s := ss[i];
      if s.id in oddsEventIds || s.id in d.events.rows {
        continue;
      }
      d := AddMatch(d, sport, config.group, s.id, s.commenceTime, s.homeTeam, s.awayTeam, s.completed, s.scores, now, slug);
    }
    assert ss[..|ss|] == ss;
  }

  method MapOddsApiToSnapshot(feed: Feed, now: int, slug: string -> string) returns (snap: Snapshot)
    ensures snap == Mapped(feed, now, slug)
    ensures Closed(snap) && AllUnique(snap) && StatusesAgree(snap)
  {
    MappedIsClosed(feed, now, slug);
    hide Ordered, AddSport, Finish, Closed, AllUnique, StatusesAgree;
    var index: map<string, EventScore> := map[];
    for i := 0 to |feed.sportKeys|
      invariant index == ScoresByEventId(feed, feed.sportKeys[..i])
    {
      assert feed.sportKeys[..i + 1][..i] == feed.sportKeys[..i];
      ghost var front := index;
      var scores := ScoresOf(feed, feed.sportKeys[i]);
      for j := 0 to |scores|
        invariant index == IndexScores(front, scores[..j])
      {
        assert scores[..j + 1][..j] == scores[..j];
        index := index[scores[j].id := scores[j]];
      }
      assert scores[..|scores|] == scores;
    }
    assert feed.sportKeys[..|feed.sportKeys|] == feed.sportKeys;
    var d := EMPTY;
    for i := 0 to |feed.sportKeys|
      invariant d == AddSports(feed, index, feed.sportKeys[..i], now, slug)
    {
      NextSport(feed, index, feed.sportKeys, now, slug, i);
      d := MapSport(d, feed, index, feed.sportKeys[i], now, slug);
    }
    snap := Finish(d);
  }
}
