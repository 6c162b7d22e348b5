/** Where the rows of a mapped snapshot come from: the matches, markets and outcomes of the whole feed in
    the order in which the mapper meets them, and what later ones overwrite. */
module FeedProvenance {
  import opened Domain
  import opened OddsLabels
  import opened ProviderSnapshot
  import opened OddsMapper

  /** A match as it is mapped, from the odds or from the scores alone. */
  datatype Match = Match(sport: string, group: string, id: string, commenceTime: int, home: string, away: string,
                         completed: bool, scores: seq<ScoreEntry>)

  /** Everything a feed makes the mapper write, in order. */
  datatype Log = Log(matches: seq<Match>, markets: seq<(string, Market)>, selections: seq<(string, NewSelection)>)

  const NOTHING := Log([], [], [])

  function Then(a: Log, b: Log): Log {
    Log(a.matches + b.matches, a.markets + b.markets, a.selections + b.selections)
  }

  // The writes of a feed

  function OutcomeRow(market: string, done: bool, o: Outcome): NewSelection {
    NewSelection(market, SelectionLabel(o), if done then SelectionStatus.Settled else SelectionStatus.Open, o.price)
  }

  function OutcomeWrites(market: string, done: bool, outcomes: seq<Outcome>, slug: string -> string): seq<(string, NewSelection)> {
    if outcomes == [] then []
    else
      var last := outcomes[|outcomes| - 1];
      OutcomeWrites(market, done, outcomes[..|outcomes| - 1], slug) + [(SelectionRef(market, last, slug), OutcomeRow(market, done, last))]
  }

  predicate Supported(feed: Feed, m: ApiMarket) {
    m.key in feed.marketKeys && MarketTypeOf(m.key).Some?
  }

  function MarketRow(event: string, m: ApiMarket, done: bool): Market
    requires MarketTypeOf(m.key).Some?
  {
    Market(event, MarketTypeOf(m.key).value, if done then MarketStatus.Settled else MarketStatus.Open, MarketLine(m.outcomes))
  }

  function MarketLog(feed: Feed, event: string, bookmaker: string, done: bool, m: ApiMarket, slug: string -> string): Log {
    var ref := MarketRef(event, bookmaker, m.key);
    if !Supported(feed, m) then NOTHING
    else Log([], [(ref, MarketRow(event, m, done))], OutcomeWrites(ref, done, m.outcomes, slug))
  }

  function MarketsLog(feed: Feed, event: string, bookmaker: string, done: bool, ms: seq<ApiMarket>, slug: string -> string): Log {
    if ms == [] then NOTHING
    else Then(MarketsLog(feed, event, bookmaker, done, ms[..|ms| - 1], slug), MarketLog(feed, event, bookmaker, done, ms[|ms| - 1], slug))
  }

  function OddsMatch(index: map<string, EventScore>, sport: string, config: SportConfig, e: EventOdds): Match {
    Match(sport, config.group, e.id, e.commenceTime, e.homeTeam, e.awayTeam, Done(index, e.id),
          if e.id in index then index[e.id].scores else [])
  }

  function ScoreMatch(sport: string, config: SportConfig, s: EventScore): Match {
    Match(sport, config.group, s.id, s.commenceTime, s.homeTeam, s.awayTeam, s.completed, s.scores)
  }

  function EventLog(feed: Feed, index: map<string, EventScore>, sport: string, config: SportConfig, e: EventOdds, slug: string -> string): Log {
    var bookmaker := PickBookmaker(e.bookmakers, config.bookmaker);
    Then(Log([OddsMatch(index, sport, config, e)], [], []),
         if bookmaker.None? then NOTHING
         else MarketsLog(feed, e.id, bookmaker.value.key, Done(index, e.id), bookmaker.value.markets, slug))
  }

  function EventsLog(feed: Feed, index: map<string, EventScore>, sport: string, config: SportConfig, es: seq<EventOdds>, slug: string -> string): Log {
    if es == [] then NOTHING
    else Then(EventsLog(feed, index, sport, config, es[..|es| - 1], slug), EventLog(feed, index, sport, config, es[|es| - 1], slug))
  }

  function Ids(ms: seq<Match>): set<string> {
    set i | 0 <= i < |ms| :: ms[i].id
  }

  /** Scores whose match is not mapped yet. */
  function ScoreMatches(seen: set<string>, sport: string, config: SportConfig, odds: set<string>, ss: seq<EventScore>): seq<Match> {
    if ss == [] then []
    else
      var front, last := ScoreMatches(seen, sport, config, odds, ss[..|ss| - 1]), ss[|ss| - 1];
      if last.id in odds || last.id in seen || last.id in Ids(front) then front else front + [ScoreMatch(sport, config, last)]
  }

  function ConfigOf(feed: Feed, sport: string, slug: string -> string): SportConfig {
    ResolveSportConfig(sport, FindSport(feed.apiSports, sport), slug)
  }

  function SportLog(before: Log, feed: Feed, index: map<string, EventScore>, sport: string, slug: string -> string): Log {
    var config := ConfigOf(feed, sport, slug);
    var odds := Then(before, EventsLog(feed, index, sport, config, OddsOf(feed, sport), slug));
    Then(odds, Log(ScoreMatches(Ids(odds.matches), sport, config, EventIds(OddsOf(feed, sport)), ScoresOf(feed, sport)), [], []))
  }

  function SportsLog(feed: Feed, index: map<string, EventScore>, sports: seq<string>, slug: string -> string): Log {
    if sports == [] then NOTHING
    else SportLog(SportsLog(feed, index, sports[..|sports| - 1], slug), feed, index, sports[|sports| - 1], slug)
  }

  function LogOf(feed: Feed, slug: string -> string): Log {
    SportsLog(feed, ScoresByEventId(feed, feed.sportKeys), feed.sportKeys, slug)
  }

  // The draft is what the log wrote

  function PutAll<V>(writes: seq<(string, V)>): map<string, V> {
    if writes == [] then map[]
    else
      var last := writes[|writes| - 1];
      PutAll(writes[..|writes| - 1])[last.0 := last.1]
  }

  lemma PutNext<V>(writes: seq<(string, V)>, w: (string, V))
    ensures PutAll(writes + [w]) == PutAll(writes)[w.0 := w.1]
  {
    assert (writes + [w])[..|writes|] == writes;
  }

  function TeamWrites(ms: seq<Match>, slug: string -> string): seq<(string, Team)> {
    if ms == [] then []
    else
      var m := ms[|ms| - 1];
      TeamWrites(ms[..|ms| - 1], slug)
      + [(TeamKey(m.sport, m.home, slug), Team(m.group, m.home))] + [(TeamKey(m.sport, m.away, slug), Team(m.group, m.away))]
  }

  function FixtureRow(m: Match, now: int, slug: string -> string): Fixture {
    Fixture(m.sport, TeamKey(m.sport, m.home, slug), TeamKey(m.sport, m.away, slug), m.commenceTime,
            FixtureStatusOf(m.commenceTime, m.completed, now))
  }

  function FixtureWrites(ms: seq<Match>, now: int, slug: string -> string): seq<(string, Fixture)> {
    if ms == [] then [] else FixtureWrites(ms[..|ms| - 1], now, slug) + [(ms[|ms| - 1].id, FixtureRow(ms[|ms| - 1], now, slug))]
  }

  function EventRow(m: Match, now: int): Event {
    Event(m.id, EventStatusOf(m.commenceTime, m.completed, now), FindScore(m.scores, m.home), FindScore(m.scores, m.away))
  }

  function EventWrites(ms: seq<Match>, now: int): seq<(string, Event)> {
    if ms == [] then [] else EventWrites(ms[..|ms| - 1], now) + [(ms[|ms| - 1].id, EventRow(ms[|ms| - 1], now))]
  }

  predicate MatchesWritten(d: Draft, ms: seq<Match>, now: int, slug: string -> string) {
    && d.teams.rows == PutAll(TeamWrites(ms, slug)) && d.fixtures.rows == PutAll(FixtureWrites(ms, now, slug))
    && d.events.rows == PutAll(EventWrites(ms, now)) && d.events.rows.Keys == Ids(ms)
  }

  predicate Written(d: Draft, log: Log, now: int, slug: string -> string) {
    MatchesWritten(d, log.matches, now, slug) && d.markets.rows == PutAll(log.markets) && d.selections.rows == PutAll(log.selections)
  }

  lemma IdsNext(ms: seq<Match>, m: Match)
    ensures Ids(ms + [m]) == Ids(ms) + {m.id}
  {
    forall id | id in Ids(ms) + {m.id} ensures id in Ids(ms + [m]) {
      if id in Ids(ms) {
        var i :| 0 <= i < |ms| && ms[i].id == id;
        assert (ms + [m])[i].id == id;
      } else {
        assert (ms + [m])[|ms|].id == id;
      }
    }
    forall id | id in Ids(ms + [m]) ensures id in Ids(ms) + {m.id} {
      var i :| 0 <= i < |ms + [m]| && (ms + [m])[i].id == id;
      assert i < |ms| ==> ms[i].id == id;
    }
  }

  function AddedMatch(d: Draft, m: Match, now: int, slug: string -> string): Draft {
    AddMatch(d, m.sport, m.group, m.id, m.commenceTime, m.home, m.away, m.completed, m.scores, now, slug)
  }

  lemma MatchWritten(d: Draft, ms: seq<Match>, m: Match, now: int, slug: string -> string)
    requires MatchesWritten(d, ms, now, slug)
    ensures var t := AddedMatch(d, m, now, slug);
            MatchesWritten(t, ms + [m], now, slug) && t.markets == d.markets && t.selections == d.selections
  {
    hide Ordered, EventStatusOf, FixtureStatusOf, FindScore, TeamKey, PutAll, Ids;
    assert (ms + [m])[..|ms|] == ms;
    IdsNext(ms, m);
    var home, away := (TeamKey(m.sport, m.home, slug), Team(m.group, m.home)), (TeamKey(m.sport, m.away, slug), Team(m.group, m.away));
    PutNext(TeamWrites(ms, slug), home);
    PutNext(TeamWrites(ms, slug) + [home], away);
    PutNext(FixtureWrites(ms, now, slug), (m.id, FixtureRow(m, now, slug)));
    PutNext(EventWrites(ms, now), (m.id, EventRow(m, now)));
  }

  lemma {:induction false} SelectionsWritten(d: Draft, log: Log, market: string, done: bool, outcomes: seq<Outcome>, now: int, slug: string -> string)
    requires Written(d, log, now, slug)
    ensures var t := AddSelections(d, market, done, outcomes, slug);
            Written(t, Then(log, Log([], [], OutcomeWrites(market, done, outcomes, slug))), now, slug)
  {
    hide Ordered, MatchesWritten, PutAll, SelectionRef, SelectionLabel;
    assert log.matches + [] == log.matches && log.markets + [] == log.markets && log.selections + [] == log.selections;
    if outcomes != [] {
      var front, last := outcomes[..|outcomes| - 1], outcomes[|outcomes| - 1];
      SelectionsWritten(d, log, market, done, front, now, slug);
      var w := (SelectionRef(market, last, slug), OutcomeRow(market, done, last));
      var before := OutcomeWrites(market, done, front, slug);
      PutNext(log.selections + before, w);
      assert log.selections + (before + [w]) == log.selections + before + [w];
      SameMatches(AddSelections(d, market, done, front, slug), AddSelections(d, market, done, outcomes, slug), log.matches, now, slug);
    }
  }

  lemma SameMatches(d: Draft, t: Draft, ms: seq<Match>, now: int, slug: string -> string)
    requires MatchesWritten(d, ms, now, slug) && t.teams == d.teams && t.fixtures == d.fixtures && t.events == d.events
    ensures MatchesWritten(t, ms, now, slug)
  {
    hide Ordered, PutAll, Ids;
  }

  lemma ThenNothing(log: Log)
    ensures Then(log, NOTHING) == log
  {
    assert log.matches + [] == log.matches && log.markets + [] == log.markets && log.selections + [] == log.selections;
  }

  lemma ThenThen(a: Log, b: Log, c: Log)
    ensures Then(Then(a, b), c) == Then(a, Then(b, c))
  {
    assert a.matches + b.matches + c.matches == a.matches + (b.matches + c.matches);
    assert a.markets + b.markets + c.markets == a.markets + (b.markets + c.markets);
    assert a.selections + b.selections + c.selections == a.selections + (b.selections + c.selections);
  }

  lemma MarketWritten(d: Draft, log: Log, feed: Feed, event: string, bookmaker: string, done: bool, m: ApiMarket, now: int, slug: string -> string)
    requires Written(d, log, now, slug)
    ensures Written(AddMarket(d, feed, event, bookmaker, done, m, slug), Then(log, MarketLog(feed, event, bookmaker, done, m, slug)), now, slug)
  {
    hide Ordered, MatchesWritten, PutAll, AddSelections, OutcomeWrites, MarketTypeOf, MarketLine, MarketRef;
    ThenNothing(log);
    if Supported(feed, m) {
      var ref, row := MarketRef(event, bookmaker, m.key), MarketRow(event, m, done);
      var d1, log1 := PutMarket(d, event, ref, m, MarketTypeOf(m.key).value, done), Then(log, Log([], [(ref, row)], []));
      PutNext(log.markets, (ref, row));
      assert log.matches + [] == log.matches && log.selections + [] == log.selections;
      SameMatches(d, d1, log.matches, now, slug);
      SelectionsWritten(d1, log1, ref, done, m.outcomes, now, slug);
      ThenThen(log, Log([], [(ref, row)], []), Log([], [], OutcomeWrites(ref, done, m.outcomes, slug)));
      assert [(ref, row)] + [] == [(ref, row)] && [] + OutcomeWrites(ref, done, m.outcomes, slug) == OutcomeWrites(ref, done, m.outcomes, slug);
    }
  }

  lemma {:induction false} MarketsWritten(d: Draft, log: Log, feed: Feed, event: string, bookmaker: string, done: bool, ms: seq<ApiMarket>,
                                          now: int, slug: string -> string)
    requires Written(d, log, now, slug)
    ensures Written(AddMarkets(d, feed, event, bookmaker, done, ms, slug), Then(log, MarketsLog(feed, event, bookmaker, done, ms, slug)), now, slug)
  {
    hide Written, AddMarket, MarketLog, Then;
    ThenNothing(log);
    if ms != [] {
      var front, last := ms[..|ms| - 1], ms[|ms| - 1];
      MarketsWritten(d, log, feed, event, bookmaker, done, front, now, slug);
      MarketWritten(AddMarkets(d, feed, event, bookmaker, done, front, slug), Then(log, MarketsLog(feed, event, bookmaker, done, front, slug)),
                    feed, event, bookmaker, done, last, now, slug);
      ThenThen(log, MarketsLog(feed, event, bookmaker, done, front, slug), MarketLog(feed, event, bookmaker, done, last, slug));
    }
  }

  lemma OneMatchWritten(d: Draft, log: Log, m: Match, now: int, slug: string -> string)
    requires Written(d, log, now, slug)
    ensures Written(AddedMatch(d, m, now, slug), Then(log, Log([m], [], [])), now, slug)
  {
    hide MatchesWritten, AddMatch, AddedMatch, PutAll, Ordered;
    MatchWritten(d, log.matches, m, now, slug);
    assert log.markets + [] == log.markets && log.selections + [] == log.selections;
  }

  lemma EventWritten(d: Draft, log: Log, feed: Feed, index: map<string, EventScore>, sport: string, config: SportConfig, e: EventOdds,
                     now: int, slug: string -> string)
    requires Written(d, log, now, slug)
    ensures Written(AddEvent(d, feed, index, sport, config, e, now, slug), Then(log, EventLog(feed, index, sport, config, e, slug)), now, slug)
  {
    hide Written, AddMatch, AddMarkets, MarketsLog, Then, Done, PickBookmaker;
    var m, bookmaker := OddsMatch(index, sport, config, e), PickBookmaker(e.bookmakers, config.bookmaker);
    OneMatchWritten(d, log, m, now, slug);
    var log1 := Then(log, Log([m], [], []));
    ThenNothing(Log([m], [], []));
    if bookmaker.Some? {
      MarketsWritten(AddedMatch(d, m, now, slug), log1, feed, e.id, bookmaker.value.key, Done(index, e.id), bookmaker.value.markets, now, slug);
      ThenThen(log, Log([m], [], []), MarketsLog(feed, e.id, bookmaker.value.key, Done(index, e.id), bookmaker.value.markets, slug));
    }
  }

  lemma {:induction false} EventsWritten(d: Draft, log: Log, feed: Feed, index: map<string, EventScore>, sport: string, config: SportConfig,
                                         es: seq<EventOdds>, now: int, slug: string -> string)
    requires Written(d, log, now, slug)
    ensures Written(AddEvents(d, feed, index, sport, config, es, now, slug), Then(log, EventsLog(feed, index, sport, config, es, slug)), now, slug)
  {
    hide Written, AddEvent, EventLog, Then;
    ThenNothing(log);
    if es != [] {
      var front, last := es[..|es| - 1], es[|es| - 1];
      EventsWritten(d, log, feed, index, sport, config, front, now, slug);
      EventWritten(AddEvents(d, feed, index, sport, config, front, now, slug), Then(log, EventsLog(feed, index, sport, config, front, slug)),
                   feed, index, sport, config, last, now, slug);
      ThenThen(log, EventsLog(feed, index, sport, config, front, slug), EventLog(feed, index, sport, config, last, slug));
    }
  }

  lemma IdsConcat(a: seq<Match>, b: seq<Match>)
    ensures Ids(a + b) == Ids(a) + Ids(b)
  {
    forall id | id in Ids(a) + Ids(b) ensures id in Ids(a + b) {
      if id in Ids(a) {
        var i :| 0 <= i < |a| && a[i].id == id;
        assert (a + b)[i].id == id;
      } else {
        var i :| 0 <= i < |b| && b[i].id == id;
        assert (a + b)[|a| + i].id == id;
      }
    }
    forall id | id in Ids(a + b) ensures id in Ids(a) + Ids(b) {
      var i :| 0 <= i < |a + b| && (a + b)[i].id == id;
      assert if i < |a| then a[i].id == id else b[i - |a|].id == id;
    }
  }

  lemma WrittenIds(d: Draft, log: Log, now: int, slug: string -> string)
    requires Written(d, log, now, slug)
    ensures d.events.rows.Keys == Ids(log.matches)
  {}

  lemma {:induction false} ScoresWritten(d: Draft, log: Log, sport: string, config: SportConfig, odds: set<string>, ss: seq<EventScore>,
                                         now: int, slug: string -> string)
    requires Written(d, log, now, slug)
    ensures Written(AddScores(d, sport, config, odds, ss, now, slug),
                    Then(log, Log(ScoreMatches(Ids(log.matches), sport, config, odds, ss), [], [])), now, slug)
  {
    hide Written, AddMatch, Ids;
    ThenNothing(log);
    if ss != [] {
      var front, last := ss[..|ss| - 1], ss[|ss| - 1];
      ScoresWritten(d, log, sport, config, odds, front, now, slug);
      var before := ScoreMatches(Ids(log.matches), sport, config, odds, front);
      var d1, log1 := AddScores(d, sport, config, odds, front, now, slug), Then(log, Log(before, [], []));
      WrittenIds(d1, log1, now, slug);
      IdsConcat(log.matches, before);
      if last.id !in odds && last.id !in d1.events.rows {
        OneMatchWritten(d1, log1, ScoreMatch(sport, config, last), now, slug);
        ThenThen(log, Log(before, [], []), Log([ScoreMatch(sport, config, last)], [], []));
        assert Then(Log(before, [], []), Log([ScoreMatch(sport, config, last)], [], [])) == Log(before + [ScoreMatch(sport, config, last)], [], []);
      }
    }
  }

  lemma OpenedWritten(d: Draft, log: Log, sport: string, apiSport: Option<ApiSport>, config: SportConfig, now: int, slug: string -> string)
    requires Written(d, log, now, slug)
    ensures Written(OpenSport(d, sport, apiSport, config), log, now, slug)
  {
    hide Ordered, PutAll, MatchesWritten;
    SameMatches(d, OpenSport(d, sport, apiSport, config), log.matches, now, slug);
  }

  lemma SportWritten(d: Draft, before: Log, feed: Feed, index: map<string, EventScore>, sport: string, now: int, slug: string -> string)
    requires Written(d, before, now, slug)
    ensures Written(AddSport(d, feed, index, sport, now, slug), SportLog(before, feed, index, sport, slug), now, slug)
  {
    hide Written, OpenSport, AddEvents, AddScores, EventsLog, ScoreMatches, Then, FindSport, ResolveSportConfig, OddsOf, ScoresOf, EventIds, Ids;
    var apiSport, config := FindSport(feed.apiSports, sport), ConfigOf(feed, sport, slug);
    var d1 := OpenSport(d, sport, apiSport, config);
    OpenedWritten(d, before, sport, apiSport, config, now, slug);
    EventsWritten(d1, before, feed, index, sport, config, OddsOf(feed, sport), now, slug);
    ScoresWritten(AddEvents(d1, feed, index, sport, config, OddsOf(feed, sport), now, slug),
                  Then(before, EventsLog(feed, index, sport, config, OddsOf(feed, sport), slug)), sport, config,
                  EventIds(OddsOf(feed, sport)), ScoresOf(feed, sport), now, slug);
  }

  lemma {:induction false} SportsWritten(feed: Feed, index: map<string, EventScore>, sports: seq<string>, now: int, slug: string -> string)
    ensures Written(AddSports(feed, index, sports, now, slug), SportsLog(feed, index, sports, slug), now, slug)
  {
    if sports == [] {
      hide AddSport, SportLog;
    } else {
      hide Written, AddSport, SportLog;
      var front, last := sports[..|sports| - 1], sports[|sports| - 1];
      SportsWritten(feed, index, front, now, slug);
      SportWritten(AddSports(feed, index, front, now, slug), SportsLog(feed, index, front, slug), feed, index, last, now, slug);
    }
  }

  // Reading the snapshot back

  /** The last row written under a reference. */
  function LastWrite<V>(writes: seq<(string, V)>, ref: string): Option<V> {
    if writes == [] then None
    else
      var last := writes[|writes| - 1];
      if last.0 == ref then Some(last.1) else LastWrite(writes[..|writes| - 1], ref)
  }

  lemma {:induction false} PutAllIsLast<V>(writes: seq<(string, V)>, ref: string)
    ensures ref in PutAll(writes) <==> LastWrite(writes, ref).Some?
    ensures ref in PutAll(writes) ==> Some(PutAll(writes)[ref]) == LastWrite(writes, ref)
  {
    if writes != [] {
      PutAllIsLast(writes[..|writes| - 1], ref);
    }
  }

  lemma {:induction false} RowOfUnique<V>(list: seq<(string, V)>, ref: string, i: nat)
    requires UniqueRefs(list) && i < |list| && list[i].0 == ref
    ensures RowOf(list, ref) == Some(list[i].1)
  {
    if i > 0 {
      assert list[0].0 != ref;
      RowOfUnique(list[1..], ref, i - 1);
    }
  }

  lemma {:induction false} RowOfNone<V>(list: seq<(string, V)>, ref: string)
    requires forall i :: 0 <= i < |list| ==> list[i].0 != ref
    ensures RowOf(list, ref) == None
  {
    if list != [] {
      RowOfNone(list[1..], ref);
    }
  }

  lemma RowOfEntries<V>(t: Table<V>, ref: string)
    ensures RowOf(Entries(t), ref) == if ref in t.rows then Some(t.rows[ref]) else None
  {
    EntryRefs(t);
    if ref in t.rows {
      var i :| 0 <= i < |Entries(t)| && Entries(t)[i].0 == ref;
      RowOfUnique(Entries(t), ref, i);
    } else {
      RowOfNone(Entries(t), ref);
    }
  }

  /** Every row of a mapped snapshot is the last one that the feed wrote under its reference. */
  lemma SnapshotIsLastWrites(feed: Feed, now: int, slug: string -> string, ref: string)
    ensures var snap, log := Mapped(feed, now, slug), LogOf(feed, slug);
            && RowOf(snap.teams, ref) == LastWrite(TeamWrites(log.matches, slug), ref)
            && RowOf(snap.fixtures, ref) == LastWrite(FixtureWrites(log.matches, now, slug), ref)
            && RowOf(snap.events, ref) == LastWrite(EventWrites(log.matches, now), ref)
            && RowOf(snap.markets, ref) == LastWrite(log.markets, ref)
            && RowOf(snap.selections, ref) == LastWrite(log.selections, ref)
  {
    var index, log := ScoresByEventId(feed, feed.sportKeys), LogOf(feed, slug);
    var d := AddSports(feed, index, feed.sportKeys, now, slug);
    SportsWritten(feed, index, feed.sportKeys, now, slug);
    hide AddSports, SportsLog, TeamWrites, FixtureWrites, EventWrites, PutAll, LastWrite, RowOf, Entries, Ordered, ScoresByEventId;
    RowOfEntries(d.teams, ref);
    RowOfEntries(d.fixtures, ref);
    RowOfEntries(d.events, ref);
    RowOfEntries(d.markets, ref);
    RowOfEntries(d.selections, ref);
    PutAllIsLast(TeamWrites(log.matches, slug), ref);
    PutAllIsLast(FixtureWrites(log.matches, now, slug), ref);
    PutAllIsLast(EventWrites(log.matches, now), ref);
    PutAllIsLast(log.markets, ref);
    PutAllIsLast(log.selections, ref);
  }

  // Matches

  /** The name under which the last match of the feed to use this team key uses it. */
  function LastName(ms: seq<Match>, slug: string -> string, key: string): Option<string> {
    if ms == [] then None
    else
      var m := ms[|ms| - 1];
      if TeamKey(m.sport, m.away, slug) == key then Some(m.away)
      else if TeamKey(m.sport, m.home, slug) == key then Some(m.home)
      else LastName(ms[..|ms| - 1], slug, key)
  }

  lemma {:induction false} TeamIsLastName(ms: seq<Match>, slug: string -> string, key: string)
    ensures LastWrite(TeamWrites(ms, slug), key).Some? <==> LastName(ms, slug, key).Some?
    ensures LastName(ms, slug, key).Some? ==> LastWrite(TeamWrites(ms, slug), key).value.name == LastName(ms, slug, key).value
  {
    hide TeamKey;
    if ms != [] {
      var front, m := ms[..|ms| - 1], ms[|ms| - 1];
      TeamIsLastName(front, slug, key);
      var a, h, w := TeamWrites(front, slug), (TeamKey(m.sport, m.home, slug), Team(m.group, m.home)),
                     (TeamKey(m.sport, m.away, slug), Team(m.group, m.away));
      LastNext(a, h, key);
      LastNext(a + [h], w, key);
      hide LastWrite;
    }
  }

  lemma LastNext<V>(writes: seq<(string, V)>, w: (string, V), ref: string)
    ensures LastWrite(writes + [w], ref) == if w.0 == ref then Some(w.1) else LastWrite(writes, ref)
  {
    assert (writes + [w])[..|writes|] == writes;
  }

  /** No later match of the feed has the same id. */
  predicate LastOfId(ms: seq<Match>, i: nat) {
    i < |ms| && forall j :: i < j < |ms| ==> ms[j].id != ms[i].id
  }

  lemma {:induction false} FixtureIsLast(ms: seq<Match>, now: int, slug: string -> string, i: nat)
    requires LastOfId(ms, i)
    ensures LastWrite(FixtureWrites(ms, now, slug), ms[i].id) == Some(FixtureRow(ms[i], now, slug))
    ensures LastWrite(EventWrites(ms, now), ms[i].id) == Some(EventRow(ms[i], now))
  {
    hide FixtureRow, EventRow;
    var front, m := ms[..|ms| - 1], ms[|ms| - 1];
    LastNext(FixtureWrites(front, now, slug), (m.id, FixtureRow(m, now, slug)), ms[i].id);
    LastNext(EventWrites(front, now), (m.id, EventRow(m, now)), ms[i].id);
    if i < |front| {
      FixtureIsLast(front, now, slug, i);
    }
  }

  lemma {:induction false} KeysAreNamed(ms: seq<Match>, slug: string -> string, i: nat)
    requires i < |ms|
    ensures LastName(ms, slug, TeamKey(ms[i].sport, ms[i].home, slug)).Some? && LastName(ms, slug, TeamKey(ms[i].sport, ms[i].away, slug)).Some?
  {
    hide TeamKey;
    if i < |ms| - 1 {
      KeysAreNamed(ms[..|ms| - 1], slug, i);
    }
  }

  predicate Named(snap: Snapshot, team: string, name: string) {
    RowOf(snap.teams, team).Some? && RowOf(snap.teams, team).value.name == name
  }

  // Scores

  /** The score of the first entry under this name; none when no entry carries the name. */
  predicate ScoreFor(scores: seq<ScoreEntry>, name: string, score: Option<int>) {
    && (forall k :: 0 <= k < |scores| && scores[k].name == name && (forall j :: 0 <= j < k ==> scores[j].name != name) ==>
          score == scores[k].score)
    && ((forall k :: 0 <= k < |scores| ==> scores[k].name != name) ==> score == None)
  }

  lemma {:induction false} FindScoreMeans(scores: seq<ScoreEntry>, name: string)
    ensures ScoreFor(scores, name, FindScore(scores, name))
  {
    if scores != [] && scores[0].name != name {
      FindScoreMeans(scores[1..], name);
      forall k | 0 <= k < |scores| && scores[k].name == name && forall j :: 0 <= j < k ==> scores[j].name != name
        ensures FindScore(scores, name) == scores[k].score
      {
        assert scores[1..][k - 1] == scores[k];
        assert forall j :: 0 <= j < k - 1 ==> scores[1..][j] == scores[j + 1];
      }
      if forall k :: 0 <= k < |scores| ==> scores[k].name != name {
        assert forall k :: 0 <= k < |scores[1..]| ==> scores[1..][k] == scores[k + 1];
      }
    }
  }

  /** The last match of the feed with an id determines its fixture and event in the snapshot: league,
      kick-off, the team rows on their own sides, each side's own score, ended exactly when it is reported
      completed, and live from kick-off until then. */
  lemma MatchIsMapped(feed: Feed, now: int, slug: string -> string, i: nat)
    requires LastOfId(LogOf(feed, slug).matches, i)
    ensures var snap, m := Mapped(feed, now, slug), LogOf(feed, slug).matches[i];
            && RowOf(snap.fixtures, m.id).Some? && RowOf(snap.events, m.id).Some?
            && var f, e := RowOf(snap.fixtures, m.id).value, RowOf(snap.events, m.id).value;
               && f.league == m.sport && f.startsAt == m.commenceTime && e.fixture == m.id
               && f.home == TeamKey(m.sport, m.home, slug) && f.away == TeamKey(m.sport, m.away, slug)
               && ScoreFor(m.scores, m.home, e.homeScore) && ScoreFor(m.scores, m.away, e.awayScore)
               && (e.status == EventStatus.Ended <==> m.completed)
               && (e.status == EventStatus.Live <==> !m.completed && m.commenceTime <= now)
               && (f.status == FixtureStatus.Live <==> !m.completed && m.commenceTime <= now)
  {
    var ms := LogOf(feed, slug).matches;
    hide Mapped, LogOf, FindScore, ScoreFor, TeamKey, LastName, LastWrite, TeamWrites, FixtureWrites, EventWrites, RowOf;
    FindScoreMeans(ms[i].scores, ms[i].home);
    FindScoreMeans(ms[i].scores, ms[i].away);
    FixtureIsLast(ms, now, slug, i);
    SnapshotIsLastWrites(feed, now, slug, ms[i].id);
  }

  /** Whether a team row carries a name is decided by the last match of the whole feed to use its key. */
  lemma NameIsLast(feed: Feed, now: int, slug: string -> string, key: string, name: string)
    ensures Named(Mapped(feed, now, slug), key, name) <==> LastName(LogOf(feed, slug).matches, slug, key) == Some(name)
  {
    hide Mapped, LogOf, LastName, LastWrite, TeamWrites, RowOf;
    SnapshotIsLastWrites(feed, now, slug, key);
    TeamIsLastName(LogOf(feed, slug).matches, slug, key);
  }

  /** The fixture of the last match with an id names that match's two teams if and only if the last match
      of the whole feed to use either team key uses it for the same name. */
  lemma MatchNamesItsTeams(feed: Feed, now: int, slug: string -> string, i: nat)
    requires LastOfId(LogOf(feed, slug).matches, i)
    ensures var snap, ms := Mapped(feed, now, slug), LogOf(feed, slug).matches;
            RowOf(snap.fixtures, ms[i].id).Some?
            && var f := RowOf(snap.fixtures, ms[i].id).value;
               Named(snap, f.home, ms[i].home) && Named(snap, f.away, ms[i].away)
               <==> LastName(ms, slug, f.home) == Some(ms[i].home) && LastName(ms, slug, f.away) == Some(ms[i].away)
  {
    var m := LogOf(feed, slug).matches[i];
    hide *;
    MatchIsMapped(feed, now, slug, i);
    NameIsLast(feed, now, slug, TeamKey(m.sport, m.home, slug), m.home);
    NameIsLast(feed, now, slug, TeamKey(m.sport, m.away, slug), m.away);
  }

  /** In particular it does when no match of the feed uses one of its keys for another name. */
  lemma {:induction false} UnsharedKeysKeepNames(ms: seq<Match>, slug: string -> string, key: string, name: string, i: nat)
    requires i < |ms| && (TeamKey(ms[i].sport, ms[i].home, slug) == key || TeamKey(ms[i].sport, ms[i].away, slug) == key)
    requires forall j :: i <= j < |ms| ==>
               && (TeamKey(ms[j].sport, ms[j].home, slug) == key ==> ms[j].home == name)
               && (TeamKey(ms[j].sport, ms[j].away, slug) == key ==> ms[j].away == name)
    ensures LastName(ms, slug, key) == Some(name)
  {
    hide TeamKey;
    if i < |ms| - 1 {
      UnsharedKeysKeepNames(ms[..|ms| - 1], slug, key, name, i);
    }
  }

  /** Every match with odds in a requested sport is among the matches of the feed, with its own teams. */
  lemma OddsAreMatches(feed: Feed, slug: string -> string, sport: string, e: EventOdds)
    requires sport in feed.sportKeys && e in OddsOf(feed, sport)
    ensures OddsMatch(ScoresByEventId(feed, feed.sportKeys), sport, ConfigOf(feed, sport, slug), e) in LogOf(feed, slug).matches
  {
    var index := ScoresByEventId(feed, feed.sportKeys);
    hide ScoresByEventId, OddsOf, ConfigOf, OddsMatch, EventLog, EventsLog, SportsLog, LogOf;
    SportIsLogged(feed, index, feed.sportKeys, slug, sport);
    EventIsLogged(feed, index, sport, ConfigOf(feed, sport, slug), OddsOf(feed, sport), slug, e);
    OwnMatch(feed, index, sport, ConfigOf(feed, sport, slug), e, slug);
    LogIs(feed, slug);
  }

  lemma LogIs(feed: Feed, slug: string -> string)
    ensures LogOf(feed, slug) == SportsLog(feed, ScoresByEventId(feed, feed.sportKeys), feed.sportKeys, slug)
  {}

  lemma OwnMatch(feed: Feed, index: map<string, EventScore>, sport: string, config: SportConfig, e: EventOdds, slug: string -> string)
    ensures OddsMatch(index, sport, config, e) in EventLog(feed, index, sport, config, e, slug).matches
  {
    var m := OddsMatch(index, sport, config, e);
    hide MarketsLog, PickBookmaker, Done;
    assert [m][0] == m;
  }

  /** Everything in the first log is in the second. */
  ghost predicate Logged(a: Log, b: Log) {
    && (forall m :: m in a.matches ==> m in b.matches) && (forall w :: w in a.markets ==> w in b.markets)
    && (forall w :: w in a.selections ==> w in b.selections)
  }

  lemma LoggedThen(a: Log, b: Log, c: Log)
    ensures Logged(a, Then(a, b)) && Logged(b, Then(a, b)) && (Logged(a, b) && Logged(b, c) ==> Logged(a, c))
  {}

  lemma {:induction false} SportIsLogged(feed: Feed, index: map<string, EventScore>, sports: seq<string>, slug: string -> string, sport: string)
    requires sport in sports
    ensures Logged(EventsLog(feed, index, sport, ConfigOf(feed, sport, slug), OddsOf(feed, sport), slug), SportsLog(feed, index, sports, slug))
  {
    var front, last := sports[..|sports| - 1], sports[|sports| - 1];
    var before, all := SportsLog(feed, index, front, slug), SportsLog(feed, index, sports, slug);
    var odds := EventsLog(feed, index, sport, ConfigOf(feed, sport, slug), OddsOf(feed, sport), slug);
    hide EventsLog, ScoreMatches, Then, Logged, OddsOf, ScoresOf, ConfigOf, Ids, EventIds;
    var lastOdds := EventsLog(feed, index, last, ConfigOf(feed, last, slug), OddsOf(feed, last), slug);
    var scores := Log(ScoreMatches(Ids(Then(before, lastOdds).matches), last, ConfigOf(feed, last, slug), EventIds(OddsOf(feed, last)),
                                   ScoresOf(feed, last)), [], []);
    assert all == Then(Then(before, lastOdds), scores);
    LoggedThen(Then(before, lastOdds), scores, all);
    LoggedThen(before, lastOdds, all);
    LoggedThen(before, Then(before, lastOdds), all);
    LoggedThen(lastOdds, Then(before, lastOdds), all);
    if sport != last {
      SportIsLogged(feed, index, front, slug, sport);
      LoggedThen(odds, before, all);
    }
  }

  lemma {:induction false} EventIsLogged(feed: Feed, index: map<string, EventScore>, sport: string, config: SportConfig, es: seq<EventOdds>,
                                         slug: string -> string, e: EventOdds)
    requires e in es
    ensures Logged(EventLog(feed, index, sport, config, e, slug), EventsLog(feed, index, sport, config, es, slug))
  {
    var front, last := es[..|es| - 1], es[|es| - 1];
    var before, all := EventsLog(feed, index, sport, config, front, slug), EventsLog(feed, index, sport, config, es, slug);
    hide EventLog, Then, Logged;
    LoggedThen(before, EventLog(feed, index, sport, config, last, slug), all);
    if e != last {
      EventIsLogged(feed, index, sport, config, front, slug, e);
      LoggedThen(EventLog(feed, index, sport, config, e, slug), before, all);
    }
  }

  lemma {:induction false} MarketIsLogged(feed: Feed, event: string, bookmaker: string, done: bool, ms: seq<ApiMarket>, slug: string -> string, m: ApiMarket)
    requires m in ms
    ensures Logged(MarketLog(feed, event, bookmaker, done, m, slug), MarketsLog(feed, event, bookmaker, done, ms, slug))
  {
    var front, last := ms[..|ms| - 1], ms[|ms| - 1];
    var before, all := MarketsLog(feed, event, bookmaker, done, front, slug), MarketsLog(feed, event, bookmaker, done, ms, slug);
    hide MarketLog, Then, Logged;
    LoggedThen(before, MarketLog(feed, event, bookmaker, done, last, slug), all);
    if m != last {
      MarketIsLogged(feed, event, bookmaker, done, front, slug, m);
      LoggedThen(MarketLog(feed, event, bookmaker, done, m, slug), before, all);
    }
  }

  lemma {:induction false} OutcomeIsWritten(market: string, done: bool, outcomes: seq<Outcome>, slug: string -> string, o: Outcome)
    requires o in outcomes
    ensures (SelectionRef(market, o, slug), OutcomeRow(market, done, o)) in OutcomeWrites(market, done, outcomes, slug)
  {
    hide SelectionRef, OutcomeRow;
    if o != outcomes[|outcomes| - 1] {
      OutcomeIsWritten(market, done, outcomes[..|outcomes| - 1], slug, o);
    }
  }

  lemma {:induction false} OnlyRowIsLast<V>(writes: seq<(string, V)>, w: (string, V))
    requires w in writes && forall v :: v in writes && v.0 == w.0 ==> v == w
    ensures LastWrite(writes, w.0) == Some(w.1)
  {
    if writes[|writes| - 1].0 != w.0 {
      OnlyRowIsLast(writes[..|writes| - 1], w);
    }
  }

  // Outcomes

  /** A supported market of the bookmaker picked for a match with odds in a requested sport. */
  predicate InFeed(feed: Feed, slug: string -> string, sport: string, e: EventOdds, b: Bookmaker, m: ApiMarket) {
    && sport in feed.sportKeys && e in OddsOf(feed, sport)
    && PickBookmaker(e.bookmakers, ConfigOf(feed, sport, slug).bookmaker) == Some(b) && m in b.markets && Supported(feed, m)
  }

  lemma MarketLogIsLogged(feed: Feed, slug: string -> string, sport: string, e: EventOdds, b: Bookmaker, m: ApiMarket)
    requires InFeed(feed, slug, sport, e, b, m)
    ensures Logged(MarketLog(feed, e.id, b.key, Done(ScoresByEventId(feed, feed.sportKeys), e.id), m, slug), LogOf(feed, slug))
  {
    var index, config := ScoresByEventId(feed, feed.sportKeys), ConfigOf(feed, sport, slug);
    var done := Done(index, e.id);
    var market, event := MarketLog(feed, e.id, b.key, done, m, slug), EventLog(feed, index, sport, config, e, slug);
    var odds, all := EventsLog(feed, index, sport, config, OddsOf(feed, sport), slug), LogOf(feed, slug);
    SportIsLogged(feed, index, feed.sportKeys, slug, sport);
    EventIsLogged(feed, index, sport, config, OddsOf(feed, sport), slug, e);
    MarketIsLogged(feed, e.id, b.key, done, b.markets, slug, m);
    hide SportsLog, EventsLog, MarketsLog, MarketLog, OddsMatch, Logged;
    LoggedThen(Log([OddsMatch(index, sport, config, e)], [], []), MarketsLog(feed, e.id, b.key, done, b.markets, slug), all);
    LoggedThen(market, MarketsLog(feed, e.id, b.key, done, b.markets, slug), event);
    LoggedThen(market, event, odds);
    LoggedThen(market, odds, all);
  }

  lemma MarketIsInLog(feed: Feed, slug: string -> string, sport: string, e: EventOdds, b: Bookmaker, m: ApiMarket)
    requires InFeed(feed, slug, sport, e, b, m)
    ensures (MarketRef(e.id, b.key, m.key), MarketRow(e.id, m, Done(ScoresByEventId(feed, feed.sportKeys), e.id))) in LogOf(feed, slug).markets
  {
    MarketLogIsLogged(feed, slug, sport, e, b, m);
    hide LogOf, ScoresByEventId, Done, PickBookmaker, OddsOf, ConfigOf;
    var done := Done(ScoresByEventId(feed, feed.sportKeys), e.id);
    var w := (MarketRef(e.id, b.key, m.key), MarketRow(e.id, m, done));
    assert w in MarketLog(feed, e.id, b.key, done, m, slug).markets;
  }

  lemma OutcomeIsLogged(feed: Feed, slug: string -> string, sport: string, e: EventOdds, b: Bookmaker, m: ApiMarket, o: Outcome)
    requires InFeed(feed, slug, sport, e, b, m) && o in m.outcomes
    ensures var ref, done := MarketRef(e.id, b.key, m.key), Done(ScoresByEventId(feed, feed.sportKeys), e.id);
            (SelectionRef(ref, o, slug), OutcomeRow(ref, done, o)) in LogOf(feed, slug).selections
  {
    MarketLogIsLogged(feed, slug, sport, e, b, m);
    hide LogOf, ScoresByEventId, Done, PickBookmaker, OddsOf, ConfigOf, OutcomeWrites, OutcomeRow, SelectionRef, MarketRow, MarketRef;
    var ref, done := MarketRef(e.id, b.key, m.key), Done(ScoresByEventId(feed, feed.sportKeys), e.id);
    OutcomeIsWritten(ref, done, m.outcomes, slug, o);
    assert MarketLog(feed, e.id, b.key, done, m, slug).selections == OutcomeWrites(ref, done, m.outcomes, slug);
  }

  /** Every outcome of the feed whose reference no different row of the feed shares is in the snapshot,
      under its market, with its own label and price. */
  lemma OutcomesAreListed(feed: Feed, now: int, slug: string -> string, sport: string, e: EventOdds, b: Bookmaker, m: ApiMarket, o: Outcome)
    requires InFeed(feed, slug, sport, e, b, m) && o in m.outcomes
    requires var ref, done := MarketRef(e.id, b.key, m.key), Done(ScoresByEventId(feed, feed.sportKeys), e.id);
             forall w :: w in LogOf(feed, slug).selections && w.0 == SelectionRef(ref, o, slug) ==> w.1 == OutcomeRow(ref, done, o)
    ensures var snap, ref := Mapped(feed, now, slug), MarketRef(e.id, b.key, m.key);
            var row := RowOf(snap.selections, SelectionRef(ref, o, slug));
            row.Some? && row.value.market == ref && row.value.name == SelectionLabel(o) && row.value.price == o.price
  {
    var ref, done := MarketRef(e.id, b.key, m.key), Done(ScoresByEventId(feed, feed.sportKeys), e.id);
    OutcomeIsLogged(feed, slug, sport, e, b, m, o);
    hide InFeed, LogOf, Mapped, Done, MarketRef, SelectionRef, SelectionLabel, RowOf, LastWrite, ScoresByEventId;
    var w := (SelectionRef(ref, o, slug), OutcomeRow(ref, done, o));
    forall v | v in LogOf(feed, slug).selections && v.0 == w.0 ensures v == w {
      assert v == (v.0, v.1);
    }
    OnlyRowIsLast(LogOf(feed, slug).selections, w);
    SnapshotIsLastWrites(feed, now, slug, w.0);
  }

  // Two names, one slug

  function Slug(s: string): string {
    if s == "A." || s == "A!" then "a" else s
  }

  /** After "A." plays "B" and "A!" plays "C" the first fixture names "A!" as its home team. */
  lemma SharedSlugRenames(now: int) returns (feed: Feed)
    ensures feed.sportKeys == ["s"] && OddsOf(feed, "s") == [EventOdds("1", 0, "A.", "B", []), EventOdds("2", 0, "A!", "C", [])]
    ensures var snap := Mapped(feed, now, Slug);
            RowOf(snap.fixtures, "1").Some? && Named(snap, RowOf(snap.fixtures, "1").value.home, "A!")
  {
    var e1, e2 := EventOdds("1", 0, "A.", "B", []), EventOdds("2", 0, "A!", "C", []);
    feed := Feed(["s"], [], map["s" := [e1, e2]], map[], {});
    TwoMatches(feed, e1, e2);
    var ms := LogOf(feed, Slug).matches;
    var key := TeamKey("s", "A.", Slug);
    assert key == TeamKey("s", "A!", Slug) == "s_a" && TeamKey("s", "C", Slug) == "s_C";
    hide LogOf, Mapped, RowOf, ResolveSportConfig;
    assert LastName(ms, Slug, key) == Some("A!");
    MatchIsMapped(feed, now, Slug, 0);
    NameIsLast(feed, now, Slug, key, "A!");
  }

  lemma TwoMatches(feed: Feed, e1: EventOdds, e2: EventOdds)
    requires feed == Feed(["s"], [], map["s" := [e1, e2]], map[], {}) && e1.bookmakers == e2.bookmakers == []
    ensures var config := ConfigOf(feed, "s", Slug);
            LogOf(feed, Slug).matches == [OddsMatch(map[], "s", config, e1), OddsMatch(map[], "s", config, e2)]
  {
    hide ConfigOf, OddsMatch, Ids, EventIds;
    var config := ConfigOf(feed, "s", Slug);
    assert ["s"][..0] == [] && [e1, e2][..1] == [e1] && [e1][..0] == [];
    assert ScoresByEventId(feed, []) == map[] && ScoresByEventId(feed, ["s"]) == map[];
    assert EventsLog(feed, map[], "s", config, [e1], Slug) == Log([OddsMatch(map[], "s", config, e1)], [], []);
    assert EventsLog(feed, map[], "s", config, [e1, e2], Slug)
        == Log([OddsMatch(map[], "s", config, e1), OddsMatch(map[], "s", config, e2)], [], []);
    assert SportsLog(feed, map[], [], Slug) == NOTHING;
  }
}
