/** What a full ingest leaves in the catalogue: every row of the snapshot as received, prices to the nearest
    thousandth, and every other row as it was, but for markets and selections of ended events. */
module IngestedRows {
  import opened Domain
  import opened OddsLabels
  import opened ProviderSnapshot
  import opened Ingestion
  import opened IngestionTheorems
  import OddsMapper

  predicate Holds<V(==)>(table: map<string, V>, e: (string, V)) {
    e.0 in table && table[e.0] == e.1
  }

  /** No row outside the list has changed, and none has gone. */
  ghost predicate OthersStay<V, W>(before: map<string, V>, after: map<string, V>, list: seq<(string, W)>) {
    forall k :: (forall i :: 0 <= i < |list| ==> list[i].0 != k) ==>
      (k in after <==> k in before) && (k in before ==> after[k] == before[k])
  }

  lemma {:induction false} OtherSportsStay(cat: Catalogue, list: seq<(string, Sport)>, k: string)
    requires forall i :: 0 <= i < |list| ==> list[i].0 != k
    ensures var t := PutSports(cat, list).sports; (k in t <==> k in cat.sports) && (k in t ==> t[k] == cat.sports[k])
  {
    if list != [] {
      OtherSportsStay(cat, list[..|list| - 1], k);
    }
  }

  lemma {:induction false} OtherLeaguesStay(cat: Catalogue, list: seq<(string, League)>, k: string)
    requires forall i :: 0 <= i < |list| ==> list[i].0 != k
    ensures var t := PutLeagues(cat, list).leagues; (k in t <==> k in cat.leagues) && (k in t ==> t[k] == cat.leagues[k])
  {
    if list != [] {
      OtherLeaguesStay(cat, list[..|list| - 1], k);
    }
  }

  lemma {:induction false} OtherTeamsStay(cat: Catalogue, list: seq<(string, Team)>, k: string)
    requires forall i :: 0 <= i < |list| ==> list[i].0 != k
    ensures var t := PutTeams(cat, list).teams; (k in t <==> k in cat.teams) && (k in t ==> t[k] == cat.teams[k])
  {
    if list != [] {
      OtherTeamsStay(cat, list[..|list| - 1], k);
    }
  }

  lemma {:induction false} OtherFixturesStay(cat: Catalogue, list: seq<(string, Fixture)>, k: string)
    requires forall i :: 0 <= i < |list| ==> list[i].0 != k
    ensures var t := PutFixtures(cat, list).cat.fixtures; (k in t <==> k in cat.fixtures) && (k in t ==> t[k] == cat.fixtures[k])
  {
    if list != [] {
      OtherFixturesStay(cat, list[..|list| - 1], k);
    }
  }

  /** A league row as received; a stored region outlasts a missing one. */
  predicate HoldsLeague(before: map<string, League>, after: map<string, League>, e: (string, League)) {
    && e.0 in after && after[e.0].sport == e.1.sport && after[e.0].name == e.1.name
    && (e.1.region != None ==> after[e.0].region == e.1.region)
    && (e.1.region == None && e.0 in before ==> after[e.0].region == before[e.0].region)
    && (e.1.region == None && e.0 !in before ==> after[e.0].region == None)
  }

  lemma {:induction false} LeagueRows(cat: Catalogue, list: seq<(string, League)>, i: nat)
    requires UniqueRefs(list) && i < |list| && forall j :: 0 <= j < |list| ==> list[j].1.sport in cat.sports
    ensures HoldsLeague(cat.leagues, PutLeagues(cat, list).leagues, list[i])
  {
    var front, last := list[..|list| - 1], list[|list| - 1];
    AllLeaguesPut(cat, front);
    assert PutLeagues(cat, list) == PutLeague(PutLeagues(cat, front), last);
    hide PutLeagues, PutLeague, Refs, HoldsLeague;
    if i < |front| {
      LeagueRows(cat, front, i);
      assert front[i] == list[i] && list[i].0 != last.0;
      OtherLeagueHeld(cat.leagues, PutLeagues(cat, front), list[i], last);
    } else {
      OtherLeaguesStay(cat, front, last.0);
      LeagueHeld(cat.leagues, PutLeagues(cat, front), last);
    }
  }

  lemma OtherLeagueHeld(before: map<string, League>, mid: Catalogue, e: (string, League), last: (string, League))
    requires HoldsLeague(before, mid.leagues, e) && e.0 != last.0
    ensures HoldsLeague(before, PutLeague(mid, last).leagues, e)
  {}

  lemma LeagueHeld(before: map<string, League>, mid: Catalogue, e: (string, League))
    requires e.1.sport in mid.sports && (e.0 in mid.leagues <==> e.0 in before) && (e.0 in before ==> mid.leagues[e.0] == before[e.0])
    ensures HoldsLeague(before, PutLeague(mid, e).leagues, e)
  {}

  /** The static tables after the catalogue and fixture loops. */
  ghost predicate CatalogStored(cat: Catalogue, t: Catalogue, snap: Snapshot) {
    && (forall i :: 0 <= i < |snap.sports| ==> Holds(t.sports, snap.sports[i]))
    && (forall i :: 0 <= i < |snap.leagues| ==> HoldsLeague(cat.leagues, t.leagues, snap.leagues[i]))
    && (forall i :: 0 <= i < |snap.teams| ==> Holds(t.teams, snap.teams[i]))
    && (forall i :: 0 <= i < |snap.fixtures| ==> Holds(t.fixtures, snap.fixtures[i]))
    && OthersStay(cat.sports, t.sports, snap.sports) && OthersStay(cat.leagues, t.leagues, snap.leagues)
    && OthersStay(cat.teams, t.teams, snap.teams) && OthersStay(cat.fixtures, t.fixtures, snap.fixtures)
  }

  lemma {:induction false} SportRow(cat: Catalogue, list: seq<(string, Sport)>, i: nat)
    requires UniqueRefs(list) && i < |list|
    ensures Holds(PutSports(cat, list).sports, list[i])
  {
    if i < |list| - 1 {
      SportRow(cat, list[..|list| - 1], i);
    }
  }

  lemma {:induction false} TeamRow(cat: Catalogue, list: seq<(string, Team)>, i: nat)
    requires UniqueRefs(list) && i < |list| && forall j :: 0 <= j < |list| ==> list[j].1.sport in cat.sports
    ensures Holds(PutTeams(cat, list).teams, list[i])
  {
    var front, last := list[..|list| - 1], list[|list| - 1];
    AllTeamsPut(cat, front);
    assert PutTeams(cat, list) == PutTeam(PutTeams(cat, front), last);
    hide PutTeams, Refs;
    if i < |front| {
      TeamRow(cat, front, i);
      assert front[i] == list[i] && list[i].0 != last.0;
    }
  }

  lemma {:induction false} FixtureRow(cat: Catalogue, list: seq<(string, Fixture)>, i: nat)
    requires UniqueRefs(list) && i < |list| && forall j :: 0 <= j < |list| ==> FixtureResolves(cat, list[j].1)
    ensures Holds(PutFixtures(cat, list).cat.fixtures, list[i])
  {
    var front, last := list[..|list| - 1], list[|list| - 1];
    AllFixturesPut(cat, front);
    assert PutFixtures(cat, list) == PutFixture(PutFixtures(cat, front), last);
    hide PutFixtures, Refs;
    if i < |front| {
      FixtureRow(cat, front, i);
      assert front[i] == list[i] && list[i].0 != last.0;
    }
  }

  /** The four static tables, one loop after the other. */
  lemma StaticTables(cat: Catalogue, snap: Snapshot)
    requires Closed(snap)
    ensures var c1 := PutSports(cat, snap.sports); var c2 := PutLeagues(c1, snap.leagues); var c3 := PutTeams(c2, snap.teams);
            var t := PutFixtures(PutCatalog(cat, snap), snap.fixtures).cat;
            && PutCatalog(cat, snap) == c3 && t.sports == c1.sports && t.leagues == c2.leagues && t.teams == c3.teams
            && c1.leagues == cat.leagues && c2.teams == cat.teams && c3.fixtures == cat.fixtures
            && t == cat.(sports := t.sports, leagues := t.leagues, teams := t.teams, fixtures := t.fixtures)
            && (forall i :: 0 <= i < |snap.leagues| ==> snap.leagues[i].1.sport in c1.sports)
            && (forall i :: 0 <= i < |snap.teams| ==> snap.teams[i].1.sport in c2.sports)
            && (forall i :: 0 <= i < |snap.fixtures| ==> FixtureResolves(c3, snap.fixtures[i].1))
            && Refs(snap.fixtures) <= t.fixtures.Keys
  {
    hide PutSports, PutLeagues, PutTeams, PutFixtures, Refs;
    var c1 := PutSports(cat, snap.sports);
    var c2 := PutLeagues(c1, snap.leagues);
    AllSportsPut(cat, snap.sports);
    AllLeaguesPut(c1, snap.leagues);
    AllTeamsPut(c2, snap.teams);
    AllFixturesPut(PutTeams(c2, snap.teams), snap.fixtures);
  }

  lemma CatalogIsStored(cat: Catalogue, snap: Snapshot)
    requires Closed(snap) && AllUnique(snap)
    ensures CatalogStored(cat, PutFixtures(PutCatalog(cat, snap), snap.fixtures).cat, snap)
  {
    StaticTables(cat, snap);
    hide PutSports, PutLeagues, PutTeams, PutFixtures, PutCatalog, Refs, HoldsLeague, Holds, UniqueRefs, FixtureResolves;
    var c1 := PutSports(cat, snap.sports);
    var c2 := PutLeagues(c1, snap.leagues);
    var c3 := PutTeams(c2, snap.teams);
    var t := PutFixtures(c3, snap.fixtures).cat;
    forall i | 0 <= i < |snap.sports| ensures Holds(t.sports, snap.sports[i]) { SportRow(cat, snap.sports, i); }
    forall i | 0 <= i < |snap.leagues| ensures HoldsLeague(cat.leagues, t.leagues, snap.leagues[i]) { LeagueRows(c1, snap.leagues, i); }
    forall i | 0 <= i < |snap.teams| ensures Holds(t.teams, snap.teams[i]) { TeamRow(c2, snap.teams, i); }
    forall i | 0 <= i < |snap.fixtures| ensures Holds(t.fixtures, snap.fixtures[i]) { FixtureRow(c3, snap.fixtures, i); }
    OthersOfSports(cat, snap.sports);
    OthersOfLeagues(c1, snap.leagues);
    OthersOfTeams(c2, snap.teams);
    OthersOfFixtures(c3, snap.fixtures);
  }

  lemma OthersOfSports(cat: Catalogue, list: seq<(string, Sport)>)
    ensures OthersStay(cat.sports, PutSports(cat, list).sports, list)
  {
    hide PutSports;
    forall k | forall i :: 0 <= i < |list| ==> list[i].0 != k
      ensures (k in PutSports(cat, list).sports <==> k in cat.sports) && (k in cat.sports ==> PutSports(cat, list).sports[k] == cat.sports[k])
    {
      OtherSportsStay(cat, list, k);
    }
  }

  lemma OthersOfLeagues(cat: Catalogue, list: seq<(string, League)>)
    ensures OthersStay(cat.leagues, PutLeagues(cat, list).leagues, list)
  {
    hide PutLeagues;
    forall k | forall i :: 0 <= i < |list| ==> list[i].0 != k
      ensures (k in PutLeagues(cat, list).leagues <==> k in cat.leagues) && (k in cat.leagues ==> PutLeagues(cat, list).leagues[k] == cat.leagues[k])
    {
      OtherLeaguesStay(cat, list, k);
    }
  }

  lemma OthersOfTeams(cat: Catalogue, list: seq<(string, Team)>)
    ensures OthersStay(cat.teams, PutTeams(cat, list).teams, list)
  {
    hide PutTeams;
    forall k | forall i :: 0 <= i < |list| ==> list[i].0 != k
      ensures (k in PutTeams(cat, list).teams <==> k in cat.teams) && (k in cat.teams ==> PutTeams(cat, list).teams[k] == cat.teams[k])
    {
      OtherTeamsStay(cat, list, k);
    }
  }

  lemma OthersOfFixtures(cat: Catalogue, list: seq<(string, Fixture)>)
    ensures OthersStay(cat.fixtures, PutFixtures(cat, list).cat.fixtures, list)
  {
    hide PutFixtures;
    forall k | forall i :: 0 <= i < |list| ==> list[i].0 != k
      ensures (k in PutFixtures(cat, list).cat.fixtures <==> k in cat.fixtures)
              && (k in cat.fixtures ==> PutFixtures(cat, list).cat.fixtures[k] == cat.fixtures[k])
    {
      OtherFixturesStay(cat, list, k);
    }
  }

  // Live data

  lemma {:induction false} EventEntry(list: seq<(string, Event)>, fixtures: set<string>, i: nat)
    requires UniqueRefs(list) && i < |list| && list[i].1.fixture in fixtures
    ensures EventAt(list, fixtures, list[i].0) == Some(list[i].1)
  {
    if i < |list| - 1 {
      EventEntry(list[..|list| - 1], fixtures, i);
    }
  }

  lemma {:induction false} NoEventEntry(list: seq<(string, Event)>, fixtures: set<string>, k: string)
    requires forall i :: 0 <= i < |list| ==> list[i].0 != k
    ensures EventAt(list, fixtures, k) == None
  {
    if list != [] {
      NoEventEntry(list[..|list| - 1], fixtures, k);
    }
  }

  lemma {:induction false} MarketEntry(list: seq<(string, Market)>, events: set<string>, i: nat)
    requires UniqueRefs(list) && i < |list| && list[i].1.event in events
    ensures MarketAt(list, events, list[i].0) == Some(list[i].1)
  {
    if i < |list| - 1 {
      MarketEntry(list[..|list| - 1], events, i);
    }
  }

  lemma {:induction false} NoMarketEntry(list: seq<(string, Market)>, events: set<string>, k: string)
    requires forall i :: 0 <= i < |list| ==> list[i].0 != k
    ensures MarketAt(list, events, k) == None
  {
    if list != [] {
      NoMarketEntry(list[..|list| - 1], events, k);
    }
  }

  lemma {:induction false} SelectionEntry(list: seq<(string, NewSelection)>, markets: set<string>, i: nat)
    requires UniqueRefs(list) && i < |list| && list[i].1.market in markets
    ensures SelectionAt(list, markets, list[i].0) == Some(list[i].1)
  {
    if i < |list| - 1 {
      SelectionEntry(list[..|list| - 1], markets, i);
    }
  }

  lemma {:induction false} NoSelectionEntry(list: seq<(string, NewSelection)>, markets: set<string>, k: string)
    requires forall i :: 0 <= i < |list| ==> list[i].0 != k
    ensures SelectionAt(list, markets, k) == None
  {
    if list != [] {
      NoSelectionEntry(list[..|list| - 1], markets, k);
    }
  }

  /** A selection as received, its price to the nearest thousandth, ties upwards. */
  predicate HoldsSelection(table: map<string, Selection>, e: (string, NewSelection)) {
    && e.0 in table && table[e.0].market == e.1.market && table[e.0].name == e.1.name && table[e.0].status == e.1.status
    && table[e.0].price as real - 0.5 <= e.1.price * 1000.0 < table[e.0].price as real + 0.5
  }

  /** Some event of the list with this reference is ended. */
  predicate Over(list: seq<(string, Event)>, k: string) {
    exists i :: 0 <= i < |list| && list[i].0 == k && list[i].1.status == EventStatus.Ended
  }

  /** Markets that the snapshot does not mention stay, but are settled under an ended event. */
  ghost predicate OtherMarkets(before: map<string, Market>, after: map<string, Market>, snap: Snapshot) {
    forall k :: (forall i :: 0 <= i < |snap.markets| ==> snap.markets[i].0 != k) ==>
      && (k in after <==> k in before)
      && (k in before ==> after[k] == if Over(snap.events, before[k].event) then before[k].(status := MarketStatus.Settled) else before[k])
  }

  /** So do selections. */
  ghost predicate OtherSelections(markets: map<string, Market>, before: map<string, Selection>, after: map<string, Selection>, snap: Snapshot) {
    forall k :: (forall i :: 0 <= i < |snap.selections| ==> snap.selections[i].0 != k) ==>
      && (k in after <==> k in before)
      && (k in before ==>
            after[k] == if before[k].market in markets && Over(snap.events, markets[before[k].market].event)
                        then before[k].(status := SelectionStatus.Settled) else before[k])
  }

  ghost predicate LiveStored(cat: Catalogue, t: Catalogue, snap: Snapshot) {
    && (forall i :: 0 <= i < |snap.events| ==> Holds(t.events, snap.events[i]))
    && (forall i :: 0 <= i < |snap.markets| ==> Holds(t.markets, snap.markets[i]))
    && (forall i :: 0 <= i < |snap.selections| ==> HoldsSelection(t.selections, snap.selections[i]))
    && OthersStay(cat.events, t.events, snap.events)
    && OtherMarkets(cat.markets, t.markets, snap) && OtherSelections(cat.markets, cat.selections, t.selections, snap)
  }

  /** Every parent is stored. */
  predicate Rooted(cat: Catalogue, snap: Snapshot) {
    && (forall i :: 0 <= i < |snap.events| ==> snap.events[i].1.fixture in cat.fixtures)
    && (forall i :: 0 <= i < |snap.markets| ==> snap.markets[i].1.event in Refs(snap.events))
    && (forall i :: 0 <= i < |snap.selections| ==> snap.selections[i].1.market in Refs(snap.markets))
  }

  lemma ReportedIsOver(list: seq<(string, Event)>, fixtures: set<string>, k: string)
    requires forall i :: 0 <= i < |list| ==> list[i].1.fixture in fixtures
    ensures ReportedEnded(list, fixtures, k) <==> Over(list, k)
  {}

  lemma EventsAreStored(cat: Catalogue, c1: Catalogue, snap: Snapshot)
    requires UniqueRefs(snap.events) && Rooted(cat, snap) && AfterEvents(cat, c1, snap.events)
    ensures forall i :: 0 <= i < |snap.events| ==> Holds(c1.events, snap.events[i])
    ensures OthersStay(cat.events, c1.events, snap.events)
  {
    hide EventAt, MarketRows, SelectionRows, UniqueRefs;
    forall i | 0 <= i < |snap.events| ensures Holds(c1.events, snap.events[i]) {
      EventEntry(snap.events, cat.fixtures.Keys, i);
    }
    forall k | forall i :: 0 <= i < |snap.events| ==> snap.events[i].0 != k
      ensures (k in c1.events <==> k in cat.events) && (k in cat.events ==> c1.events[k] == cat.events[k])
    {
      NoEventEntry(snap.events, cat.fixtures.Keys, k);
    }
  }

  lemma MarketsAreStored(cat: Catalogue, c1: Catalogue, mid: Catalogue, snap: Snapshot)
    requires UniqueRefs(snap.markets) && Rooted(cat, snap) && AfterEvents(cat, c1, snap.events)
    requires forall i :: 0 <= i < |snap.events| ==> Holds(c1.events, snap.events[i])
    requires AfterMarkets(c1.markets, mid.markets, snap.markets, c1.events.Keys)
    ensures forall i :: 0 <= i < |snap.markets| ==> Holds(mid.markets, snap.markets[i])
    ensures OtherMarkets(cat.markets, mid.markets, snap)
  {
    hide MarketAt, EventRows, SelectionRows, UniqueRefs, ReportedEnded, Over;
    forall i | 0 <= i < |snap.markets| ensures Holds(mid.markets, snap.markets[i]) {
      assert snap.markets[i].1.event in Refs(snap.events);
      var j :| 0 <= j < |snap.events| && snap.events[j].0 == snap.markets[i].1.event;
      assert Holds(c1.events, snap.events[j]);
      MarketEntry(snap.markets, c1.events.Keys, i);
    }
    forall k | forall i :: 0 <= i < |snap.markets| ==> snap.markets[i].0 != k
      ensures k in mid.markets <==> k in cat.markets
      ensures k in cat.markets ==>
                mid.markets[k] == if Over(snap.events, cat.markets[k].event) then cat.markets[k].(status := MarketStatus.Settled) else cat.markets[k]
    {
      NoMarketEntry(snap.markets, c1.events.Keys, k);
      if k in cat.markets {
        ReportedIsOver(snap.events, cat.fixtures.Keys, cat.markets[k].event);
      }
    }
  }

  lemma SelectionsAreStored(cat: Catalogue, mid: Catalogue, t: Catalogue, snap: Snapshot)
    requires UniqueRefs(snap.selections) && Rooted(cat, snap)
    requires forall i :: 0 <= i < |snap.markets| ==> Holds(mid.markets, snap.markets[i])
    requires AfterSelections(mid, t, snap.selections, PricesOf(mid.selections))
    ensures forall i :: 0 <= i < |snap.selections| ==> HoldsSelection(t.selections, snap.selections[i])
  {
    hide SelectionAt, UniqueRefs, PriceChanged, HistoryOf, Thousandths, Refs;
    forall i | 0 <= i < |snap.selections| ensures HoldsSelection(t.selections, snap.selections[i]) {
      var e := snap.selections[i];
      assert e.1.market in Refs(snap.markets);
      var j :| 0 <= j < |snap.markets| && snap.markets[j].0 == e.1.market;
      assert Holds(mid.markets, snap.markets[j]);
      SelectionEntry(snap.selections, mid.markets.Keys, i);
      assert SelectionStep(mid, t, Some(e.1), PricesOf(mid.selections), e.0);
      RoundsHalfUp(e.1.price);
    }
  }

  lemma OtherSelectionsStay(cat: Catalogue, c1: Catalogue, mid: Catalogue, t: Catalogue, snap: Snapshot)
    requires Rooted(cat, snap) && AfterEvents(cat, c1, snap.events) && mid.selections == c1.selections
    requires AfterSelections(mid, t, snap.selections, PricesOf(mid.selections))
    ensures OtherSelections(cat.markets, cat.selections, t.selections, snap)
  {
    hide SelectionAt, EventRows, MarketRows, ReportedEnded, Over, PriceChanged, HistoryOf, Thousandths;
    forall k | forall i :: 0 <= i < |snap.selections| ==> snap.selections[i].0 != k
      ensures k in t.selections <==> k in cat.selections
      ensures k in cat.selections ==>
                t.selections[k] == if cat.selections[k].market in cat.markets && Over(snap.events, cat.markets[cat.selections[k].market].event)
                                   then cat.selections[k].(status := SelectionStatus.Settled) else cat.selections[k]
    {
      NoSelectionEntry(snap.selections, mid.markets.Keys, k);
      assert SelectionStep(mid, t, None, PricesOf(mid.selections), k);
      if k in cat.selections && cat.selections[k].market in cat.markets {
        ReportedIsOver(snap.events, cat.fixtures.Keys, cat.markets[cat.selections[k].market].event);
      }
    }
  }

  lemma LiveIsStored(cat: Catalogue, snap: Snapshot)
    requires AllUnique(snap) && Rooted(cat, snap)
    ensures LiveStored(cat, PutLive(cat, snap).cat, snap)
  {
    LivePhases(cat, snap);
    hide PutEvents, PutMarkets, PutSelections, AfterEvents, AfterMarkets, AfterSelections, UniqueRefs, Rooted, OthersStay, OtherMarkets,
         OtherSelections, Holds, HoldsSelection;
    var c1, mid, t := PutEvents(cat, snap.events).cat, BeforeSelections(cat, snap), PutLive(cat, snap).cat;
    SelectionPhase(cat, snap);
    PhaseTables(cat, c1, mid, t, snap);
    EventsAreStored(cat, c1, snap);
    MarketsAreStored(cat, c1, mid, snap);
    SelectionsAreStored(cat, mid, t, snap);
    OtherSelectionsStay(cat, c1, mid, t, snap);
  }

  lemma PhaseTables(cat: Catalogue, c1: Catalogue, mid: Catalogue, t: Catalogue, snap: Snapshot)
    requires Phases(cat, c1, mid, t, snap)
    ensures mid.selections == c1.selections && mid.events == c1.events && t.events == mid.events && t.markets == mid.markets
  {
    hide AfterEvents, AfterMarkets, SelectionStep;
  }

  lemma ClosedIsRooted(cat: Catalogue, snap: Snapshot)
    requires Closed(snap) && Refs(snap.fixtures) <= cat.fixtures.Keys
    ensures Rooted(cat, snap)
  {
    hide Refs;
  }

  /** A full ingest of a closed snapshot with unique references stores every row of it as received, and leaves
      every other row alone but for closing what belongs to ended events. */
  lemma FullIngestStores(cat: Catalogue, snap: Snapshot)
    requires Closed(snap) && AllUnique(snap)
    ensures CatalogStored(cat, FullIngest(cat, snap), snap) && LiveStored(cat, FullIngest(cat, snap), snap)
  {
    CatalogIsStored(cat, snap);
    StaticTables(cat, snap);
    hide PutSports, PutLeagues, PutTeams, PutFixtures, PutCatalog, PutLive, Closed, UniqueRefs, Holds, HoldsLeague, OthersStay, LiveStored;
    var f := PutFixtures(PutCatalog(cat, snap), snap.fixtures).cat;
    ClosedIsRooted(f, snap);
    LiveIsStored(f, snap);
    LiveKeepsCatalog(f, snap);
    SameLive(cat, f, FullIngest(cat, snap), snap);
  }

  lemma SameLive(cat: Catalogue, f: Catalogue, t: Catalogue, snap: Snapshot)
    requires f.events == cat.events && f.markets == cat.markets && f.selections == cat.selections && LiveStored(f, t, snap)
    ensures LiveStored(cat, t, snap)
  {
    hide OthersStay, OtherMarkets, OtherSelections, Holds, HoldsSelection;
  }

  /** So it is with whatever the mapper builds from a feed. */
  lemma MappedFeedIsStored(cat: Catalogue, feed: OddsMapper.Feed, now: int, slug: string -> string)
    ensures var snap := OddsMapper.Mapped(feed, now, slug);
            CatalogStored(cat, FullIngest(cat, snap), snap) && LiveStored(cat, FullIngest(cat, snap), snap)
  {
    hide *;
    OddsMapper.MappedIsClosed(feed, now, slug);
    FullIngestStores(cat, OddsMapper.Mapped(feed, now, slug));
  }
}
