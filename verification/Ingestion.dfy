/** Ingestion of provider snapshots: upserts by unique reference, market closing for ended events, and
    the odds history. */
module Ingestion {
  import opened Domain
  import opened OddsLabels
  import opened ProviderSnapshot

  // One row at a time

  /** The catalogue after a loop, and how many entries the loop did not skip. */
  datatype Loaded = Loaded(cat: Catalogue, count: nat)

  function PutSport(cat: Catalogue, e: (string, Sport)): Catalogue {
    cat.(sports := cat.sports[e.0 := e.1])
  }

  /** An absent region leaves the stored one. */
  function PutLeague(cat: Catalogue, e: (string, League)): Catalogue {
    if e.1.sport !in cat.sports then cat
    else
      var region := if e.1.region.None? && e.0 in cat.leagues then cat.leagues[e.0].region else e.1.region;
      cat.(leagues := cat.leagues[e.0 := e.1.(region := region)])
  }

  function PutTeam(cat: Catalogue, e: (string, Team)): Catalogue {
    if e.1.sport !in cat.sports then cat else cat.(teams := cat.teams[e.0 := e.1])
  }

  predicate FixtureResolves(cat: Catalogue, f: Fixture) {
    f.league in cat.leagues && f.home in cat.teams && f.away in cat.teams
  }

  function PutFixture(l: Loaded, e: (string, Fixture)): Loaded {
    if !FixtureResolves(l.cat, e.1) then l
    else Loaded(l.cat.(fixtures := l.cat.fixtures[e.0 := e.1]), l.count + 1)
  }

  predicate OfEvent(markets: map<string, Market>, s: Selection, event: string) {
    s.market in markets && markets[s.market].event == event
  }

  function CloseMarketRows(markets: map<string, Market>, event: string): map<string, Market> {
    map m | m in markets :: if markets[m].event == event then markets[m].(status := MarketStatus.Settled) else markets[m]
  }

  function CloseSelectionRows(selections: map<string, Selection>, markets: map<string, Market>, event: string): map<string, Selection> {
    map s | s in selections ::
      if OfEvent(markets, selections[s], event) then selections[s].(status := SelectionStatus.Settled) else selections[s]
  }

  /** Closes every market of the event, and their selections. */
  function CloseMarkets(cat: Catalogue, event: string): Catalogue {
    var markets := CloseMarketRows(cat.markets, event);
    cat.(markets := markets, selections := CloseSelectionRows(cat.selections, markets, event))
  }

  function PutEvent(l: Loaded, e: (string, Event)): Loaded {
    if e.1.fixture !in l.cat.fixtures then l
    else
      var cat := l.cat.(events := l.cat.events[e.0 := e.1]);
      Loaded(if e.1.status == EventStatus.Ended then CloseMarkets(cat, e.0) else cat, l.count + 1)
  }

  function PutMarket(l: Loaded, e: (string, Market)): Loaded {
    if e.1.event !in l.cat.events then l
    else Loaded(l.cat.(markets := l.cat.markets[e.0 := e.1]), l.count + 1)
  }

  /** The price column has three decimals and rounds half up. */
  function Thousandths(price: Price): nat {
    (price * 1000.0 + 0.5).Floor
  }

  /** The stored price is the nearest one, ties upwards. */
  lemma RoundsHalfUp(price: Price)
    ensures Thousandths(price) as real - 0.5 <= price * 1000.0 < Thousandths(price) as real + 0.5
  {}

  predicate Exact(price: Price) {
    price * 1000.0 == Thousandths(price) as real
  }

  function PricesOf(selections: map<string, Selection>): (prices: map<string, nat>)
    ensures prices.Keys == selections.Keys && forall k :: k in selections ==> prices[k] == selections[k].price
  {
    map k | k in selections :: selections[k].price
  }

  /** Compares the received price, unrounded, with the stored one. */
  predicate PriceChanged(prices: map<string, nat>, ref: string, price: Price) {
    ref !in prices || prices[ref] as real != price * 1000.0
  }

  function HistoryOf(history: map<string, seq<nat>>, ref: string): seq<nat> {
    if ref in history then history[ref] else []
  }

  datatype Priced = Priced(cat: Catalogue, count: nat, snapshots: nat)

  function PutSelection(p: Priced, prices: map<string, nat>, e: (string, NewSelection)): Priced {
    if e.1.market !in p.cat.markets then p
    else
      var price := Thousandths(e.1.price);
      var cat := p.cat.(selections := p.cat.selections[e.0 := Selection(e.1.market, e.1.name, e.1.status, price)]);
      if PriceChanged(prices, e.0, e.1.price)
      then Priced(cat.(history := cat.history[e.0 := HistoryOf(cat.history, e.0) + [price]]), p.count + 1, p.snapshots + 1)
      else Priced(cat, p.count + 1, p.snapshots)
  }

  // The loops, as folds

  function PutSports(cat: Catalogue, list: seq<(string, Sport)>): Catalogue {
    if list == [] then cat else PutSport(PutSports(cat, list[..|list| - 1]), list[|list| - 1])
  }

  function PutLeagues(cat: Catalogue, list: seq<(string, League)>): Catalogue {
    if list == [] then cat else PutLeague(PutLeagues(cat, list[..|list| - 1]), list[|list| - 1])
  }

  function PutTeams(cat: Catalogue, list: seq<(string, Team)>): Catalogue {
    if list == [] then cat else PutTeam(PutTeams(cat, list[..|list| - 1]), list[|list| - 1])
  }

  function PutFixtures(cat: Catalogue, list: seq<(string, Fixture)>): Loaded {
    if list == [] then Loaded(cat, 0) else PutFixture(PutFixtures(cat, list[..|list| - 1]), list[|list| - 1])
  }

  function PutEvents(cat: Catalogue, list: seq<(string, Event)>): Loaded {
    if list == [] then Loaded(cat, 0) else PutEvent(PutEvents(cat, list[..|list| - 1]), list[|list| - 1])
  }

  function PutMarkets(cat: Catalogue, list: seq<(string, Market)>): Loaded {
    if list == [] then Loaded(cat, 0) else PutMarket(PutMarkets(cat, list[..|list| - 1]), list[|list| - 1])
  }

  function PutSelections(cat: Catalogue, prices: map<string, nat>, list: seq<(string, NewSelection)>): Priced {
    if list == [] then Priced(cat, 0, 0)
    else PutSelection(PutSelections(cat, prices, list[..|list| - 1]), prices, list[|list| - 1])
  }

  function PutCatalog(cat: Catalogue, snap: Snapshot): Catalogue {
    PutTeams(PutLeagues(PutSports(cat, snap.sports), snap.leagues), snap.teams)
  }

  datatype Ingested = Ingested(cat: Catalogue, events: nat, markets: nat, selections: nat, oddsSnapshots: nat)

  function PutLive(cat: Catalogue, snap: Snapshot): Ingested {
    var e := PutEvents(cat, snap.events);
    var m := PutMarkets(e.cat, snap.markets);
    var s := PutSelections(m.cat, PricesOf(m.cat.selections), snap.selections);
    Ingested(s.cat, e.count, m.count, s.count, s.snapshots)
  }

  // Ingestion as it runs

  class IngestionService {
    var cat: Catalogue

    constructor (cat: Catalogue)
      ensures this.cat == cat
    {
      this.cat := cat;
    }

    method UpsertCatalogFromSnapshot(snap: Snapshot)
      modifies this
      ensures cat == PutCatalog(old(cat), snap)
    {
      hide PutSport, PutLeague, PutTeam;
      for i := 0 to |snap.sports|
        invariant cat == PutSports(old(cat), snap.sports[..i])
      {
        assert snap.sports[..i + 1][..i] == snap.sports[..i];
        cat := PutSport(cat, snap.sports[i]);
      }
      assert snap.sports[..|snap.sports|] == snap.sports;
      ghost var c1 := cat;
      for i := 0 to |snap.leagues|
        invariant cat == PutLeagues(c1, snap.leagues[..i])
      {
        assert snap.leagues[..i + 1][..i] == snap.leagues[..i];
        cat := PutLeague(cat, snap.leagues[i]);
      }
      assert snap.leagues[..|snap.leagues|] == snap.leagues;
      ghost var c2 := cat;
      for i := 0 to |snap.teams|
        invariant cat == PutTeams(c2, snap.teams[..i])
      {
        assert snap.teams[..i + 1][..i] == snap.teams[..i];
        cat := PutTeam(cat, snap.teams[i]);
      }
      assert snap.teams[..|snap.teams|] == snap.teams;
    }

    method UpsertFixturesFromSnapshot(snap: Snapshot) returns (fixtureCount: nat)
      modifies this
      ensures Loaded(cat, fixtureCount) == PutFixtures(old(cat), snap.fixtures)
    {
      fixtureCount := 0;
      for i := 0 to |snap.fixtures|
        invariant Loaded(cat, fixtureCount) == PutFixtures(old(cat), snap.fixtures[..i])
      {
        assert snap.fixtures[..i + 1][..i] == snap.fixtures[..i];
        var e := snap.fixtures[i];
        if !FixtureResolves(cat, e.1) {
          continue;
        }
        cat := cat.(fixtures := cat.fixtures[e.0 := e.1]);
        fixtureCount := fixtureCount + 1;
      }
      assert snap.fixtures[..|snap.fixtures|] == snap.fixtures;
    }

    method CloseMarketsForEndedEvent(event: string)
      modifies this
      ensures cat == CloseMarkets(old(cat), event)
    {
      cat := cat.(markets := CloseMarketRows(cat.markets, event));
      cat := cat.(selections := CloseSelectionRows(cat.selections, cat.markets, event));
    }

    method IngestEvents(list: seq<(string, Event)>) returns (count: nat)
      modifies this
      ensures Loaded(cat, count) == PutEvents(old(cat), list)
    {
      hide CloseMarkets;
      count := 0;
      for i := 0 to |list|
        invariant Loaded(cat, count) == PutEvents(old(cat), list[..i])
      {
        assert list[..i + 1][..i] == list[..i];
        var e := list[i];
        if e.1.fixture !in cat.fixtures {
          continue;
        }
        cat := cat.(events := cat.events[e.0 := e.1]);
        if e.1.status == EventStatus.Ended {
          CloseMarketsForEndedEvent(e.0);
        }
        count := count + 1;
      }
      assert list[..|list|] == list;
    }

    method IngestMarkets(list: seq<(string, Market)>) returns (count: nat)
      modifies this
      ensures Loaded(cat, count) == PutMarkets(old(cat), list)
    {
      count := 0;
      for i := 0 to |list|
        invariant Loaded(cat, count) == PutMarkets(old(cat), list[..i])
      {
        assert list[..i + 1][..i] == list[..i];
        var e := list[i];
        if e.1.event !in cat.events {
          continue;
        }
        cat := cat.(markets := cat.markets[e.0 := e.1]);
        count := count + 1;
      }
      assert list[..|list|] == list;
    }

    method IngestSelections(list: seq<(string, NewSelection)>) returns (count: nat, oddsSnapshots: nat)
      modifies this
      ensures Priced(cat, count, oddsSnapshots) == PutSelections(old(cat), PricesOf(old(cat).selections), list)
    {
      hide Thousandths, PriceChanged, PricesOf;
      count, oddsSnapshots := 0, 0;
      var priceByRef := PricesOf(cat.selections);
      for i := 0 to |list|
        invariant Priced(cat, count, oddsSnapshots) == PutSelections(old(cat), priceByRef, list[..i])
      {
        assert list[..i + 1][..i] == list[..i];
        var e := list[i];
        if e.1.market !in cat.markets {
          continue;
        }
        var price := Thousandths(e.1.price);
        cat := cat.(selections := cat.selections[e.0 := Selection(e.1.market, e.1.name, e.1.status, price)]);
        count := count + 1;
        if PriceChanged(priceByRef, e.0, e.1.price) {
          cat := cat.(history := cat.history[e.0 := HistoryOf(cat.history, e.0) + [price]]);
          oddsSnapshots := oddsSnapshots + 1;
        }
      }
      assert list[..|list|] == list;
    }

    method IngestLiveData(snap: Snapshot) returns (events: nat, markets: nat, selections: nat, oddsSnapshots: nat)
      modifies this
      ensures Ingested(cat, events, markets, selections, oddsSnapshots) == PutLive(old(cat), snap)
    {
      hide PutEvents, PutMarkets, PutSelections, PricesOf;
      events := IngestEvents(snap.events);
      markets := IngestMarkets(snap.markets);
      selections, oddsSnapshots := IngestSelections(snap.selections);
    }
  }
}
