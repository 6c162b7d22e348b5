/** What ingestion guarantees: nothing of a closed snapshot is skipped, ended events leave no open
    market, the odds history follows the price, and a second ingest of a snapshot changes nothing but
    the history of prices that the column rounds. */
module IngestionTheorems {
  import opened Domain
  import opened OddsLabels
  import opened ProviderSnapshot
  import opened Ingestion
  import OddsMapper

  // Pointwise effect of the three live loops

  /** The row written for an event, by its last entry with a known fixture. */
  function EventAt(list: seq<(string, Event)>, fixtures: set<string>, k: string): Option<Event> {
    if list == [] then None
    else
      var last := list[|list| - 1];
      if last.0 == k && last.1.fixture in fixtures then Some(last.1) else EventAt(list[..|list| - 1], fixtures, k)
  }

  /** Some entry with a known fixture reports the event ended. */
  predicate ReportedEnded(list: seq<(string, Event)>, fixtures: set<string>, k: string) {
    exists i :: 0 <= i < |list| && list[i].0 == k && list[i].1.fixture in fixtures && list[i].1.status == EventStatus.Ended
  }

  function ClosedMarketRow(m: Market, list: seq<(string, Event)>, fixtures: set<string>): Market {
    if ReportedEnded(list, fixtures, m.event) then m.(status := MarketStatus.Settled) else m
  }

  function ClosedSelectionRow(s: Selection, markets: map<string, Market>, list: seq<(string, Event)>, fixtures: set<string>): Selection {
    if s.market in markets && ReportedEnded(list, fixtures, markets[s.market].event) then s.(status := SelectionStatus.Settled) else s
  }

  ghost predicate EventRows(before: map<string, Event>, after: map<string, Event>, list: seq<(string, Event)>, fixtures: set<string>) {
    && (forall k :: k in before ==> k in after)
    && (forall k :: EventAt(list, fixtures, k).Some? ==> k in after)
    && (forall k :: k in after ==>
          var e := EventAt(list, fixtures, k);
          if e.Some? then after[k] == e.value else k in before && after[k] == before[k])
  }

  predicate MarketRows(before: map<string, Market>, after: map<string, Market>, list: seq<(string, Event)>, fixtures: set<string>) {
    after.Keys == before.Keys && forall m :: m in after ==> after[m] == ClosedMarketRow(before[m], list, fixtures)
  }

  predicate SelectionRows(before: map<string, Selection>, after: map<string, Selection>, markets: map<string, Market>,
                          list: seq<(string, Event)>, fixtures: set<string>)
  {
    after.Keys == before.Keys && forall s :: s in after ==> after[s] == ClosedSelectionRow(before[s], markets, list, fixtures)
  }

  /** Events are replaced row by row; markets and selections keep their references and are closed
      under the ended events. */
  ghost predicate AfterEvents(cat: Catalogue, t: Catalogue, list: seq<(string, Event)>) {
    && t == cat.(events := t.events, markets := t.markets, selections := t.selections)
    && EventRows(cat.events, t.events, list, cat.fixtures.Keys)
    && MarketRows(cat.markets, t.markets, list, cat.fixtures.Keys)
    && SelectionRows(cat.selections, t.selections, cat.markets, list, cat.fixtures.Keys)
  }

  lemma ReportedLast(list: seq<(string, Event)>, fixtures: set<string>, k: string)
    requires list != []
    ensures var last := list[|list| - 1];
            ReportedEnded(list, fixtures, k) <==>
            ReportedEnded(list[..|list| - 1], fixtures, k) || (last.0 == k && last.1.fixture in fixtures && last.1.status == EventStatus.Ended)
  {
    var front := list[..|list| - 1];
    if ReportedEnded(front, fixtures, k) {
      var i :| 0 <= i < |front| && front[i].0 == k && front[i].1.fixture in fixtures && front[i].1.status == EventStatus.Ended;
      assert list[i] == front[i];
    }
    if ReportedEnded(list, fixtures, k) {
      var i :| 0 <= i < |list| && list[i].0 == k && list[i].1.fixture in fixtures && list[i].1.status == EventStatus.Ended;
      assert i < |front| ==> front[i] == list[i];
    }
  }

  lemma {:induction false} EventsPointwise(cat: Catalogue, list: seq<(string, Event)>)
    ensures AfterEvents(cat, PutEvents(cat, list).cat, list)
  {
    if list != [] {
      var front, last := list[..|list| - 1], list[|list| - 1];
      EventsPointwise(cat, front);
      var l := PutEvents(cat, front);
      EventPointwise(cat, l, front, last);
      assert front + [last] == list;
    }
  }

  lemma EventPointwise(cat: Catalogue, l: Loaded, front: seq<(string, Event)>, last: (string, Event))
    requires AfterEvents(cat, l.cat, front)
    ensures AfterEvents(cat, PutEvent(l, last).cat, front + [last])
  {
    var fixtures, c := cat.fixtures.Keys, l.cat;
    hide EventRows, MarketRows, SelectionRows, CloseMarketRows, CloseSelectionRows;
    EventRowStep(cat.events, c.events, front, last, fixtures);
    MarketRowStep(cat.markets, c.markets, front, last, fixtures);
    SelectionRowStep(cat.selections, c.selections, cat.markets, c.markets, front, last, fixtures);
  }

  predicate Ends(last: (string, Event), fixtures: set<string>) {
    last.1.fixture in fixtures && last.1.status == EventStatus.Ended
  }

  lemma EventRowStep(before: map<string, Event>, after: map<string, Event>, front: seq<(string, Event)>, last: (string, Event),
                     fixtures: set<string>)
    requires EventRows(before, after, front, fixtures)
    ensures EventRows(before, if last.1.fixture in fixtures then after[last.0 := last.1] else after, front + [last], fixtures)
  {
    assert (front + [last])[..|front|] == front;
  }

  lemma MarketRowStep(before: map<string, Market>, after: map<string, Market>, front: seq<(string, Event)>, last: (string, Event),
                      fixtures: set<string>)
    requires MarketRows(before, after, front, fixtures)
    ensures MarketRows(before, if Ends(last, fixtures) then CloseMarketRows(after, last.0) else after, front + [last], fixtures)
  {
    assert (front + [last])[..|front|] == front;
    forall m | m in before ensures ReportedEnded(front + [last], fixtures, before[m].event)
                              <==> ReportedEnded(front, fixtures, before[m].event) || (last.0 == before[m].event && Ends(last, fixtures)) {
      ReportedLast(front + [last], fixtures, before[m].event);
    }
    hide ReportedEnded, Ends;
  }

  lemma SelectionRowStep(before: map<string, Selection>, after: map<string, Selection>, markets: map<string, Market>,
                         now: map<string, Market>, front: seq<(string, Event)>, last: (string, Event), fixtures: set<string>)
    requires SelectionRows(before, after, markets, front, fixtures) && MarketRows(markets, now, front, fixtures)
    ensures SelectionRows(before, if Ends(last, fixtures) then CloseSelectionRows(after, CloseMarketRows(now, last.0), last.0) else after,
                          markets, front + [last], fixtures)
  {
    assert (front + [last])[..|front|] == front;
    assert forall m :: m in markets ==> CloseMarketRows(now, last.0)[m].event == markets[m].event;
    forall m | m in markets ensures ReportedEnded(front + [last], fixtures, markets[m].event)
                               <==> ReportedEnded(front, fixtures, markets[m].event) || (last.0 == markets[m].event && Ends(last, fixtures)) {
      ReportedLast(front + [last], fixtures, markets[m].event);
    }
    hide ReportedEnded, Ends;
  }

  /** The row written for a market, by its last entry with a known event. */
  function MarketAt(list: seq<(string, Market)>, events: set<string>, k: string): Option<Market> {
    if list == [] then None
    else
      var last := list[|list| - 1];
      if last.0 == k && last.1.event in events then Some(last.1) else MarketAt(list[..|list| - 1], events, k)
  }

  ghost predicate AfterMarkets(before: map<string, Market>, after: map<string, Market>, list: seq<(string, Market)>, events: set<string>) {
    && (forall k :: k in before ==> k in after)
    && (forall k :: MarketAt(list, events, k).Some? ==> k in after)
    && (forall k :: k in after ==>
          var m := MarketAt(list, events, k);
          if m.Some? then after[k] == m.value else k in before && after[k] == before[k])
  }

  lemma {:induction false} MarketsPointwise(cat: Catalogue, list: seq<(string, Market)>)
    ensures var t := PutMarkets(cat, list).cat;
            t == cat.(markets := t.markets) && AfterMarkets(cat.markets, t.markets, list, cat.events.Keys)
  {
    if list != [] {
      var front, last := list[..|list| - 1], list[|list| - 1];
      MarketsPointwise(cat, front);
      hide AfterMarkets;
      AfterMarketStep(cat.markets, PutMarkets(cat, front).cat.markets, front, last, cat.events.Keys);
      assert front + [last] == list;
    }
  }

  lemma AfterMarketStep(before: map<string, Market>, after: map<string, Market>, front: seq<(string, Market)>, last: (string, Market),
                        events: set<string>)
    requires AfterMarkets(before, after, front, events)
    ensures AfterMarkets(before, if last.1.event in events then after[last.0 := last.1] else after, front + [last], events)
  {
    assert (front + [last])[..|front|] == front;
  }

  /** The entry of a selection with a known market. */
  function SelectionAt(list: seq<(string, NewSelection)>, markets: set<string>, k: string): Option<NewSelection> {
    if list == [] then None
    else
      var last := list[|list| - 1];
      if last.0 == k && last.1.market in markets then Some(last.1) else SelectionAt(list[..|list| - 1], markets, k)
  }

  function Stored(n: NewSelection): Selection {
    Selection(n.market, n.name, n.status, Thousandths(n.price))
  }

  predicate SelectionStep(before: Catalogue, after: Catalogue, n: Option<NewSelection>, prices: map<string, nat>, k: string) {
    if n.None? then
      && (k in after.selections <==> k in before.selections)
      && (k in before.selections ==> after.selections[k] == before.selections[k])
      && (k in after.history <==> k in before.history) && HistoryOf(after.history, k) == HistoryOf(before.history, k)
    else
      && k in after.selections && after.selections[k] == Stored(n.value)
      && if PriceChanged(prices, k, n.value.price)
         then k in after.history && HistoryOf(after.history, k) == HistoryOf(before.history, k) + [Thousandths(n.value.price)]
         else (k in after.history <==> k in before.history) && HistoryOf(after.history, k) == HistoryOf(before.history, k)
  }

  ghost predicate AfterSelections(cat: Catalogue, t: Catalogue, list: seq<(string, NewSelection)>, prices: map<string, nat>) {
    && t == cat.(selections := t.selections, history := t.history)
    && forall k :: SelectionStep(cat, t, SelectionAt(list, cat.markets.Keys, k), prices, k)
  }

  lemma {:induction false} SelectionAtEntry(list: seq<(string, NewSelection)>, markets: set<string>, k: string)
    ensures SelectionAt(list, markets, k).Some? ==>
              exists i :: 0 <= i < |list| && list[i].0 == k && list[i].1 == SelectionAt(list, markets, k).value && list[i].1.market in markets
  {
    if list != [] {
      var front, last := list[..|list| - 1], list[|list| - 1];
      SelectionAtEntry(front, markets, k);
      if !(last.0 == k && last.1.market in markets) && SelectionAt(front, markets, k).Some? {
        var i :| 0 <= i < |front| && front[i].0 == k && front[i].1 == SelectionAt(front, markets, k).value && front[i].1.market in markets;
        assert list[i] == front[i];
      } else if last.0 == k && last.1.market in markets {
        assert list[|list| - 1].0 == k;
      }
    }
  }

  lemma {:induction false} SelectionsPointwise(cat: Catalogue, prices: map<string, nat>, list: seq<(string, NewSelection)>)
    requires UniqueRefs(list)
    ensures AfterSelections(cat, PutSelections(cat, prices, list).cat, list, prices)
  {
    if list != [] {
      var front, last, markets := list[..|list| - 1], list[|list| - 1], cat.markets.Keys;
      SelectionsPointwise(cat, prices, front);
      NotAmong(list, markets);
      var p := PutSelections(cat, prices, front);
      var t := PutSelections(cat, prices, list).cat;
      assert t == PutSelection(p, prices, last).cat;
      hide SelectionStep, PutSelections;
      forall k ensures SelectionStep(cat, t, SelectionAt(list, markets, k), prices, k) {
        assert SelectionStep(cat, p.cat, SelectionAt(front, markets, k), prices, k);
        OneSelection(cat, p, prices, last, SelectionAt(front, markets, k), k);
      }
      hide SelectionAt;
    }
  }

  lemma NotAmong(list: seq<(string, NewSelection)>, markets: set<string>)
    requires list != [] && UniqueRefs(list)
    ensures SelectionAt(list[..|list| - 1], markets, list[|list| - 1].0).None?
  {
    SelectionAtEntry(list[..|list| - 1], markets, list[|list| - 1].0);
  }

  lemma OneSelection(cat: Catalogue, p: Priced, prices: map<string, nat>, last: (string, NewSelection), n: Option<NewSelection>, k: string)
    requires SelectionStep(cat, p.cat, n, prices, k) && p.cat.markets == cat.markets && (last.0 == k ==> n.None?)
    ensures SelectionStep(cat, PutSelection(p, prices, last).cat, if last.0 == k && last.1.market in cat.markets then Some(last.1) else n, prices, k)
  {
    hide PriceChanged, Thousandths, PutSelection, HistoryOf;
    OthersStay(p, prices, last, k);
    if last.1.market in cat.markets {
      OwnRow(p, prices, last);
    }
  }

  lemma OwnRow(p: Priced, prices: map<string, nat>, last: (string, NewSelection))
    requires last.1.market in p.cat.markets
    ensures var t, k := PutSelection(p, prices, last).cat, last.0;
            && k in t.selections && t.selections[k] == Stored(last.1)
            && if PriceChanged(prices, k, last.1.price)
               then k in t.history && HistoryOf(t.history, k) == HistoryOf(p.cat.history, k) + [Thousandths(last.1.price)]
               else (k in t.history <==> k in p.cat.history) && HistoryOf(t.history, k) == HistoryOf(p.cat.history, k)
  {
    hide PriceChanged, Thousandths;
  }

  lemma OthersStay(p: Priced, prices: map<string, nat>, last: (string, NewSelection), k: string)
    ensures var t := PutSelection(p, prices, last).cat;
            last.0 != k || last.1.market !in p.cat.markets ==>
              && (k in t.selections <==> k in p.cat.selections) && (k in t.selections ==> t.selections[k] == p.cat.selections[k])
              && (k in t.history <==> k in p.cat.history) && HistoryOf(t.history, k) == HistoryOf(p.cat.history, k)
  {
    hide PriceChanged, Thousandths;
  }

  /** Entries with a known market whose price differs from the recorded one. */
  function ChangedCount(list: seq<(string, NewSelection)>, markets: set<string>, prices: map<string, nat>): nat {
    if list == [] then 0
    else
      var last := list[|list| - 1];
      ChangedCount(list[..|list| - 1], markets, prices)
      + if last.1.market in markets && PriceChanged(prices, last.0, last.1.price) then 1 else 0
  }

  lemma {:induction false} SnapshotsCounted(cat: Catalogue, prices: map<string, nat>, list: seq<(string, NewSelection)>)
    ensures var p := PutSelections(cat, prices, list);
            p.snapshots == ChangedCount(list, cat.markets.Keys, prices) && p.cat.markets == cat.markets
  {
    hide PriceChanged, Thousandths;
    if list != [] {
      SnapshotsCounted(cat, prices, list[..|list| - 1]);
    }
  }

  // Ended events leave no open market

  lemma {:induction false} MarketAtEntry(list: seq<(string, Market)>, events: set<string>, k: string)
    ensures MarketAt(list, events, k).Some? ==> exists i :: 0 <= i < |list| && list[i] == (k, MarketAt(list, events, k).value)
  {
    if list != [] {
      var front, last := list[..|list| - 1], list[|list| - 1];
      MarketAtEntry(front, events, k);
      if last.0 == k && last.1.event in events {
        assert list[|list| - 1] == (k, last.1);
      } else if MarketAt(front, events, k).Some? {
        var i :| 0 <= i < |front| && front[i] == (k, MarketAt(front, events, k).value);
        assert list[i] == front[i];
      }
    }
  }

  /** After an ingest every market of an event reported ended is settled, whether or not the snapshot
      mentions the market. */
  lemma EndedEventsAreSettled(cat: Catalogue, snap: Snapshot, m: string)
    requires StatusesAgree(snap) && m in PutLive(cat, snap).cat.markets
    requires ReportedEnded(snap.events, cat.fixtures.Keys, PutLive(cat, snap).cat.markets[m].event)
    ensures PutLive(cat, snap).cat.markets[m].status == MarketStatus.Settled
  {
    var c1 := PutEvents(cat, snap.events).cat;
    var c2 := PutMarkets(c1, snap.markets).cat;
    EventsPointwise(cat, snap.events);
    MarketsPointwise(c1, snap.markets);
    SnapshotsCounted(c2, PricesOf(c2.selections), snap.selections);
    MarketAtEntry(snap.markets, c1.events.Keys, m);
    hide EventRows, SelectionRows, PutEvents, PutMarkets, PutSelections, MarketAt;
    var fixtures, row := cat.fixtures.Keys, MarketAt(snap.markets, c1.events.Keys, m);
    if row.Some? {
      var i :| 0 <= i < |snap.markets| && snap.markets[i] == (m, row.value);
      var j :| 0 <= j < |snap.events| && snap.events[j].0 == row.value.event && snap.events[j].1.status == EventStatus.Ended;
    }
  }

  // The odds history

  predicate NoRepeats(h: seq<nat>) {
    forall i :: 0 <= i < |h| - 1 ==> h[i] != h[i + 1]
  }

  predicate LastIsPrice(cat: Catalogue, k: string) {
    && (k in cat.selections <==> k in cat.history)
    && (k in cat.selections ==> HistoryOf(cat.history, k) != [] && HistoryOf(cat.history, k)[|HistoryOf(cat.history, k)| - 1] == cat.selections[k].price)
  }

  /** A selection's last history entry is its price, and neighbouring entries differ. */
  ghost predicate HistoryOk(cat: Catalogue) {
    forall k :: LastIsPrice(cat, k) && NoRepeats(HistoryOf(cat.history, k))
  }

  /** The entry carries a new price: either it is not stored yet, or it is not rounded to the stored one. */
  predicate NoFalseChange(cat: Catalogue, e: (string, NewSelection)) {
    e.0 in cat.selections && cat.selections[e.0].price == Thousandths(e.1.price) ==> Exact(e.1.price)
  }

  lemma RoundExact(n: nat)
    ensures (n as real + 0.5).Floor == n
  {}

  /** Recorded and stored prices compare equal only when the new price is exact. */
  lemma UnchangedIsExact(prices: map<string, nat>, k: string, price: Price)
    requires k in prices
    ensures !PriceChanged(prices, k, price) <==> prices[k] == Thousandths(price) && Exact(price)
  {
    RoundExact(prices[k]);
  }

  lemma HistoryStep(before: Catalogue, after: Catalogue, n: Option<NewSelection>, prices: map<string, nat>, k: string)
    requires SelectionStep(before, after, n, prices, k) && LastIsPrice(before, k) && NoRepeats(HistoryOf(before.history, k))
    requires (k in prices <==> k in before.selections) && (k in prices ==> prices[k] == before.selections[k].price)
    ensures LastIsPrice(after, k)
    ensures NoRepeats(HistoryOf(after.history, k)) <==> n.None? || NoFalseChange(before, (k, n.value))
  {
    if n.Some? {
      if k in prices {
        UnchangedIsExact(prices, k, n.value.price);
      }
      hide Thousandths, Exact, PriceChanged;
      var h, price := HistoryOf(before.history, k), Thousandths(n.value.price);
      AppendRepeats(h, price);
    }
  }

  lemma AppendRepeats(h: seq<nat>, x: nat)
    requires NoRepeats(h)
    ensures NoRepeats(h + [x]) <==> h == [] || h[|h| - 1] != x
  {
    if NoRepeats(h + [x]) && h != [] {
      assert (h + [x])[|h| - 1] != (h + [x])[|h|];
    }
  }

  /** The catalogue when the selections loop starts. */
  function BeforeSelections(cat: Catalogue, snap: Snapshot): Catalogue {
    PutMarkets(PutEvents(cat, snap.events).cat, snap.markets).cat
  }

  lemma SelectionPhase(cat: Catalogue, snap: Snapshot)
    requires UniqueRefs(snap.selections)
    ensures var mid, t := BeforeSelections(cat, snap), PutLive(cat, snap).cat;
            && t.markets == mid.markets && mid.history == cat.history && mid.selections.Keys == cat.selections.Keys
            && (forall k :: k in cat.selections ==> mid.selections[k].price == cat.selections[k].price)
            && PricesOf(mid.selections) == PricesOf(cat.selections)
            && AfterSelections(mid, t, snap.selections, PricesOf(mid.selections))
  {
    hide PutEvents, PutMarkets, PutSelections, EventRows, MarketRows, AfterMarkets, UniqueRefs, SelectionStep;
    LivePhases(cat, snap);
  }

  /** No entry that is not skipped fakes a price change. */
  predicate NoFalseChanges(cat: Catalogue, markets: set<string>, list: seq<(string, NewSelection)>) {
    forall i :: 0 <= i < |list| && list[i].1.market in markets ==> NoFalseChange(cat, list[i])
  }

  /** One ingest keeps the history in agreement with the prices exactly when no entry has a price that
      merely rounds to the stored one. */
  lemma IngestKeepsHistory(cat: Catalogue, snap: Snapshot)
    requires HistoryOk(cat) && UniqueRefs(snap.selections)
    ensures var t := PutLive(cat, snap).cat;
            && (forall k :: LastIsPrice(t, k))
            && (HistoryOk(t) <==> NoFalseChanges(cat, t.markets.Keys, snap.selections))
  {
    var mid, t, list := BeforeSelections(cat, snap), PutLive(cat, snap).cat, snap.selections;
    var prices, markets := PricesOf(mid.selections), t.markets.Keys;
    SelectionPhase(cat, snap);
    hide PutLive, BeforeSelections, SelectionStep, UniqueRefs, NoRepeats, NoFalseChange;
    forall k
      ensures LastIsPrice(t, k)
      ensures NoRepeats(HistoryOf(t.history, k)) <==> NoFalseChangeAt(cat, list, markets, k)
    {
      assert LastIsPrice(cat, k) && NoRepeats(HistoryOf(cat.history, k));
      assert LastIsPrice(mid, k);
      assert SelectionStep(mid, t, SelectionAt(list, markets, k), prices, k);
      HistoryStep(mid, t, SelectionAt(list, markets, k), prices, k);
      SameChange(cat, mid, SelectionAt(list, markets, k), k);
    }
    hide LastIsPrice, NoFalseChangeAt, NoFalseChanges;
    FalseChangesByRef(cat, list, markets);
  }

  lemma SameChange(cat: Catalogue, mid: Catalogue, n: Option<NewSelection>, k: string)
    requires mid.selections.Keys == cat.selections.Keys
    requires k in cat.selections ==> mid.selections[k].price == cat.selections[k].price
    ensures n.Some? ==> (NoFalseChange(mid, (k, n.value)) <==> NoFalseChange(cat, (k, n.value)))
  {
    hide Exact, Thousandths;
  }

  predicate NoFalseChangeAt(cat: Catalogue, list: seq<(string, NewSelection)>, markets: set<string>, k: string) {
    var n := SelectionAt(list, markets, k);
    n.Some? ==> NoFalseChange(cat, (k, n.value))
  }

  lemma FalseChangesByRef(cat: Catalogue, list: seq<(string, NewSelection)>, markets: set<string>)
    requires UniqueRefs(list)
    ensures NoFalseChanges(cat, markets, list) <==> forall k :: NoFalseChangeAt(cat, list, markets, k)
  {
    hide NoFalseChange, UniqueRefs;
    if NoFalseChanges(cat, markets, list) {
      forall k ensures NoFalseChangeAt(cat, list, markets, k) {
        SelectionAtEntry(list, markets, k);
        var n := SelectionAt(list, markets, k);
        if n.Some? {
          var i :| 0 <= i < |list| && list[i].0 == k && list[i].1 == n.value && list[i].1.market in markets;
          assert list[i] == (k, n.value);
        }
      }
    }
    if forall k :: NoFalseChangeAt(cat, list, markets, k) {
      forall i | 0 <= i < |list| && list[i].1.market in markets ensures NoFalseChange(cat, list[i]) {
        EntryIsAt(list, markets, i);
        assert NoFalseChangeAt(cat, list, markets, list[i].0);
        assert list[i] == (list[i].0, list[i].1);
      }
    }
  }

  lemma {:induction false} EntryIsAt(list: seq<(string, NewSelection)>, markets: set<string>, i: nat)
    requires UniqueRefs(list) && i < |list| && list[i].1.market in markets
    ensures SelectionAt(list, markets, list[i].0) == Some(list[i].1)
  {
    if i < |list| - 1 {
      EntryIsAt(list[..|list| - 1], markets, i);
    }
  }

  predicate AllExact(list: seq<(string, NewSelection)>) {
    forall i :: 0 <= i < |list| ==> Exact(list[i].1.price)
  }

  function Ingests(cat: Catalogue, snaps: seq<Snapshot>): Catalogue {
    if snaps == [] then cat else PutLive(Ingests(cat, snaps[..|snaps| - 1]), snaps[|snaps| - 1]).cat
  }

  /** Over any sequence of ingests of prices with at most three decimals, every selection's last history
      entry is its price and neighbouring entries differ. */
  lemma {:induction false} IngestsKeepHistory(cat: Catalogue, snaps: seq<Snapshot>)
    requires HistoryOk(cat) && forall i :: 0 <= i < |snaps| ==> UniqueRefs(snaps[i].selections) && AllExact(snaps[i].selections)
    ensures HistoryOk(Ingests(cat, snaps))
  {
    hide HistoryOk, PutLive, UniqueRefs;
    if snaps != [] {
      IngestsKeepHistory(cat, snaps[..|snaps| - 1]);
      IngestKeepsHistory(Ingests(cat, snaps[..|snaps| - 1]), snaps[|snaps| - 1]);
      hide Exact, Thousandths;
    }
  }

  // Ingesting the same snapshot again

  /** Foreign keys of the stored rows. */
  predicate Linked(cat: Catalogue) {
    forall s :: s in cat.selections ==> cat.selections[s].market in cat.markets
  }

  /** Known markets keep their event. */
  predicate KeepsParents(cat: Catalogue, list: seq<(string, Market)>) {
    forall i :: 0 <= i < |list| && list[i].0 in cat.markets ==> cat.markets[list[i].0].event == list[i].1.event
  }

  lemma EventsAgain(fixtures: set<string>, list: seq<(string, Event)>, before: map<string, Event>, once: map<string, Event>, twice: map<string, Event>)
    requires EventRows(before, once, list, fixtures) && EventRows(once, twice, list, fixtures)
    ensures twice == once
  {
    hide EventAt;
    assert forall k :: k in twice ==> k in once && twice[k] == once[k];
  }

  lemma ClosedTwice(m: Market, list: seq<(string, Event)>, fixtures: set<string>)
    ensures ClosedMarketRow(ClosedMarketRow(m, list, fixtures), list, fixtures) == ClosedMarketRow(m, list, fixtures)
  {}

  /** Markets: closed under the ended events, then replaced, twice over. */
  lemma MarketsAgain(fixtures: set<string>, es: seq<(string, Event)>, events: set<string>, ms: seq<(string, Market)>,
                     before: map<string, Market>, c1: map<string, Market>, once: map<string, Market>,
                     d1: map<string, Market>, twice: map<string, Market>)
    requires MarketRows(before, c1, es, fixtures) && AfterMarkets(c1, once, ms, events)
    requires MarketRows(once, d1, es, fixtures) && AfterMarkets(d1, twice, ms, events)
    ensures twice == once
  {
    hide MarketAt, ClosedMarketRow;
    forall k | k in twice ensures k in once && twice[k] == once[k] {
      if MarketAt(ms, events, k).None? {
        ClosedTwice(before[k], es, fixtures);
      }
    }
  }

  /** A stored market keeps its event through one ingest. */
  lemma EventsStay(fixtures: set<string>, es: seq<(string, Event)>, events: set<string>, ms: seq<(string, Market)>,
                   before: map<string, Market>, c1: map<string, Market>, once: map<string, Market>)
    requires MarketRows(before, c1, es, fixtures) && AfterMarkets(c1, once, ms, events)
    requires forall i :: 0 <= i < |ms| && ms[i].0 in before ==> before[ms[i].0].event == ms[i].1.event
    ensures forall m :: m in before ==> m in once && once[m].event == before[m].event
  {
    hide MarketAt;
    forall m | m in before ensures m in once && once[m].event == before[m].event {
      MarketAtEntry(ms, events, m);
    }
  }

  /** The three loops of one ingest, from `cat` over `c1` and `mid` to `t`. */
  ghost predicate Phases(cat: Catalogue, c1: Catalogue, mid: Catalogue, t: Catalogue, snap: Snapshot) {
    && AfterEvents(cat, c1, snap.events)
    && mid == c1.(markets := mid.markets) && AfterMarkets(c1.markets, mid.markets, snap.markets, c1.events.Keys)
    && AfterSelections(mid, t, snap.selections, PricesOf(mid.selections))
  }

  lemma LivePhases(cat: Catalogue, snap: Snapshot)
    requires UniqueRefs(snap.selections)
    ensures Phases(cat, PutEvents(cat, snap.events).cat, BeforeSelections(cat, snap), PutLive(cat, snap).cat, snap)
    ensures PutLive(cat, snap).oddsSnapshots
         == ChangedCount(snap.selections, PutLive(cat, snap).cat.markets.Keys, PricesOf(BeforeSelections(cat, snap).selections))
  {
    hide PutEvents, PutMarkets, PutSelections, AfterEvents, AfterMarkets, AfterSelections, UniqueRefs, ChangedCount;
    var c1, mid := PutEvents(cat, snap.events).cat, BeforeSelections(cat, snap);
    EventsPointwise(cat, snap.events);
    MarketsPointwise(c1, snap.markets);
    SelectionsPointwise(mid, PricesOf(mid.selections), snap.selections);
    SnapshotsCounted(mid, PricesOf(mid.selections), snap.selections);
  }

  lemma SelectionAgain(cat: Catalogue, c1: Catalogue, mid: Catalogue, t: Catalogue, d1: Catalogue, dmid: Catalogue, u: Catalogue,
                       snap: Snapshot, k: string)
    requires Phases(cat, c1, mid, t, snap) && Phases(t, d1, dmid, u, snap) && t.markets == dmid.markets
    requires Linked(cat) && forall m :: m in cat.markets ==> m in t.markets && t.markets[m].event == cat.markets[m].event
    ensures (k in u.selections <==> k in t.selections) && (k in t.selections ==> u.selections[k] == t.selections[k])
    ensures var n := SelectionAt(snap.selections, t.markets.Keys, k);
            && (n.Some? ==> k in PricesOf(dmid.selections) && PricesOf(dmid.selections)[k] == Thousandths(n.value.price))
            && SelectionStep(dmid, u, n, PricesOf(dmid.selections), k)
  {
    hide SelectionAt, EventRows, MarketRows, AfterMarkets, ReportedEnded, PriceChanged, Thousandths;
    assert SelectionStep(mid, t, SelectionAt(snap.selections, mid.markets.Keys, k), PricesOf(mid.selections), k);
    assert SelectionStep(dmid, u, SelectionAt(snap.selections, dmid.markets.Keys, k), PricesOf(dmid.selections), k);
  }

  /** Entries with a known market whose price the column rounds. */
  function InexactCount(list: seq<(string, NewSelection)>, markets: set<string>): nat {
    if list == [] then 0
    else
      var last := list[|list| - 1];
      InexactCount(list[..|list| - 1], markets) + if last.1.market in markets && !Exact(last.1.price) then 1 else 0
  }

  lemma {:induction false} ChangedIsInexact(list: seq<(string, NewSelection)>, markets: set<string>, prices: map<string, nat>)
    requires forall i :: 0 <= i < |list| && list[i].1.market in markets ==>
               list[i].0 in prices && prices[list[i].0] == Thousandths(list[i].1.price)
    ensures ChangedCount(list, markets, prices) == InexactCount(list, markets)
  {
    hide Exact, PriceChanged, Thousandths;
    if list != [] {
      var front, last := list[..|list| - 1], list[|list| - 1];
      ChangedIsInexact(front, markets, prices);
      if last.1.market in markets {
        UnchangedIsExact(prices, last.0, last.1.price);
      }
    }
  }

  /** What the second ingest adds to the history of one selection. */
  predicate GrowsByInexact(before: map<string, seq<nat>>, after: map<string, seq<nat>>, n: Option<NewSelection>, k: string) {
    if n.Some? && !Exact(n.value.price)
    then k in after && HistoryOf(after, k) == HistoryOf(before, k) + [Thousandths(n.value.price)]
    else (k in after <==> k in before) && HistoryOf(after, k) == HistoryOf(before, k)
  }

  /** Ingesting a snapshot a second time changes no row; it adds one history entry for each selection
      whose price the column rounds, and nothing else. */
  lemma ReingestIsStable(cat: Catalogue, snap: Snapshot)
    requires UniqueRefs(snap.selections) && Linked(cat) && KeepsParents(cat, snap.markets)
    ensures var t, again := PutLive(cat, snap).cat, PutLive(PutLive(cat, snap).cat, snap);
            && again.cat.(history := t.history) == t
            && again.oddsSnapshots == InexactCount(snap.selections, t.markets.Keys)
            && forall k :: GrowsByInexact(t.history, again.cat.history, SelectionAt(snap.selections, t.markets.Keys, k), k)
  {
    var c1, mid, t := PutEvents(cat, snap.events).cat, BeforeSelections(cat, snap), PutLive(cat, snap).cat;
    var d1, dmid, u := PutEvents(t, snap.events).cat, BeforeSelections(t, snap), PutLive(t, snap).cat;
    hide *;
    LivePhases(cat, snap);
    LivePhases(t, snap);
    RowsAgain(cat, c1, mid, t, d1, dmid, u, snap);
    SelectionsAgain(cat, c1, mid, t, d1, dmid, u, snap);
  }

  lemma SelectionsAgain(cat: Catalogue, c1: Catalogue, mid: Catalogue, t: Catalogue, d1: Catalogue, dmid: Catalogue, u: Catalogue,
                        snap: Snapshot)
    requires Phases(cat, c1, mid, t, snap) && Phases(t, d1, dmid, u, snap) && t.markets == dmid.markets && UniqueRefs(snap.selections)
    requires Linked(cat) && forall m :: m in cat.markets ==> m in t.markets && t.markets[m].event == cat.markets[m].event
    ensures u.selections == t.selections
    ensures forall k :: GrowsByInexact(dmid.history, u.history, SelectionAt(snap.selections, t.markets.Keys, k), k)
    ensures ChangedCount(snap.selections, t.markets.Keys, PricesOf(dmid.selections)) == InexactCount(snap.selections, t.markets.Keys)
  {
    hide *;
    var list, markets := snap.selections, t.markets.Keys;
    forall k
      ensures (k in u.selections <==> k in t.selections) && (k in t.selections ==> u.selections[k] == t.selections[k])
      ensures GrowsByInexact(dmid.history, u.history, SelectionAt(list, markets, k), k)
    {
      SelectionAgain(cat, c1, mid, t, d1, dmid, u, snap, k);
      GrowthAgain(dmid, u, SelectionAt(list, markets, k), k);
    }
    forall i | 0 <= i < |list| && list[i].1.market in markets
      ensures list[i].0 in PricesOf(dmid.selections) && PricesOf(dmid.selections)[list[i].0] == Thousandths(list[i].1.price)
    {
      EntryIsAt(list, markets, i);
      SelectionAgain(cat, c1, mid, t, d1, dmid, u, snap, list[i].0);
    }
    ChangedIsInexact(list, markets, PricesOf(dmid.selections));
  }

  lemma GrowthAgain(dmid: Catalogue, u: Catalogue, n: Option<NewSelection>, k: string)
    requires SelectionStep(dmid, u, n, PricesOf(dmid.selections), k)
    requires n.Some? ==> k in PricesOf(dmid.selections) && PricesOf(dmid.selections)[k] == Thousandths(n.value.price)
    ensures GrowsByInexact(dmid.history, u.history, n, k)
  {
    if n.Some? {
      UnchangedIsExact(PricesOf(dmid.selections), k, n.value.price);
    }
    hide Exact, PriceChanged, Thousandths;
  }

  /** Events and markets do not change the second time, and the history is untouched until the selections loop. */
  lemma RowsAgain(cat: Catalogue, c1: Catalogue, mid: Catalogue, t: Catalogue, d1: Catalogue, dmid: Catalogue, u: Catalogue, snap: Snapshot)
    requires Phases(cat, c1, mid, t, snap) && Phases(t, d1, dmid, u, snap) && KeepsParents(cat, snap.markets)
    ensures u.(history := t.history, selections := t.selections) == t && dmid.history == t.history && t.markets == dmid.markets
    ensures forall m :: m in cat.markets ==> m in t.markets && t.markets[m].event == cat.markets[m].event
  {
    hide EventRows, MarketRows, SelectionRows, AfterMarkets, SelectionStep;
    var fixtures := cat.fixtures.Keys;
    EventsAgain(fixtures, snap.events, cat.events, c1.events, d1.events);
    MarketsAgain(fixtures, snap.events, c1.events.Keys, snap.markets, cat.markets, c1.markets, mid.markets, d1.markets, dmid.markets);
    EventsStay(fixtures, snap.events, c1.events.Keys, snap.markets, cat.markets, c1.markets, mid.markets);
  }

  /** So the second ingest is a no-op exactly when every price that is not skipped has at most three decimals. */
  lemma ReingestIsNoOp(cat: Catalogue, snap: Snapshot)
    requires UniqueRefs(snap.selections) && Linked(cat) && KeepsParents(cat, snap.markets)
    ensures var t := PutLive(cat, snap).cat;
            PutLive(t, snap).cat == t
            <==> forall i :: 0 <= i < |snap.selections| && snap.selections[i].1.market in t.markets ==> Exact(snap.selections[i].1.price)
  {
    var t, list := PutLive(cat, snap).cat, snap.selections;
    var u, markets := PutLive(t, snap).cat, t.markets.Keys;
    ReingestIsStable(cat, snap);
    hide PutLive, Exact, Thousandths, UniqueRefs, SelectionAt;
    if u == t {
      forall i | 0 <= i < |list| && list[i].1.market in markets ensures Exact(list[i].1.price) {
        EntryIsAt(list, markets, i);
        assert GrowsByInexact(t.history, u.history, SelectionAt(list, markets, list[i].0), list[i].0);
      }
    }
    if forall i :: 0 <= i < |list| && list[i].1.market in markets ==> Exact(list[i].1.price) {
      forall k ensures (k in u.history <==> k in t.history) && HistoryOf(u.history, k) == HistoryOf(t.history, k) {
        SelectionAtEntry(list, markets, k);
        assert GrowsByInexact(t.history, u.history, SelectionAt(list, markets, k), k);
      }
    }
  }

  // Nothing of a closed snapshot is skipped

  lemma {:induction false} AllSportsPut(cat: Catalogue, list: seq<(string, Sport)>)
    ensures var t := PutSports(cat, list);
            t == cat.(sports := t.sports) && t.sports.Keys == cat.sports.Keys + Refs(list)
  {
    if list != [] {
      AllSportsPut(cat, list[..|list| - 1]);
      RefsLast(list);
    }
  }

  lemma RefsLast<V>(list: seq<(string, V)>)
    requires list != []
    ensures Refs(list) == Refs(list[..|list| - 1]) + {list[|list| - 1].0}
  {
    var front := list[..|list| - 1];
    forall ref | ref in Refs(list) ensures ref in Refs(front) || ref == list[|list| - 1].0 {
      var i :| 0 <= i < |list| && list[i].0 == ref;
      assert i < |front| ==> front[i] == list[i];
    }
    forall ref | ref in Refs(front) ensures ref in Refs(list) {
      var i :| 0 <= i < |front| && front[i].0 == ref;
      assert list[i].0 == ref;
    }
  }

  lemma {:induction false} AllLeaguesPut(cat: Catalogue, list: seq<(string, League)>)
    requires forall i :: 0 <= i < |list| ==> list[i].1.sport in cat.sports
    ensures var t := PutLeagues(cat, list);
            t == cat.(leagues := t.leagues) && t.leagues.Keys == cat.leagues.Keys + Refs(list)
  {
    if list != [] {
      AllLeaguesPut(cat, list[..|list| - 1]);
      RefsLast(list);
    }
  }

  lemma {:induction false} AllTeamsPut(cat: Catalogue, list: seq<(string, Team)>)
    requires forall i :: 0 <= i < |list| ==> list[i].1.sport in cat.sports
    ensures var t := PutTeams(cat, list);
            t == cat.(teams := t.teams) && t.teams.Keys == cat.teams.Keys + Refs(list)
  {
    if list != [] {
      AllTeamsPut(cat, list[..|list| - 1]);
      RefsLast(list);
    }
  }

  lemma {:induction false} AllFixturesPut(cat: Catalogue, list: seq<(string, Fixture)>)
    requires forall i :: 0 <= i < |list| ==> FixtureResolves(cat, list[i].1)
    ensures var l := PutFixtures(cat, list);
            l.cat == cat.(fixtures := l.cat.fixtures) && l.count == |list| && l.cat.fixtures.Keys == cat.fixtures.Keys + Refs(list)
  {
    if list != [] {
      AllFixturesPut(cat, list[..|list| - 1]);
      RefsLast(list);
    }
  }

  lemma {:induction false} AllEventsPut(cat: Catalogue, list: seq<(string, Event)>)
    requires forall i :: 0 <= i < |list| ==> list[i].1.fixture in cat.fixtures
    ensures var l := PutEvents(cat, list);
            l.cat.fixtures == cat.fixtures && l.count == |list| && Refs(list) <= l.cat.events.Keys
  {
    hide CloseMarketRows, CloseSelectionRows;
    if list != [] {
      AllEventsPut(cat, list[..|list| - 1]);
      RefsLast(list);
    }
  }

  lemma {:induction false} AllMarketsPut(cat: Catalogue, list: seq<(string, Market)>)
    requires forall i :: 0 <= i < |list| ==> list[i].1.event in cat.events
    ensures var l := PutMarkets(cat, list);
            l.cat.events == cat.events && l.count == |list| && Refs(list) <= l.cat.markets.Keys
  {
    if list != [] {
      AllMarketsPut(cat, list[..|list| - 1]);
      RefsLast(list);
    }
  }

  lemma {:induction false} AllSelectionsPut(cat: Catalogue, prices: map<string, nat>, list: seq<(string, NewSelection)>)
    requires forall i :: 0 <= i < |list| ==> list[i].1.market in cat.markets
    ensures var p := PutSelections(cat, prices, list); p.cat.markets == cat.markets && p.count == |list|
  {
    hide PriceChanged, Thousandths;
    if list != [] {
      AllSelectionsPut(cat, prices, list[..|list| - 1]);
    }
  }

  /** The full ingest of a closed snapshot, into any catalogue, skips no fixture, event, market or
      selection. */
  lemma ClosedSnapshotIsNotSkipped(cat: Catalogue, snap: Snapshot)
    requires Closed(snap)
    ensures var f := PutFixtures(PutCatalog(cat, snap), snap.fixtures);
            var live := PutLive(f.cat, snap);
            && f.count == |snap.fixtures| && live.events == |snap.events| && live.markets == |snap.markets|
            && live.selections == |snap.selections|
  {
    hide PutSports, PutLeagues, PutTeams, PutFixtures, PutEvents, PutMarkets, PutSelections, Refs;
    var c1 := PutSports(cat, snap.sports);
    AllSportsPut(cat, snap.sports);
    var c2 := PutLeagues(c1, snap.leagues);
    AllLeaguesPut(c1, snap.leagues);
    AllTeamsPut(c2, snap.teams);
    var c3 := PutTeams(c2, snap.teams);
    AllFixturesPut(c3, snap.fixtures);
    var c4 := PutFixtures(c3, snap.fixtures).cat;
    AllEventsPut(c4, snap.events);
    var c5 := PutEvents(c4, snap.events).cat;
    AllMarketsPut(c5, snap.markets);
    var c6 := PutMarkets(c5, snap.markets).cat;
    AllSelectionsPut(c6, PricesOf(c6.selections), snap.selections);
  }

  /** What the mapper builds is ingested without loss, and leaves no open market of an ended event. */
  lemma MappedFeedIsIngested(cat: Catalogue, feed: OddsMapper.Feed, now: int, slug: string -> string)
    ensures var snap := OddsMapper.Mapped(feed, now, slug);
            var f := PutFixtures(PutCatalog(cat, snap), snap.fixtures);
            var live := PutLive(f.cat, snap);
            && f.count == |snap.fixtures| && live.events == |snap.events| && live.markets == |snap.markets|
            && live.selections == |snap.selections|
            && (forall m :: m in live.cat.markets && ReportedEnded(snap.events, f.cat.fixtures.Keys, live.cat.markets[m].event) ==>
                  live.cat.markets[m].status == MarketStatus.Settled)
  {
    var snap := OddsMapper.Mapped(feed, now, slug);
    OddsMapper.MappedIsClosed(feed, now, slug);
    hide OddsMapper.Mapped, PutLive, PutFixtures, PutCatalog, ReportedEnded;
    ClosedSnapshotIsNotSkipped(cat, snap);
    var f := PutFixtures(PutCatalog(cat, snap), snap.fixtures);
    forall m | m in PutLive(f.cat, snap).cat.markets && ReportedEnded(snap.events, f.cat.fixtures.Keys, PutLive(f.cat, snap).cat.markets[m].event)
      ensures PutLive(f.cat, snap).cat.markets[m].status == MarketStatus.Settled
    {
      EndedEventsAreSettled(f.cat, snap, m);
    }
  }

  // The full ingest, run again

  /** The row is already stored. */
  predicate SportStored(cat: Catalogue, e: (string, Sport)) {
    e.0 in cat.sports && cat.sports[e.0] == e.1
  }

  lemma SportOtherStored(cat: Catalogue, e: (string, Sport), other: (string, Sport), t: Catalogue)
    requires e.0 != other.0 && t == PutSport(cat, other) && SportStored(cat, e)
    ensures SportStored(t, e)
  {}

  lemma SportNowStored(cat: Catalogue, e: (string, Sport), t: Catalogue)
    requires t == PutSport(cat, e)
    ensures SportStored(t, e) && t == cat.(sports := t.sports)
    ensures SportStored(cat, e) ==> t == cat
  {}

  lemma {:induction false} SportsAreStored(cat: Catalogue, list: seq<(string, Sport)>)
    requires UniqueRefs(list)
    ensures var t := PutSports(cat, list); t == cat.(sports := t.sports) && forall i :: 0 <= i < |list| ==> SportStored(t, list[i])
  {
    hide SportStored, PutSport;
    if list != [] {
      var front, last := list[..|list| - 1], list[|list| - 1];
      SportsAreStored(cat, front);
      var c, t := PutSports(cat, front), PutSports(cat, list);
      SportNowStored(c, last, t);
      forall i | 0 <= i < |front| ensures SportStored(t, list[i]) {
        SportOtherStored(c, front[i], last, t);
      }
    }
  }

  lemma {:induction false} SportsStay(cat: Catalogue, list: seq<(string, Sport)>)
    requires forall i :: 0 <= i < |list| ==> SportStored(cat, list[i])
    ensures PutSports(cat, list) == cat
  {
    hide SportStored, PutSport;
    if list != [] {
      SportsStay(cat, list[..|list| - 1]);
      SportNowStored(cat, list[|list| - 1], PutSports(cat, list));
    }
  }

  /** The entry is skipped, or its row is already stored. */
  predicate LeagueStored(cat: Catalogue, e: (string, League)) {
    e.1.sport !in cat.sports
    || (e.0 in cat.leagues
        && cat.leagues[e.0] == e.1.(region := if e.1.region.None? then cat.leagues[e.0].region else e.1.region))
  }

  lemma LeagueOtherStored(cat: Catalogue, e: (string, League), other: (string, League), t: Catalogue)
    requires e.0 != other.0 && t == PutLeague(cat, other) && LeagueStored(cat, e)
    ensures LeagueStored(t, e)
  {}

  lemma LeagueNowStored(cat: Catalogue, e: (string, League), t: Catalogue)
    requires t == PutLeague(cat, e)
    ensures LeagueStored(t, e) && t == cat.(leagues := t.leagues)
    ensures LeagueStored(cat, e) ==> t == cat
  {}

  lemma {:induction false} LeaguesAreStored(cat: Catalogue, list: seq<(string, League)>)
    requires UniqueRefs(list)
    ensures var t := PutLeagues(cat, list); t == cat.(leagues := t.leagues) && forall i :: 0 <= i < |list| ==> LeagueStored(t, list[i])
  {
    hide LeagueStored, PutLeague;
    if list != [] {
      var front, last := list[..|list| - 1], list[|list| - 1];
      LeaguesAreStored(cat, front);
      var c, t := PutLeagues(cat, front), PutLeagues(cat, list);
      LeagueNowStored(c, last, t);
      forall i | 0 <= i < |front| ensures LeagueStored(t, list[i]) {
        LeagueOtherStored(c, front[i], last, t);
      }
    }
  }

  lemma {:induction false} LeaguesStay(cat: Catalogue, list: seq<(string, League)>)
    requires forall i :: 0 <= i < |list| ==> LeagueStored(cat, list[i])
    ensures PutLeagues(cat, list) == cat
  {
    hide LeagueStored, PutLeague;
    if list != [] {
      LeaguesStay(cat, list[..|list| - 1]);
      LeagueNowStored(cat, list[|list| - 1], PutLeagues(cat, list));
    }
  }

  /** The entry is skipped, or its row is already stored. */
  predicate TeamStored(cat: Catalogue, e: (string, Team)) {
    e.1.sport !in cat.sports || (e.0 in cat.teams && cat.teams[e.0] == e.1)
  }

  lemma TeamOtherStored(cat: Catalogue, e: (string, Team), other: (string, Team), t: Catalogue)
    requires e.0 != other.0 && t == PutTeam(cat, other) && TeamStored(cat, e)
    ensures TeamStored(t, e)
  {}

  lemma TeamNowStored(cat: Catalogue, e: (string, Team), t: Catalogue)
    requires t == PutTeam(cat, e)
    ensures TeamStored(t, e) && t == cat.(teams := t.teams)
    ensures TeamStored(cat, e) ==> t == cat
  {}

  lemma {:induction false} TeamsAreStored(cat: Catalogue, list: seq<(string, Team)>)
    requires UniqueRefs(list)
    ensures var t := PutTeams(cat, list); t == cat.(teams := t.teams) && forall i :: 0 <= i < |list| ==> TeamStored(t, list[i])
  {
    hide TeamStored, PutTeam;
    if list != [] {
      var front, last := list[..|list| - 1], list[|list| - 1];
      TeamsAreStored(cat, front);
      var c, t := PutTeams(cat, front), PutTeams(cat, list);
      TeamNowStored(c, last, t);
      forall i | 0 <= i < |front| ensures TeamStored(t, list[i]) {
        TeamOtherStored(c, front[i], last, t);
      }
    }
  }

  lemma {:induction false} TeamsStay(cat: Catalogue, list: seq<(string, Team)>)
    requires forall i :: 0 <= i < |list| ==> TeamStored(cat, list[i])
    ensures PutTeams(cat, list) == cat
  {
    hide TeamStored, PutTeam;
    if list != [] {
      TeamsStay(cat, list[..|list| - 1]);
      TeamNowStored(cat, list[|list| - 1], PutTeams(cat, list));
    }
  }

  /** The entry is skipped, or its row is already stored. */
  predicate FixtureStored(cat: Catalogue, e: (string, Fixture)) {
    !FixtureResolves(cat, e.1) || (e.0 in cat.fixtures && cat.fixtures[e.0] == e.1)
  }

  lemma FixtureOtherStored(cat: Catalogue, e: (string, Fixture), other: (string, Fixture), t: Catalogue)
    requires e.0 != other.0 && t == PutFixture(Loaded(cat, 0), other).cat && FixtureStored(cat, e)
    ensures FixtureStored(t, e)
  {}

  lemma FixtureNowStored(cat: Catalogue, e: (string, Fixture), t: Catalogue)
    requires t == PutFixture(Loaded(cat, 0), e).cat
    ensures FixtureStored(t, e) && t == cat.(fixtures := t.fixtures)
    ensures FixtureStored(cat, e) ==> t == cat
  {}

  lemma {:induction false} FixturesAreStored(cat: Catalogue, list: seq<(string, Fixture)>)
    requires UniqueRefs(list)
    ensures var t := PutFixtures(cat, list).cat; t == cat.(fixtures := t.fixtures) && forall i :: 0 <= i < |list| ==> FixtureStored(t, list[i])
  {
    hide FixtureStored, PutFixture;
    if list != [] {
      var front, last := list[..|list| - 1], list[|list| - 1];
      FixturesAreStored(cat, front);
      var c, t := PutFixtures(cat, front).cat, PutFixtures(cat, list).cat;
      AnyCount(PutFixtures(cat, front), last);
      FixtureNowStored(c, last, t);
      forall i | 0 <= i < |front| ensures FixtureStored(t, list[i]) {
        FixtureOtherStored(c, front[i], last, t);
      }
    }
  }

  lemma {:induction false} FixturesStay(cat: Catalogue, list: seq<(string, Fixture)>)
    requires forall i :: 0 <= i < |list| ==> FixtureStored(cat, list[i])
    ensures PutFixtures(cat, list).cat == cat
  {
    hide FixtureStored, PutFixture;
    if list != [] {
      FixturesStay(cat, list[..|list| - 1]);
      AnyCount(PutFixtures(cat, list[..|list| - 1]), list[|list| - 1]);
      FixtureNowStored(cat, list[|list| - 1], PutFixtures(cat, list).cat);
    }
  }

  lemma AnyCount(l: Loaded, e: (string, Fixture))
    ensures PutFixture(l, e).cat == PutFixture(Loaded(l.cat, 0), e).cat
  {}

  /** The catalogue and fixture loops, run again over any catalogue with the tables they left, change
      nothing. */
  lemma CatalogAgain(cat: Catalogue, snap: Snapshot, t: Catalogue)
    requires UniqueRefs(snap.sports) && UniqueRefs(snap.leagues) && UniqueRefs(snap.teams) && UniqueRefs(snap.fixtures)
    requires var f := PutFixtures(PutCatalog(cat, snap), snap.fixtures).cat;
             t.sports == f.sports && t.leagues == f.leagues && t.teams == f.teams && t.fixtures == f.fixtures
    ensures PutCatalog(t, snap) == t && PutFixtures(t, snap.fixtures).cat == t
  {
    hide PutSports, PutLeagues, PutTeams, PutFixtures, UniqueRefs;
    var c1 := PutSports(cat, snap.sports);
    var c2 := PutLeagues(c1, snap.leagues);
    var c3 := PutTeams(c2, snap.teams);
    SportsAreStored(cat, snap.sports);
    LeaguesAreStored(c1, snap.leagues);
    TeamsAreStored(c2, snap.teams);
    FixturesAreStored(c3, snap.fixtures);
    SportsStay(t, snap.sports);
    LeaguesStay(t, snap.leagues);
    TeamsStay(t, snap.teams);
    FixturesStay(t, snap.fixtures);
  }

  /** A full ingest: catalogue, fixtures, live data. */
  function FullIngest(cat: Catalogue, snap: Snapshot): Catalogue {
    PutLive(PutFixtures(PutCatalog(cat, snap), snap.fixtures).cat, snap).cat
  }

  lemma LiveTablesStay(cat: Catalogue, snap: Snapshot)
    requires UniqueRefs(snap.sports) && UniqueRefs(snap.leagues) && UniqueRefs(snap.teams) && UniqueRefs(snap.fixtures)
    ensures var f := PutFixtures(PutCatalog(cat, snap), snap.fixtures).cat;
            f == cat.(sports := f.sports, leagues := f.leagues, teams := f.teams, fixtures := f.fixtures)
  {
    hide PutSports, PutLeagues, PutTeams, PutFixtures, UniqueRefs;
    var c1 := PutSports(cat, snap.sports);
    var c2 := PutLeagues(c1, snap.leagues);
    SportsAreStored(cat, snap.sports);
    LeaguesAreStored(c1, snap.leagues);
    TeamsAreStored(c2, snap.teams);
    FixturesAreStored(PutTeams(c2, snap.teams), snap.fixtures);
  }

  lemma LiveKeepsCatalog(cat: Catalogue, snap: Snapshot)
    requires UniqueRefs(snap.selections)
    ensures var t := PutLive(cat, snap).cat;
            t.sports == cat.sports && t.leagues == cat.leagues && t.teams == cat.teams && t.fixtures == cat.fixtures
  {
    hide PutEvents, PutMarkets, PutSelections, EventRows, MarketRows, SelectionRows, AfterMarkets, SelectionStep, UniqueRefs;
    LivePhases(cat, snap);
  }

  /** Ingesting a whole snapshot a second time changes no row and adds no history, exactly when every
      price that is not skipped has at most three decimals. */
  lemma FullReingestIsNoOp(cat: Catalogue, snap: Snapshot)
    requires AllUnique(snap) && Linked(cat) && KeepsParents(cat, snap.markets)
    ensures var t := FullIngest(cat, snap);
            FullIngest(t, snap) == t
            <==> forall i :: 0 <= i < |snap.selections| && snap.selections[i].1.market in t.markets ==> Exact(snap.selections[i].1.price)
  {
    hide PutLive, PutCatalog, PutFixtures, UniqueRefs, Exact;
    var f := PutFixtures(PutCatalog(cat, snap), snap.fixtures).cat;
    LiveTablesStay(cat, snap);
    LiveKeepsCatalog(f, snap);
    var t := PutLive(f, snap).cat;
    CatalogAgain(cat, snap, t);
    ReingestIsNoOp(f, snap);
  }

  function FullIngests(cat: Catalogue, snaps: seq<Snapshot>): Catalogue {
    if snaps == [] then cat else FullIngest(FullIngests(cat, snaps[..|snaps| - 1]), snaps[|snaps| - 1])
  }

  lemma SameHistoryOk(c1: Catalogue, c2: Catalogue)
    requires HistoryOk(c1) && c1.selections == c2.selections && c1.history == c2.history
    ensures HistoryOk(c2)
  {
    hide NoRepeats;
    forall k ensures LastIsPrice(c2, k) && NoRepeats(HistoryOf(c2.history, k)) {
      assert LastIsPrice(c1, k) && NoRepeats(HistoryOf(c1.history, k));
    }
  }

  /** The same over any sequence of full ingests. */
  lemma {:induction false} FullIngestsKeepHistory(cat: Catalogue, snaps: seq<Snapshot>)
    requires HistoryOk(cat) && forall i :: 0 <= i < |snaps| ==> AllUnique(snaps[i]) && AllExact(snaps[i].selections)
    ensures HistoryOk(FullIngests(cat, snaps))
  {
    hide HistoryOk, PutLive, PutCatalog, PutFixtures, UniqueRefs;
    if snaps != [] {
      var before, snap := FullIngests(cat, snaps[..|snaps| - 1]), snaps[|snaps| - 1];
      FullIngestsKeepHistory(cat, snaps[..|snaps| - 1]);
      var f := PutFixtures(PutCatalog(before, snap), snap.fixtures).cat;
      LiveTablesStay(before, snap);
      SameHistoryOk(before, f);
      IngestKeepsHistory(f, snap);
      hide Exact, Thousandths;
    }
  }

  /** A price of 1.9095 is stored as 1.910, and every further ingest records 1.910 once more. */
  lemma RoundedPriceGrowsHistory() returns (cat: Catalogue, snap: Snapshot)
    ensures AllUnique(snap) && Linked(cat) && snap.selections == [("s", NewSelection("m", "h", SelectionStatus.Open, 1.9095))]
    ensures var once := PutLive(cat, snap).cat; var twice := PutLive(once, snap).cat;
            HistoryOf(once.history, "s") == [1910] && HistoryOf(twice.history, "s") == [1910, 1910]
  {
    cat := Catalogue(map[], map[], map[], map[], map[], map["m" := Market("e", MarketType.MatchResult, MarketStatus.Open, None)],
                     map[], map[], {});
    var e := ("s", NewSelection("m", "h", SelectionStatus.Open, 1.9095));
    snap := Snapshot([], [], [], [], [], [], [e]);
    assert Thousandths(1.9095) == 1910;
    hide Thousandths;
    OnlySelection(cat, snap, e);
    OnlySelection(PutLive(cat, snap).cat, snap, e);
  }

  lemma OnlySelection(cat: Catalogue, snap: Snapshot, e: (string, NewSelection))
    requires snap == Snapshot([], [], [], [], [], [], [e])
    ensures PutLive(cat, snap).cat == PutSelection(Priced(cat, 0, 0), PricesOf(cat.selections), e).cat
  {
    hide PutSelection;
    assert [e][..0] == [];
    assert PutSelections(cat, PricesOf(cat.selections), []) == Priced(cat, 0, 0);
  }
}
