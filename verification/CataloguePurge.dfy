/** Purging stale fixtures together with the bet history that hangs on them. */
module CataloguePurge {
  import opened Domain
  import opened Ledger

  datatype Store = Store(cat: Catalogue, bets: map<nat, Bet>, rows: map<Key, Row>)

  predicate Active(bet: Bet) {
    bet.status == BetStatus.Pending || bet.status == BetStatus.Accepted
  }

  /** The fixture a selection belongs to, through its market and event. */
  function FixtureOf(cat: Catalogue, selection: string): Option<string> {
    if selection in cat.selections && cat.selections[selection].market in cat.markets
       && cat.markets[cat.selections[selection].market].event in cat.events
    then Some(cat.events[cat.markets[cat.selections[selection].market].event].fixture)
    else None
  }

  /** Some leg of the bet is on the fixture. */
  predicate Touches(cat: Catalogue, bet: Bet, fixture: string) {
    exists i :: 0 <= i < |bet.legs| && FixtureOf(cat, bet.legs[i].selection) == Some(fixture)
  }

  predicate HasActiveBets(s: Store, fixture: string) {
    exists b :: b in s.bets && Active(s.bets[b]) && Touches(s.cat, s.bets[b], fixture)
  }

  function ToPurge(s: Store, wanted: set<string>): set<string> {
    set f | f in s.cat.fixtures && f in wanted && !HasActiveBets(s, f)
  }

  function SelectionsOf(cat: Catalogue, fixtures: set<string>): set<string> {
    set x | x in cat.selections && FixtureOf(cat, x).Some? && FixtureOf(cat, x).value in fixtures
  }

  predicate HasLegOn(bet: Bet, selections: set<string>) {
    exists i :: 0 <= i < |bet.legs| && bet.legs[i].selection in selections
  }

  function BetsOn(bets: map<nat, Bet>, selections: set<string>): set<nat> {
    set b | b in bets && HasLegOn(bets[b], selections)
  }

  /** Deleting a fixture cascades to its event, markets, selections and odds history. */
  function DeleteFixtures(cat: Catalogue, gone: set<string>): Catalogue {
    var events := map e | e in cat.events && cat.events[e].fixture !in gone :: cat.events[e];
    var markets := map m | m in cat.markets && !(cat.markets[m].event in cat.events && cat.events[cat.markets[m].event].fixture in gone)
                   :: cat.markets[m];
    var selections := SelectionsOf(cat, gone);
    cat.(fixtures := cat.fixtures - gone, events := events, markets := markets, selections := cat.selections - selections,
         history := cat.history - selections)
  }

  function DeleteRows(rows: map<Key, Row>, bets: set<nat>): map<Key, Row> {
    map k | k in rows && k.bet !in bets :: rows[k]
  }

  function Purge(s: Store, wanted: set<string>): Store {
    var gone := ToPurge(s, wanted);
    var bets := BetsOn(s.bets, SelectionsOf(s.cat, gone));
    Store(DeleteFixtures(s.cat, gone), s.bets - bets, DeleteRows(s.rows, bets))
  }

  class CatalogueStore {
    var cat: Catalogue
    var bets: map<nat, Bet>
    var rows: map<Key, Row>

    constructor (s: Store)
      ensures Contents() == s
    {
      cat, bets, rows := s.cat, s.bets, s.rows;
    }

    ghost function Contents(): Store
      reads this
    {
      Store(cat, bets, rows)
    }

    method DeleteFixturesAndBetHistory(wanted: set<string>) returns (fixturesRemoved: nat, betsRemoved: nat)
      modifies this
      ensures Contents() == Purge(old(Contents()), wanted)
      ensures fixturesRemoved == |ToPurge(old(Contents()), wanted)|
      ensures betsRemoved == |old(bets).Keys - bets.Keys|
    {
      var fixtureIds := ToPurge(Store(cat, bets, rows), wanted);
      if fixtureIds == {} {
        NothingToDelete(Store(cat, bets, rows));
        return 0, 0;
      }
      fixturesRemoved, betsRemoved := |fixtureIds|, 0;
      var selectionIds := SelectionsOf(cat, fixtureIds);
      if selectionIds != {} {
        var betIds := BetsOn(bets, selectionIds);
        if betIds != {} {
          rows := DeleteRows(rows, betIds);
          bets := bets - betIds;
          betsRemoved := |betIds|;
          assert old(bets).Keys - bets.Keys == betIds;
          cat := DeleteFixtures(cat, fixtureIds);
          return;
        }
      }
      NoBetsOn(Store(cat, bets, rows), selectionIds);
      cat := DeleteFixtures(cat, fixtureIds);
    }
  }

  lemma NoBetsOn(s: Store, selections: set<string>)
    requires selections == {} || BetsOn(s.bets, selections) == {}
    ensures BetsOn(s.bets, selections) == {} && s.bets - {} == s.bets && DeleteRows(s.rows, {}) == s.rows
    ensures s.bets.Keys - s.bets.Keys == {}
  {}

  lemma NothingToDelete(s: Store)
    ensures SelectionsOf(s.cat, {}) == {} && BetsOn(s.bets, {}) == {}
    ensures DeleteFixtures(s.cat, {}) == s.cat && s.bets - {} == s.bets && DeleteRows(s.rows, {}) == s.rows
  {}

  /** Foreign keys: every parent exists, every leg points at a stored selection, every row at a stored bet. */
  predicate Linked(s: Store) {
    && (forall e :: e in s.cat.events ==> s.cat.events[e].fixture in s.cat.fixtures)
    && (forall m :: m in s.cat.markets ==> s.cat.markets[m].event in s.cat.events)
    && (forall x :: x in s.cat.selections ==> s.cat.selections[x].market in s.cat.markets)
    && (forall b, i :: b in s.bets && 0 <= i < |s.bets[b].legs| ==> s.bets[b].legs[i].selection in s.cat.selections)
    && (forall k :: k in s.rows ==> k.bet in s.bets)
  }

  /** A purge removes no bet that is pending or accepted, no outbox row of a bet it keeps, and no fixture
      such a bet touches; a bet goes exactly when one of its legs is on a purged fixture. */
  lemma PurgeIsSafe(s: Store, wanted: set<string>)
    ensures var t := Purge(s, wanted);
            && (forall b :: b in s.bets && s.bets[b].status in {BetStatus.Pending, BetStatus.Accepted} ==>
                  && b in t.bets && t.bets[b] == s.bets[b]
                  && (forall k :: k in s.rows && k.bet == b ==> k in t.rows && t.rows[k] == s.rows[k])
                  && (forall f :: f in s.cat.fixtures && Touches(s.cat, s.bets[b], f) ==> f in t.cat.fixtures))
            && (forall b :: b in s.bets ==>
                  (b !in t.bets <==> exists f :: f in s.cat.fixtures && f !in t.cat.fixtures && Touches(s.cat, s.bets[b], f)))
            && (forall f :: f in s.cat.fixtures && f !in wanted ==> f in t.cat.fixtures)
  {}

  /** The leg's selection belongs to the fixture. */
  predicate LegOn(cat: Catalogue, leg: Leg, fixture: string) {
    && leg.selection in cat.selections && cat.selections[leg.selection].market in cat.markets
    && cat.markets[cat.selections[leg.selection].market].event in cat.events
    && cat.events[cat.markets[cat.selections[leg.selection].market].event].fixture == fixture
  }

  /** What a table keeps it keeps as it was. */
  ghost predicate Kept<K, V>(before: map<K, V>, after: map<K, V>) {
    forall k :: k in after ==> k in before && after[k] == before[k]
  }

  /** A purge removes exactly the wanted fixtures that no active bet has a leg on, and with them exactly what
      hangs on them: their events, the markets of those, the selections of those with their history, the bets
      with a leg on one of the fixtures, and the outbox rows of those bets. */
  lemma PurgeRemovesExactly(s: Store, wanted: set<string>)
    requires Linked(s)
    ensures var t := Purge(s, wanted);
            && (forall f :: f in s.cat.fixtures ==>
                  (f !in t.cat.fixtures <==> f in wanted && forall b, i :: b in s.bets && 0 <= i < |s.bets[b].legs| && LegOn(s.cat, s.bets[b].legs[i], f) ==>
                                                           s.bets[b].status != BetStatus.Pending && s.bets[b].status != BetStatus.Accepted))
            && (forall e :: e in s.cat.events ==> (e in t.cat.events <==> s.cat.events[e].fixture in t.cat.fixtures))
            && (forall m :: m in s.cat.markets ==> (m in t.cat.markets <==> s.cat.markets[m].event in t.cat.events))
            && (forall x :: x in s.cat.selections ==> (x in t.cat.selections <==> s.cat.selections[x].market in t.cat.markets))
            && (forall x :: x in s.cat.history ==> (x in t.cat.history <==> x in t.cat.selections || x !in s.cat.selections))
            && (forall b :: b in s.bets ==>
                  (b in t.bets <==> forall i :: 0 <= i < |s.bets[b].legs| ==> s.bets[b].legs[i].selection in t.cat.selections))
            && (forall k :: k in s.rows ==> (k in t.rows <==> k.bet in t.bets))
  {
    hide Purge;
    FixturesGoneExactly(s, wanted);
    CatalogGoneExactly(s, wanted);
    BetsGoneExactly(s, wanted);
  }

  lemma FixturesGoneExactly(s: Store, wanted: set<string>)
    ensures forall f :: f in s.cat.fixtures ==>
              (f !in Purge(s, wanted).cat.fixtures
               <==> f in wanted && forall b, i :: b in s.bets && 0 <= i < |s.bets[b].legs| && LegOn(s.cat, s.bets[b].legs[i], f) ==>
                                    s.bets[b].status != BetStatus.Pending && s.bets[b].status != BetStatus.Accepted)
  {
    forall f | f in s.cat.fixtures
      ensures HasActiveBets(s, f)
              <==> exists b, i :: b in s.bets && Active(s.bets[b]) && 0 <= i < |s.bets[b].legs| && LegOn(s.cat, s.bets[b].legs[i], f)
    {}
  }

  lemma CatalogGoneExactly(s: Store, wanted: set<string>)
    requires Linked(s)
    ensures var t := Purge(s, wanted);
            && (forall e :: e in s.cat.events ==> (e in t.cat.events <==> s.cat.events[e].fixture in t.cat.fixtures))
            && (forall m :: m in s.cat.markets ==> (m in t.cat.markets <==> s.cat.markets[m].event in t.cat.events))
            && (forall x :: x in s.cat.selections ==> (x in t.cat.selections <==> s.cat.selections[x].market in t.cat.markets))
            && (forall x :: x in s.cat.history ==> (x in t.cat.history <==> x in t.cat.selections || x !in s.cat.selections))
  {
    hide HasActiveBets, BetsOn, DeleteRows;
  }

  lemma BetsGoneExactly(s: Store, wanted: set<string>)
    requires Linked(s)
    ensures var t := Purge(s, wanted);
            && (forall b :: b in s.bets ==>
                  (b in t.bets <==> forall i :: 0 <= i < |s.bets[b].legs| ==> s.bets[b].legs[i].selection in t.cat.selections))
            && (forall k :: k in s.rows ==> (k in t.rows <==> k.bet in t.bets))
  {
    hide HasActiveBets;
  }

  /** And what it keeps it keeps as it was. */
  lemma PurgeKeepsRows(s: Store, wanted: set<string>)
    ensures var t := Purge(s, wanted);
            && t.cat.fixtures.Keys <= s.cat.fixtures.Keys && Kept(s.cat.fixtures, t.cat.fixtures) && Kept(s.cat.events, t.cat.events)
            && Kept(s.cat.markets, t.cat.markets) && Kept(s.cat.selections, t.cat.selections) && Kept(s.cat.history, t.cat.history)
            && Kept(s.bets, t.bets) && Kept(s.rows, t.rows)
            && t.cat.sports == s.cat.sports && t.cat.leagues == s.cat.leagues && t.cat.teams == s.cat.teams && t.cat.offered == s.cat.offered
  {
    hide HasActiveBets, FixtureOf;
  }

  /** No leg is left pointing at a missing selection, and no other reference dangles. */
  lemma PurgeKeepsLinks(s: Store, wanted: set<string>)
    requires Linked(s)
    ensures Linked(Purge(s, wanted))
  {
  }

  /** A second run finds nothing to do. */
  lemma SecondPurgeIsNoOp(s: Store, wanted: set<string>)
    requires Linked(s)
    ensures Purge(Purge(s, wanted), wanted) == Purge(s, wanted)
  {
    var t := Purge(s, wanted);
    forall f | f in t.cat.fixtures && f in wanted ensures HasActiveBets(t, f) {
      var b :| b in s.bets && Active(s.bets[b]) && Touches(s.cat, s.bets[b], f);
      PurgeIsSafe(s, wanted);
      TouchesAfter(s, wanted, s.bets[b], f);
    }
    hide Purge, DeleteFixtures, SelectionsOf, BetsOn, DeleteRows, HasActiveBets;
    assert ToPurge(t, wanted) == {};
    PurgeNothing(t, wanted);
  }

  lemma TouchesAfter(s: Store, wanted: set<string>, bet: Bet, f: string)
    requires Linked(s) && Touches(s.cat, bet, f) && f !in ToPurge(s, wanted)
    ensures Touches(Purge(s, wanted).cat, bet, f)
  {
    hide ToPurge, BetsOn, DeleteRows;
    var i :| 0 <= i < |bet.legs| && FixtureOf(s.cat, bet.legs[i].selection) == Some(f);
    assert FixtureOf(Purge(s, wanted).cat, bet.legs[i].selection) == Some(f);
  }

  lemma PurgeNothing(s: Store, wanted: set<string>)
    requires ToPurge(s, wanted) == {}
    ensures Purge(s, wanted) == s
  {
    NothingToDelete(s);
  }
}
