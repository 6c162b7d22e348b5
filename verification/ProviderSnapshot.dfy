/** The provider-neutral snapshot: lists of (unique reference, row) mapped to internal shapes. */
module ProviderSnapshot {
  import opened Domain
  import opened OddsLabels

  /** A selection as received, its price not yet rounded to the column's three decimals. */
  datatype NewSelection = NewSelection(market: string, name: string, status: SelectionStatus, price: Price)

  datatype Snapshot = Snapshot(
    sports: seq<(string, Sport)>,
    leagues: seq<(string, League)>,
    teams: seq<(string, Team)>,
    fixtures: seq<(string, Fixture)>,
    events: seq<(string, Event)>,
    markets: seq<(string, Market)>,
    selections: seq<(string, NewSelection)>)

  /** The references of a list. */
  function Refs<V>(list: seq<(string, V)>): (refs: set<string>)
    ensures forall i :: 0 <= i < |list| ==> list[i].0 in refs
    ensures forall ref :: ref in refs ==> exists i :: 0 <= i < |list| && list[i].0 == ref
  {
    set i | 0 <= i < |list| :: list[i].0
  }

  /** The row with this reference, the first if there were several. */
  function RowOf<V>(list: seq<(string, V)>, ref: string): Option<V> {
    if list == [] then None else if list[0].0 == ref then Some(list[0].1) else RowOf(list[1..], ref)
  }

  predicate UniqueRefs<V>(list: seq<(string, V)>) {
    forall i, j :: 0 <= i < j < |list| ==> list[i].0 != list[j].0
  }

  /** Every parent a row refers to is in the snapshot. */
  predicate Closed(snap: Snapshot) {
    && (forall i :: 0 <= i < |snap.leagues| ==> snap.leagues[i].1.sport in Refs(snap.sports))
    && (forall i :: 0 <= i < |snap.teams| ==> snap.teams[i].1.sport in Refs(snap.sports))
    && (forall i :: 0 <= i < |snap.fixtures| ==>
          && snap.fixtures[i].1.league in Refs(snap.leagues)
          && snap.fixtures[i].1.home in Refs(snap.teams) && snap.fixtures[i].1.away in Refs(snap.teams))
    && (forall i :: 0 <= i < |snap.events| ==> snap.events[i].1.fixture in Refs(snap.fixtures))
    && (forall i :: 0 <= i < |snap.markets| ==> snap.markets[i].1.event in Refs(snap.events))
    && (forall i :: 0 <= i < |snap.selections| ==> snap.selections[i].1.market in Refs(snap.markets))
  }

  predicate AllUnique(snap: Snapshot) {
    && UniqueRefs(snap.sports) && UniqueRefs(snap.leagues) && UniqueRefs(snap.teams) && UniqueRefs(snap.fixtures)
    && UniqueRefs(snap.events) && UniqueRefs(snap.markets) && UniqueRefs(snap.selections)
  }

  /** A market is settled exactly when its event is ended. */
  predicate StatusesAgree(snap: Snapshot) {
    forall i, j :: 0 <= i < |snap.markets| && 0 <= j < |snap.events| && snap.events[j].0 == snap.markets[i].1.event ==>
      (snap.markets[i].1.status == MarketStatus.Settled <==> snap.events[j].1.status == EventStatus.Ended)
  }
}
