/** Validation of a bet slip: which selections may be bet on, and the quote they give. */
module BetValidation {
  import opened Domain
  import opened BetMath
  import opened Grading

  datatype Limits = Limits(minStake: nat, maxStake: nat, maxPayout: nat)

  datatype Quote = Quote(stake: nat, odds: nat, payout: nat, legs: seq<Leg>)

  datatype Refusal =
    | DuplicateSelections | StakeOutOfRange | SelectionNotFound | NotOffered
    | SelectionNotOpen | MarketNotOpen | EventNotOpen | PayoutTooHigh

  datatype Validation = Quoted(quote: Quote) | Refused(reason: Refusal)

  datatype Checked = Checked(leg: Leg) | Barred(reason: Refusal)

  /** A selection joined with its market, event, fixture and teams. */
  predicate Joined(cat: Catalogue, id: string) {
    && id in cat.selections
    && cat.selections[id].market in cat.markets
    && cat.markets[cat.selections[id].market].event in cat.events
    && TeamNames(cat, cat.events[cat.markets[cat.selections[id].market].event].fixture).Some?
  }

  /** The leg a selection gives, its snapshot columns frozen from the catalogue. */
  function LegFor(cat: Catalogue, id: string): Leg
    requires Joined(cat, id)
  {
    var sel := cat.selections[id];
    Frozen(cat, Leg(id, sel.market, cat.markets[sel.market].event, sel.name, sel.price, None, None, None, None, None))
  }

  function CheckLeg(cat: Catalogue, group: string, id: string): Checked
    requires Joined(cat, id)
  {
    var sel := cat.selections[id];
    var market := cat.markets[sel.market];
    var event := cat.events[market.event];
    if (cat.fixtures[event.fixture].league, group) !in cat.offered then Barred(NotOffered)
    else if sel.status != SelectionStatus.Open then Barred(SelectionNotOpen)
    else if market.status != MarketStatus.Open then Barred(MarketNotOpen)
    else if event.status in {EventStatus.Ended, EventStatus.Cancelled, EventStatus.Suspended} then Barred(EventNotOpen)
    else Checked(LegFor(cat, id))
  }

  predicate NoDuplicates(ids: seq<string>) {
    forall i, j :: 0 <= i < j < |ids| ==> ids[i] != ids[j]
  }

  function Legs(cat: Catalogue, ids: seq<string>): (legs: seq<Leg>)
    requires forall i :: 0 <= i < |ids| ==> Joined(cat, ids[i])
    ensures |legs| == |ids| && forall i :: 0 <= i < |ids| ==> legs[i] == LegFor(cat, ids[i])
  {
    seq(|ids|, i requires 0 <= i < |ids| => LegFor(cat, ids[i]))
  }

  function Prices(legs: seq<Leg>): (prices: seq<nat>)
    ensures |prices| == |legs| && forall i :: 0 <= i < |legs| ==> prices[i] == legs[i].price
  {
    seq(|legs|, i requires 0 <= i < |legs| => legs[i].price)
  }

  function QuoteFor(stake: nat, legs: seq<Leg>): Quote {
    var odds := CombinedOdds(Prices(legs));
    Quote(stake, odds, PotentialPayout(stake, odds), legs)
  }

  /** The first barred leg, if any. */
  function FirstBar(cat: Catalogue, group: string, ids: seq<string>): (r: Option<Refusal>)
    requires forall i :: 0 <= i < |ids| ==> Joined(cat, ids[i])
    ensures r.None? <==> forall i :: 0 <= i < |ids| ==> CheckLeg(cat, group, ids[i]).Checked?
  {
    if ids == [] then None
    else
      var front := FirstBar(cat, group, ids[..|ids| - 1]);
      var last := CheckLeg(cat, group, ids[|ids| - 1]);
      if front.Some? then front else if last.Barred? then Some(last.reason) else None
  }

  function Validate(cat: Catalogue, limits: Limits, group: string, ids: seq<string>, stake: nat): Validation {
    if !NoDuplicates(ids) then Refused(DuplicateSelections)
    else if stake < limits.minStake || stake > limits.maxStake then Refused(StakeOutOfRange)
    else if exists i :: 0 <= i < |ids| && !Joined(cat, ids[i]) then Refused(SelectionNotFound)
    else
      var bar := FirstBar(cat, group, ids);
      if bar.Some? then Refused(bar.value)
      else
        var quote := QuoteFor(stake, Legs(cat, ids));
        if quote.payout > limits.maxPayout then Refused(PayoutTooHigh) else Quoted(quote)
  }

  method ValidatePlacement(cat: Catalogue, limits: Limits, group: string, ids: seq<string>, stake: nat)
    returns (v: Validation)
    ensures v == Validate(cat, limits, group, ids, stake)
  {
    hide CombinedOdds, PotentialPayout, Frozen, CheckLeg, FirstBar, Legs, Joined;
    if !NoDuplicates(ids) {
      return Refused(DuplicateSelections);
    }
    if stake < limits.minStake || stake > limits.maxStake {
      return Refused(StakeOutOfRange);
    }
    if exists i :: 0 <= i < |ids| && !Joined(cat, ids[i]) {
      return Refused(SelectionNotFound);
    }
    var legs: seq<Leg> := [];
    NoLegs(cat, group);
    for n := 0 to |ids|
      invariant FirstBar(cat, group, ids[..n]) == None
      invariant legs == Legs(cat, ids[..n])
    {
      NextLeg(cat, group, ids, n);
      var checked := CheckLeg(cat, group, ids[n]);
      if checked.Barred? {
        BarStays(cat, group, ids, n + 1);
        return Refused(checked.reason);
      }
      legs := legs + [checked.leg];
    }
    assert ids[..|ids|] == ids;
    var quote := QuoteFor(stake, legs);
    v := if quote.payout > limits.maxPayout then Refused(PayoutTooHigh) else Quoted(quote);
  }

  lemma NoLegs(cat: Catalogue, group: string)
    ensures FirstBar(cat, group, []) == None && Legs(cat, []) == []
  {}

  lemma NextLeg(cat: Catalogue, group: string, ids: seq<string>, n: nat)
    requires n < |ids| && forall i :: 0 <= i < |ids| ==> Joined(cat, ids[i])
    requires FirstBar(cat, group, ids[..n]) == None
    ensures var checked := CheckLeg(cat, group, ids[n]);
            if checked.Barred? then FirstBar(cat, group, ids[..n + 1]) == Some(checked.reason)
            else FirstBar(cat, group, ids[..n + 1]) == None && Legs(cat, ids[..n + 1]) == Legs(cat, ids[..n]) + [checked.leg]
  {
    hide Frozen, Joined;
    assert ids[..n + 1][..n] == ids[..n];
  }

  lemma {:induction false} BarStays(cat: Catalogue, group: string, ids: seq<string>, n: nat)
    requires n <= |ids| && forall i :: 0 <= i < |ids| ==> Joined(cat, ids[i])
    requires FirstBar(cat, group, ids[..n]).Some?
    ensures FirstBar(cat, group, ids) == FirstBar(cat, group, ids[..n])
  {
    if n == |ids| {
      assert ids[..n] == ids;
    } else {
      var front := ids[..|ids| - 1];
      assert front[..n] == ids[..n];
      BarStays(cat, group, front, n);
    }
  }

  /** What a selection must be to be bet on by a tenant's user. */
  predicate Bettable(cat: Catalogue, group: string, id: string) {
    && Joined(cat, id)
    && var sel := cat.selections[id];
       var market := cat.markets[sel.market];
       var event := cat.events[market.event];
       && (cat.fixtures[event.fixture].league, group) in cat.offered
       && sel.status == SelectionStatus.Open && market.status == MarketStatus.Open
       && (event.status == EventStatus.Scheduled || event.status == EventStatus.Live)
  }

  /** A slip is quoted exactly when its selections are distinct and bettable, its stake is within bounds
      and its payout within the cap. */
  lemma QuotedExactly(cat: Catalogue, limits: Limits, group: string, ids: seq<string>, stake: nat)
    ensures Validate(cat, limits, group, ids, stake).Quoted?
            <==> && NoDuplicates(ids) && limits.minStake <= stake <= limits.maxStake
                 && (forall i :: 0 <= i < |ids| ==> Bettable(cat, group, ids[i]))
                 && QuoteFor(stake, Legs(cat, ids)).payout <= limits.maxPayout
  {
    hide QuoteFor, Frozen, NoDuplicates;
    forall i | 0 <= i < |ids| && Joined(cat, ids[i]) ensures Bettable(cat, group, ids[i]) <==> CheckLeg(cat, group, ids[i]).Checked? {}
  }

  /** Why a slip whose i-th selection is the first one that is not bettable is refused: the league is not
      offered, the selection or its market is not open, or the event is neither to come nor on. */
  predicate BarredFor(cat: Catalogue, group: string, id: string, reason: Refusal)
    requires Joined(cat, id)
  {
    var sel := cat.selections[id];
    var market := cat.markets[sel.market];
    var event := cat.events[market.event];
    if (cat.fixtures[event.fixture].league, group) !in cat.offered then reason == NotOffered
    else if sel.status != SelectionStatus.Open then reason == SelectionNotOpen
    else if market.status != MarketStatus.Open then reason == MarketNotOpen
    else reason == EventNotOpen && event.status != EventStatus.Scheduled && event.status != EventStatus.Live
  }

  lemma {:induction false} FirstBarIsFirst(cat: Catalogue, group: string, ids: seq<string>, i: nat)
    requires i < |ids| && forall j :: 0 <= j < |ids| ==> Joined(cat, ids[j])
    requires CheckLeg(cat, group, ids[i]).Barred? && forall j :: 0 <= j < i ==> CheckLeg(cat, group, ids[j]).Checked?
    ensures FirstBar(cat, group, ids) == Some(CheckLeg(cat, group, ids[i]).reason)
  {
    hide CheckLeg, Joined;
    if i < |ids| - 1 {
      FirstBarIsFirst(cat, group, ids[..|ids| - 1], i);
    }
  }

  /** The refusal of a slip: a repeated selection first, then the stake, then an unknown selection, then the
      first selection that is not bettable, and last the payout. */
  lemma RefusedExactly(cat: Catalogue, limits: Limits, group: string, ids: seq<string>, stake: nat)
    ensures var v := Validate(cat, limits, group, ids, stake);
            if exists i, j :: 0 <= i < j < |ids| && ids[i] == ids[j] then v == Refused(DuplicateSelections)
            else if stake < limits.minStake || limits.maxStake < stake then v == Refused(StakeOutOfRange)
            else if exists i :: 0 <= i < |ids| && !Joined(cat, ids[i]) then v == Refused(SelectionNotFound)
            else
              && (forall i :: 0 <= i < |ids| && !Bettable(cat, group, ids[i]) && (forall j :: 0 <= j < i ==> Bettable(cat, group, ids[j])) ==>
                    v.Refused? && BarredFor(cat, group, ids[i], v.reason))
              && ((forall i :: 0 <= i < |ids| ==> Bettable(cat, group, ids[i])) ==>
                    (v.Refused? <==> QuoteFor(stake, Legs(cat, ids)).payout > limits.maxPayout) && (v.Refused? ==> v.reason == PayoutTooHigh))
  {
    hide QuoteFor, Frozen, FirstBar;
    if NoDuplicates(ids) && forall i :: 0 <= i < |ids| ==> Joined(cat, ids[i]) {
      forall i | 0 <= i < |ids|
        ensures Bettable(cat, group, ids[i]) <==> CheckLeg(cat, group, ids[i]).Checked?
        ensures CheckLeg(cat, group, ids[i]).Barred? ==> BarredFor(cat, group, ids[i], CheckLeg(cat, group, ids[i]).reason)
      {}
      hide CheckLeg, Bettable, BarredFor, Joined, Legs;
      forall i | 0 <= i < |ids| && !Bettable(cat, group, ids[i]) && forall j :: 0 <= j < i ==> Bettable(cat, group, ids[j])
        ensures FirstBar(cat, group, ids) == Some(CheckLeg(cat, group, ids[i]).reason)
      {
        FirstBarIsFirst(cat, group, ids, i);
      }
    }
  }

  /** Everything a caller may rely on about a quote: its legs are the selections asked for, with their
      current price, market and event and the rules frozen from the catalogue; the odds are those of the
      prices, at least every leg price; and the payout is the exact floor of stake times odds. */
  lemma QuoteIsSound(cat: Catalogue, limits: Limits, group: string, ids: seq<string>, stake: nat)
    requires Validate(cat, limits, group, ids, stake).Quoted?
    ensures var q := Validate(cat, limits, group, ids, stake).quote;
            && q.stake == stake && |q.legs| == |ids|
            && (forall i :: 0 <= i < |ids| ==> LegOf(cat, ids[i], q.legs[i]))
            && q.odds == CombinedOdds(Prices(q.legs)) && q.payout <= limits.maxPayout
            && (limits.maxPayout <= EXACT_CAP ==> q.payout * 1000 <= stake * q.odds < (q.payout + 1) * 1000)
            && ((forall i :: 0 <= i < |ids| ==> 1000 <= q.legs[i].price < DIGITS_LIMIT) ==>
                  forall i :: 0 <= i < |ids| ==> q.odds >= q.legs[i].price)
  {
    var q := Validate(cat, limits, group, ids, stake).quote;
    if limits.maxPayout <= EXACT_CAP {
      CapGuardsExactness(limits.maxPayout);
    }
    forall i | 0 <= i < |ids| ensures LegOf(cat, ids[i], q.legs[i]) {
      assert CheckLeg(cat, group, ids[i]).Checked?;
    }
    if forall i :: 0 <= i < |ids| ==> 1000 <= q.legs[i].price < DIGITS_LIMIT {
      forall i | 0 <= i < |ids| ensures q.odds >= q.legs[i].price {
        CombinedOddsAtLeastEachLeg(Prices(q.legs), i);
      }
    }
  }

  /** An undecided leg on this selection, priced and named as in the catalogue, with its rules frozen. */
  predicate LegOf(cat: Catalogue, id: string, leg: Leg) {
    && id in cat.selections && cat.selections[id].market in cat.markets
    && cat.markets[cat.selections[id].market].event in cat.events
    && leg.selection == id && leg.market == cat.selections[id].market && leg.event == cat.markets[leg.market].event
    && leg.selectionName == cat.selections[id].name && leg.price == cat.selections[id].price && leg.outcome == None
    && leg.marketType == Some(cat.markets[leg.market].kind) && leg.marketLine == cat.markets[leg.market].line
    && cat.events[leg.event].fixture in cat.fixtures
    && var f := cat.fixtures[cat.events[leg.event].fixture];
       && f.home in cat.teams && leg.homeTeamName == Some(cat.teams[f.home].name)
       && f.away in cat.teams && leg.awayTeamName == Some(cat.teams[f.away].name)
  }
}
