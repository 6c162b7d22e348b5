/** Grading of legs and bets: the four per-market rules, the frozen leg snapshot, and the
    aggregation of leg results into a bet result and a payout. */
module Grading {
  import opened Domain
  import opened Text

  /** Scores arrive as integers; the line is in hundredths, None standing for a null column. */
  datatype LegInput = LegInput(
    kind: MarketType,
    marketStatus: MarketStatus,
    line: Option<int>,
    selectionName: string,
    homeTeamName: string,
    awayTeamName: string,
    homeScore: Option<int>,
    awayScore: Option<int>)

  datatype LegContext = LegContext(eventStatus: EventStatus, input: LegInput)

  /** `Number(null)` is 0, so a missing line grades as a zero line. */
  function LineOf(line: Option<int>): int {
    if line.Some? then line.value else 0
  }

  function Versus(mine: int, theirs: int): LegResult {
    if mine == theirs then LegResult.Void else if mine > theirs then LegResult.Won else LegResult.Lost
  }

  function WonIf(b: bool): LegResult {
    if b then LegResult.Won else LegResult.Lost
  }

  function MatchResult(i: LegInput, h: int, a: int): LegResult {
    var name := Lower(Trim(i.selectionName));
    if name == "draw" || name == "x" then WonIf(h == a)
    else if name == Lower(Trim(i.homeTeamName)) then WonIf(h > a)
    else if name == Lower(Trim(i.awayTeamName)) then WonIf(a > h)
    else LegResult.Lost
  }

  function Total(i: LegInput, h: int, a: int): Option<LegResult> {
    var total := 100 * (h + a);
    var line := LineOf(i.line);
    var name := Lower(i.selectionName);
    if total == line then Some(LegResult.Void)
    else if Contains(name, "over") then Some(WonIf(total > line))
    else if Contains(name, "under") then Some(WonIf(total < line))
    else None
  }

  function Handicap(i: LegInput, h: int, a: int): Option<LegResult> {
    var line := LineOf(i.line);
    var name := Lower(i.selectionName);
    if Contains(name, Lower(i.homeTeamName)) then Some(Versus(100 * h + line, 100 * a))
    else if Contains(name, Lower(i.awayTeamName)) then Some(Versus(100 * a - line, 100 * h))
    else None
  }

  function BothTeamsScore(i: LegInput, h: int, a: int): LegResult {
    var both := h > 0 && a > 0;
    var name := Lower(i.selectionName);
    if Contains(name, "yes") then WonIf(both)
    else if Contains(name, "no") then WonIf(!both)
    else LegResult.Lost
  }

  function Evaluate(i: LegInput): Option<LegResult> {
    if i.marketStatus == MarketStatus.Void then Some(LegResult.Void)
    else if i.homeScore.None? || i.awayScore.None? then None
    else
      var h, a := i.homeScore.value, i.awayScore.value;
      match i.kind
      case MatchResult => Some(MatchResult(i, h, a))
      case Total => Total(i, h, a)
      case Handicap => Handicap(i, h, a)
      case BothTeamsScore => Some(BothTeamsScore(i, h, a))
      case DoubleChance => None
  }

  predicate HasSnapshot(leg: Leg) {
    leg.marketType.Some? && leg.homeTeamName.Some? && leg.awayTeamName.Some?
  }

  /** Rules come from the leg when it carries a snapshot and from the catalogue otherwise; event
      status, scores and market status always come from the catalogue. */
  function LoadLegContext(cat: Catalogue, leg: Leg): Option<LegContext> {
    if leg.event !in cat.events || leg.market !in cat.markets then None
    else
      var event, market := cat.events[leg.event], cat.markets[leg.market];
      if HasSnapshot(leg) then
        Some(LegContext(event.status,
                        LegInput(leg.marketType.value, market.status, leg.marketLine, leg.selectionName,
                                 leg.homeTeamName.value, leg.awayTeamName.value, event.homeScore, event.awayScore)))
      else
        var names := TeamNames(cat, event.fixture);
        if leg.selection !in cat.selections || names.None? then None
        else
          Some(LegContext(event.status,
                          LegInput(market.kind, market.status, market.line, leg.selectionName,
                                   names.value.0, names.value.1, event.homeScore, event.awayScore)))
  }

  /** The event is over and its market is closed. */
  predicate Settleable(ctx: LegContext) {
    ctx.eventStatus == EventStatus.Ended
    && (ctx.input.marketStatus == MarketStatus.Settled || ctx.input.marketStatus == MarketStatus.Void)
  }

  function GradeLeg(cat: Catalogue, leg: Leg): Option<LegResult> {
    var ctx := LoadLegContext(cat, leg);
    if ctx.Some? && Settleable(ctx.value) then Evaluate(ctx.value.input) else None
  }

  /** All legs or nothing. */
  function GradeLegs(cat: Catalogue, legs: seq<Leg>): (r: Option<seq<LegResult>>)
    ensures r.Some? <==> forall i :: 0 <= i < |legs| ==> GradeLeg(cat, legs[i]).Some?
    ensures r.Some? ==> |r.value| == |legs| && forall i :: 0 <= i < |legs| ==> Some(r.value[i]) == GradeLeg(cat, legs[i])
  {
    if legs == [] then Some([])
    else
      var front, last := GradeLegs(cat, legs[..|legs| - 1]), GradeLeg(cat, legs[|legs| - 1]);
      if front.Some? && last.Some? then Some(front.value + [last.value]) else None
  }

  /** A leg gets a result only when its event is ended and its market settled or void; a void market voids
      the leg, and any other result rests on both scores. */
  lemma GradedOnlyWhenDecided(cat: Catalogue, leg: Leg)
    requires GradeLeg(cat, leg).Some?
    ensures leg.event in cat.events && leg.market in cat.markets && cat.events[leg.event].status == EventStatus.Ended
    ensures cat.markets[leg.market].status == MarketStatus.Void ==> GradeLeg(cat, leg) == Some(LegResult.Void)
    ensures cat.markets[leg.market].status != MarketStatus.Void ==>
              cat.markets[leg.market].status == MarketStatus.Settled
              && cat.events[leg.event].homeScore.Some? && cat.events[leg.event].awayScore.Some?
  {
    hide MatchResult, Total, Handicap, BothTeamsScore;
  }

  function Aggregate(results: seq<LegResult>): LegResult {
    if LegResult.Void in results then LegResult.Void
    else if LegResult.Lost in results then LegResult.Lost
    else LegResult.Won
  }

  function PayoutFor(stake: nat, potentialPayout: nat, result: LegResult): nat {
    match result
    case Won => potentialPayout
    case Void => stake
    case Lost => 0
  }

  function StatusOf(result: LegResult): BetStatus {
    match result
    case Won => BetStatus.Won
    case Lost => BetStatus.Lost
    case Void => BetStatus.Void
  }

  /** What settlement reads of the live store for one leg. */
  predicate SameResultState(c1: Catalogue, c2: Catalogue, leg: Leg) {
    && (leg.event in c1.events <==> leg.event in c2.events)
    && (leg.market in c1.markets <==> leg.market in c2.markets)
    && (leg.event in c1.events ==>
          && c1.events[leg.event].status == c2.events[leg.event].status
          && c1.events[leg.event].homeScore == c2.events[leg.event].homeScore
          && c1.events[leg.event].awayScore == c2.events[leg.event].awayScore)
    && (leg.market in c1.markets ==> c1.markets[leg.market].status == c2.markets[leg.market].status)
  }

  /** Catalogue edits after placement cannot change a snapshotted bet: two stores that agree on
      the legs' event status, scores and market status give the same leg results, hence the same
      bet result and payout, whatever happened to names, market type, line or selections. */
  lemma {:induction false} GradingIgnoresCatalogueEdits(c1: Catalogue, c2: Catalogue, legs: seq<Leg>)
    requires forall i :: 0 <= i < |legs| ==> HasSnapshot(legs[i]) && SameResultState(c1, c2, legs[i])
    ensures GradeLegs(c1, legs) == GradeLegs(c2, legs)
  {
    if legs != [] {
      GradingIgnoresCatalogueEdits(c1, c2, legs[..|legs| - 1]);
      var last := legs[|legs| - 1];
      assert HasSnapshot(last) && SameResultState(c1, c2, last);
    }
  }

  /** The catalogue columns a snapshot freezes, unchanged between two stores. */
  predicate SameRules(c1: Catalogue, c2: Catalogue, leg: Leg)
    requires leg.event in c1.events && leg.market in c1.markets
  {
    && leg.event in c2.events && leg.market in c2.markets && leg.selection in c2.selections
    && c1.markets[leg.market].kind == c2.markets[leg.market].kind
    && c1.markets[leg.market].line == c2.markets[leg.market].line
    && TeamNames(c1, c1.events[leg.event].fixture) == TeamNames(c2, c2.events[leg.event].fixture)
  }

  /** The leg columns written at placement from the catalogue of that moment. */
  function Frozen(cat: Catalogue, leg: Leg): Leg
    requires leg.event in cat.events && leg.market in cat.markets
    requires TeamNames(cat, cat.events[leg.event].fixture).Some?
  {
    var names := TeamNames(cat, cat.events[leg.event].fixture).value;
    leg.(marketType := Some(cat.markets[leg.market].kind), marketLine := cat.markets[leg.market].line,
         homeTeamName := Some(names.0), awayTeamName := Some(names.1))
  }

  /** Freezing is sound: while the frozen columns still match the catalogue, a snapshotted leg and
      the same leg without a snapshot load the same grading context. */
  lemma SnapshotMatchesLiveRules(placed: Catalogue, now: Catalogue, leg: Leg)
    requires leg.event in placed.events && leg.market in placed.markets
    requires TeamNames(placed, placed.events[leg.event].fixture).Some?
    requires SameRules(placed, now, leg) && !HasSnapshot(leg)
    ensures HasSnapshot(Frozen(placed, leg))
    ensures LoadLegContext(now, Frozen(placed, leg)) == LoadLegContext(now, leg)
  {}

  /** A leg without a snapshot does follow the catalogue: one rename of the home team turns a
      winning leg into a losing one. */
  lemma UnfrozenLegsFollowRenames() returns (before: Catalogue, after: Catalogue, leg: Leg)
    ensures !HasSnapshot(leg) && SameResultState(before, after, leg)
    ensures GradeLeg(before, leg) == Some(LegResult.Won) && GradeLeg(after, leg) == Some(LegResult.Lost)
  {
    leg := Leg("s", "m", "e", "h", 2000, None, None, None, None, None);
    before := Catalogue(map[], map[], map["h" := Team("k", "h"), "a" := Team("k", "bbb")],
                        map["f" := Fixture("l", "h", "a", 0, FixtureStatus.Ended)],
                        map["e" := Event("f", EventStatus.Ended, Some(1), Some(0))],
                        map["m" := Market("e", MarketType.MatchResult, MarketStatus.Settled, None)],
                        map["s" := Selection("m", "h", SelectionStatus.Settled, 2000)], map[], {});
    after := before.(teams := before.teams["h" := Team("k", "hh")]);
    hide Total, Handicap, BothTeamsScore, Trim, Lower;
    ShortNames();
  }

  lemma ShortNames()
    ensures Trim("h") == "h" && Trim("hh") == "hh" && Trim("bbb") == "bbb"
    ensures |Lower("h")| == 1 && |Lower("hh")| == 2 && |Lower("bbb")| == 3 && Lower("h")[0] == 'h'
  {}

  /** Exactly the legs with a snapshot are independent of catalogue edits. */
  lemma SnapshotsDecideIndependence(leg: Leg)
    ensures (forall c1, c2 :: SameResultState(c1, c2, leg) ==> GradeLeg(c1, leg) == GradeLeg(c2, leg)) <==> HasSnapshot(leg)
  {
    if HasSnapshot(leg) {
      forall c1, c2 | SameResultState(c1, c2, leg) ensures GradeLeg(c1, leg) == GradeLeg(c2, leg) {}
    } else {
      var c1 := Catalogue(map[], map[], map["h" := Team("k", "h")], map["f" := Fixture("l", "h", "h", 0, FixtureStatus.Ended)],
                          map[leg.event := Event("f", EventStatus.Ended, None, None)],
                          map[leg.market := Market(leg.event, MarketType.MatchResult, MarketStatus.Void, None)],
                          map[leg.selection := Selection(leg.market, "h", SelectionStatus.Void, 0)], map[], {});
      var c2 := c1.(selections := map[]);
      assert SameResultState(c1, c2, leg);
      assert GradeLeg(c1, leg) == Some(LegResult.Void) && GradeLeg(c2, leg) == None;
    }
  }

  /** One void leg voids the slip; otherwise one lost leg loses it; it is won only when every leg is. */
  lemma AggregateMeaning(results: seq<LegResult>)
    ensures Aggregate(results) == LegResult.Won <==> forall i :: 0 <= i < |results| ==> results[i] == LegResult.Won
    ensures Aggregate(results) == LegResult.Void <==> exists i :: 0 <= i < |results| && results[i] == LegResult.Void
  {
    if Aggregate(results) == LegResult.Won {
      forall i | 0 <= i < |results| ensures results[i] == LegResult.Won {
        assert results[i] in results;
      }
    }
  }
}
