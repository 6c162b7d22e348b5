/** From the catalogue's rows to the result of a leg: which score belongs to which side, which names, market
    type and line apply, and what each kind of selection then gets, for frozen and for unfrozen legs. */
module LegGrades {
  import opened Domain
  import opened Text
  import opened Grading
  import opened OddsLabels
  import opened BetValidation
  import opened SpreadLabels
  import Ledger

  /** The leg's event is over at h to a, and its market is settled. */
  predicate EndedAt(now: Catalogue, leg: Leg, h: int, a: int) {
    && leg.event in now.events && now.events[leg.event].status == EventStatus.Ended
    && now.events[leg.event].homeScore == Some(h) && now.events[leg.event].awayScore == Some(a)
    && leg.market in now.markets && now.markets[leg.market].status == MarketStatus.Settled
  }

  /** The fixture of the event is between these two teams. */
  predicate Between(cat: Catalogue, event: string, home: string, away: string) {
    && event in cat.events && cat.events[event].fixture in cat.fixtures
    && var f := cat.fixtures[cat.events[event].fixture];
       && f.home in cat.teams && cat.teams[f.home].name == home
       && f.away in cat.teams && cat.teams[f.away].name == away
  }

  /** The leg's selection and its market in the catalogue, with this type and line, on a fixture between
      these two teams. */
  predicate LiveRules(cat: Catalogue, leg: Leg, kind: MarketType, line: Option<int>, home: string, away: string) {
    && leg.selection in cat.selections && leg.market in cat.markets && Between(cat, leg.event, home, away)
    && cat.markets[leg.market].kind == kind && cat.markets[leg.market].line == line
  }

  /** The rules a leg is graded by: the four columns frozen on it, or the catalogue's when its type or one of
      its team names is missing. */
  predicate Ruled(now: Catalogue, leg: Leg, kind: MarketType, line: Option<int>, home: string, away: string) {
    if leg.marketType == None || leg.homeTeamName == None || leg.awayTeamName == None
    then LiveRules(now, leg, kind, line, home, away)
    else leg.marketType == Some(kind) && leg.marketLine == line && leg.homeTeamName == Some(home) && leg.awayTeamName == Some(away)
  }

  lemma RuledInput(now: Catalogue, leg: Leg, kind: MarketType, line: Option<int>, home: string, away: string, h: int, a: int)
    requires EndedAt(now, leg, h, a) && Ruled(now, leg, kind, line, home, away)
    ensures GradeLeg(now, leg)
         == Evaluate(LegInput(kind, MarketStatus.Settled, line, leg.selectionName, home, away, Some(h), Some(a)))
  {
    hide Evaluate;
  }

  /** The same name up to case and surrounding blanks. */
  predicate Alike(x: string, y: string) {
    Lower(Trim(x)) == Lower(Trim(y))
  }

  /** Match results: the home outcome wins exactly when h > a, the away outcome when a > h, the draw when the
      scores are level; any other name loses. */
  lemma WinnerLeg(now: Catalogue, leg: Leg, line: Option<int>, home: string, away: string, h: int, a: int)
    requires EndedAt(now, leg, h, a) && Ruled(now, leg, MarketType.MatchResult, line, home, away) && Distinguished(home, away)
    ensures var name := leg.selectionName;
            GradeLeg(now, leg)
            == Some(if Alike(name, home) then (if h > a then LegResult.Won else LegResult.Lost)
                    else if Alike(name, away) then (if a > h then LegResult.Won else LegResult.Lost)
                    else if Alike(name, "Draw") || Alike(name, "x") then (if h == a then LegResult.Won else LegResult.Lost)
                    else LegResult.Lost)
  {
    RuledInput(now, leg, MarketType.MatchResult, line, home, away, h, a);
    assert Trim("Draw") == "Draw" && Lower("Draw") == "draw" && Trim("x") == "x" && Lower("x") == "x";
    hide GradeLeg, Trim, Lower;
  }

  /** Spreads: the home side wins on h plus the line against a, the away side on a less the line against h;
      the leg is void when they are level. */
  lemma SpreadLeg(now: Catalogue, leg: Leg, line: Option<int>, home: string, away: string, o: Outcome, h: int, a: int)
    requires EndedAt(now, leg, h, a) && Ruled(now, leg, MarketType.Handicap, line, home, away)
    requires leg.selectionName == SelectionLabel(o) && (o.name == home || o.name == away)
    ensures var x := if line == None then 0 else line.value;
            && (o.name == home ==> GradeLeg(now, leg) == Some(if 100 * h + x > 100 * a then LegResult.Won
                                                             else if 100 * h + x == 100 * a then LegResult.Void
                                                             else LegResult.Lost))
            && (o.name == away && !Contains(Lower(leg.selectionName), Lower(home)) ==>
                  GradeLeg(now, leg) == Some(if 100 * a - x > 100 * h then LegResult.Won
                                             else if 100 * a - x == 100 * h then LegResult.Void
                                             else LegResult.Lost))
  {
    RuledInput(now, leg, MarketType.Handicap, line, home, away, h, a);
    hide GradeLeg, Contains, SelectionLabel, Grading.Handicap;
    HandicapGrade(LegInput(MarketType.Handicap, MarketStatus.Settled, line, leg.selectionName, home, away, Some(h), Some(a)), o, h, a);
  }

  /** Totals: over wins on more goals than the line, under on fewer; level is void. */
  lemma TotalLeg(now: Catalogue, leg: Leg, line: Option<int>, home: string, away: string, o: Outcome, h: int, a: int)
    requires EndedAt(now, leg, h, a) && Ruled(now, leg, MarketType.Total, line, home, away)
    requires leg.selectionName == SelectionLabel(o) && (o.name == "Over" || o.name == "Under")
    ensures var x, goals := if line == None then 0 else line.value, 100 * (h + a);
            && (goals == x ==> GradeLeg(now, leg) == Some(LegResult.Void))
            && (goals > x ==> GradeLeg(now, leg) == Some(if o.name == "Over" then LegResult.Won else LegResult.Lost))
            && (goals < x ==> GradeLeg(now, leg) == Some(if o.name == "Under" then LegResult.Won else LegResult.Lost))
  {
    RuledInput(now, leg, MarketType.Total, line, home, away, h, a);
    hide GradeLeg, Contains, SelectionLabel, Grading.Total;
    TotalsGrade(LegInput(MarketType.Total, MarketStatus.Settled, line, leg.selectionName, home, away, Some(h), Some(a)), o, h, a);
  }

  /** Both teams to score: yes wins exactly when both do, no exactly when one does not; double chance is not
      graded. */
  lemma OtherLeg(now: Catalogue, leg: Leg, line: Option<int>, home: string, away: string, h: int, a: int)
    requires EndedAt(now, leg, h, a)
    ensures Ruled(now, leg, MarketType.BothTeamsScore, line, home, away) ==>
              && (leg.selectionName == "Yes" ==> GradeLeg(now, leg) == Some(if h > 0 && a > 0 then LegResult.Won else LegResult.Lost))
              && (leg.selectionName == "No" ==> GradeLeg(now, leg) == Some(if h > 0 && a > 0 then LegResult.Lost else LegResult.Won))
    ensures Ruled(now, leg, MarketType.DoubleChance, line, home, away) ==> GradeLeg(now, leg) == None
  {
    YesAndNo();
    hide GradeLeg, Contains, Lower, Ruled;
    if Ruled(now, leg, MarketType.BothTeamsScore, line, home, away) {
      RuledInput(now, leg, MarketType.BothTeamsScore, line, home, away, h, a);
    }
    if Ruled(now, leg, MarketType.DoubleChance, line, home, away) {
      RuledInput(now, leg, MarketType.DoubleChance, line, home, away, h, a);
    }
  }

  lemma YesAndNo()
    ensures Contains(Lower("Yes"), "yes") && Contains(Lower("No"), "no") && !Contains(Lower("No"), "yes")
  {
    assert Lower("Yes") == "yes" && Lower("No") == "no";
    assert OccursAt("yes", "yes", 0) && OccursAt("no", "no", 0);
  }

  /** The leg that placement stores for a selection is graded, under every later catalogue, by the type and
      line of the selection's market and the teams of its fixture as they were at placement. */
  lemma QuotedLegIsFrozen(placed: Catalogue, limits: Limits, group: string, ids: seq<string>, stake: nat, now: Catalogue, i: nat)
    requires Validate(placed, limits, group, ids, stake).Quoted? && i < |ids|
    ensures ids[i] in placed.selections && placed.selections[ids[i]].market in placed.markets
    ensures var legs := Validate(placed, limits, group, ids, stake).quote.legs;
            var m := placed.markets[placed.selections[ids[i]].market];
            && i < |legs| && legs[i].selectionName == placed.selections[ids[i]].name
            && legs[i].market == placed.selections[ids[i]].market && legs[i].event == m.event
            && forall home, away :: Between(placed, m.event, home, away) <==> Ruled(now, legs[i], m.kind, m.line, home, away)
  {
    QuoteIsSound(placed, limits, group, ids, stake);
    hide Validate;
    var legs := Validate(placed, limits, group, ids, stake).quote.legs;
    assert LegOf(placed, ids[i], legs[i]);
  }

  /** Settling stores exactly these grades: a bet is closed only when every leg has one, and then each leg
      keeps its own. */
  lemma SettlingStoresGrades(s: Ledger.State, b: nat, batch: nat)
    requires b < |s.bets| && s.bets[b].status == BetStatus.Accepted && Ledger.Key(b, Ledger.Settle) !in s.rows
    ensures var t, legs := Ledger.DoSettle(s, b, batch), s.bets[b].legs;
            && |t.bets| == |s.bets| && |t.bets[b].legs| == |legs|
            && (t.bets[b].status != BetStatus.Accepted <==> forall i :: 0 <= i < |legs| ==> GradeLeg(s.cat, legs[i]) != None)
            && (t.bets[b].status != BetStatus.Accepted ==> forall i :: 0 <= i < |legs| ==>
                  t.bets[b].legs[i] == legs[i].(outcome := GradeLeg(s.cat, legs[i])))
  {
    hide GradeLeg;
  }
}
