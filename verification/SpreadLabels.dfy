/** Labels against grades. Every outcome of a spread or total market is labelled with its own point,
    but graded with the market's single line, the point of the first pointed outcome. */
module SpreadLabels {
  import opened Domain
  import opened Text
  import opened Grading
  import opened OddsLabels
  import opened BetValidation

  /** The leg as it is graded: closed market, the market's line, the outcome's label. */
  function Input(kind: MarketType, line: int, o: Outcome, home: string, away: string, h: int, a: int): LegInput {
    LegInput(kind, MarketStatus.Settled, Some(line), SelectionLabel(o), home, away, Some(h), Some(a))
  }

  /** What the label says: the named side wins with its own point added to its score. */
  function OwnSpread(atHome: bool, point: int, h: int, a: int): LegResult {
    if atHome then Versus(100 * h + point, 100 * a) else Versus(100 * a + point, 100 * h)
  }

  /** Lines that no whole-goal margin tells apart. */
  predicate SameLine(x: int, y: int) {
    x / 100 == y / 100 && (x % 100 == 0 <==> y % 100 == 0)
  }

  lemma SameLineMeaning(x: int, y: int)
    ensures (forall d: int :: Versus(100 * d + x, 0) == Versus(100 * d + y, 0)) <==> SameLine(x, y)
  {
    if !SameLine(x, y) {
      if x / 100 != y / 100 {
        var d := -(if x / 100 > y / 100 then x / 100 else y / 100);
        assert 100 * d + x >= 0 <==> 100 * d + y < 0;
        assert Versus(100 * d + x, 0) != Versus(100 * d + y, 0);
      } else {
        assert Versus(100 * -(x / 100) + x, 0) != Versus(100 * -(y / 100) + y, 0);
      }
    } else {
      forall d: int ensures Versus(100 * d + x, 0) == Versus(100 * d + y, 0) {
        assert 100 * d + x > 0 <==> 100 * d + y > 0;
      }
    }
  }

  /** The label of an outcome contains the outcome's name, whatever the case. */
  lemma LabelNamesTeam(o: Outcome)
    ensures Contains(Lower(SelectionLabel(o)), Lower(o.name))
  {
    hide Show;
    assert o.name + "" == o.name;
    PrefixContained(o.name, "");
    if o.point.Some? {
      PrefixContained(o.name, " " + PointText(o));
    }
  }

  /** How a spread outcome that names one of the teams is graded: the home side gets the market line;
      the away side gets its opposite, unless the home name also occurs in the away label. */
  lemma HandicapGrade(i: LegInput, o: Outcome, h: int, a: int)
    requires i.selectionName == SelectionLabel(o) && (o.name == i.homeTeamName || o.name == i.awayTeamName)
    ensures var inHome := Contains(Lower(i.selectionName), Lower(i.homeTeamName));
            (o.name == i.homeTeamName ==> inHome)
            && Grading.Handicap(i, h, a) == Some(OwnSpread(inHome, if inHome then LineOf(i.line) else 0 - LineOf(i.line), h, a))
  {
    hide Contains, Show, SelectionLabel;
    LabelNamesTeam(o);
  }

  lemma SpreadGrade(line: int, o: Outcome, home: string, away: string, h: int, a: int)
    requires o.name == home || o.name == away
    ensures var inHome := Contains(Lower(SelectionLabel(o)), Lower(home));
            (o.name == home ==> inHome)
            && Evaluate(Input(MarketType.Handicap, line, o, home, away, h, a))
               == Some(OwnSpread(inHome, if inHome then line else 0 - line, h, a))
  {
    hide Contains, Show, SelectionLabel, Grading.Handicap;
    HandicapGrade(Input(MarketType.Handicap, line, o, home, away, h, a), o, h, a);
  }

  /** Grading with the market line agrees with the outcome's own point, for all scores, exactly when
      the outcome is the home side and carries that line, or is the away side with the opposite line
      and a label free of the home name (lines differing by less than a goal margin count as equal). */
  lemma SpreadMatchesLabel(line: int, o: Outcome, home: string, away: string)
    requires o.point.Some? && (o.name == home || o.name == away)
    ensures (forall h: nat, a: nat ::
               Evaluate(Input(MarketType.Handicap, line, o, home, away, h, a))
               == Some(OwnSpread(o.name == home, o.point.value, h, a)))
            <==>
            if o.name == home then SameLine(line, o.point.value)
            else !Contains(Lower(SelectionLabel(o)), Lower(home)) && SameLine(0 - line, o.point.value)
  {
    hide Contains, Show, SelectionLabel, Evaluate;
    var atHome, inHome, point := o.name == home, Contains(Lower(SelectionLabel(o)), Lower(home)), o.point.value;
    var used := if inHome then line else 0 - line;
    forall h: nat, a: nat
      ensures Evaluate(Input(MarketType.Handicap, line, o, home, away, h, a)) == Some(OwnSpread(inHome, used, h, a))
    {
      SpreadGrade(line, o, home, away, h, a);
    }
    SpreadGrade(line, o, home, away, 0, 0);
    if atHome == inHome {
      OwnSpreadAgrees(atHome, used, point);
    } else {
      SidesDiffer(used, point);
    }
  }

  ghost predicate AlwaysAgree(side1: bool, x: int, side2: bool, y: int) {
    forall h: nat, a: nat :: OwnSpread(side1, x, h, a) == OwnSpread(side2, y, h, a)
  }

  lemma OwnSpreadAgrees(atHome: bool, x: int, y: int)
    ensures AlwaysAgree(atHome, x, atHome, y) <==> SameLine(x, y)
  {
    SameLineMeaning(x, y);
    hide SameLine;
    if SameLine(x, y) {
      forall h: nat, a: nat ensures OwnSpread(atHome, x, h, a) == OwnSpread(atHome, y, h, a) {
        var d := if atHome then h - a else a - h;
        assert Versus(100 * d + x, 0) == Versus(100 * d + y, 0);
      }
    } else {
      var d: int :| Versus(100 * d + x, 0) != Versus(100 * d + y, 0);
      var mine, theirs := if d >= 0 then d else 0, if d >= 0 then 0 else -d;
      assert OwnSpread(atHome, x, if atHome then mine else theirs, if atHome then theirs else mine)
          != OwnSpread(atHome, y, if atHome then mine else theirs, if atHome then theirs else mine);
    }
  }

  /** No line makes a home grade and an away grade agree on every score. */
  lemma SidesDiffer(x: int, y: int)
    ensures !AlwaysAgree(true, x, false, y)
  {
    var n := (if x >= 0 then x else -x) + (if y >= 0 then y else -y) + 1;
    assert OwnSpread(true, x, n, 0) != OwnSpread(false, y, n, 0);
  }

  /** A two-way spread market whose home outcome comes first, with opposite points and an away label
      free of the home name, grades both outcomes as labelled. */
  lemma HomeFirstMatchesLabels(outcomes: seq<Outcome>, home: string, away: string, h: nat, a: nat)
    requires |outcomes| == 2 && outcomes[0].name == home && outcomes[1].name == away
    requires outcomes[0].point.Some? && outcomes[1].point == Some(0 - outcomes[0].point.value)
    requires !Contains(Lower(SelectionLabel(outcomes[1])), Lower(home))
    ensures MarketLine(outcomes).Some?
    ensures forall i | 0 <= i < 2 ::
              Evaluate(Input(MarketType.Handicap, MarketLine(outcomes).value, outcomes[i], home, away, h, a))
              == Some(OwnSpread(i == 0, outcomes[i].point.value, h, a))
  {
    hide Contains, Show, SelectionLabel, Evaluate;
    var line := MarketLine(outcomes).value;
    SpreadGrade(line, outcomes[0], home, away, h, a);
    SpreadGrade(line, outcomes[1], home, away, h, a);
  }

  /** With the away outcome first the line has the wrong sign: "h -3.5" is graded as won on a one-goal
      victory, although its own point loses. */
  lemma AwayFirstContradictsLabel() returns (outcomes: seq<Outcome>)
    ensures |outcomes| == 2 && outcomes[0] == Outcome("a", 1.9, Some(350)) && outcomes[1] == Outcome("h", 1.9, Some(-350))
    ensures MarketLine(outcomes) == Some(350)
    ensures Evaluate(Input(MarketType.Handicap, 350, outcomes[1], "h", "a", 1, 0)) == Some(LegResult.Won)
    ensures OwnSpread(true, -350, 1, 0) == LegResult.Lost
  {
    outcomes := [Outcome("a", 1.9, Some(350)), Outcome("h", 1.9, Some(-350))];
    hide Contains, Show, SelectionLabel;
    SpreadGrade(350, outcomes[1], "h", "a", 1, 0);
  }

  // Totals

  function OwnTotal(over: bool, point: int, h: int, a: int): LegResult {
    if over then Versus(100 * (h + a), point) else Versus(point, 100 * (h + a))
  }

  lemma NoOver(s: string)
    requires forall i :: 0 <= i < |s| ==> s[i] != 'o'
    ensures !Contains(s, "over")
  {
    forall i | 0 <= i <= |s| - 4 ensures !OccursAt(s, "over", i) {
      assert s[i..i + 4][0] == s[i];
    }
  }

  /** "Over" and "Under" outcomes are told apart by their labels. */
  lemma TotalsGrade(i: LegInput, o: Outcome, h: int, a: int)
    requires i.selectionName == SelectionLabel(o) && (o.name == "Over" || o.name == "Under")
    ensures Grading.Total(i, h, a) == Some(OwnTotal(o.name == "Over", LineOf(i.line), h, a))
  {
    LabelNamesTeam(o);
    assert Lower("Over") == "over" && Lower("Under") == "under";
    if o.name == "Under" {
      UnderLabel(o);
    }
    hide Contains, Show, SelectionLabel;
  }

  lemma TotalGrade(line: int, o: Outcome, home: string, away: string, h: int, a: int)
    requires o.name == "Over" || o.name == "Under"
    ensures Evaluate(Input(MarketType.Total, line, o, home, away, h, a)) == Some(OwnTotal(o.name == "Over", line, h, a))
  {
    hide Contains, Show, SelectionLabel, Grading.Total;
    TotalsGrade(Input(MarketType.Total, line, o, home, away, h, a), o, h, a);
  }

  lemma UnderLabel(o: Outcome)
    requires o.name == "Under"
    ensures !Contains(Lower(SelectionLabel(o)), "over")
  {
    hide Contains, Show;
    var text := SelectionLabel(o);
    assert forall i :: 0 <= i < |text| ==> text[i] != 'o' && text[i] != 'O';
    NoOver(Lower(text));
  }

  /** A total is graded as labelled, for all scores, exactly when the market line is the outcome's own
      point up to a goal margin, or both are negative. */
  lemma TotalMatchesLabel(line: int, o: Outcome, home: string, away: string)
    requires o.point.Some? && (o.name == "Over" || o.name == "Under")
    ensures (forall h: nat, a: nat ::
               Evaluate(Input(MarketType.Total, line, o, home, away, h, a)) == Some(OwnTotal(o.name == "Over", o.point.value, h, a)))
            <==> SameLine(line, o.point.value) || (line < 0 && o.point.value < 0)
  {
    hide Evaluate;
    var over, point := o.name == "Over", o.point.value;
    forall h: nat, a: nat ensures Evaluate(Input(MarketType.Total, line, o, home, away, h, a)) == Some(OwnTotal(over, line, h, a)) {
      TotalGrade(line, o, home, away, h, a);
    }
    OwnTotalAgrees(over, line, point);
  }

  ghost predicate TotalsAgree(over: bool, x: int, y: int) {
    forall h: nat, a: nat :: OwnTotal(over, x, h, a) == OwnTotal(over, y, h, a)
  }

  lemma OwnTotalAgrees(over: bool, x: int, y: int)
    ensures TotalsAgree(over, x, y) <==> SameLine(x, y) || (x < 0 && y < 0)
  {
    if SameLine(x, y) || (x < 0 && y < 0) {
      forall h: nat, a: nat ensures OwnTotal(over, x, h, a) == OwnTotal(over, y, h, a) {
        assert 100 * (h + a) > x <==> 100 * (h + a) > y;
      }
    } else {
      var top := if x > y then x else y;
      assert OwnTotal(over, x, top / 100, 0) != OwnTotal(over, y, top / 100, 0);
    }
  }

  // Match results

  /** Names under which the three outcomes of a match are told apart. */
  predicate Distinguished(home: string, away: string) {
    var h, a := Lower(Trim(home)), Lower(Trim(away));
    h != a && h != "draw" && h != "x" && a != "draw" && a != "x"
  }

  /** A three-way market names the winner: each side wins exactly when it scores more, the draw when the
      scores are level, so exactly one of the three outcomes is won. */
  lemma MatchResultNamesTheWinner(line: int, home: Outcome, away: Outcome, draw: Outcome, h: nat, a: nat)
    requires home.point.None? && away.point.None? && draw == Outcome("Draw", draw.price, None) && Distinguished(home.name, away.name)
    ensures Evaluate(Input(MarketType.MatchResult, line, home, home.name, away.name, h, a)) == Some(WonIf(h > a))
    ensures Evaluate(Input(MarketType.MatchResult, line, away, home.name, away.name, h, a)) == Some(WonIf(a > h))
    ensures Evaluate(Input(MarketType.MatchResult, line, draw, home.name, away.name, h, a)) == Some(WonIf(h == a))
  {
    assert Trim("Draw") == "Draw" && Lower("Draw") == "draw";
    hide Trim, Lower;
  }

  /** "Yes" is won exactly when both sides score, and "No" exactly when not. */
  lemma BothTeamsScoreSides(line: int, home: string, away: string, h: nat, a: nat, price: Price)
    ensures Evaluate(Input(MarketType.BothTeamsScore, line, Outcome("Yes", price, None), home, away, h, a)) == Some(WonIf(h > 0 && a > 0))
    ensures Evaluate(Input(MarketType.BothTeamsScore, line, Outcome("No", price, None), home, away, h, a)) == Some(WonIf(h == 0 || a == 0))
  {
    assert Lower("Yes") == "yes" && Lower("No") == "no";
    assert OccursAt("yes", "yes", 0) && OccursAt("no", "no", 0);
    assert Contains("yes", "yes") && Contains("no", "no") && !Contains("no", "yes");
    hide Contains, Lower;
  }

  // Both sides of one market

  predicate Opposite(r1: LegResult, r2: LegResult) {
    match r1
    case Won => r2 == LegResult.Lost
    case Lost => r2 == LegResult.Won
    case Void => r2 == LegResult.Void
  }

  predicate TwoSided(kind: MarketType, o1: Outcome, o2: Outcome, home: string, away: string) {
    || (kind == MarketType.Handicap && o1.name == home && o2.name == away && !Contains(Lower(SelectionLabel(o2)), Lower(home)))
    || (kind == MarketType.Total && o1.name == "Over" && o2.name == "Under")
  }

  /** The two sides of a spread, or of a total, get a result together, and then opposite ones, whatever
      the line, the scores and the status of the market. */
  lemma SidesAreOpposite(i1: LegInput, i2: LegInput, o1: Outcome, o2: Outcome)
    requires i1.selectionName == SelectionLabel(o1) && i2 == i1.(selectionName := SelectionLabel(o2))
    requires TwoSided(i1.kind, o1, o2, i1.homeTeamName, i1.awayTeamName)
    ensures Evaluate(i1).Some? <==> Evaluate(i2).Some?
    ensures Evaluate(i1).Some? ==> Opposite(Evaluate(i1).value, Evaluate(i2).value)
  {
    hide Contains, SelectionLabel, Grading.Handicap, Grading.Total;
    if i1.homeScore.Some? && i1.awayScore.Some? {
      var h, a := i1.homeScore.value, i1.awayScore.value;
      if i1.kind == MarketType.Handicap {
        HandicapGrade(i1, o1, h, a);
        HandicapGrade(i2, o2, h, a);
      } else {
        TotalsGrade(i1, o1, h, a);
        TotalsGrade(i2, o2, h, a);
      }
    }
  }

  /** So a slip that is quoted with both sides of one market is never won, whatever happens to the
      catalogue afterwards. */
  lemma BothSidesNeverWin(placed: Catalogue, limits: Limits, group: string, ids: seq<string>, stake: nat, now: Catalogue,
                          i: nat, j: nat, o1: Outcome, o2: Outcome)
    requires Validate(placed, limits, group, ids, stake).Quoted? && i < |ids| && j < |ids|
    requires Joined(placed, ids[i]) && Joined(placed, ids[j]) && placed.selections[ids[i]].market == placed.selections[ids[j]].market
    requires placed.selections[ids[i]].name == SelectionLabel(o1) && placed.selections[ids[j]].name == SelectionLabel(o2)
    requires var market := placed.markets[placed.selections[ids[i]].market];
             var names := TeamNames(placed, placed.events[market.event].fixture).value;
             TwoSided(market.kind, o1, o2, names.0, names.1)
    ensures var legs := Validate(placed, limits, group, ids, stake).quote.legs;
            GradeLegs(now, legs).Some? ==> Aggregate(GradeLegs(now, legs).value) != LegResult.Won
  {
    var legs := Validate(placed, limits, group, ids, stake).quote.legs;
    QuoteIsSound(placed, limits, group, ids, stake);
    assert LegOf(placed, ids[i], legs[i]) && LegOf(placed, ids[j], legs[j]);
    hide Validate, Evaluate, Contains, SelectionLabel;
    if GradeLegs(now, legs).Some? {
      var results := GradeLegs(now, legs).value;
      assert Some(results[i]) == GradeLeg(now, legs[i]) && Some(results[j]) == GradeLeg(now, legs[j]);
      SidesAreOpposite(LoadLegContext(now, legs[i]).value.input, LoadLegContext(now, legs[j]).value.input, o1, o2);
      AggregateMeaning(results);
    }
  }
}
