/** Back-office rollups: the daily result per sport, the tenant summary and the open exposure. */
module Rollups {
  import opened Domain
  import opened Wallet
  import opened Ledger
  import opened LedgerSafety
  import LedgerTheorems

  datatype Tally = Tally(count: nat, stake: int, payout: int)

  const ZERO := Tally(0, 0, 0)

  function Add(a: Tally, b: Tally): Tally {
    Tally(a.count + b.count, a.stake + b.stake, a.payout + b.payout)
  }

  // Totals over the rows of a map

  ghost function SumRows<K>(m: map<K, Tally>): Tally
    decreases |m|
  {
    if m == map[] then ZERO
    else
      var k :| k in m;
      Add(m[k], SumRows(m - {k}))
  }

  lemma {:induction false} SumSplit<K>(m: map<K, Tally>, k: K)
    requires k in m
    ensures SumRows(m) == Add(m[k], SumRows(m - {k}))
    decreases |m|
  {
    var k0 :| k0 in m && SumRows(m) == Add(m[k0], SumRows(m - {k0}));
    if k0 != k {
      SumSplit(m - {k0}, k);
      SumSplit(m - {k}, k0);
      assert m - {k0} - {k} == m - {k} - {k0};
      AddSwaps(m[k0], m[k], SumRows(m - {k0} - {k}));
    }
  }

  lemma AddSwaps(a: Tally, b: Tally, c: Tally)
    ensures Add(a, Add(b, c)) == Add(b, Add(a, c)) && Add(Add(a, b), c) == Add(Add(a, c), b) == Add(Add(c, a), b)
    ensures Add(Add(a, b), c) == Add(a, Add(b, c)) && Add(a, b) == Add(b, a) && Add(a, ZERO) == a == Add(ZERO, a)
  {}

  function RowAt<K>(m: map<K, Tally>, k: K): Tally {
    if k in m then m[k] else ZERO
  }

  /** Adding to one row adds to the total. */
  lemma SumAdd<K>(m: map<K, Tally>, k: K, r: Tally)
    ensures SumRows(m[k := Add(RowAt(m, k), r)]) == Add(SumRows(m), r)
  {
    SumParts(m, k, r);
    hide SumRows;
    AddSwaps(RowAt(m, k), r, SumRows(m - {k}));
  }

  lemma SumParts<K>(m: map<K, Tally>, k: K, r: Tally)
    ensures SumRows(m[k := Add(RowAt(m, k), r)]) == Add(Add(RowAt(m, k), r), SumRows(m - {k}))
    ensures SumRows(m) == Add(RowAt(m, k), SumRows(m - {k}))
  {
    hide SumRows, Add;
    var after := m[k := Add(RowAt(m, k), r)];
    SumSplit(after, k);
    assert after - {k} == m - {k};
    if k in m {
      SumSplit(m, k);
    } else {
      assert m - {k} == m;
      AddSwaps(SumRows(m), ZERO, ZERO);
    }
  }

  // Daily result by sport

  /** A bet with its settlement time. */
  datatype Dated = Dated(bet: Bet, settledAt: Option<int>)

  datatype Day = Day(date: int, sport: string)

  /** The calendar day of a time in milliseconds. */
  function DateOf(ms: int): int {
    ms / 86_400_000
  }

  function PayoutOf(bet: Bet): nat {
    if bet.payoutAmount.Some? then bet.payoutAmount.value else 0
  }

  /** The sport of the first leg's event. */
  function SportOf(sportByEvent: map<string, string>, bet: Bet): string {
    if bet.legs != [] && bet.legs[0].event in sportByEvent then sportByEvent[bet.legs[0].event] else "unknown"
  }

  /** A bet's contribution: void stakes are not counted, void payouts are. */
  function Contribution(bet: Bet): Tally {
    Tally(1, if bet.status == BetStatus.Won || bet.status == BetStatus.Lost then bet.stake else 0, PayoutOf(bet))
  }

  function Daily(sportByEvent: map<string, string>, bets: seq<Dated>): map<Day, Tally> {
    if bets == [] then map[]
    else
      var front, last := Daily(sportByEvent, bets[..|bets| - 1]), bets[|bets| - 1];
      if last.settledAt.None? then front
      else
        var day := Day(DateOf(last.settledAt.value), SportOf(sportByEvent, last.bet));
        front[day := Add(RowAt(front, day), Contribution(last.bet))]
  }

  function Selected(bets: seq<Dated>, since: int): seq<Dated> {
    if bets == [] then []
    else
      var last := bets[|bets| - 1];
      Selected(bets[..|bets| - 1], since)
      + if LedgerTheorems.Closed(last.bet.status) && last.settledAt.Some? && last.settledAt.value >= since then [last] else []
  }

  /** One bet added to its row. */
  method CountBet(before: Tally, bet: Bet) returns (row: Tally)
    ensures row == Add(before, Contribution(bet))
  {
    row := before.(count := before.count + 1);
    if bet.status == BetStatus.Won || bet.status == BetStatus.Lost {
      row := row.(stake := row.stake + bet.stake);
    }
    row := row.(payout := row.payout + PayoutOf(bet));
  }

  method DailyGgrBySport(all: seq<Dated>, since: int, sportByEvent: map<string, string>) returns (buckets: map<Day, Tally>)
    ensures buckets == Daily(sportByEvent, Selected(all, since))
    ensures SumRows(buckets) == Total(Selected(all, since))
  {
    var bets := Selected(all, since);
    assert Daily(sportByEvent, []) == map[];
    SelectedAreDated(all, since);
    DailyConserves(sportByEvent, bets);
    hide *;
    buckets := map[];
    for i := 0 to |bets|
      invariant buckets == Daily(sportByEvent, bets[..i])
    {
      DailyNext(sportByEvent, bets, i);
      var bet := bets[i];
      if bet.settledAt.None? {
        continue;
      }
      var day := Day(DateOf(bet.settledAt.value), SportOf(sportByEvent, bet.bet));
      var row := CountBet(RowAt(buckets, day), bet.bet);
      buckets := buckets[day := row];
    }
    assert bets[..|bets|] == bets;
  }

  lemma DailyNext(sportByEvent: map<string, string>, bets: seq<Dated>, i: nat)
    requires i < |bets|
    ensures var front, last := Daily(sportByEvent, bets[..i]), bets[i];
            Daily(sportByEvent, bets[..i + 1])
            == if last.settledAt.None? then front
               else
                 var day := Day(DateOf(last.settledAt.value), SportOf(sportByEvent, last.bet));
                 front[day := Add(RowAt(front, day), Contribution(last.bet))]
  {
    hide DateOf, Contribution, SportOf;
    assert bets[..i + 1][..i] == bets[..i];
  }

  /** The direct total over bets. */
  function Total(bets: seq<Dated>): Tally {
    if bets == [] then ZERO else Add(Total(bets[..|bets| - 1]), Contribution(bets[|bets| - 1].bet))
  }

  lemma {:induction false} SelectedAreDated(all: seq<Dated>, since: int)
    ensures forall i :: 0 <= i < |Selected(all, since)| ==> Selected(all, since)[i].settledAt.Some?
  {
    if all != [] {
      SelectedAreDated(all[..|all| - 1], since);
    }
  }

  /** The daily rows add up to the direct total over the bets selected. */
  lemma {:induction false} DailyConserves(sportByEvent: map<string, string>, bets: seq<Dated>)
    requires forall i :: 0 <= i < |bets| ==> bets[i].settledAt.Some?
    ensures SumRows(Daily(sportByEvent, bets)) == Total(bets)
  {
    if bets != [] {
      var front, last := bets[..|bets| - 1], bets[|bets| - 1];
      hide DateOf, SportOf;
      DailyConserves(sportByEvent, front);
      var day := Day(DateOf(last.settledAt.value), SportOf(sportByEvent, last.bet));
      SumAdd(Daily(sportByEvent, front), day, Contribution(last.bet));
    }
  }

  /** Closed bets settled on a day, in the window, whose first leg is on an event of the sport, or of no known
      sport for "unknown". */
  predicate Counted(b: Dated, since: int, sportByEvent: map<string, string>, day: Day) {
    && b.bet.status in {BetStatus.Won, BetStatus.Lost, BetStatus.Void} && b.settledAt.Some? && since <= b.settledAt.value
    && 86_400_000 * day.date <= b.settledAt.value < 86_400_000 * (day.date + 1)
    && day.sport == if b.bet.legs != [] && b.bet.legs[0].event in sportByEvent then sportByEvent[b.bet.legs[0].event] else "unknown"
  }

  function OnDay(all: seq<Dated>, since: int, sportByEvent: map<string, string>, day: Day): seq<Dated> {
    if all == [] then []
    else
      var front, last := OnDay(all[..|all| - 1], since, sportByEvent, day), all[|all| - 1];
      if Counted(last, since, sportByEvent, day) then front + [last] else front
  }

  lemma {:induction false} RowIsDaysTotal(all: seq<Dated>, since: int, sportByEvent: map<string, string>, day: Day)
    ensures RowAt(Daily(sportByEvent, Selected(all, since)), day) == Total(OnDay(all, since, sportByEvent, day))
  {
    if all != [] {
      var front, last := all[..|all| - 1], all[|all| - 1];
      RowIsDaysTotal(front, since, sportByEvent, day);
      DayStep(front, last, since, sportByEvent, day);
      assert all == front + [last];
    }
  }

  /** One more bet adds to its own row and to no other. */
  lemma DayStep(front: seq<Dated>, last: Dated, since: int, sportByEvent: map<string, string>, day: Day)
    ensures var all := front + [last];
            && RowAt(Daily(sportByEvent, Selected(all, since)), day)
               == (if Counted(last, since, sportByEvent, day)
                   then Add(RowAt(Daily(sportByEvent, Selected(front, since)), day), Contribution(last.bet))
                   else RowAt(Daily(sportByEvent, Selected(front, since)), day))
            && Total(OnDay(all, since, sportByEvent, day))
               == (if Counted(last, since, sportByEvent, day)
                   then Add(Total(OnDay(front, since, sportByEvent, day)), Contribution(last.bet))
                   else Total(OnDay(front, since, sportByEvent, day)))
  {
    DailyStep(front, last, since, sportByEvent, day);
    OnDayStep(front, last, since, sportByEvent, day);
    TotalNext(OnDay(front, since, sportByEvent, day), last);
    hide *;
  }

  lemma OnDayStep(front: seq<Dated>, last: Dated, since: int, sportByEvent: map<string, string>, day: Day)
    ensures OnDay(front + [last], since, sportByEvent, day)
         == if Counted(last, since, sportByEvent, day) then OnDay(front, since, sportByEvent, day) + [last] else OnDay(front, since, sportByEvent, day)
  {
    hide Counted;
    assert (front + [last])[..|front|] == front;
  }

  lemma SelectedStep(front: seq<Dated>, last: Dated, since: int)
    ensures Selected(front + [last], since)
         == if LedgerTheorems.Closed(last.bet.status) && last.settledAt.Some? && last.settledAt.value >= since
            then Selected(front, since) + [last] else Selected(front, since)
  {
    assert (front + [last])[..|front|] == front && Selected(front, since) + [] == Selected(front, since);
  }

  lemma DailyStep(front: seq<Dated>, last: Dated, since: int, sportByEvent: map<string, string>, day: Day)
    ensures RowAt(Daily(sportByEvent, Selected(front + [last], since)), day)
         == (if Counted(last, since, sportByEvent, day)
             then Add(RowAt(Daily(sportByEvent, Selected(front, since)), day), Contribution(last.bet))
             else RowAt(Daily(sportByEvent, Selected(front, since)), day))
  {
    hide *;
    var before := Selected(front, since);
    SelectedStep(front, last, since);
    if LedgerTheorems.Closed(last.bet.status) && last.settledAt.Some? && last.settledAt.value >= since {
      assert (before + [last])[..|before|] == before && (before + [last])[..|before| + 1] == before + [last];
      DailyNext(sportByEvent, before + [last], |before|);
      OwnDay(last, since, sportByEvent, day);
      var own := Day(DateOf(last.settledAt.value), SportOf(sportByEvent, last.bet));
      RowAfter(Daily(sportByEvent, before), own, day, Add(RowAt(Daily(sportByEvent, before), own), Contribution(last.bet)));
    } else {
      NotCounted(last, since, sportByEvent, day);
    }
  }

  lemma RowAfter<K>(m: map<K, Tally>, k: K, other: K, row: Tally)
    ensures RowAt(m[k := row], other) == if k == other then row else RowAt(m, other)
  {}

  lemma NotCounted(b: Dated, since: int, sportByEvent: map<string, string>, day: Day)
    requires !(LedgerTheorems.Closed(b.bet.status) && b.settledAt.Some? && b.settledAt.value >= since)
    ensures !Counted(b, since, sportByEvent, day)
  {}

  lemma OwnDay(b: Dated, since: int, sportByEvent: map<string, string>, day: Day)
    requires LedgerTheorems.Closed(b.bet.status) && b.settledAt.Some? && b.settledAt.value >= since
    ensures Counted(b, since, sportByEvent, day) <==> Day(DateOf(b.settledAt.value), SportOf(sportByEvent, b.bet)) == day
  {}

  lemma {:induction false} TotalsByField(bets: seq<Dated>)
    requires forall i :: 0 <= i < |bets| ==> bets[i].bet.status in {BetStatus.Won, BetStatus.Lost, BetStatus.Void}
    ensures Total(bets).count == |bets|
    ensures Total(bets).stake == StakeOf(bets, BetStatus.Won) + StakeOf(bets, BetStatus.Lost)
    ensures Total(bets).payout == PayoutsOf(bets, BetStatus.Won) + PayoutsOf(bets, BetStatus.Lost) + PayoutsOf(bets, BetStatus.Void)
  {
    if bets != [] {
      TotalsByField(bets[..|bets| - 1]);
    }
  }

  lemma {:induction false} OnDayAreCounted(all: seq<Dated>, since: int, sportByEvent: map<string, string>, day: Day)
    ensures forall b :: b in OnDay(all, since, sportByEvent, day) ==> Counted(b, since, sportByEvent, day)
  {
    hide Counted;
    if all != [] {
      OnDayAreCounted(all[..|all| - 1], since, sportByEvent, day);
    }
  }

  /** Each row of the report is its own day and sport: the number of closed bets settled then, the stakes of
      the won and lost ones, and the payouts of all of them. */
  lemma DailyRowMeans(all: seq<Dated>, since: int, sportByEvent: map<string, string>, day: Day)
    ensures var row, bets := RowAt(Daily(sportByEvent, Selected(all, since)), day), OnDay(all, since, sportByEvent, day);
            && row.count == |bets| && row.stake == StakeOf(bets, BetStatus.Won) + StakeOf(bets, BetStatus.Lost)
            && row.payout == PayoutsOf(bets, BetStatus.Won) + PayoutsOf(bets, BetStatus.Lost) + PayoutsOf(bets, BetStatus.Void)
  {
    RowIsDaysTotal(all, since, sportByEvent, day);
    OnDayAreCounted(all, since, sportByEvent, day);
    forall i | 0 <= i < |OnDay(all, since, sportByEvent, day)| ensures Counted(OnDay(all, since, sportByEvent, day)[i], since, sportByEvent, day) {
      assert OnDay(all, since, sportByEvent, day)[i] in OnDay(all, since, sportByEvent, day);
    }
    TotalsByField(OnDay(all, since, sportByEvent, day));
  }

  lemma TotalNext(bets: seq<Dated>, last: Dated)
    ensures Total(bets + [last]) == Add(Total(bets), Contribution(last.bet)) && Total(bets + []) == Total(bets)
  {
    assert (bets + [last])[..|bets|] == bets && bets + [] == bets;
  }

  // Summary

  function StakeOf(bets: seq<Dated>, status: BetStatus): int {
    if bets == [] then 0
    else StakeOf(bets[..|bets| - 1], status) + if bets[|bets| - 1].bet.status == status then bets[|bets| - 1].bet.stake else 0
  }

  function PayoutsOf(bets: seq<Dated>, status: BetStatus): int {
    if bets == [] then 0
    else PayoutsOf(bets[..|bets| - 1], status) + if bets[|bets| - 1].bet.status == status then PayoutOf(bets[|bets| - 1].bet) else 0
  }

  /** Gross result: won and lost stakes, less won payouts and void refunds. */
  function SummaryGross(bets: seq<Dated>): int {
    StakeOf(bets, BetStatus.Won) + StakeOf(bets, BetStatus.Lost) - PayoutsOf(bets, BetStatus.Won) - PayoutsOf(bets, BetStatus.Void)
  }

  /** The window covers every settled bet. */
  predicate Covers(bets: seq<Dated>, since: int) {
    forall i :: 0 <= i < |bets| && LedgerTheorems.Closed(bets[i].bet.status) ==> bets[i].settledAt.Some? && bets[i].settledAt.value >= since
  }

  /** When the window covers all settled bets, the daily rows and the summary differ by exactly the
      payouts recorded on lost bets. */
  lemma {:induction false} DailyMatchesSummary(bets: seq<Dated>, since: int)
    requires Covers(bets, since)
    ensures var t := Total(Selected(bets, since)); t.stake - t.payout == SummaryGross(bets) - PayoutsOf(bets, BetStatus.Lost)
  {
    if bets != [] {
      var front, last := bets[..|bets| - 1], bets[|bets| - 1];
      DailyMatchesSummary(front, since);
      TotalNext(Selected(front, since), last);
      hide Total;
    }
  }

  lemma LostPaysNothing(s: State, b: nat)
    requires Inv(s) && b < |s.bets| && s.bets[b].status == BetStatus.Lost
    ensures PayoutOf(s.bets[b]) == 0
  {
    assert BetOk(s, b);
    hide Of;
  }

  lemma {:induction false} NoLostPayouts(bets: seq<Dated>)
    requires forall i :: 0 <= i < |bets| && bets[i].bet.status == BetStatus.Lost ==> PayoutOf(bets[i].bet) == 0
    ensures PayoutsOf(bets, BetStatus.Lost) == 0
  {
    if bets != [] {
      NoLostPayouts(bets[..|bets| - 1]);
    }
  }

  /** In every reachable state of the money protocol the two reports agree. */
  lemma ReportsAgree(s: State, bets: seq<Dated>, since: int)
    requires Inv(s) && Covers(bets, since)
    requires forall i :: 0 <= i < |bets| ==> bets[i].bet in s.bets
    ensures var t := Total(Selected(bets, since)); t.stake - t.payout == SummaryGross(bets)
  {
    DailyMatchesSummary(bets, since);
    forall i | 0 <= i < |bets| && bets[i].bet.status == BetStatus.Lost ensures PayoutOf(bets[i].bet) == 0 {
      var b :| 0 <= b < |s.bets| && s.bets[b] == bets[i].bet;
      LostPaysNothing(s, b);
    }
    hide Inv;
    NoLostPayouts(bets);
  }

  // Exposure

  /** Per event: legs, stake and potential payout; per leg each counts once. */
  function Share(bet: Bet): Tally {
    Tally(1, bet.stake, bet.potentialPayout)
  }

  function AddLegs(byEvent: map<string, Tally>, bet: Bet, legs: seq<Leg>): map<string, Tally> {
    if legs == [] then byEvent
    else
      var front, event := AddLegs(byEvent, bet, legs[..|legs| - 1]), legs[|legs| - 1].event;
      front[event := Add(RowAt(front, event), Share(bet))]
  }

  function ByEvent(bets: seq<Bet>): map<string, Tally> {
    if bets == [] then map[] else AddLegs(ByEvent(bets[..|bets| - 1]), bets[|bets| - 1], bets[|bets| - 1].legs)
  }

  function Times(n: nat, r: Tally): Tally {
    Tally(n * r.count, n * r.stake, n * r.payout)
  }

  lemma TimesNext(n: nat, r: Tally)
    ensures Times(n + 1, r) == Add(Times(n, r), r) && Times(0, r) == ZERO
  {}

  /** Stake and potential payout of each bet, counted once per leg. */
  function PerLeg(bets: seq<Bet>): Tally {
    if bets == [] then ZERO else Add(PerLeg(bets[..|bets| - 1]), Times(|bets[|bets| - 1].legs|, Share(bets[|bets| - 1])))
  }

  function PerBet(bets: seq<Bet>): Tally {
    if bets == [] then ZERO else Add(PerBet(bets[..|bets| - 1]), Share(bets[|bets| - 1]))
  }

  lemma {:induction false} LegsConserve(byEvent: map<string, Tally>, bet: Bet, legs: seq<Leg>)
    ensures SumRows(AddLegs(byEvent, bet, legs)) == Add(SumRows(byEvent), Times(|legs|, Share(bet)))
  {
    hide SumRows, Times, Share;
    if legs != [] {
      var front := legs[..|legs| - 1];
      LegsConserve(byEvent, bet, front);
      SumAdd(AddLegs(byEvent, bet, front), legs[|legs| - 1].event, Share(bet));
      TimesNext(|front|, Share(bet));
    } else {
      TimesNext(0, Share(bet));
    }
  }

  /** The per-event rows add up to every bet's stake and potential payout once per leg. */
  lemma {:induction false} ExposureConserves(bets: seq<Bet>)
    ensures SumRows(ByEvent(bets)) == PerLeg(bets)
  {
    if bets != [] {
      ExposureConserves(bets[..|bets| - 1]);
      LegsConserve(ByEvent(bets[..|bets| - 1]), bets[|bets| - 1], bets[|bets| - 1].legs);
    }
  }

  function OnEvent(legs: seq<Leg>, event: string): nat {
    if legs == [] then 0 else OnEvent(legs[..|legs| - 1], event) + if legs[|legs| - 1].event == event then 1 else 0
  }

  function OpenOn(bets: seq<Bet>, event: string): Tally {
    if bets == [] then ZERO
    else Add(OpenOn(bets[..|bets| - 1], event), Times(OnEvent(bets[|bets| - 1].legs, event), Share(bets[|bets| - 1])))
  }

  /** Each row is its own event's share of the open bets. */
  lemma {:induction false} ExposureByEvent(bets: seq<Bet>, event: string)
    ensures RowAt(ByEvent(bets), event) == OpenOn(bets, event)
  {
    if bets != [] {
      var front, last := bets[..|bets| - 1], bets[|bets| - 1];
      ExposureByEvent(front, event);
      LegsByEvent(ByEvent(front), last, last.legs, event);
    }
  }

  lemma {:induction false} LegsByEvent(byEvent: map<string, Tally>, bet: Bet, legs: seq<Leg>, event: string)
    ensures RowAt(AddLegs(byEvent, bet, legs), event) == Add(RowAt(byEvent, event), Times(OnEvent(legs, event), Share(bet)))
  {
    hide Times, Share, Add;
    AddSwaps(RowAt(byEvent, event), ZERO, ZERO);
    if legs != [] {
      AddSwaps(RowAt(byEvent, event), Times(OnEvent(legs[..|legs| - 1], event), Share(bet)), Share(bet));
      LegsByEvent(byEvent, bet, legs[..|legs| - 1], event);
      TimesNext(OnEvent(legs[..|legs| - 1], event), Share(bet));
    } else {
      TimesNext(0, Share(bet));
    }
  }

  function OpenBets(bets: seq<Dated>): seq<Bet> {
    if bets == [] then []
    else OpenBets(bets[..|bets| - 1]) + if bets[|bets| - 1].bet.status == BetStatus.Accepted then [bets[|bets| - 1].bet] else []
  }

  method GetExposure(all: seq<Dated>) returns (totals: Tally, byEvent: map<string, Tally>)
    ensures totals == PerBet(OpenBets(all)) && byEvent == ByEvent(OpenBets(all))
    ensures SumRows(byEvent) == PerLeg(OpenBets(all))
  {
    hide SumRows, PerLeg;
    var bets := OpenBets(all);
    totals, byEvent := ZERO, map[];
    for i := 0 to |bets|
      invariant totals == PerBet(bets[..i]) && byEvent == ByEvent(bets[..i])
    {
      assert bets[..i + 1][..i] == bets[..i];
      var bet := bets[i];
      totals := Add(totals, Share(bet));
      ghost var before := byEvent;
      for j := 0 to |bet.legs|
        invariant byEvent == AddLegs(before, bet, bet.legs[..j])
      {
        assert bet.legs[..j + 1][..j] == bet.legs[..j];
        byEvent := byEvent[bet.legs[j].event := Add(RowAt(byEvent, bet.legs[j].event), Share(bet))];
      }
      assert bet.legs[..|bet.legs|] == bet.legs;
    }
    assert bets[..|bets|] == bets;
    ExposureConserves(bets);
  }

  lemma OpenNext(bets: seq<Bet>, last: Bet)
    ensures PerBet(bets + [last]) == Add(PerBet(bets), Share(last)) && PerBet(bets + []) == PerBet(bets)
  {
    assert (bets + [last])[..|bets|] == bets && bets + [] == bets;
  }

  /** Number and potential payouts of the accepted bets. */
  function OpenCount(bets: seq<Dated>): nat {
    if bets == [] then 0 else OpenCount(bets[..|bets| - 1]) + if bets[|bets| - 1].bet.status == BetStatus.Accepted then 1 else 0
  }

  function OpenPayouts(bets: seq<Dated>): int {
    if bets == [] then 0
    else OpenPayouts(bets[..|bets| - 1]) + if bets[|bets| - 1].bet.status == BetStatus.Accepted then bets[|bets| - 1].bet.potentialPayout else 0
  }

  /** The exposure's total stake is the summary's open liability; with it come the number of accepted bets and
      what they may pay. */
  lemma {:induction false} ExposureIsOpenLiability(bets: seq<Dated>)
    ensures PerBet(OpenBets(bets)) == Tally(OpenCount(bets), StakeOf(bets, BetStatus.Accepted), OpenPayouts(bets))
  {
    if bets != [] {
      var front, last := bets[..|bets| - 1], bets[|bets| - 1];
      ExposureIsOpenLiability(front);
      OpenNext(OpenBets(front), last.bet);
      assert OpenBets(bets) == OpenBets(front) + if last.bet.status == BetStatus.Accepted then [last.bet] else [];
      hide PerBet, OpenBets;
    }
  }
}
