/** Settlement and staff void of one bet that overlap: each reads the bet while it is accepted and writes
    its closing transaction later, keyed by the bet alone. Debit attempts that read the bet while it was
    pending may still have their acceptance to write, and the catalogue may change at any time. */
module ClosingRace {
  import opened Domain
  import opened Wallet
  import opened Grading
  import opened Ledger
  import opened LedgerSafety

  /** What a closing has decided from its read. */
  datatype Plan = Settlement(results: seq<LegResult>, batch: nat) | Refund

  /** `late` counts the acceptances still to be written. */
  datatype Race = Race(s: State, inFlight: map<nat, Plan>, late: nat)

  datatype Move = ReadToSettle(i: nat, batch: nat) | ReadToVoid(i: nat) | Write(i: nat) | WriteAcceptance | EditCatalogue(cat: Catalogue)

  /** Three remedies: a closing write that looks at the status again, one closing at a time, and an
      acceptance write that looks at the status again. The code has none of them. */
  datatype Policy = Policy(guarded: bool, exclusive: bool, rechecked: bool)

  predicate Open(r: Race, b: nat) {
    b < |r.s.bets| && r.s.bets[b].status == BetStatus.Accepted
  }

  predicate MayRead(p: Policy, r: Race, b: nat, i: nat) {
    Open(r, b) && i !in r.inFlight && (p.exclusive ==> r.inFlight == map[])
  }

  /** The closing transaction; it rolls back when its row already exists. */
  function Closed(s: State, b: nat, plan: Plan): State {
    if b >= |s.bets| then s
    else
      match plan
      case Settlement(results, batch) =>
        if |results| != |s.bets[b].legs| then s
        else CloseBet(s, b, results, Key(b, Settle), SettleCode(b, Aggregate(results)), Some(batch))
      case Refund => CloseBet(s, b, AllVoid(|s.bets[b].legs|), Key(b, StaffVoid), StaffVoidCode(b), None)
  }

  function Moved(p: Policy, r: Race, b: nat, m: Move): Race {
    match m
    case ReadToSettle(i, batch) =>
      if MayRead(p, r, b, i) && GradeLegs(r.s.cat, r.s.bets[b].legs).Some?
      then r.(inFlight := r.inFlight[i := Settlement(GradeLegs(r.s.cat, r.s.bets[b].legs).value, batch)]) else r
    case ReadToVoid(i) => if MayRead(p, r, b, i) then r.(inFlight := r.inFlight[i := Refund]) else r
    case Write(i) =>
      if i !in r.inFlight then r
      else r.(s := if p.guarded && !Open(r, b) then r.s else Closed(r.s, b, r.inFlight[i]), inFlight := r.inFlight - {i})
    case WriteAcceptance =>
      if r.late == 0 then r else r.(s := if p.rechecked && !Undecided(r.s, b) then r.s else Reaccepted(r.s, b), late := r.late - 1)
    case EditCatalogue(cat) => r.(s := r.s.(cat := cat))
  }

  predicate Undecided(s: State, b: nat) {
    b < |s.bets| && s.bets[b].status == BetStatus.Pending
  }

  /** The write after an accepted debit, whatever has become of the bet. */
  function Reaccepted(s: State, b: nat): State {
    if b < |s.bets| && Key(b, Debit) in s.rows then AfterDebit(s, b, Done, Written) else s
  }

  function Played(p: Policy, r: Race, b: nat, moves: seq<Move>): Race {
    if moves == [] then r else Moved(p, Played(p, r, b, moves[..|moves| - 1]), b, moves[|moves| - 1])
  }

  /** Both a settlement and a refund are waiting to be delivered, or were. */
  predicate ClosedTwice(s: State, b: nat) {
    Key(b, Settle) in s.rows && Key(b, StaffVoid) in s.rows
  }

  predicate Unclosed(s: State, b: nat) {
    Key(b, Settle) !in s.rows && Key(b, StaffVoid) !in s.rows
  }

  /** Everything that closes at most once: acceptances cannot reopen the bet, and of the closings in flight
      only one takes effect. */
  predicate Guarded(p: Policy, late: nat) {
    (p.guarded || p.exclusive) && (p.rechecked || late == 0)
  }

  /** While the bet is accepted only the catalogue changes; afterwards it is closed once, and what is still in
      flight cannot close it again. */
  predicate Once(p: Policy, s0: State, r: Race, b: nat) {
    && b < |r.s.bets| && r.s.bets[b].status != BetStatus.Pending && Guarded(p, r.late)
    && if Open(r, b) then
         && r.s == s0.(cat := r.s.cat) && (p.exclusive ==> forall i, j :: i in r.inFlight && j in r.inFlight ==> i == j)
         && forall i :: i in r.inFlight && r.inFlight[i].Settlement? ==> |r.inFlight[i].results| == |s0.bets[b].legs|
       else !ClosedTwice(r.s, b) && (p.guarded || r.inFlight == map[])
  }

  lemma CloseEnds(s: State, b: nat, plan: Plan)
    requires b < |s.bets| && Unclosed(s, b)
    requires plan.Settlement? ==> |plan.results| == |s.bets[b].legs|
    ensures var t := Closed(s, b, plan);
            b < |t.bets| && t.bets[b].status != BetStatus.Accepted && t.bets[b].status != BetStatus.Pending && !ClosedTwice(t, b)
  {}

  lemma MoveStaysOnce(p: Policy, s0: State, r: Race, b: nat, m: Move)
    requires b < |s0.bets| && Unclosed(s0, b) && Once(p, s0, r, b)
    ensures Once(p, s0, Moved(p, r, b, m), b)
  {
    hide GradeLegs, Closed, Reaccepted;
    match m
    case ReadToSettle(i, batch) => GradedLengths(r.s, b);
    case ReadToVoid(i) =>
    case Write(i) =>
      if i in r.inFlight && Open(r, b) {
        CloseEnds(r.s, b, r.inFlight[i]);
      }
    case WriteAcceptance =>
    case EditCatalogue(cat) =>
  }

  lemma OnceIsNotTwice(p: Policy, s0: State, r: Race, b: nat)
    requires Once(p, s0, r, b) && Unclosed(s0, b)
    ensures !ClosedTwice(r.s, b)
  {}

  lemma GradedLengths(s: State, b: nat)
    ensures b < |s.bets| && GradeLegs(s.cat, s.bets[b].legs).Some? ==> |GradeLegs(s.cat, s.bets[b].legs).value| == |s.bets[b].legs|
  {}

  lemma {:induction false} PlayStaysOnce(p: Policy, s0: State, b: nat, late: nat, moves: seq<Move>)
    requires b < |s0.bets| && s0.bets[b].status == BetStatus.Accepted && Unclosed(s0, b) && Guarded(p, late)
    ensures Once(p, s0, Played(p, Race(s0, map[], late), b, moves), b)
  {
    hide Moved;
    if moves != [] {
      hide Once;
      PlayStaysOnce(p, s0, b, late, moves[..|moves| - 1]);
      MoveStaysOnce(p, s0, Played(p, Race(s0, map[], late), b, moves[..|moves| - 1]), b, moves[|moves| - 1]);
    }
  }

  const OVERLAP := [ReadToSettle(0, 0), ReadToVoid(1), Write(0), Write(1)]
  const REOPENING := [ReadToSettle(0, 0), Write(0), WriteAcceptance, ReadToVoid(1), Write(1)]

  lemma PlayedFour(p: Policy, r: Race, b: nat, ms: seq<Move>)
    requires |ms| >= 4
    ensures Played(p, r, b, ms[..4]) == Moved(p, Moved(p, Moved(p, Moved(p, r, b, ms[0]), b, ms[1]), b, ms[2]), b, ms[3])
  {
    hide Moved;
    assert ms[..4][..3] == ms[..3] && ms[..3][..2] == ms[..2] && ms[..2][..1] == ms[..1] && ms[..1][..0] == [];
    assert Played(p, r, b, ms[..1]) == Moved(p, r, b, ms[0]);
    assert Played(p, r, b, ms[..2]) == Moved(p, Moved(p, r, b, ms[0]), b, ms[1]);
  }

  /** Both closings are in the outbox, with these payouts, and the bet ends void. */
  predicate PaidBoth(s: State, t: State, b: nat)
    requires b < |s.bets| && GradeLegs(s.cat, s.bets[b].legs).Some?
  {
    var result := Aggregate(GradeLegs(s.cat, s.bets[b].legs).value);
    && ClosedTwice(t, b) && b < |t.bets| && t.bets[b].status == BetStatus.Void && t.log == s.log
    && t.rows[Key(b, Settle)].payload == Some(SettlementTransaction(b, s.bets[b], result,
         PayoutFor(s.bets[b].stake, s.bets[b].potentialPayout, result), SettleCode(b, result)))
    && t.rows[Key(b, StaffVoid)].payload
       == Some(SettlementTransaction(b, s.bets[b], LegResult.Void, s.bets[b].stake, StaffVoidCode(b)))
  }

  /** The unguarded closing writes after both reads. */
  lemma OverlapClosesTwice(p: Policy, s: State, b: nat, late: nat)
    requires b < |s.bets| && s.bets[b].status == BetStatus.Accepted && Unclosed(s, b) && s.bets[b].legs != []
    requires GradeLegs(s.cat, s.bets[b].legs).Some? && !p.guarded && !p.exclusive
    ensures PaidBoth(s, Played(p, Race(s, map[], late), b, OVERLAP).s, b)
  {
    var results := GradeLegs(s.cat, s.bets[b].legs).value;
    GradedLengths(s, b);
    hide *;
    OverlapIsBoth(p, s, b, late);
    SettlementIsStored(s, b, results);
    SettleThenRefund(s, Closed(s, b, Settlement(results, 0)), b);
  }

  lemma OverlapIsBoth(p: Policy, s: State, b: nat, late: nat)
    requires b < |s.bets| && s.bets[b].status == BetStatus.Accepted && GradeLegs(s.cat, s.bets[b].legs).Some?
    requires !p.guarded && !p.exclusive
    ensures Played(p, Race(s, map[], late), b, OVERLAP).s
         == Closed(Closed(s, b, Settlement(GradeLegs(s.cat, s.bets[b].legs).value, 0)), b, Refund)
  {
    var r, plan := Race(s, map[], late), Settlement(GradeLegs(s.cat, s.bets[b].legs).value, 0);
    PlayedFour(p, r, b, OVERLAP);
    assert OVERLAP[..4] == OVERLAP;
    hide GradeLegs, Played, Closed;
    var r1, r2 := Race(s, map[0 := plan], late), Race(s, map[0 := plan, 1 := Refund], late);
    assert Moved(p, r, b, OVERLAP[0]) == r1 && Moved(p, r1, b, OVERLAP[1]) == r2;
    assert map[0 := plan, 1 := Refund] - {0} == map[1 := Refund];
    assert Moved(p, r2, b, OVERLAP[2]) == Race(Closed(s, b, plan), map[1 := Refund], late);
  }

  /** An acceptance written late reopens the settled bet, however well closings are guarded. */
  lemma ReopeningClosesTwice(p: Policy, s: State, b: nat, late: nat)
    requires b < |s.bets| && s.bets[b].status == BetStatus.Accepted && Unclosed(s, b) && s.bets[b].legs != []
    requires Key(b, Debit) in s.rows && GradeLegs(s.cat, s.bets[b].legs).Some? && late > 0 && !p.rechecked
    ensures PaidBoth(s, Played(p, Race(s, map[], late), b, REOPENING).s, b)
  {
    var results := GradeLegs(s.cat, s.bets[b].legs).value;
    GradedLengths(s, b);
    hide *;
    ReopeningIsBoth(p, s, b, late);
    ReopenedLegs(s, b, results);
    SettleThenRefund(s, Reaccepted(Closed(s, b, Settlement(results, 0)), b), b);
  }

  lemma ReopeningIsBoth(p: Policy, s: State, b: nat, late: nat)
    requires b < |s.bets| && s.bets[b].status == BetStatus.Accepted && Unclosed(s, b)
    requires Key(b, Debit) in s.rows && GradeLegs(s.cat, s.bets[b].legs).Some? && late > 0 && !p.rechecked
    ensures Played(p, Race(s, map[], late), b, REOPENING).s
         == Closed(Reaccepted(Closed(s, b, Settlement(GradeLegs(s.cat, s.bets[b].legs).value, 0)), b), b, Refund)
  {
    var r, plan := Race(s, map[], late), Settlement(GradeLegs(s.cat, s.bets[b].legs).value, 0);
    PlayedFour(p, r, b, REOPENING);
    ReopenedLegs(s, b, plan.results);
    assert REOPENING[..|REOPENING| - 1] == REOPENING[..4];
    assert Played(p, r, b, REOPENING) == Moved(p, Played(p, r, b, REOPENING[..4]), b, Write(1));
    hide GradeLegs, Played, Closed, Reaccepted;
    var settled := Closed(s, b, plan);
    var r1, r2, r3 := Race(s, map[0 := plan], late), Race(settled, map[], late), Race(Reaccepted(settled, b), map[], late - 1);
    assert map[0 := plan] - {0} == map[];
    assert Moved(p, r, b, REOPENING[0]) == r1 && Moved(p, r1, b, REOPENING[1]) == r2 && Moved(p, r2, b, REOPENING[2]) == r3;
    assert Moved(p, r3, b, REOPENING[3]) == r3.(inFlight := map[1 := Refund]);
    assert Open(r3, b);
  }

  lemma ReopenedLegs(s: State, b: nat, results: seq<LegResult>)
    requires b < |s.bets| && Key(b, Debit) in s.rows && Unclosed(s, b) && |results| == |s.bets[b].legs|
    ensures var t := Reaccepted(Closed(s, b, Settlement(results, 0)), b);
            b < |t.bets| && t.bets[b].status == BetStatus.Accepted && StoredSettlement(s, t, b, results)
  {}

  /** The bet has its settlement row and otherwise the amounts and number of legs it had. */
  predicate StoredSettlement(s: State, t: State, b: nat, results: seq<LegResult>)
    requires b < |s.bets|
  {
    var result := Aggregate(results);
    && b < |t.bets| && t.log == s.log && |t.bets[b].legs| == |s.bets[b].legs|
    && SettlementTransaction(b, t.bets[b], LegResult.Void, t.bets[b].stake, StaffVoidCode(b))
       == SettlementTransaction(b, s.bets[b], LegResult.Void, s.bets[b].stake, StaffVoidCode(b))
    && Key(b, StaffVoid) !in t.rows && Key(b, Settle) in t.rows
    && t.rows[Key(b, Settle)].payload == Some(SettlementTransaction(b, s.bets[b], result,
         PayoutFor(s.bets[b].stake, s.bets[b].potentialPayout, result), SettleCode(b, result)))
  }

  lemma SettlementIsStored(s: State, b: nat, results: seq<LegResult>)
    requires b < |s.bets| && Unclosed(s, b) && |results| == |s.bets[b].legs|
    ensures StoredSettlement(s, Closed(s, b, Settlement(results, 0)), b, results)
  {}

  lemma SettleThenRefund(s: State, t: State, b: nat)
    requires b < |s.bets| && GradeLegs(s.cat, s.bets[b].legs).Some? && s.bets[b].legs != []
    requires StoredSettlement(s, t, b, GradeLegs(s.cat, s.bets[b].legs).value)
    ensures PaidBoth(s, Closed(t, b, Refund), b)
  {
    AllVoidIsVoid(|t.bets[b].legs|);
    hide Aggregate, GradeLegs;
  }

  lemma ClosingCodesUnposted(s: State, b: nat, code: Code)
    requires Inv(s) && b < |s.bets| && s.bets[b].status == BetStatus.Accepted
    requires (code.SettleCode? || code.StaffVoidCode?) && code.bet == b
    ensures !Posted(s.log, code)
  {
    assert BetOk(s, b);
    hide BetOk;
    forall i | 0 <= i < |s.log| ensures s.log[i].code != code {
      assert PostingOk(s, s.log[i]);
      if s.log[i].roundId == b {
        OfMembers(s.log, b, i);
      }
    }
  }

  /** Delivered, the two closings pay the user both the payout and the stake. */
  lemma BothClosingsPay(s: State, t: State, b: nat)
    requires Inv(s) && b < |s.bets| && s.bets[b].status == BetStatus.Accepted && GradeLegs(s.cat, s.bets[b].legs).Some?
    requires PaidBoth(s, t, b)
    ensures var payout := PayoutFor(s.bets[b].stake, s.bets[b].potentialPayout, Aggregate(GradeLegs(s.cat, s.bets[b].legs).value));
            var log := Post(s.cfg.wallet, Post(s.cfg.wallet, t.log, t.rows[Key(b, Settle)].payload.value).log,
                            t.rows[Key(b, StaffVoid)].payload.value).log;
            Balance(s.cfg.wallet, log, s.bets[b].username) == Balance(s.cfg.wallet, s.log, s.bets[b].username) + payout + s.bets[b].stake
  {
    var result := Aggregate(GradeLegs(s.cat, s.bets[b].legs).value);
    ClosingCodesUnposted(s, b, SettleCode(b, result));
    ClosingCodesUnposted(s, b, StaffVoidCode(b));
    var payout := PayoutFor(s.bets[b].stake, s.bets[b].potentialPayout, result);
    var tx1 := SettlementTransaction(b, s.bets[b], result, payout, SettleCode(b, result));
    var tx2 := SettlementTransaction(b, s.bets[b], LegResult.Void, s.bets[b].stake, StaffVoidCode(b));
    assert tx1.amount == payout && tx2.amount == s.bets[b].stake && tx1.userCode == tx2.userCode == s.bets[b].username;
    assert tx1.code == SettleCode(b, result) && tx2.code == StaffVoidCode(b);
    hide Inv, GradeLegs, Aggregate, PayoutFor, SettlementTransaction, Post, Balance, Posted;
    BothPosted(s.cfg.wallet, s.log, tx1, tx2);
  }

  lemma AcceptedUnclosed(s: State, b: nat)
    requires Inv(s) && b < |s.bets| && s.bets[b].status == BetStatus.Accepted
    ensures Unclosed(s, b) && Key(b, Debit) in s.rows && s.bets[b].legs != []
  {
    assert BetOk(s, b);
  }

  lemma BothPosted(cfg: WalletConfig, log: seq<Transaction>, tx1: Transaction, tx2: Transaction)
    requires tx1.amount >= 0 && tx2.amount >= 0 && tx1.code != tx2.code && tx1.userCode == tx2.userCode
    requires !Posted(log, tx1.code) && !Posted(log, tx2.code)
    ensures Balance(cfg, Post(cfg, Post(cfg, log, tx1).log, tx2).log, tx1.userCode)
         == Balance(cfg, log, tx1.userCode) + tx1.amount + tx2.amount
  {
    PostedAppend(log, tx1);
    BalanceAppend(cfg, log, tx1, tx1.userCode);
    BalanceAppend(cfg, log + [tx1], tx2, tx1.userCode);
    hide Balance, Posted;
  }

  /** Every gap is paid for: once the bet can be graded, without the guards some interleaving pays the user
      both payout and stake. */
  lemma GapClosesTwice(p: Policy, s: State, b: nat, late: nat) returns (moves: seq<Move>)
    requires Inv(s) && b < |s.bets| && s.bets[b].status == BetStatus.Accepted
    requires !Guarded(p, late) && GradeLegs(s.cat, s.bets[b].legs).Some?
    ensures var t := Played(p, Race(s, map[], late), b, moves).s;
            && PaidBoth(s, t, b)
            && var payout := PayoutFor(s.bets[b].stake, s.bets[b].potentialPayout, Aggregate(GradeLegs(s.cat, s.bets[b].legs).value));
               var log := Post(s.cfg.wallet, Post(s.cfg.wallet, t.log, t.rows[Key(b, Settle)].payload.value).log,
                               t.rows[Key(b, StaffVoid)].payload.value).log;
               Balance(s.cfg.wallet, log, s.bets[b].username) == Balance(s.cfg.wallet, s.log, s.bets[b].username) + payout + s.bets[b].stake
  {
    AcceptedUnclosed(s, b);
    moves := if p.guarded || p.exclusive then REOPENING else OVERLAP;
    hide Inv, GradeLegs, Played, PaidBoth, Aggregate, PayoutFor, Post, Balance;
    if p.guarded || p.exclusive {
      ReopeningClosesTwice(p, s, b, late);
    } else {
      OverlapClosesTwice(p, s, b, late);
    }
    BothClosingsPay(s, Played(p, Race(s, map[], late), b, moves).s, b);
  }

  // A catalogue that grades any slip

  /** Every event of the legs is over and every market void. */
  function AllOver(legs: seq<Leg>): Catalogue {
    if legs == [] then
      Catalogue(map[], map[], map["t" := Team("s", "t")], map["f" := Fixture("l", "t", "t", 0, FixtureStatus.Ended)],
                map[], map[], map[], map[], {})
    else
      var cat, leg := AllOver(legs[..|legs| - 1]), legs[|legs| - 1];
      cat.(events := cat.events[leg.event := Event("f", EventStatus.Ended, None, None)],
           markets := cat.markets[leg.market := Market(leg.event, MarketType.MatchResult, MarketStatus.Void, None)],
           selections := cat.selections[leg.selection := Selection(leg.market, "t", SelectionStatus.Void, 1000)])
  }

  predicate Over(cat: Catalogue, leg: Leg) {
    && leg.event in cat.events && cat.events[leg.event] == Event("f", EventStatus.Ended, None, None)
    && leg.market in cat.markets && cat.markets[leg.market].status == MarketStatus.Void
    && leg.selection in cat.selections && TeamNames(cat, "f") == Some(("t", "t"))
  }

  lemma {:induction false} AllAreOver(legs: seq<Leg>)
    ensures TeamNames(AllOver(legs), "f") == Some(("t", "t")) && forall i :: 0 <= i < |legs| ==> Over(AllOver(legs), legs[i])
  {
    if legs != [] {
      AllAreOver(legs[..|legs| - 1]);
      forall i | 0 <= i < |legs| - 1 ensures Over(AllOver(legs), legs[i]) {
        assert Over(AllOver(legs[..|legs| - 1]), legs[..|legs| - 1][i]);
      }
    }
  }

  lemma AllOverGrades(legs: seq<Leg>)
    ensures GradeLegs(AllOver(legs), legs).Some?
  {
    AllAreOver(legs);
    hide AllOver, TeamNames, Grading.MatchResult, Grading.Total, Grading.Handicap, Grading.BothTeamsScore;
    forall i | 0 <= i < |legs| ensures GradeLeg(AllOver(legs), legs[i]).Some? {
      assert Over(AllOver(legs), legs[i]);
    }
  }

  lemma {:induction false} PlayedAfter(p: Policy, r: Race, b: nat, m: Move, moves: seq<Move>)
    ensures Played(p, r, b, [m] + moves) == Played(p, Moved(p, r, b, m), b, moves)
  {
    hide Moved;
    if moves == [] {
      assert [m] + moves == [m] && [m][..0] == [];
    } else {
      assert ([m] + moves)[..|moves|] == [m] + moves[..|moves| - 1];
      PlayedAfter(p, r, b, m, moves[..|moves| - 1]);
    }
  }

  /** A gap is reached from every accepted bet: first the catalogue comes to grade it. */
  lemma EditThenGap(p: Policy, s: State, b: nat, late: nat) returns (moves: seq<Move>)
    requires b < |s.bets| && s.bets[b].status == BetStatus.Accepted && Unclosed(s, b) && s.bets[b].legs != []
    requires Key(b, Debit) in s.rows && !Guarded(p, late)
    ensures ClosedTwice(Played(p, Race(s, map[], late), b, moves).s, b)
  {
    var over, rest := AllOver(s.bets[b].legs), if p.guarded || p.exclusive then REOPENING else OVERLAP;
    var t := s.(cat := over);
    assert Unclosed(t, b) && Key(b, Debit) in t.rows;
    moves := [Move.EditCatalogue(over)] + rest;
    AllOverGrades(s.bets[b].legs);
    assert Moved(p, Race(s, map[], late), b, Move.EditCatalogue(over)) == Race(t, map[], late);
    hide GradeLegs, Played, AllOver, Moved, Unclosed, ClosedTwice, Aggregate, PayoutFor, SettlementTransaction;
    PlayedAfter(p, Race(s, map[], late), b, Move.EditCatalogue(over), rest);
    if p.guarded || p.exclusive {
      ReopeningClosesTwice(p, t, b, late);
    } else {
      OverlapClosesTwice(p, t, b, late);
    }
  }

  /** An accepted bet is closed at most once, in every interleaving of any number of settlements, staff
      voids, late acceptances and catalogue edits, exactly when closing writes look at the status again or
      closings exclude each other, and no acceptance is late or acceptance writes look at the status again.
      The code looks at nothing again. */
  lemma ClosesOnceExactly(p: Policy, s: State, b: nat, late: nat)
    requires Inv(s) && b < |s.bets| && s.bets[b].status == BetStatus.Accepted
    ensures (forall moves :: !ClosedTwice(Played(p, Race(s, map[], late), b, moves).s, b)) <==> Guarded(p, late)
  {
    AcceptedUnclosed(s, b);
    hide *;
    if Guarded(p, late) {
      forall moves ensures !ClosedTwice(Played(p, Race(s, map[], late), b, moves).s, b) {
        PlayStaysOnce(p, s, b, late, moves);
        OnceIsNotTwice(p, s, Played(p, Race(s, map[], late), b, moves), b);
      }
    } else {
      var moves := EditThenGap(p, s, b, late);
      assert ClosedTwice(Played(p, Race(s, map[], late), b, moves).s, b);
    }
  }
}
