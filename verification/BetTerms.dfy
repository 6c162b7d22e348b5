/** The terms of a bet over whole runs: what it was placed for, what its closing posts, and exactly when
    a placement creates a bet. */
module BetTerms {
  import opened Domain
  import opened BetMath
  import opened Wallet
  import opened Grading
  import opened BetValidation
  import opened Ledger
  import opened LedgerSafety
  import opened LedgerTheorems

  /** The bet is the one asked for: the requester's identity and stake, one leg per selection asked for as the
      catalogue had it then, the combined odds of the legs' prices, and the payout of stake and odds. */
  predicate AsAsked(cat: Catalogue, limits: Limits, r: Request, bet: Bet) {
    && bet.group == r.group && bet.userId == r.userId && bet.username == r.username && bet.idempotencyKey == r.idempotencyKey
    && bet.stake == r.stake && limits.minStake <= bet.stake <= limits.maxStake && bet.potentialPayout <= limits.maxPayout
    && 1 <= |r.selectionIds| == |bet.legs| <= 12 && NoDuplicates(r.selectionIds)
    && (forall i :: 0 <= i < |bet.legs| ==>
          Bettable(cat, r.group, r.selectionIds[i]) && LegOf(cat, r.selectionIds[i], bet.legs[i].(outcome := None)))
    && bet.odds == CombinedOdds(Prices(bet.legs))
    && (limits.maxPayout <= 1_000_000_000_000_000 ==>
          bet.potentialPayout * 1000 <= bet.stake * bet.odds < (bet.potentialPayout + 1) * 1000)
  }

  /** The bet's row is due at once, with a fresh code. */
  predicate DebitDue(rows: map<Key, Row>, b: nat, r: Request, nonce: nat) {
    && Key(b, Debit) in rows
    && var row := rows[Key(b, Debit)];
       && row.group == r.group && row.code == DebitCode(nonce) && row.status == RowStatus.Pending
       && row.attempts == 0 && row.nextRetryAt == None && row.batchId == None
  }

  /** What a placement must meet to create a bet. */
  ghost predicate Placeable(s: State, r: Request, nonce: nat, walletUp: bool) {
    && (forall b :: 0 <= b < |s.bets| ==> !SameIdentity(s.bets[b], r.group, r.userId, r.idempotencyKey))
    && 1 <= |r.selectionIds| <= 12 && NoDuplicates(r.selectionIds)
    && (forall i :: 0 <= i < |r.selectionIds| ==> Bettable(s.cat, r.group, r.selectionIds[i]))
    && s.cfg.limits.minStake <= r.stake <= s.cfg.limits.maxStake
    && QuoteFor(r.stake, Legs(s.cat, r.selectionIds)).payout <= s.cfg.limits.maxPayout
    && walletUp && r.currency == "USD" && r.stake <= Shown(s.cfg.wallet, Balance(s.cfg.wallet, s.log, r.username))
    && forall k :: k in s.rows ==> s.rows[k].code != DebitCode(nonce)
  }

  /** One more bet, pending and as asked, with a debit row that is due at once; nothing else changes. */
  ghost predicate Created(s: State, t: State, r: Request, nonce: nat) {
    && |t.bets| == |s.bets| + 1 && t.bets[..|s.bets|] == s.bets && AsAsked(s.cat, s.cfg.limits, r, t.bets[|s.bets|])
    && t.bets[|s.bets|].status == BetStatus.Pending && PaidAs(t.bets[|s.bets|])
    && t.created == s.created + [Key(|s.bets|, Debit)] && DebitDue(t.rows, |s.bets|, r, nonce)
    && (forall k :: k != Key(|s.bets|, Debit) ==> SameRow(s, t, k))
    && t.cfg == s.cfg && t.log == s.log && t.cat == s.cat && t.now == s.now
  }

  /** A placement creates a bet exactly when it meets all of this, and otherwise changes nothing. */
  lemma PlacesExactly(s: State, r: Request, nonce: nat, walletUp: bool)
    requires Inv(s)
    ensures var t := DoPlace(s, r, nonce, walletUp);
            if Placeable(s, r, nonce, walletUp) then Created(s, t, r, nonce) else t == s
  {
    PlaceableMeans(s, r, nonce, walletUp);
    if Placeable(s, r, nonce, walletUp) {
      hide Placeable;
      CreatesAsAsked(s, r, nonce, walletUp);
    }
  }

  lemma PlaceableMeans(s: State, r: Request, nonce: nat, walletUp: bool)
    requires Inv(s)
    ensures Placeable(s, r, nonce, walletUp) <==> DoPlace(s, r, nonce, walletUp) != s
    ensures Placeable(s, r, nonce, walletUp) ==> Validate(s.cat, s.cfg.limits, r.group, r.selectionIds, r.stake).Quoted?
  {
    KeyIsFree(s);
    QuotedExactly(s.cat, s.cfg.limits, r.group, r.selectionIds, r.stake);
    hide Inv, Validate, QuoteFor, Legs, Bettable, Balance, Shown, NoDuplicates;
    assert |s.bets| != |s.bets| + 1;
  }

  lemma CreatesAsAsked(s: State, r: Request, nonce: nat, walletUp: bool)
    requires DoPlace(s, r, nonce, walletUp) != s
    requires Validate(s.cat, s.cfg.limits, r.group, r.selectionIds, r.stake).Quoted?
    ensures Created(s, DoPlace(s, r, nonce, walletUp), r, nonce)
  {
    QuoteIsAsAsked(s.cat, s.cfg.limits, r);
    hide Validate, AsAsked, PaidAs, DebitDue, Balance, Shown, FindBet;
    var bet := DoPlace(s, r, nonce, walletUp).bets[|s.bets|];
    assert bet == BetFor(s.cat, s.cfg.limits, r);
    assert DebitDue(DoPlace(s, r, nonce, walletUp).rows, |s.bets|, r, nonce) by { hide *; DebitIsDue(s, r, nonce, walletUp); }
  }

  lemma DebitIsDue(s: State, r: Request, nonce: nat, walletUp: bool)
    requires DoPlace(s, r, nonce, walletUp) != s
    ensures DebitDue(DoPlace(s, r, nonce, walletUp).rows, |s.bets|, r, nonce)
  {
    hide Validate, Balance, Shown, FindBet;
  }

  function BetFor(cat: Catalogue, limits: Limits, r: Request): Bet
    requires Validate(cat, limits, r.group, r.selectionIds, r.stake).Quoted?
  {
    var q := Validate(cat, limits, r.group, r.selectionIds, r.stake).quote;
    Bet(r.group, r.userId, r.username, r.idempotencyKey, q.stake, q.odds, q.payout, q.legs, BetStatus.Pending, None)
  }

  lemma QuoteIsAsAsked(cat: Catalogue, limits: Limits, r: Request)
    requires Validate(cat, limits, r.group, r.selectionIds, r.stake).Quoted? && 1 <= |r.selectionIds| <= 12
    ensures AsAsked(cat, limits, r, BetFor(cat, limits, r)) && PaidAs(BetFor(cat, limits, r))
  {
    hide Validate, QuoteFor, Legs, Bettable, LegOf, CombinedOdds, NoDuplicates;
    QuotedExactly(cat, limits, r.group, r.selectionIds, r.stake);
    QuoteIsSound(cat, limits, r.group, r.selectionIds, r.stake);
    LegsAreOpen(cat, r.selectionIds, BetFor(cat, limits, r).legs);
  }

  lemma LegsAreOpen(cat: Catalogue, ids: seq<string>, legs: seq<Leg>)
    requires |legs| == |ids| && forall i :: 0 <= i < |ids| ==> LegOf(cat, ids[i], legs[i])
    ensures forall i :: 0 <= i < |legs| ==> legs[i].outcome == None && LegOf(cat, ids[i], legs[i].(outcome := None))
  {
    hide LegOf;
    forall i | 0 <= i < |legs| ensures legs[i].outcome == None && legs[i].(outcome := None) == legs[i] {
      LegIsOpen(cat, ids[i], legs[i]);
    }
  }

  lemma KeyIsFree(s: State)
    requires Inv(s)
    ensures Key(|s.bets|, Debit) !in s.rows
  {}

  lemma LegIsOpen(cat: Catalogue, id: string, leg: Leg)
    requires LegOf(cat, id, leg)
    ensures leg.outcome == None && leg.(outcome := None) == leg
  {}

  /** The terms outlast everything that happens to the bet. */
  lemma TermsStay(cat: Catalogue, limits: Limits, r: Request, x: Bet, y: Bet)
    requires AsAsked(cat, limits, r, x) && BetLater(x, y)
    ensures AsAsked(cat, limits, r, y)
  {
    hide Bettable, LegOf, CombinedOdds, NoDuplicates;
    forall i | 0 <= i < |x.legs| ensures y.legs[i].price == x.legs[i].price && y.legs[i].(outcome := None) == x.legs[i].(outcome := None) {
      assert y.legs[i].(outcome := None).price == y.legs[i].price && x.legs[i].(outcome := None).price == x.legs[i].price;
    }
    assert Prices(y.legs) == Prices(x.legs);
  }

  /** Every bet of every reachable state was created by one placement of the run, and is on the terms that the
      request and the catalogue of that moment give. */
  lemma {:induction false} BetsAreAsAsked(cfg: Config, cat: Catalogue, now: int, steps: seq<Step>, b: nat) returns (i: nat)
    requires b < |Run(Start(cfg, cat, now), steps).bets|
    ensures i < |steps| && steps[i].Place? && |Run(Start(cfg, cat, now), steps[..i]).bets| == b
    ensures AsAsked(Run(Start(cfg, cat, now), steps[..i]).cat, cfg.limits, steps[i].request, Run(Start(cfg, cat, now), steps).bets[b])
  {
    if steps == [] {
      assert false;
    } else {
      var front, step := steps[..|steps| - 1], steps[|steps| - 1];
      var s := Reach(cfg, cat, now, front);
      var t := Run(Start(cfg, cat, now), steps);
      assert t == Apply(s, step);
      StepLater(s, step);
      hide Run, Inv, AsAsked, Apply, BetLater;
      if b < |s.bets| {
        i := BetsAreAsAsked(cfg, cat, now, front, b);
        assert front[..i] == steps[..i];
        TermsStay(Run(Start(cfg, cat, now), steps[..i]).cat, cfg.limits, steps[i].request, s.bets[b], t.bets[b]) by {
          assert BetLater(s.bets[b], t.bets[b]);
        }
      } else {
        i := |steps| - 1;
        OnlyPlacementsCreate(s, step);
        PlacesExactly(s, step.request, step.nonce, step.walletUp);
      }
    }
  }

  /** No other step creates a bet. */
  lemma OnlyPlacementsCreate(s: State, step: Step)
    requires Inv(s) && |Apply(s, step).bets| != |s.bets|
    ensures step.Place? && Apply(s, step) == DoPlace(s, step.request, step.nonce, step.walletUp)
  {
    hide Deliver, DoPlace, Select;
  }

  /** In every reachable state a bet is paid as its legs say, whatever its status. */
  lemma {:induction false} BetsArePaidAs(cfg: Config, cat: Catalogue, now: int, steps: seq<Step>, b: nat)
    requires b < |Run(Start(cfg, cat, now), steps).bets|
    ensures PaidAs(Run(Start(cfg, cat, now), steps).bets[b])
  {
    if steps == [] {
      assert false;
    } else {
      var front, step := steps[..|steps| - 1], steps[|steps| - 1];
      var s := Reach(cfg, cat, now, front);
      var t := Run(Start(cfg, cat, now), steps);
      assert t == Apply(s, step);
      StepLater(s, step);
      if Closed(t.bets[b].status) {
        BetsAndRowsInStep(cfg, cat, now, steps, b);
      } else if b < |s.bets| {
        BetsArePaidAs(cfg, cat, now, front, b);
        OpenStays(s.bets[b], t.bets[b]);
      } else {
        hide Run, Inv, Apply;
        OnlyPlacementsCreate(s, step);
        PlacesExactly(s, step.request, step.nonce, step.walletUp);
      }
    }
  }

  lemma OpenStays(x: Bet, y: Bet)
    requires PaidAs(x) && BetLater(x, y) && !Closed(y.status)
    ensures PaidAs(y)
  {}

  /** The posting is the debit of its bet, for the stake, or the closing of a bet that is closed as its code
      says: the potential payout for a won bet, the stake for a void one, nothing for a lost one. */
  predicate PostingMatches(bet: Bet, e: Transaction) {
    && e.userCode == bet.username && e.group == bet.group
    && match e.code
       case DebitCode(_) => e.amount == -(bet.stake as int) && !e.isFinished && !e.isCanceled && bet.status != BetStatus.Rejected
       case SettleCode(b, outcome) =>
         && b == e.roundId && e.isFinished
         && (match outcome
             case Won => bet.status == BetStatus.Won && e.amount == bet.potentialPayout && !e.isCanceled
             case Lost => bet.status == BetStatus.Lost && e.amount == 0 && !e.isCanceled
             case Void => bet.status == BetStatus.Void && e.amount == bet.stake && e.isCanceled)
       case StaffVoidCode(b) => b == e.roundId && bet.status == BetStatus.Void && e.amount == bet.stake && e.isFinished && e.isCanceled
  }

  /** So it is for every posting of every run. */
  lemma PostingsMatchBets(cfg: Config, cat: Catalogue, now: int, steps: seq<Step>, i: nat)
    requires i < |Run(Start(cfg, cat, now), steps).log|
    ensures var s := Run(Start(cfg, cat, now), steps);
            s.log[i].roundId < |s.bets| && PostingMatches(s.bets[s.log[i].roundId], s.log[i])
  {
    var s := Reach(cfg, cat, now, steps);
    hide Run, Inv, PostingMatches;
    PostingOfBet(s, i);
    OfMembers(s.log, s.log[i].roundId, i);
    PostingIsOwn(s, s.log[i]);
  }

  lemma PostingIsOwn(s: State, e: Transaction)
    requires Inv(s) && e.roundId < |s.bets| && e in Of(s.log, e.roundId)
    ensures PostingMatches(s.bets[e.roundId], e)
  {
    var b := e.roundId;
    assert BetOk(s, b);
    hide Of, ClosedAsGraded, PaidAs, Inv, PostingMatches, PaysOut, DebitOf;
    DebitMatches(s, b);
    if Closed(s.bets[b].status) {
      var k := Key(b, if Key(b, Settle) in s.rows then Settle else StaffVoid);
      GradedIsPaid(s.bets[b]);
      ClosingMatches(s, k);
      assert e == DebitOf(s, b) || e == s.rows[k].payload.value;
    }
  }

  lemma DebitMatches(s: State, b: nat)
    requires b < |s.bets| && Key(b, Debit) in s.rows && s.rows[Key(b, Debit)].code.DebitCode?
    ensures s.bets[b].status != BetStatus.Rejected ==> PostingMatches(s.bets[b], DebitOf(s, b))
  {}

  lemma ClosingMatches(s: State, k: Key)
    requires k.bet < |s.bets| && k in s.rows && Closing(k.kind) && PaysOut(s, k)
    requires PaidAs(s.bets[k.bet]) && Closed(s.bets[k.bet].status)
    requires k.kind == StaffVoid ==> s.bets[k.bet].status == BetStatus.Void
    ensures PostingMatches(s.bets[k.bet], s.rows[k].payload.value)
  {
    PayoutByStatus(s.bets[k.bet]);
    hide PaidAs;
  }

  lemma PayoutByStatus(bet: Bet)
    requires PaidAs(bet) && Closed(bet.status)
    ensures bet.payoutAmount == Some(if bet.status == BetStatus.Won then bet.potentialPayout
                                     else if bet.status == BetStatus.Void then bet.stake else 0)
  {}
}
