/** What holds over whole runs of the money protocol: conservation of money, at most one debit, no
    credit before its debit, finality, and idempotent placement. */
module LedgerTheorems {
  import opened Domain
  import opened Wallet
  import opened Grading
  import opened BetValidation
  import opened Ledger
  import opened LedgerSafety

  // Conservation

  ghost function Sum(txs: seq<Transaction>): int {
    if txs == [] then 0 else Sum(txs[..|txs| - 1]) + txs[|txs| - 1].amount
  }

  /** Net movement that the wallet has made for a bet. */
  ghost function Net(s: State, b: nat): int {
    Sum(Of(s.log, b))
  }

  /** Net movement over the user's bets among the first n. */
  ghost function NetOfUser(bets: seq<Bet>, log: seq<Transaction>, user: string, n: nat): int
    requires n <= |bets|
  {
    if n == 0 then 0
    else NetOfUser(bets, log, user, n - 1) + (if bets[n - 1].username == user then Sum(Of(log, n - 1)) else 0)
  }

  lemma SumAppend(txs: seq<Transaction>, tx: Transaction)
    ensures Sum(txs + [tx]) == Sum(txs) + tx.amount
  {
    assert (txs + [tx])[..|txs|] == txs;
  }

  lemma {:induction false} NetOfUserAppend(bets: seq<Bet>, log: seq<Transaction>, tx: Transaction, user: string, n: nat)
    requires n <= |bets| && tx.roundId < |bets| && bets[tx.roundId].username == tx.userCode
    ensures NetOfUser(bets, log + [tx], user, n)
         == NetOfUser(bets, log, user, n) + (if tx.roundId < n && tx.userCode == user then tx.amount else 0)
  {
    hide Of, Sum;
    if n > 0 {
      NetOfUserAppend(bets, log, tx, user, n - 1);
      OfAppend(log, tx, n - 1);
      SumAppend(Of(log, n - 1), tx);
    }
  }

  lemma {:induction false} BalanceByBet(cfg: WalletConfig, bets: seq<Bet>, log: seq<Transaction>, user: string)
    requires forall i :: 0 <= i < |log| ==> log[i].roundId < |bets| && log[i].userCode == bets[log[i].roundId].username
    ensures Balance(cfg, log, user) == cfg.opening + NetOfUser(bets, log, user, |bets|)
  {
    if log == [] {
      NoPostings(bets, user, |bets|);
    } else {
      var front, last := log[..|log| - 1], log[|log| - 1];
      assert log == front + [last];
      BalanceByBet(cfg, bets, front, user);
      NetOfUserAppend(bets, front, last, user, |bets|);
    }
  }

  lemma {:induction false} NoPostings(bets: seq<Bet>, user: string, n: nat)
    requires n <= |bets|
    ensures NetOfUser(bets, [], user, n) == 0
  {
    if n > 0 {
      NoPostings(bets, user, n - 1);
    }
  }

  predicate Closed(status: BetStatus) {
    status == BetStatus.Won || status == BetStatus.Lost || status == BetStatus.Void
  }

  /** No outbox row of the bet is still to be delivered. */
  predicate Delivered(s: State, b: nat) {
    forall kind: RowKind :: Key(b, kind) in s.rows ==> s.rows[Key(b, kind)].status != RowStatus.Pending
  }

  /** What a bet has moved in the end: a won one its potential payout less its stake, a lost or still
      accepted one minus its stake, a void or rejected one nothing. */
  function ExpectedNet(bet: Bet): int {
    match bet.status
    case Won => bet.potentialPayout - bet.stake
    case Lost => -(bet.stake as int)
    case Accepted => -(bet.stake as int)
    case _ => 0
  }

  /** A bet is won when all its legs are, for its potential payout; void when some leg is, for its stake;
      lost, for nothing, when some leg is lost and none void. Until then it has no payout and no outcomes. */
  predicate PaidAs(bet: Bet) {
    match bet.status
    case Won => bet.payoutAmount == Some(bet.potentialPayout) && forall i :: 0 <= i < |bet.legs| ==> bet.legs[i].outcome == Some(LegResult.Won)
    case Void => bet.payoutAmount == Some(bet.stake) && (exists i :: 0 <= i < |bet.legs| && bet.legs[i].outcome == Some(LegResult.Void))
                 && forall i :: 0 <= i < |bet.legs| ==> bet.legs[i].outcome != None
    case Lost => bet.payoutAmount == Some(0) && (exists i :: 0 <= i < |bet.legs| && bet.legs[i].outcome == Some(LegResult.Lost))
                 && forall i :: 0 <= i < |bet.legs| ==> bet.legs[i].outcome in {Some(LegResult.Won), Some(LegResult.Lost)}
    case _ => bet.payoutAmount == None && forall i :: 0 <= i < |bet.legs| ==> bet.legs[i].outcome == None
  }

  lemma GradedIsPaid(bet: Bet)
    requires Closed(bet.status) && ClosedAsGraded(bet)
    ensures PaidAs(bet)
  {
    var results := Results(bet.legs);
    AggregateMeaning(results);
    forall i | 0 <= i < |bet.legs| ensures bet.legs[i].outcome == Some(results[i]) && results[i] in results {}
    if LegResult.Void in results {
      var i :| 0 <= i < |results| && results[i] == LegResult.Void;
      assert bet.legs[i].outcome == Some(LegResult.Void);
    } else if LegResult.Lost in results {
      var i :| 0 <= i < |results| && results[i] == LegResult.Lost;
      assert bet.legs[i].outcome == Some(LegResult.Lost);
    }
  }

  lemma SumOfTwo(a: Transaction, b: Transaction)
    ensures Sum([a]) == a.amount && Sum([a, b]) == a.amount + b.amount
  {
    assert [a][..0] == [] && [a, b][..1] == [a];
  }

  lemma NetByStatus(s: State, b: nat)
    requires Inv(s) && b < |s.bets|
    ensures Delivered(s, b) ==> Net(s, b) == ExpectedNet(s.bets[b])
    ensures s.bets[b].status == BetStatus.Pending ==> Net(s, b) == 0 || Net(s, b) == -(s.bets[b].stake as int)
    ensures Closed(s.bets[b].status) ==> Net(s, b) == ExpectedNet(s.bets[b]) || Net(s, b) == -(s.bets[b].stake as int)
  {
    assert BetOk(s, b);
    var bet, d := s.bets[b], Key(b, Debit);
    SumOfTwo(DebitOf(s, b), DebitOf(s, b));
    if Closed(bet.status) {
      GradedIsPaid(bet);
      var k := Key(b, if Key(b, Settle) in s.rows then Settle else StaffVoid);
      SumOfTwo(DebitOf(s, b), s.rows[k].payload.value);
    }
  }

  /** Ledger conservation, over every run with retries, lost answers and crashes: a user's balance is
      the opening balance plus the net movement of the user's bets, where a bet with nothing left to
      deliver nets exactly minus the stake if accepted, zero if rejected, and payout minus stake if
      won, lost or void. Each posted code counts once. */
  lemma LedgerConservation(cfg: Config, cat: Catalogue, now: int, steps: seq<Step>, user: string)
    ensures var s := Run(Start(cfg, cat, now), steps);
            && DistinctCodes(s.log)
            && Balance(cfg.wallet, s.log, user) == cfg.wallet.opening + NetOfUser(s.bets, s.log, user, |s.bets|)
            && forall b :: 0 <= b < |s.bets| && Delivered(s, b) ==> Net(s, b) == ExpectedNet(s.bets[b])
  {
    var s := Reach(cfg, cat, now, steps);
    forall i | 0 <= i < |s.log| ensures s.log[i].roundId < |s.bets| && s.log[i].userCode == s.bets[s.log[i].roundId].username {
      assert PostingOk(s, s.log[i]);
    }
    BalanceByBet(cfg.wallet, s.bets, s.log, user);
    forall b | 0 <= b < |s.bets| && Delivered(s, b) ensures Net(s, b) == ExpectedNet(s.bets[b]) {
      NetByStatus(s, b);
    }
  }

  lemma Reach(cfg: Config, cat: Catalogue, now: int, steps: seq<Step>) returns (s: State)
    ensures s == Run(Start(cfg, cat, now), steps) && Inv(s) && s.cfg == cfg
  {
    s := Run(Start(cfg, cat, now), steps);
    StartInv(cfg, cat, now);
    RunKeepsInv(Start(cfg, cat, now), steps);
    RunKeepsConfig(Start(cfg, cat, now), steps);
  }

  /** Bets and outbox rows are in step in every reachable state: the debit row of a bet is pending, failed
      or completed as the bet is pending, rejected or neither; only a closed bet has a closing row, and
      just one, which pays the recorded payout; and its status is the aggregate of its leg outcomes. */
  lemma BetsAndRowsInStep(cfg: Config, cat: Catalogue, now: int, steps: seq<Step>, b: nat)
    requires b < |Run(Start(cfg, cat, now), steps).bets|
    ensures var s := Run(Start(cfg, cat, now), steps); var bet := s.bets[b];
            && Key(b, Debit) in s.rows
            && s.rows[Key(b, Debit)].status == (if bet.status == BetStatus.Pending then RowStatus.Pending
                                                else if bet.status == BetStatus.Rejected then RowStatus.Failed else RowStatus.Completed)
            && (Closed(bet.status) <==> Key(b, Settle) in s.rows || Key(b, StaffVoid) in s.rows)
            && !(Key(b, Settle) in s.rows && Key(b, StaffVoid) in s.rows)
            && (Closed(bet.status) ==> PaidAs(bet))
            && (Key(b, Settle) in s.rows ==> PaysOut(s, Key(b, Settle)))
            && (Key(b, StaffVoid) in s.rows ==> PaysOut(s, Key(b, StaffVoid)))
  {
    var s := Reach(cfg, cat, now, steps);
    hide Of, ClosedAsGraded, PaysOut, PaidAs, Run;
    assert BetOk(s, b);
    if Closed(s.bets[b].status) {
      GradedIsPaid(s.bets[b]);
    }
  }

  lemma {:induction false} RunKeepsConfig(s: State, steps: seq<Step>)
    ensures Run(s, steps).cfg == s.cfg
  {
    if steps != [] {
      RunKeepsConfig(s, steps[..|steps| - 1]);
      StepPosts(Run(s, steps[..|steps| - 1]), steps[|steps| - 1]);
    }
  }

  // The wallet only ever grows by posting

  /** The transactions that a step brings to the wallet. */
  ghost function Presented(s: State, step: Step): seq<Transaction>
    requires PayloadsStored(s.rows)
  {
    match step
    case AttemptDebit(b, o) =>
      if b < |s.bets| && s.bets[b].status !in {BetStatus.Accepted, BetStatus.Rejected} && Key(b, Debit) in s.rows
         && s.rows[Key(b, Debit)].status != RowStatus.Completed
      then Reached([DebitOf(s, b)], o.delivery) else []
    case SendStaffVoid(b, o) =>
      if Key(b, StaffVoid) in s.rows && s.rows[Key(b, StaffVoid)].status == RowStatus.Pending && Due(s.rows[Key(b, StaffVoid)], s.now)
      then Reached([s.rows[Key(b, StaffVoid)].payload.value], o.delivery) else []
    case Flush(group, _, o) =>
      var due := DueSettles(s, group);
      if due == [] then []
      else Reached(Payloads(s.rows, BatchEntries(s, group, s.rows[due[0]].batchId)), o.delivery)
    case _ => []
  }

  lemma StepPosts(s: State, step: Step)
    ensures Apply(s, step).cfg == s.cfg
    ensures PayloadsStored(s.rows) ==> Apply(s, step).log == PostAll(s.cfg.wallet, s.log, Presented(s, step)).log
    ensures !PayloadsStored(s.rows) ==> Apply(s, step) == s
  {
    hide PostAll, Validate, Balance;
    assert PostAll(s.cfg.wallet, s.log, []) == Posting(s.log, true) by { NothingPosted(s.cfg.wallet, s.log); }
  }

  lemma NothingPosted(cfg: WalletConfig, log: seq<Transaction>)
    ensures PostAll(cfg, log, []) == Posting(log, true)
  {}

  lemma {:induction false} PostAllNonNegative(cfg: WalletConfig, log: seq<Transaction>, txs: seq<Transaction>, user: string)
    requires !RoundsUp(cfg) && Balance(cfg, log, user) >= 0
    ensures Balance(cfg, PostAll(cfg, log, txs).log, user) >= 0
  {
    if txs != [] {
      PostAllNonNegative(cfg, log, txs[..|txs| - 1], user);
      PostNonNegative(cfg, PostAll(cfg, log, txs[..|txs| - 1]).log, txs[|txs| - 1], user);
    }
  }

  lemma {:induction false} BalancesStayNonNegative(cfg: Config, cat: Catalogue, now: int, steps: seq<Step>, user: string)
    requires 0 <= cfg.wallet.opening && !RoundsUp(cfg.wallet)
    ensures Balance(cfg.wallet, Run(Start(cfg, cat, now), steps).log, user) >= 0
  {
    if steps != [] {
      BalancesStayNonNegative(cfg, cat, now, steps[..|steps| - 1], user);
      var s := Reach(cfg, cat, now, steps[..|steps| - 1]);
      StepPosts(s, steps[|steps| - 1]);
      PostAllNonNegative(cfg.wallet, s.log, Presented(s, steps[|steps| - 1]), user);
    }
  }

  lemma {:induction false} PostAllAppends(cfg: WalletConfig, log: seq<Transaction>, txs: seq<Transaction>)
    ensures log <= PostAll(cfg, log, txs).log
  {
    if txs != [] {
      PostAllAppends(cfg, log, txs[..|txs| - 1]);
    }
  }

  // What never changes back

  /** The legs are the same but for their outcomes. */
  predicate SameLegs(x: Bet, y: Bet) {
    |y.legs| == |x.legs| && forall i :: 0 <= i < |x.legs| ==> y.legs[i].(outcome := None) == x.legs[i].(outcome := None)
  }

  /** Bet b may move from one record to the other: identity, legs, stake and payout terms are fixed, outcomes
      and payout wait for the closing, PENDING may become anything but stays consistent, ACCEPTED may only close, and REJECTED or
      closed bets do not change at all. */
  predicate BetLater(x: Bet, y: Bet) {
    && SameLegs(x, y) && (!Closed(y.status) ==> y.legs == x.legs && y.payoutAmount == x.payoutAmount)
    && y.group == x.group && y.userId == x.userId && y.username == x.username && y.idempotencyKey == x.idempotencyKey
    && y.stake == x.stake && y.odds == x.odds && y.potentialPayout == x.potentialPayout
    && (x.status == BetStatus.Accepted ==> y.status == BetStatus.Accepted || Closed(y.status))
    && (x.status == BetStatus.Rejected || Closed(x.status) ==> y == x)
  }

  /** An outbox row keeps its code and payload; a batch id, once set, stays; a row that is no longer
      pending stays as it is. */
  predicate RowLater(x: Row, y: Row) {
    && y.group == x.group && y.code == x.code && y.payload == x.payload
    && (x.batchId.Some? ==> y.batchId == x.batchId)
    && (x.status != RowStatus.Pending ==> y == x)
  }

  ghost predicate Later(s: State, t: State) {
    && |s.bets| <= |t.bets| && s.log <= t.log && s.created <= t.created
    && (forall b :: 0 <= b < |s.bets| ==> BetLater(s.bets[b], t.bets[b]))
    && (forall k :: k in s.rows ==> k in t.rows && RowLater(s.rows[k], t.rows[k]))
  }

  lemma LaterTransitive(s: State, t: State, u: State)
    requires Later(s, t) && Later(t, u)
    ensures Later(s, u)
  {
    forall b | 0 <= b < |s.bets| ensures BetLater(s.bets[b], u.bets[b]) {
      assert BetLater(s.bets[b], t.bets[b]) && BetLater(t.bets[b], u.bets[b]);
    }
    forall k | k in s.rows ensures k in u.rows && RowLater(s.rows[k], u.rows[k]) {
      assert RowLater(s.rows[k], t.rows[k]) && RowLater(t.rows[k], u.rows[k]);
    }
  }

  lemma LogLater(s: State, log: seq<Transaction>)
    requires s.log <= log
    ensures Later(s, s.(log := log))
  {}

  lemma RescheduleLater(s: State, keys: seq<Key>)
    requires forall k :: k in keys && k in s.rows ==> s.rows[k].status == RowStatus.Pending
    ensures Later(s, s.(rows := RescheduleAll(s.rows, keys, s.now)))
  {}

  lemma AssignLater(s: State, keys: seq<Key>, batch: nat)
    requires forall k :: k in keys && k in s.rows ==> s.rows[k].status == RowStatus.Pending && s.rows[k].batchId.None?
    ensures Later(s, s.(rows := AssignBatch(s.rows, keys, batch)))
  {}

  lemma CompleteLater(s: State, keys: seq<Key>, batch: nat)
    requires forall k :: k in keys && k in s.rows ==> s.rows[k].status == RowStatus.Pending && s.rows[k].batchId == Some(batch)
    ensures Later(s, s.(rows := CompleteAll(s.rows, keys, batch)))
  {}

  lemma AfterDebitLater(s: State, b: nat, reply: Reply, a: Aftermath)
    requires b < |s.bets| && s.bets[b].status == BetStatus.Pending
    requires Key(b, Debit) in s.rows && s.rows[Key(b, Debit)].status == RowStatus.Pending
    ensures Later(s, AfterDebit(s, b, reply, a))
  {}

  lemma DebitLater(s: State, b: nat, o: Outcome)
    requires Inv(s) && s.log <= DoDebit(s, b, o).log
    ensures Later(s, DoDebit(s, b, o))
  {
    if b < |s.bets| && s.bets[b].status !in {BetStatus.Accepted, BetStatus.Rejected} && Key(b, Debit) in s.rows
       && s.rows[Key(b, Debit)].status != RowStatus.Completed {
      PendingDebit(s, b) by { assert BetOk(s, b); }
      hide Inv, Deliver, Later;
      var sent := Deliver(s.cfg.wallet, s.log, [DebitOf(s, b)], o.delivery);
      LogLater(s, sent.log);
      AfterDebitLater(s.(log := sent.log), b, sent.reply, o.aftermath);
      LaterTransitive(s, s.(log := sent.log), DoDebit(s, b, o));
    } else {
      hide Inv;
      LogLater(s, s.log);
      assert s.(log := s.log) == s;
    }
  }

  lemma AfterBatchLater(s: State, entries: seq<Key>, batch: nat, reply: Reply, a: Aftermath)
    requires forall k :: k in entries && k in s.rows ==> s.rows[k].status == RowStatus.Pending && s.rows[k].batchId == Some(batch)
    ensures Later(s, AfterBatch(s, entries, batch, reply, a).state)
  {
    hide RescheduleAll, CompleteAll, Later;
    CompleteLater(s, entries, batch);
    RescheduleLater(s, entries);
    RescheduleLater(s, []);
    if a.Crashed? && a.rescheduled < |entries| {
      RescheduleLater(s, entries[..a.rescheduled]);
    }
  }

  lemma FlushLater(s: State, group: string, batch: nat, o: Outcome)
    requires PayloadsStored(s.rows) && s.log <= DoFlush(s, group, batch, o).state.log
    ensures Later(s, DoFlush(s, group, batch, o).state)
  {
    var t := DoFlush(s, group, batch, o).state;
    LogLater(s, t.log);
    hide Deliver, Select, Later, RescheduleAll, CompleteAll;
    if DueSettles(s, group) == [] {
      assert t == s && s.(log := t.log) == s;
    } else {
      var anchor := s.rows[DueSettles(s, group)[0]].batchId;
      var entries := BatchEntries(s, group, anchor);
      var sent := Deliver(s.cfg.wallet, s.log, Payloads(s.rows, entries), o.delivery);
      assert t.log == sent.log;
      var s1 := s.(log := sent.log);
      var id := if anchor.Some? then anchor.value else batch;
      if anchor.None? {
        AssignLater(s1, entries, batch);
        var s2 := s1.(rows := AssignBatch(s.rows, entries, batch));
        AfterBatchLater(s2, entries, batch, sent.reply, o.aftermath);
        LaterTransitive(s1, s2, t);
      } else {
        AfterBatchLater(s1, entries, id, sent.reply, o.aftermath);
      }
      LaterTransitive(s, s1, t);
    }
  }

  lemma CloseLater(s: State, b: nat, results: seq<LegResult>, key: Key, code: Code, batch: Option<nat>)
    requires b < |s.bets| && |results| == |s.bets[b].legs| && s.bets[b].status == BetStatus.Accepted
    ensures Later(s, CloseBet(s, b, results, key, code, batch))
  {}

  lemma PlaceLater(s: State, r: Request, nonce: nat, walletUp: bool)
    ensures Later(s, DoPlace(s, r, nonce, walletUp))
  {
    hide Validate, Balance;
  }

  lemma RowStepsLater(s: State, step: Step)
    requires step.SendStaffVoid? || step.ClearBackoff? || step.EditCatalogue? || step.Tick?
    requires s.log <= Apply(s, step).log
    ensures Later(s, Apply(s, step))
  {
    hide Deliver;
  }

  /** Every step moves forward only. */
  lemma StepLater(s: State, step: Step)
    requires Inv(s)
    ensures Later(s, Apply(s, step))
  {
    StepPosts(s, step);
    PostAllAppends(s.cfg.wallet, s.log, Presented(s, step));
    match step
    case Place(r, nonce, walletUp) => PlaceLater(s, r, nonce, walletUp);
    case AttemptDebit(b, o) => DebitLater(s, b, o);
    case Flush(group, batch, o) => FlushLater(s, group, batch, o);
    case SettleBet(b, batch) => {
      hide Inv, CloseBet, Later;
      LogLater(s, s.log);
      if b < |s.bets| && s.bets[b].status == BetStatus.Accepted && GradeLegs(s.cat, s.bets[b].legs).Some? {
        var results := GradeLegs(s.cat, s.bets[b].legs).value;
        CloseLater(s, b, results, Key(b, Settle), SettleCode(b, Aggregate(results)), Some(batch));
      }
    }
    case VoidBet(group, b, ok) => {
      hide Inv, CloseBet, Later;
      LogLater(s, s.log);
      if b < |s.bets| && s.bets[b].status == BetStatus.Accepted {
        CloseLater(s, b, AllVoid(|s.bets[b].legs|), Key(b, StaffVoid), StaffVoidCode(b), None);
      }
    }
    case _ => RowStepsLater(s, step);
  }

  /** Every run moves forward only: final statuses, payouts and leg outcomes never change, postings
      are never withdrawn, and codes, payloads and batch ids are stable. */
  lemma {:induction false} RunLater(s: State, steps: seq<Step>)
    requires Inv(s)
    ensures Later(s, Run(s, steps))
  {
    hide Inv, Apply;
    if steps != [] {
      RunLater(s, steps[..|steps| - 1]);
      RunKeepsInv(s, steps[..|steps| - 1]);
      var mid := Run(s, steps[..|steps| - 1]);
      StepLater(mid, steps[|steps| - 1]);
      LaterTransitive(s, mid, Run(s, steps));
    }
  }

  // Ordering of postings

  lemma {:induction false} OfPrefix(log: seq<Transaction>, b: nat, i: nat)
    requires i <= |log|
    ensures Of(log[..i], b) <= Of(log, b)
  {
    if i == |log| {
      assert log[..i] == log;
    } else {
      assert log[..|log| - 1][..i] == log[..i];
      OfPrefix(log[..|log| - 1], b, i);
    }
  }

  /** No credit before its debit: in every reachable state each settlement or void posting is
      preceded by the debit of the same bet, and a rejected bet's debit is not posted. Since
      rejection is final and postings stay (RunLater), it never will be and never was. */
  lemma NoCreditBeforeDebit(cfg: Config, cat: Catalogue, now: int, steps: seq<Step>, i: nat)
    requires i < |Run(Start(cfg, cat, now), steps).log|
    ensures var s := Run(Start(cfg, cat, now), steps); var e := s.log[i];
            && e.roundId < |s.bets| && Key(e.roundId, Debit) in s.rows
            && s.bets[e.roundId].status != BetStatus.Rejected
            && (e == DebitOf(s, e.roundId) || (e.amount >= 0 && DebitOf(s, e.roundId) in s.log[..i]))
  {
    var s := Reach(cfg, cat, now, steps);
    CreditAfterDebit(s, i);
  }

  lemma PostingOfBet(s: State, i: nat)
    requires Inv(s) && i < |s.log|
    ensures s.log[i].roundId < |s.bets|
  {
    hide BetsOk;
    assert PostingOk(s, s.log[i]);
  }

  lemma CreditAfterDebit(s: State, i: nat)
    requires Inv(s) && i < |s.log|
    ensures var e := s.log[i];
            && e.roundId < |s.bets| && Key(e.roundId, Debit) in s.rows
            && s.bets[e.roundId].status != BetStatus.Rejected
            && (e == DebitOf(s, e.roundId) || (e.amount >= 0 && DebitOf(s, e.roundId) in s.log[..i]))
  {
    var e := s.log[i];
    var b := e.roundId;
    hide *;
    PostingOfBet(s, i);
    OfMembers(s.log, b, i);
    ClosedHistory(s, b);
    if e != DebitOf(s, b) {
      OfPrefix(s.log, b, i + 1);
      assert s.log[..i + 1] == s.log[..i] + [e];
      OfAppend(s.log[..i], e, b);
      assert Of(s.log[..i], b) == [DebitOf(s, b)];
      OfPosted(s.log[..i], b, DebitOf(s, b));
    }
  }

  lemma ClosedHistory(s: State, b: nat)
    requires Inv(s) && b < |s.bets|
    ensures Key(b, Debit) in s.rows
    ensures Of(s.log, b) == [] || Of(s.log, b) == [DebitOf(s, b)]
            || (|Of(s.log, b)| == 2 && Of(s.log, b)[0] == DebitOf(s, b) && Of(s.log, b)[1].amount >= 0
                && !Of(s.log, b)[1].code.DebitCode?)
    ensures s.bets[b].status == BetStatus.Rejected ==> Of(s.log, b) == []
  {
    assert BetOk(s, b);
  }

  // Idempotent placement

  /** Any number of placement calls with one identity, mixed with any other steps, gives at most one
      bet and at most one debit posting for it. */
  lemma PlacementIsIdempotent(cfg: Config, cat: Catalogue, now: int, steps: seq<Step>, group: string, user: string, key: string)
    ensures var s := Run(Start(cfg, cat, now), steps);
            forall b1, b2 | 0 <= b1 < |s.bets| && 0 <= b2 < |s.bets| ::
              SameIdentity(s.bets[b1], group, user, key) && SameIdentity(s.bets[b2], group, user, key) ==> b1 == b2
    ensures var s := Run(Start(cfg, cat, now), steps);
            forall i, j | 0 <= i < |s.log| && 0 <= j < |s.log| && s.log[i].roundId == s.log[j].roundId ::
              s.log[i].code.DebitCode? && s.log[j].code.DebitCode? ==> i == j
  {
    var s := Reach(cfg, cat, now, steps);
    hide BetOk;
    forall i, j | 0 <= i < |s.log| && 0 <= j < |s.log| && s.log[i].roundId == s.log[j].roundId
      && s.log[i].code.DebitCode? && s.log[j].code.DebitCode?
      ensures i == j
    {
      assert PostingOk(s, s.log[i]) && PostingOk(s, s.log[j]);
    }
  }

  /** A repeated placement finds the bet and creates nothing. */
  lemma RepeatedPlacementIsNoOp(s: State, r: Request, nonce: nat, walletUp: bool, b: nat)
    requires b < |s.bets| && SameIdentity(s.bets[b], r.group, r.userId, r.idempotencyKey)
    ensures DoPlace(s, r, nonce, walletUp) == s
  {}

  /** A debit that was applied while its answer was lost is recovered by the next answered attempt,
      even when the balance would no longer cover it: the wallet recognises the code. */
  lemma LostDebitIsRecovered(s: State, b: nat)
    requires Inv(s) && b < |s.bets| && s.bets[b].status == BetStatus.Pending && Of(s.log, b) != []
    ensures var t := DoDebit(s, b, Outcome(Answered, Written));
            t.bets[b].status == BetStatus.Accepted && t.log == s.log
  {
    PendingHistory(s, b);
    var tx := DebitOf(s, b);
    OfPosted(s.log, b, tx);
    assert [tx][..0] == [];
    assert PostAll(s.cfg.wallet, s.log, [tx]) == Post(s.cfg.wallet, s.log, tx);
    assert BetOk(s, b);
  }

  // Placement and debit

  lemma UnusedNonceIsNotPosted(s: State, nonce: nat)
    requires Inv(s) && !NonceUsed(s.rows, nonce)
    ensures !Posted(s.log, DebitCode(nonce))
  {
    hide BetsOk;
    forall i | 0 <= i < |s.log| ensures s.log[i].code != DebitCode(nonce) {
      assert PostingOk(s, s.log[i]);
    }
  }

  lemma AnsweredDebit(s: State, b: nat)
    requires b < |s.bets| && s.bets[b].status == BetStatus.Pending && Key(b, Debit) in s.rows
    requires s.rows[Key(b, Debit)].status != RowStatus.Completed
    ensures var p := Post(s.cfg.wallet, s.log, DebitOf(s, b));
            DoDebit(s, b, Outcome(Answered, Written))
            == AfterDebit(s.(log := p.log), b, if p.accepted then Done else InsufficientFunds, Written)
  {
    var tx := DebitOf(s, b);
    assert [tx][..0] == [];
    assert PostAll(s.cfg.wallet, s.log, []) == Posting(s.log, true);
    assert PostAll(s.cfg.wallet, s.log, [tx]) == Post(s.cfg.wallet, s.log, tx);
    hide Post, AfterDebit;
  }

  /** The balance check of placement is enough for the debit: a bet just placed is accepted by the next
      answered attempt, and costs its user exactly the stake asked for. */
  lemma PlacedBetIsAccepted(s: State, r: Request, nonce: nat, walletUp: bool)
    requires Inv(s) && DoPlace(s, r, nonce, walletUp) != s
    ensures var t := DoDebit(DoPlace(s, r, nonce, walletUp), |s.bets|, Outcome(Answered, Written));
            && |t.bets| == |s.bets| + 1 && t.bets[|s.bets|].status == BetStatus.Accepted && t.bets[|s.bets|].stake == r.stake
            && Balance(s.cfg.wallet, t.log, r.username) == Balance(s.cfg.wallet, s.log, r.username) - r.stake
  {
    var placed, b := DoPlace(s, r, nonce, walletUp), |s.bets|;
    StakeAsAsked(s.cat, s.cfg.limits, r);
    UnusedNonceIsNotPosted(s, nonce);
    hide Inv, Validate, Balance, Of;
    AnsweredDebit(placed, b);
    var tx := DebitOf(placed, b);
    BalanceAppend(s.cfg.wallet, s.log, tx, r.username);
  }

  lemma StakeAsAsked(cat: Catalogue, limits: Limits, r: Request)
    ensures var v := Validate(cat, limits, r.group, r.selectionIds, r.stake); v.Quoted? ==> v.quote.stake == r.stake
  {}

  /** A pending bet is rejected only for want of funds, and then nothing is taken. */
  lemma RejectedForWantOfFunds(s: State, b: nat, o: Outcome)
    requires Inv(s) && b < |s.bets| && s.bets[b].status == BetStatus.Pending
    requires DoDebit(s, b, o).bets[b].status == BetStatus.Rejected
    ensures s.bets[b].stake > Shown(s.cfg.wallet, Balance(s.cfg.wallet, s.log, s.bets[b].username)) && DoDebit(s, b, o).log == s.log
  {
    PendingHistory(s, b);
    hide Inv, Balance, Of;
    var tx := DebitOf(s, b);
    assert [tx][..0] == [];
    assert PostAll(s.cfg.wallet, s.log, []) == Posting(s.log, true);
    assert PostAll(s.cfg.wallet, s.log, [tx]) == Post(s.cfg.wallet, s.log, tx);
  }

  // When balances stay non-negative

  /** One open selection offered to tenant "g", at odds of 1. */
  function OneSelection(): Catalogue {
    Catalogue(map["k" := Sport("k", "k")], map["l" := League("k", "l", None)], map["h" := Team("k", "h"), "a" := Team("k", "a")],
              map["f" := Fixture("l", "h", "a", 0, FixtureStatus.Scheduled)],
              map["e" := Event("f", EventStatus.Scheduled, None, None)],
              map["m" := Market("e", MarketType.MatchResult, MarketStatus.Open, None)],
              map["s" := Selection("m", "h", SelectionStatus.Open, 1000)], map[], {("l", "g")})
  }

  function OneBet(stake: nat): Request {
    Request("g", "u", "u", STUB_CURRENCY, "key", ["s"], stake)
  }

  /** In an empty ledger that bet is placed whenever the balance shown covers it. */
  lemma OneBetIsPlaced(cfg: Config, stake: nat)
    requires cfg.limits.minStake <= stake <= cfg.limits.maxStake && stake <= Shown(cfg.wallet, cfg.wallet.opening)
    requires QuoteFor(stake, Legs(OneSelection(), ["s"])).payout <= cfg.limits.maxPayout
    ensures DoPlace(Start(cfg, OneSelection(), 0), OneBet(stake), 0, true) != Start(cfg, OneSelection(), 0)
  {
    hide QuoteFor, Frozen;
    var cat := OneSelection();
    assert Bettable(cat, "g", ["s"][0]);
    QuotedExactly(cat, cfg.limits, "g", ["s"], stake);
    assert Balance(cfg.wallet, [], "u") == cfg.wallet.opening;
    hide Validate;
    assert |DoPlace(Start(cfg, cat, 0), OneBet(stake), 0, true).bets| == 1;
  }

  /** No reachable balance is negative if and only if the opening balance of the stub is not negative and
      does not round up to the cent: otherwise one bet of all that is shown takes more than there is. */
  lemma BalancesNonNegativeExactly(w: WalletConfig)
    ensures (forall limits, cat, now, steps, user :: Balance(w, Run(Start(Config(w, limits), cat, now), steps).log, user) >= 0)
            <==> 0 <= w.opening && !RoundsUp(w)
  {
    var cat := OneSelection();
    if 0 <= w.opening && !RoundsUp(w) {
      forall limits, cat, now, steps, user ensures Balance(w, Run(Start(Config(w, limits), cat, now), steps).log, user) >= 0 {
        BalancesStayNonNegative(Config(w, limits), cat, now, steps, user);
      }
    } else if w.opening < 0 {
      assert Balance(w, Run(Start(Config(w, Limits(0, 0, 0)), cat, 0), []).log, "u") == w.opening;
    } else {
      var stake := w.opening + 1;
      var limits := Limits(stake, stake, QuoteFor(stake, Legs(cat, ["s"])).payout);
      Overdrawn(Config(w, limits), stake);
      var steps := [Place(OneBet(stake), 0, true), AttemptDebit(0, Outcome(Answered, Written))];
      assert Balance(w, Run(Start(Config(w, limits), cat, 0), steps).log, "u") < 0;
    }
  }

  lemma Overdrawn(cfg: Config, stake: nat)
    requires cfg.wallet.opening >= 0 && RoundsUp(cfg.wallet) && stake == cfg.wallet.opening + 1
    requires cfg.limits == Limits(stake, stake, QuoteFor(stake, Legs(OneSelection(), ["s"])).payout)
    ensures var steps := [Place(OneBet(stake), 0, true), AttemptDebit(0, Outcome(Answered, Written))];
            Balance(cfg.wallet, Run(Start(cfg, OneSelection(), 0), steps).log, "u") == -1
  {
    var s, r, o := Start(cfg, OneSelection(), 0), OneBet(stake), Outcome(Answered, Written);
    OneBetIsPlaced(cfg, stake);
    StartInv(cfg, OneSelection(), 0);
    PlaceKeepsInv(s, r, 0, true);
    PlacedBetIsAccepted(s, r, 0, true);
    PlaceThenDebit(s, r, 0, o);
    assert s.bets == [] && Balance(cfg.wallet, s.log, "u") == cfg.wallet.opening && r.username == "u" && r.stake == stake;
    hide *;
  }

  lemma PlaceThenDebit(s: State, r: Request, b: nat, o: Outcome)
    requires Inv(s) && Inv(DoPlace(s, r, 0, true))
    ensures Run(s, [Place(r, 0, true), AttemptDebit(b, o)]) == DoDebit(DoPlace(s, r, 0, true), b, o)
  {
    var steps := [Place(r, 0, true), AttemptDebit(b, o)];
    assert PayloadsStored(s.rows) && PayloadsStored(DoPlace(s, r, 0, true).rows);
    hide Inv, DoPlace, DoDebit;
    assert steps[..1] == [Place(r, 0, true)] && [Place(r, 0, true)][..0] == [];
    assert Run(s, []) == s && Run(s, [Place(r, 0, true)]) == DoPlace(s, r, 0, true);
    assert Run(s, steps) == Apply(Run(s, steps[..1]), steps[1]);
  }
}
