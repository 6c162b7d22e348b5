/** What one service call does, outcome by outcome, in terms of the rows it finds. */
module CallEffects {
  import opened Domain
  import opened Text
  import opened Wallet
  import opened Grading
  import opened BetValidation
  import opened Ledger
  import opened LedgerSafety
  import opened LedgerTheorems
  import opened SettlementQueue
  import opened Services
  import opened BetTerms
  import QueueOrder

  // One debit attempt

  /** The row after one more failed attempt, held back a minute per attempt up to fifteen. */
  predicate HeldBack(before: Row, row: Row, now: int) {
    && row.attempts == before.attempts + 1 && row.(attempts := before.attempts, nextRetryAt := before.nextRetryAt) == before
    && row.nextRetryAt == Some(now + if row.attempts <= 15 then 60_000 * row.attempts else 900_000)
  }

  /** Only this bet and this row may differ. */
  ghost predicate OnlyChanges(s: State, t: State, b: nat, k: Key) {
    && |t.bets| == |s.bets| && (forall c :: 0 <= c < |s.bets| && c != b ==> t.bets[c] == s.bets[c])
    && t.rows.Keys == s.rows.Keys && (forall j :: j in s.rows && j != k ==> t.rows[j] == s.rows[j])
    && t.cfg == s.cfg && t.cat == s.cat && t.created == s.created && t.now == s.now
  }

  /** An attempt at the debit of a pending bet: the stake is taken unless it already was or exceeds the shown
      balance or the request does not arrive. With an answer and its write the bet is accepted or rejected; a
      call without an answer, or an acceptance that cannot be written, is put off; and a process that dies
      leaves bet and row as they were. */
  lemma DebitOutcomes(s: State, b: nat, o: Outcome)
    requires Inv(s) && b < |s.bets| && s.bets[b].status == BetStatus.Pending
    ensures var t, k, bet := DoDebit(s, b, o), Key(b, Debit), s.bets[b];
            var taken := Of(s.log, b) != [];
            var covered := bet.stake == 0 || bet.stake <= Shown(s.cfg.wallet, Balance(s.cfg.wallet, s.log, bet.username));
            && k in s.rows && OnlyChanges(s, t, b, k) && t.bets[b].(status := BetStatus.Pending) == bet
            && t.log == (if !taken && covered && o.delivery != Delivery.Lost(0) then s.log + [DebitOf(s, b)] else s.log)
            && (o == Outcome(Answered, Written) ==>
                  if taken || covered then t.bets[b].status == BetStatus.Accepted && t.rows[k] == s.rows[k].(status := RowStatus.Completed)
                  else t.bets[b].status == BetStatus.Rejected && t.rows[k] == s.rows[k].(status := RowStatus.Failed))
            && (o != Outcome(Answered, Written) ==> t.bets[b] == bet)
            && ((o.delivery.Lost? && o.aftermath == Written) || (o == Outcome(Answered, WriteFailed) && (taken || covered)) ==>
                  HeldBack(s.rows[k], t.rows[k], s.now))
            && (o.aftermath.Crashed? || (o.aftermath == WriteFailed && (o.delivery.Lost? || (!taken && !covered))) ==>
                  t.rows[k] == s.rows[k])
  {
    PendingIsDebitable(s, b);
    PostOnce(s, b);
    hide Inv, Of, Balance, Post, Deliver, Shown, AfterDebit, OnlyChanges, HeldBack;
    var sent := Deliver(s.cfg.wallet, s.log, [DebitOf(s, b)], o.delivery);
    DeliverOne(s.cfg.wallet, s.log, DebitOf(s, b), o.delivery);
    assert DoDebit(s, b, o) == AfterDebit(s.(log := sent.log), b, sent.reply, o.aftermath);
    AfterDebitMeans(s, sent.log, b, sent.reply, o.aftermath);
  }

  lemma AfterDebitMeans(s: State, log: seq<Transaction>, b: nat, reply: Reply, a: Aftermath)
    requires b < |s.bets| && s.bets[b].status == BetStatus.Pending
    requires Key(b, Debit) in s.rows && s.rows[Key(b, Debit)].status == RowStatus.Pending
    ensures var t, k, bet := AfterDebit(s.(log := log), b, reply, a), Key(b, Debit), s.bets[b];
            && OnlyChanges(s, t, b, k) && t.log == log && t.bets[b].(status := BetStatus.Pending) == bet
            && (reply != Unavailable && a == Written ==>
                  if reply == Done then t.bets[b].status == BetStatus.Accepted && t.rows[k] == s.rows[k].(status := RowStatus.Completed)
                  else t.bets[b].status == BetStatus.Rejected && t.rows[k] == s.rows[k].(status := RowStatus.Failed))
            && (reply == Unavailable || a != Written ==> t.bets[b] == bet)
            && ((reply == Unavailable && a == Written) || (reply == Done && a == WriteFailed) ==> HeldBack(s.rows[k], t.rows[k], s.now))
            && (a.Crashed? || (reply != Done && a == WriteFailed) ==> t.rows[k] == s.rows[k])
  {
    RescheduledIsHeldBack(s.rows[Key(b, Debit)], s.now);
    hide HeldBack, Rescheduled;
  }

  lemma RescheduledIsHeldBack(row: Row, now: int)
    ensures HeldBack(row, Rescheduled(row, now), now)
  {}

  lemma PendingIsDebitable(s: State, b: nat)
    requires Inv(s) && b < |s.bets| && s.bets[b].status == BetStatus.Pending
    ensures Debitable(s, b) && s.rows[Key(b, Debit)].status == RowStatus.Pending
  {
    assert BetOk(s, b);
  }

  lemma PostOnce(s: State, b: nat)
    requires Inv(s) && b < |s.bets| && s.bets[b].status == BetStatus.Pending && Key(b, Debit) in s.rows
    ensures var p, bet := Post(s.cfg.wallet, s.log, DebitOf(s, b)), s.bets[b];
            var covered := bet.stake == 0 || bet.stake <= Shown(s.cfg.wallet, Balance(s.cfg.wallet, s.log, bet.username));
            && p.accepted == (Of(s.log, b) != [] || covered)
            && p.log == if Of(s.log, b) == [] && covered then s.log + [DebitOf(s, b)] else s.log
  {
    PendingHistory(s, b);
    var tx := DebitOf(s, b);
    if Of(s.log, b) != [] {
      OfPosted(s.log, b, tx);
    } else if Posted(s.log, tx.code) {
      var i :| 0 <= i < |s.log| && s.log[i].code == tx.code;
      PendingIsDebitable(s, b);
      SameCodeSameBet(s, Key(b, Debit), i);
      OfMembers(s.log, b, i);
    }
    hide Inv, Of, Balance, Posted;
  }

  lemma DeliverOne(cfg: WalletConfig, log: seq<Transaction>, tx: Transaction, d: Delivery)
    ensures Deliver(cfg, log, [tx], d)
         == Delivered(if d == Delivery.Lost(0) then log else Post(cfg, log, tx).log,
                      if d.Lost? then Unavailable else if Post(cfg, log, tx).accepted then Done else InsufficientFunds)
  {
    assert [tx][..0] == [];
    assert PostAll(cfg, log, []) == Posting(log, true);
    assert PostAll(cfg, log, [tx]) == Post(cfg, log, tx);
    hide Post;
  }

  // One staff-void delivery

  /** Sending a due staff-void row: its payment is posted unless it already was or the request does not arrive;
      the row is completed when the wallet answers and the write succeeds, put off when the call fails or the
      write does, and otherwise left as it was. A row that is not due is not touched. */
  lemma StaffVoidOutcomes(s: State, b: nat, o: Outcome)
    requires Inv(s)
    ensures PayloadsStored(s.rows)
    ensures var t, k := DoSendStaffVoid(s, b, o), Key(b, StaffVoid);
            if k in s.rows && s.rows[k].status == RowStatus.Pending && (s.rows[k].nextRetryAt == None || s.rows[k].nextRetryAt.value <= s.now) then
              && t.bets == s.bets && OnlyChanges(s, t, b, k) && b < |s.bets| && s.rows[k].payload.Some?
              && t.log == (if o.delivery == Delivery.Lost(0) || s.rows[k].payload.value in Of(s.log, b) then s.log else s.log + [s.rows[k].payload.value])
              && (o == Outcome(Answered, Written) ==> t.rows[k] == s.rows[k].(status := RowStatus.Completed))
              && ((o.delivery.Lost? && o.aftermath == Written) || o == Outcome(Answered, WriteFailed) ==> HeldBack(s.rows[k], t.rows[k], s.now))
              && (o.aftermath.Crashed? || (o.delivery.Lost? && o.aftermath == WriteFailed) ==> t.rows[k] == s.rows[k])
            else t == s
  {
    var k := Key(b, StaffVoid);
    InvStored(s);
    if k in s.rows && s.rows[k].status == RowStatus.Pending && Due(s.rows[k], s.now) {
      hide Inv, Of, Post, Deliver, HeldBack, PayloadsStored, OnlyChanges;
      StaffVoidPosts(s, b);
      DeliverOne(s.cfg.wallet, s.log, s.rows[k].payload.value, o.delivery);
      VoidIsWritten(s, b, o);
      hide DoSendStaffVoid;
    } else {
      hide Inv, Deliver;
    }
  }

  lemma VoidIsWritten(s: State, b: nat, o: Outcome)
    requires PayloadsStored(s.rows) && Key(b, StaffVoid) in s.rows
    requires s.rows[Key(b, StaffVoid)].status == RowStatus.Pending && Due(s.rows[Key(b, StaffVoid)], s.now)
    ensures var t, k := DoSendStaffVoid(s, b, o), Key(b, StaffVoid);
            var sent := Deliver(s.cfg.wallet, s.log, [s.rows[k].payload.value], o.delivery);
            && t.bets == s.bets && t.log == sent.log && OnlyChanges(s, t, b, k)
            && (sent.reply == Done && o.aftermath == Written ==> t.rows[k] == s.rows[k].(status := RowStatus.Completed))
            && (sent.reply == Done && o.aftermath == WriteFailed ==> HeldBack(s.rows[k], t.rows[k], s.now))
            && (sent.reply != Done && o.aftermath == Written ==> HeldBack(s.rows[k], t.rows[k], s.now))
            && (o.aftermath.Crashed? || (sent.reply != Done && o.aftermath == WriteFailed) ==> t.rows[k] == s.rows[k])
  {
    RescheduledIsHeldBack(s.rows[Key(b, StaffVoid)], s.now);
    hide Deliver, HeldBack, Rescheduled;
  }

  lemma StaffVoidPosts(s: State, b: nat)
    requires Inv(s) && Key(b, StaffVoid) in s.rows && s.rows[Key(b, StaffVoid)].status == RowStatus.Pending
    ensures b < |s.bets| && s.rows[Key(b, StaffVoid)].payload.Some?
    ensures var tx := s.rows[Key(b, StaffVoid)].payload.value; var p := Post(s.cfg.wallet, s.log, tx);
            p.accepted && p.log == if tx in Of(s.log, b) then s.log else s.log + [tx]
  {
    var k := Key(b, StaffVoid);
    PostKeepsInv(s, k);
    assert BetOk(s, b);
    var tx := s.rows[k].payload.value;
    hide Of, ClosedAsGraded, Balance;
    if Posted(s.log, tx.code) {
      var i :| 0 <= i < |s.log| && s.log[i].code == tx.code;
      SameCodeSameBet(s, k, i);
      PostedIsOwn(s, k, i);
    }
    if tx in Of(s.log, b) {
      OfPosted(s.log, b, tx);
    }
  }

  // One staff void

  /** A staff member of the tenant closes an accepted bet, giving an accepted reason: all legs are void, the
      stake is to be paid back, and a row that is due at once does so. Otherwise nothing happens. */
  lemma StaffVoidCloses(s: State, group: string, b: nat, reasonAccepted: bool)
    requires Inv(s)
    ensures var t, k := DoVoid(s, group, b, reasonAccepted), Key(b, StaffVoid);
            if b < |s.bets| && s.bets[b].group == group && s.bets[b].status == BetStatus.Accepted && reasonAccepted then
              && |t.bets| == |s.bets| && (forall c :: 0 <= c < |s.bets| && c != b ==> t.bets[c] == s.bets[c])
              && t.bets[b].status == BetStatus.Void && t.bets[b].payoutAmount == Some(s.bets[b].stake) && SameLegs(s.bets[b], t.bets[b])
              && (forall i :: 0 <= i < |t.bets[b].legs| ==> t.bets[b].legs[i].outcome == Some(LegResult.Void))
              && k !in s.rows && k in t.rows && t.created == s.created + [k] && (forall j :: j != k ==> SameRow(s, t, j))
              && t.log == s.log && t.rows[k].status == RowStatus.Pending && t.rows[k].nextRetryAt == None && t.rows[k].batchId == None
              && t.rows[k].payload.Some? && t.rows[k].payload.value.amount == s.bets[b].stake
              && t.rows[k].payload.value.userCode == s.bets[b].username
            else t == s
  {
    if b < |s.bets| && s.bets[b].status == BetStatus.Accepted {
      AcceptedIsOpen(s, b);
      AllVoidIsVoid(|s.bets[b].legs|);
    }
    hide Inv, Aggregate;
  }

  // One settlement

  /** The settlement of an accepted bet whose legs all have a grade: one row of the given batch, due at once,
      that pays what the bet's new status says; no other bet and no other row changes. */
  lemma SettlementCloses(s: State, b: nat, batch: nat)
    requires Inv(s) && b < |s.bets| && s.bets[b].status == BetStatus.Accepted
    requires forall i :: 0 <= i < |s.bets[b].legs| ==> GradeLeg(s.cat, s.bets[b].legs[i]) != None
    ensures var t, k := DoSettle(s, b, batch), Key(b, Settle);
            && |t.bets| == |s.bets| && (forall c :: 0 <= c < |s.bets| && c != b ==> t.bets[c] == s.bets[c])
            && Closed(t.bets[b].status) && PaidAs(t.bets[b])
            && k !in s.rows && k in t.rows && t.created == s.created + [k] && (forall j :: j != k ==> SameRow(s, t, j)) && t.log == s.log
            && t.rows[k].status == RowStatus.Pending && t.rows[k].nextRetryAt == None && t.rows[k].batchId == Some(batch)
            && t.rows[k].group == s.bets[b].group && t.rows[k].payload.Some? && t.rows[k].payload.value.amount >= 0
            && t.bets[b].payoutAmount == Some(t.rows[k].payload.value.amount)
            && t.rows[k].payload.value.userCode == s.bets[b].username
  {
    AcceptedIsOpen(s, b);
    var results := GradeLegs(s.cat, s.bets[b].legs).value;
    ClosedIsPaid(s.bets[b], results);
    hide Inv, Aggregate, GradeLeg, PaidAs;
    assert DoSettle(s, b, batch).bets[b] == ClosedBet(s.bets[b], results);
    PayoutOfResult(s.bets[b], Aggregate(results));
  }

  lemma PayoutOfResult(bet: Bet, result: LegResult)
    ensures var p := PayoutFor(bet.stake, bet.potentialPayout, result); SettlementTransaction(0, bet, result, p, StaffVoidCode(0)).amount == p
  {}

  // One placement

  /** A placement that creates a bet and whose debit is answered and written leaves the bet accepted and its
      stake taken. */
  lemma PlacementIsDebited(s: State, r: Request, nonce: nat)
    requires Inv(s) && Placeable(s, r, nonce, true)
    ensures var t := DoPlaceBet(s, r, nonce, true, Outcome(Answered, Written));
            && |t.bets| == |s.bets| + 1 && AsAsked(s.cat, s.cfg.limits, r, t.bets[|s.bets|]) && t.bets[|s.bets|].status == BetStatus.Accepted
            && Balance(s.cfg.wallet, t.log, r.username) == Balance(s.cfg.wallet, s.log, r.username) - r.stake
  {
    hide Inv, DoPlace, DoDebit, Placeable, AsAsked, Balance, BetLater, Shown, PaidAs, DebitDue, SameRow, FindBet;
    var placed := DoPlace(s, r, nonce, true);
    PlacesExactly(s, r, nonce, true);
    PlaceKeepsInv(s, r, nonce, true);
    NoSuchBet(s, r, nonce);
    assert placed != s;
    PlacedBetIsAccepted(s, r, nonce, true);
    DebitLaterHere(placed, |s.bets|);
    TermsStay(s.cat, s.cfg.limits, r, placed.bets[|s.bets|], DoDebit(placed, |s.bets|, Outcome(Answered, Written)).bets[|s.bets|]);
  }

  lemma NoSuchBet(s: State, r: Request, nonce: nat)
    requires Placeable(s, r, nonce, true)
    ensures FindBet(s.bets, r.group, r.userId, r.idempotencyKey).None?
  {
    hide Balance, Shown, QuoteFor, Legs, Bettable;
  }

  lemma DebitLaterHere(s: State, b: nat)
    requires Inv(s) && b < |s.bets|
    ensures var t := DoDebit(s, b, Outcome(Answered, Written)); b < |t.bets| && BetLater(s.bets[b], t.bets[b])
  {
    var step := AttemptDebit(b, Outcome(Answered, Written));
    InvStored(s);
    StepLater(s, step);
    hide Inv, DoDebit, BetLater;
  }

  /** The same request again: a pending bet gets one more attempt at its debit, a decided one stays. */
  lemma PlacementAgain(s: State, r: Request, nonce: nat, walletUp: bool, o: Outcome, b: nat)
    requires Inv(s) && b < |s.bets| && SameIdentity(s.bets[b], r.group, r.userId, r.idempotencyKey)
    ensures DoPlaceBet(s, r, nonce, walletUp, o) == if s.bets[b].status == BetStatus.Pending then DoDebit(s, b, o) else s
  {
    var found := FindBet(s.bets, r.group, r.userId, r.idempotencyKey);
    assert found.Some?;
    OneOfIdentity(s.bets, found.value, b);
    hide Inv, DoDebit;
  }

  lemma OneOfIdentity(bets: seq<Bet>, i: nat, j: nat)
    requires UniqueIdentities(bets) && i < |bets| && j < |bets|
    requires SameIdentity(bets[i], bets[j].group, bets[j].userId, bets[j].idempotencyKey)
    ensures i == j
  {
    assert SameIdentity(bets[j], bets[i].group, bets[i].userId, bets[i].idempotencyKey);
  }

  // One flush of every tenant

  /** The rows of these tenants are as they were, and every row still belongs to its tenant. */
  ghost predicate Left(s: State, t: State, groups: set<string>) {
    && t.created == s.created && t.now == s.now && t.rows.Keys == s.rows.Keys
    && forall k :: k in s.rows ==> t.rows[k].group == s.rows[k].group && (s.rows[k].group in groups ==> t.rows[k] == s.rows[k])
  }

  lemma FlushLeavesOthers(s: State, group: string, freshBatch: nat, o: Outcome, groups: set<string>)
    requires Inv(s) && Recorded(o) && group !in groups
    ensures PayloadsStored(s.rows)
    ensures var t := DoFlush(s, group, freshBatch, o).state; Inv(t) && Left(s, t, groups)
  {
    InvStored(s);
    FlushKeepsInv(s, group, freshBatch, o);
    FlushKeepsGroups(s, group, freshBatch, o);
    hide Inv, DoFlush, DueSettles, PayloadsStored, InOldestBatch, RowDone;
    if DueSettles(s, group) == [] {
      FlushIdle(s, group, freshBatch, o);
    } else {
      FlushDisposes(s, group, freshBatch, o);
      OldestIsOwn(s, group);
    }
  }

  lemma OldestIsOwn(s: State, group: string)
    ensures forall k :: InOldestBatch(s, group, k) ==> k in s.rows && s.rows[k].group == group
  {}

  lemma FlushKeepsGroups(s: State, group: string, freshBatch: nat, o: Outcome)
    requires PayloadsStored(s.rows)
    ensures var t := DoFlush(s, group, freshBatch, o).state;
            forall k :: k in s.rows ==> k in t.rows && t.rows[k].group == s.rows[k].group
  {
    hide Select, Deliver;
  }

  lemma LeftTransitive(s: State, t: State, u: State, groups: set<string>)
    requires Left(s, t, groups) && Left(t, u, groups)
    ensures Left(s, u, groups)
  {}

  lemma {:induction false} FlushesLeaveOthers(s: State, groups: seq<string>, calls: string -> Call, others: set<string>)
    requires Inv(s) && (forall i :: 0 <= i < |groups| ==> Recorded(calls(groups[i]).outcome) && groups[i] !in others)
    ensures PayloadsStored(s.rows)
    ensures Inv(FlushGroups(s, groups, calls).state) && Left(s, FlushGroups(s, groups, calls).state, others)
  {
    InvStored(s);
    hide Inv, DoFlush, Recorded, PayloadsStored;
    if groups != [] {
      hide Left;
      var front, group := FlushGroups(s, groups[..|groups| - 1], calls), groups[|groups| - 1];
      FlushesLeaveOthers(s, groups[..|groups| - 1], calls, others);
      FlushLeavesOthers(front.state, group, calls(group).freshBatch, calls(group).outcome, others);
      LeftTransitive(s, front.state, FlushGroups(s, groups, calls).state, others);
    }
  }

  lemma SameOldest(s: State, t: State, group: string, k: Key)
    requires Left(s, t, {group})
    ensures InOldestBatch(s, group, k) <==> InOldestBatch(t, group, k)
    ensures InOldestBatch(s, group, k) ==> k in s.rows && t.rows[k] == s.rows[k]
  {
    forall j ensures IsDue(s, group, j) <==> IsDue(t, group, j) {}
    hide IsDue;
    forall i: nat ensures FirstDue(s, group, i) <==> FirstDue(t, group, i) {}
    hide FirstDue;
    assert forall i: nat :: FirstDue(s, group, i) ==> i < |s.created| && IsDue(s, group, s.created[i]) by { FirstIsDue(s, group); }
    forall j | IsDue(s, group, j) ensures j in s.rows && t.rows[j] == s.rows[j] { DueIsOwn(s, group, j); }
  }

  lemma FirstIsDue(s: State, group: string)
    ensures forall i: nat :: FirstDue(s, group, i) ==> i < |s.created| && IsDue(s, group, s.created[i])
  {}

  lemma DueIsOwn(s: State, group: string, k: Key)
    requires IsDue(s, group, k)
    ensures k in s.rows && s.rows[k].group == group
  {}

  /** When all outcomes can be recorded, the worker's flush disposes of the oldest due batch of every tenant:
      sent where the wallet answers and the write succeeds, put off elsewhere. */
  lemma EveryTenantIsFlushed(s: State, groups: seq<string>, calls: string -> Call, i: nat, k: Key)
    requires Inv(s) && (forall j :: 0 <= j < |groups| ==> Recorded(calls(groups[j]).outcome))
    requires (forall j, m :: 0 <= j < m < |groups| ==> groups[j] != groups[m]) && i < |groups|
    requires InOldestBatch(s, groups[i], k)
    ensures PayloadsStored(s.rows)
    ensures var t := FlushGroups(s, groups, calls).state;
            k in s.rows && k in t.rows && RowDone(s.rows[k], t.rows[k], Succeeds(calls(groups[i]).outcome), s.now)
  {
    hide *;
    var group, last := groups[i], |groups| - 1;
    InvStored(s);
    LastFlush(s, groups, calls);
    var front, call := FlushGroups(s, groups[..last], calls).state, calls(groups[last]);
    if i == last {
      FlushesLeaveOthers(s, groups[..last], calls, {group});
      OwnBatchIsFlushed(s, front, group, call, k);
    } else {
      EveryTenantIsFlushed(s, groups[..last], calls, i, k);
      FlushesLeaveOthers(s, groups[..last], calls, {});
      FlushLeavesOthers(front, groups[last], call.freshBatch, call.outcome, {group});
      OldestIsOwn(s, group);
      LeftRow(s, front, FlushGroups(s, groups, calls).state, group, k);
    }
  }

  lemma LastFlush(s: State, groups: seq<string>, calls: string -> Call)
    requires PayloadsStored(s.rows) && groups != []
    ensures var last := |groups| - 1; var front, call := FlushGroups(s, groups[..last], calls), calls(groups[last]);
            FlushGroups(s, groups, calls).state == DoFlush(front.state, groups[last], call.freshBatch, call.outcome).state
  {
    hide DoFlush;
  }

  lemma OwnBatchIsFlushed(s: State, mid: State, group: string, call: Call, k: Key)
    requires Inv(mid) && Left(s, mid, {group}) && InOldestBatch(s, group, k) && Recorded(call.outcome)
    ensures PayloadsStored(mid.rows)
    ensures var t := DoFlush(mid, group, call.freshBatch, call.outcome).state;
            k in s.rows && k in t.rows && RowDone(s.rows[k], t.rows[k], Succeeds(call.outcome), s.now)
  {
    hide *;
    InvStored(mid);
    SameOldest(s, mid, group, k);
    OldestIsDue(mid, group, k);
    FlushDisposes(mid, group, call.freshBatch, call.outcome);
    LeftNow(s, mid, {group});
    DisposedRow(mid, DoFlush(mid, group, call.freshBatch, call.outcome).state, group, Succeeds(call.outcome), k);
  }

  lemma DisposedRow(s: State, t: State, group: string, sent: bool, k: Key)
    requires Disposes(s, t, group, sent) && InOldestBatch(s, group, k)
    ensures k in s.rows && k in t.rows && RowDone(s.rows[k], t.rows[k], sent, s.now)
  {
    hide RowDone, FirstDue;
  }

  lemma OldestIsDue(s: State, group: string, k: Key)
    requires InOldestBatch(s, group, k)
    ensures DueSettles(s, group) != []
  {
    DueMeans(s, group, k);
    hide DueSettles, FirstDue;
  }

  lemma LeftNow(s: State, t: State, groups: set<string>)
    requires Left(s, t, groups)
    ensures t.now == s.now && t.rows.Keys == s.rows.Keys
  {}

  lemma LeftRow(s: State, t: State, u: State, group: string, k: Key)
    requires Left(s, t, {}) && Left(t, u, {group}) && k in s.rows && s.rows[k].group == group
    ensures k in u.rows && k in t.rows && u.rows[k] == t.rows[k]
  {}

  // One settlement batch

  /** A settlement batch closes a bet exactly when it is among the 50 oldest accepted ones and all its legs have
      a grade; then every leg keeps its own grade, the bet is won, lost or void and paid as these say, and
      nothing else of it changes. */
  lemma SettleBatchPays(s: State, minted: string -> nat, calls: string -> Call, b: nat)
    requires Inv(s) && b < |s.bets|
    ensures |DoSettleBatch(s, minted, calls).bets| == |s.bets|
    ensures var x, y := s.bets[b], DoSettleBatch(s, minted, calls).bets[b];
            if b in OldestAccepted(s.bets) && forall i :: 0 <= i < |x.legs| ==> GradeLeg(s.cat, x.legs[i]) != None then
              && Closed(y.status) && PaidAs(y) && |y.legs| == |x.legs|
              && (forall i :: 0 <= i < |x.legs| ==> y.legs[i] == x.legs[i].(outcome := GradeLeg(s.cat, x.legs[i])))
              && y.(legs := x.legs, status := x.status, payoutAmount := x.payoutAmount) == x
            else y == x
  {
    SettleBatchCloses(s, minted, calls);
    hide Inv, DoSettleBatch, GradeLeg, OldestAccepted, PaidAs, ClosedBet;
    var x := s.bets[b];
    if GradeLegs(s.cat, x.legs).Some? {
      ClosedIsPaid(x, GradeLegs(s.cat, x.legs).value);
    }
  }

  lemma ClosedIsPaid(bet: Bet, results: seq<LegResult>)
    requires |results| == |bet.legs|
    ensures var y := ClosedBet(bet, results);
            && Closed(y.status) && PaidAs(y) && |y.legs| == |bet.legs|
            && (forall i :: 0 <= i < |bet.legs| ==> y.legs[i] == bet.legs[i].(outcome := Some(results[i])))
            && y.(legs := bet.legs, status := bet.status, payoutAmount := bet.payoutAmount) == bet
  {
    var y := ClosedBet(bet, results);
    assert Results(y.legs) == results;
    GradedIsPaid(y);
    hide Aggregate, PaidAs;
  }

  lemma {:induction false} AllReached(groups: seq<string>, calls: string -> Call)
    requires forall i :: 0 <= i < |groups| ==> Recorded(calls(groups[i]).outcome)
    ensures Worked(groups, calls) == groups
  {
    hide Recorded;
    if groups != [] {
      AllReached(groups[..|groups| - 1], calls);
    }
  }

  /** Once it has settled a bet, the batch goes on to flush: when all outcomes can be recorded, the oldest due
      batch of every tenant, new rows included, is sent or put off. */
  lemma SettleBatchFlushes(s: State, minted: string -> nat, calls: string -> Call, b: nat, group: string, k: Key)
    requires Inv(s) && (forall g :: Recorded(calls(g).outcome)) && b < |s.bets|
    requires b in OldestAccepted(s.bets) && forall i :: 0 <= i < |s.bets[b].legs| ==> GradeLeg(s.cat, s.bets[b].legs[i]) != None
    requires forall i :: 0 <= i < |OldestAccepted(s.bets)| ==> OldestAccepted(s.bets)[i] < |s.bets|
    requires InOldestBatch(SettleAll(s, Graded(s.cat, s.bets, OldestAccepted(s.bets)), minted), group, k)
    ensures var mid, t := SettleAll(s, Graded(s.cat, s.bets, OldestAccepted(s.bets)), minted), DoSettleBatch(s, minted, calls);
            k in mid.rows && k in t.rows && RowDone(mid.rows[k], t.rows[k], Succeeds(calls(group).outcome), mid.now)
  {
    hide *;
    BatchThenFlush(s, minted, calls, b);
    SettleAllOk(s, minted);
    var mid := SettleAll(s, Graded(s.cat, s.bets, OldestAccepted(s.bets)), minted);
    var groups := DueGroups(mid);
    QueueOrder.DueTenantsOnce(mid);
    AllReached(groups, calls);
    OldestIsIsDue(mid, group, k);
    assert group in groups;
    var i :| 0 <= i < |groups| && groups[i] == group;
    EveryTenantIsFlushed(mid, groups, calls, i, k);
  }

  lemma OldestIsIsDue(s: State, group: string, k: Key)
    ensures InOldestBatch(s, group, k) ==> IsDue(s, group, k)
  {}

  lemma BatchThenFlush(s: State, minted: string -> nat, calls: string -> Call, b: nat)
    requires Inv(s) && b < |s.bets|
    requires b in OldestAccepted(s.bets) && forall i :: 0 <= i < |s.bets[b].legs| ==> GradeLeg(s.cat, s.bets[b].legs[i]) != None
    ensures forall i :: 0 <= i < |OldestAccepted(s.bets)| ==>
              OldestAccepted(s.bets)[i] < |s.bets| && s.bets[OldestAccepted(s.bets)[i]].status == BetStatus.Accepted
    ensures var mid := SettleAll(s, Graded(s.cat, s.bets, OldestAccepted(s.bets)), minted);
            PayloadsStored(mid.rows) && DoSettleBatch(s, minted, calls) == FlushGroups(mid, Worked(DueGroups(mid), calls), calls).state
  {
    SettleAllOk(s, minted);
    OldestDistinct(s.bets);
    hide Inv, SettleAll, FlushGroups, Worked, DueGroups, GradeLeg, OldestAccepted;
    GradedToSettle(s, OldestAccepted(s.bets));
    assert GradeLegs(s.cat, s.bets[b].legs).Some?;
  }
}
