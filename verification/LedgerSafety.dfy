/** What every step of the money protocol keeps, and what follows for whole runs. */
module LedgerSafety {
  import opened Domain
  import opened Wallet
  import opened Grading
  import opened BetValidation
  import opened Ledger

  // The invariant

  function DebitOf(s: State, b: nat): Transaction
    requires b < |s.bets| && Key(b, Debit) in s.rows
  {
    DebitTransaction(b, s.bets[b], s.rows[Key(b, Debit)].code)
  }

  function Results(legs: seq<Leg>): (r: seq<LegResult>)
    requires forall i :: 0 <= i < |legs| ==> legs[i].outcome.Some?
    ensures |r| == |legs| && forall i :: 0 <= i < |legs| ==> r[i] == legs[i].outcome.value
  {
    seq(|legs|, i requires 0 <= i < |legs| => legs[i].outcome.value)
  }

  /** Status and payout of a closed bet are those of its stored leg outcomes. */
  predicate ClosedAsGraded(bet: Bet) {
    && (forall i :: 0 <= i < |bet.legs| ==> bet.legs[i].outcome.Some?)
    && var result := Aggregate(Results(bet.legs));
       bet.status == StatusOf(result) && bet.payoutAmount == Some(PayoutFor(bet.stake, bet.potentialPayout, result))
  }

  predicate Closing(kind: RowKind) {
    kind == Settle || kind == StaffVoid
  }

  /** The row pays this bet's payout to its user, once. */
  predicate PaysOut(s: State, k: Key)
    requires k.bet < |s.bets| && k in s.rows
  {
    var row, bet := s.rows[k], s.bets[k.bet];
    && row.payload.Some? && row.status != RowStatus.Failed && bet.payoutAmount.Some?
    && var tx := row.payload.value;
       && tx.roundId == k.bet && tx.userCode == bet.username && tx.code == row.code
       && tx.amount == bet.payoutAmount.value && tx.group == bet.group
       && tx.isFinished && (tx.isCanceled <==> bet.status == BetStatus.Void)
       && (k.kind == Settle ==> row.code.SettleCode? && row.code.bet == k.bet && bet.status == StatusOf(row.code.outcome))
       && (k.kind == StaffVoid ==> row.code == StaffVoidCode(k.bet) && bet.status == BetStatus.Void)
  }

  /** The single closing row, and a wallet history of the debit, followed by the payout at the
      latest when the row is completed. */
  ghost predicate ClosedOk(s: State, b: nat)
    requires b < |s.bets| && Key(b, Debit) in s.rows
  {
    var kind := if Key(b, Settle) in s.rows then Settle else StaffVoid;
    var k := Key(b, kind);
    && k in s.rows && !(Key(b, Settle) in s.rows && Key(b, StaffVoid) in s.rows)
    && ClosedAsGraded(s.bets[b]) && PaysOut(s, k)
    && var tx := s.rows[k].payload.value;
       Of(s.log, b) == [DebitOf(s, b), tx]
       || (s.rows[k].status == RowStatus.Pending && Of(s.log, b) == [DebitOf(s, b)])
  }

  /** Bet, outbox rows and wallet history of one bet are in step. */
  ghost predicate BetOk(s: State, b: nat)
    requires b < |s.bets|
  {
    && s.bets[b].legs != [] && Key(b, Debit) in s.rows && s.rows[Key(b, Debit)].code.DebitCode?
    && var status, open := s.rows[Key(b, Debit)].status, Key(b, Settle) !in s.rows && Key(b, StaffVoid) !in s.rows;
       match s.bets[b].status
       case Pending => status == RowStatus.Pending && open && (Of(s.log, b) == [] || Of(s.log, b) == [DebitOf(s, b)])
       case Accepted => status == RowStatus.Completed && open && Of(s.log, b) == [DebitOf(s, b)]
       case Rejected => status == RowStatus.Failed && open && Of(s.log, b) == []
       case _ => status == RowStatus.Completed && ClosedOk(s, b)
  }

  /** Every posting belongs to its bet's user and carries one of its bet's codes. */
  predicate PostingOk(s: State, e: Transaction) {
    && e.roundId < |s.bets| && e.userCode == s.bets[e.roundId].username
    && match e.code
       case DebitCode(_) => Key(e.roundId, Debit) in s.rows && s.rows[Key(e.roundId, Debit)].code == e.code
       case SettleCode(bet, _) => bet == e.roundId
       case StaffVoidCode(bet) => bet == e.roundId
  }

  ghost predicate RowsOk(s: State) {
    && (forall k :: k in s.rows <==> k in s.created)
    && (forall i, j :: 0 <= i < j < |s.created| ==> s.created[i] != s.created[j])
    && (forall k :: k in s.rows ==> k.bet < |s.bets| && s.rows[k].group == s.bets[k.bet].group)
    && (forall k1, k2 :: k1 in s.rows && k2 in s.rows && k1.kind == Debit && k2.kind == Debit && k1 != k2
          ==> s.rows[k1].code != s.rows[k2].code)
  }

  ghost predicate BetsOk(s: State) {
    forall b :: 0 <= b < |s.bets| ==> BetOk(s, b)
  }

  predicate PostingsOk(s: State) {
    forall i :: 0 <= i < |s.log| ==> PostingOk(s, s.log[i])
  }

  predicate UniqueIdentities(bets: seq<Bet>) {
    forall b1, b2 :: 0 <= b1 < b2 < |bets| ==> !SameIdentity(bets[b1], bets[b2].group, bets[b2].userId, bets[b2].idempotencyKey)
  }

  ghost predicate Inv(s: State) {
    PayloadsStored(s.rows) && RowsOk(s) && DistinctCodes(s.log) && BetsOk(s) && PostingsOk(s) && UniqueIdentities(s.bets)
  }

  // Wallet histories

  lemma OfAppend(log: seq<Transaction>, tx: Transaction, b: nat)
    ensures Of(log + [tx], b) == if tx.roundId == b then Of(log, b) + [tx] else Of(log, b)
  {
    assert (log + [tx])[..|log|] == log;
  }

  lemma {:induction false} OfMembers(log: seq<Transaction>, b: nat, i: nat)
    requires i < |log| && log[i].roundId == b
    ensures log[i] in Of(log, b)
  {
    if i < |log| - 1 {
      OfMembers(log[..|log| - 1], b, i);
    }
  }

  lemma {:induction false} OfPosted(log: seq<Transaction>, b: nat, tx: Transaction)
    requires tx in Of(log, b)
    ensures Posted(log, tx.code) && tx in log && tx.roundId == b
  {
    var front, last := log[..|log| - 1], log[|log| - 1];
    if tx in Of(front, b) {
      OfPosted(front, b, tx);
      assert log == front + [last];
      PostedAppend(front, last);
    }
  }

  /** The transaction a pending row delivers. */
  function TransactionOf(s: State, k: Key): Transaction
    requires k in s.rows && k.bet < |s.bets| && (k.kind != Debit ==> s.rows[k].payload.Some?)
  {
    if k.kind == Debit then DebitOf(s, k.bet) else s.rows[k].payload.value
  }

  /** What is already posted under a row's code is that row's transaction. */
  lemma PostedIsOwn(s: State, k: Key, i: nat)
    requires k in s.rows && k.bet < |s.bets| && BetOk(s, k.bet) && s.rows[k].status == RowStatus.Pending
    requires k.kind != Debit ==> s.rows[k].payload.Some?
    requires i < |s.log| && s.log[i].code == TransactionOf(s, k).code && s.log[i].roundId == k.bet
    ensures TransactionOf(s, k) in Of(s.log, k.bet)
  {
    OfMembers(s.log, k.bet, i);
    hide Of, ClosedAsGraded;
  }

  lemma RefusedIsDebit(s: State, k: Key)
    requires k in s.rows && k.bet < |s.bets| && BetOk(s, k.bet) && s.rows[k].status == RowStatus.Pending
    requires k.kind != Debit ==> s.rows[k].payload.Some?
    requires TransactionOf(s, k) !in Of(s.log, k.bet) && TransactionOf(s, k).amount < 0
    ensures k.kind == Debit && Of(s.log, k.bet) == []
  {
    hide Of, ClosedAsGraded;
  }

  lemma SameCodeSameBet(s: State, k: Key, i: nat)
    requires Inv(s) && k in s.rows && (k.kind != Debit ==> s.rows[k].payload.Some?)
    requires s.rows[k].status == RowStatus.Pending
    requires i < |s.log| && s.log[i].code == TransactionOf(s, k).code
    ensures s.log[i].roundId == k.bet
  {
    assert PostingOk(s, s.log[i]) && BetOk(s, k.bet);
    hide Of, ClosedAsGraded;
  }

  /** Posting the transaction of a pending row keeps the invariant, and once accepted it is in the
      wallet history of its bet. */
  lemma PostKeepsInv(s: State, k: Key)
    requires Inv(s) && k in s.rows && s.rows[k].status == RowStatus.Pending
    ensures var p := Post(s.cfg.wallet, s.log, TransactionOf(s, k));
            Inv(s.(log := p.log)) && (p.accepted ==> TransactionOf(s, k) in Of(p.log, k.bet))
            && (!p.accepted ==> k.kind == Debit && p.log == s.log && Of(s.log, k.bet) == [])
  {
    assert BetOk(s, k.bet);
    hide BetOk, Of, PostingOk;
    var tx := TransactionOf(s, k);
    assert s.(log := s.log) == s;
    if Posted(s.log, tx.code) {
      var i :| 0 <= i < |s.log| && s.log[i].code == tx.code;
      SameCodeSameBet(s, k, i);
      PostedIsOwn(s, k, i);
    } else {
      if tx in Of(s.log, k.bet) {
        OfPosted(s.log, k.bet, tx);
      }
      if Post(s.cfg.wallet, s.log, tx).accepted {
        PostNewKeepsInv(s, k);
      } else {
        RefusedIsDebit(s, k);
      }
    }
  }

  predicate SameRow(s: State, t: State, k: Key) {
    (k in s.rows <==> k in t.rows) && (k in s.rows ==> s.rows[k] == t.rows[k])
  }

  /** A bet is left in step by whatever happens to other bets. */
  lemma BetFrame(s: State, t: State, b: nat)
    requires b < |s.bets| && b < |t.bets| && s.bets[b] == t.bets[b] && Of(s.log, b) == Of(t.log, b)
    requires SameRow(s, t, Key(b, Debit)) && SameRow(s, t, Key(b, Settle)) && SameRow(s, t, Key(b, StaffVoid))
    requires BetOk(s, b)
    ensures BetOk(t, b)
  {}

  lemma OwnPostingOk(s: State, k: Key)
    requires k in s.rows && k.bet < |s.bets| && BetOk(s, k.bet) && s.rows[k].status == RowStatus.Pending
    requires k.kind != Debit ==> s.rows[k].payload.Some?
    requires TransactionOf(s, k) !in Of(s.log, k.bet)
    ensures BetOk(s.(log := s.log + [TransactionOf(s, k)]), k.bet)
    ensures TransactionOf(s, k).roundId == k.bet && PostingOk(s, TransactionOf(s, k))
  {
    hide Of, ClosedAsGraded;
    var tx := TransactionOf(s, k);
    var t := s.(log := s.log + [tx]);
    OfAppend(s.log, tx, k.bet) by { hide *; }
    if k.kind == Debit {
      assert Of(s.log, k.bet) == [];
      assert Of(t.log, k.bet) == [DebitOf(t, k.bet)];
    } else {
      assert Of(t.log, k.bet) == [DebitOf(t, k.bet), tx];
    }
  }

  lemma PostNewKeepsInv(s: State, k: Key)
    requires Inv(s) && k in s.rows && s.rows[k].status == RowStatus.Pending
    requires var tx := TransactionOf(s, k); !Posted(s.log, tx.code) && tx !in Of(s.log, k.bet)
    ensures Inv(s.(log := s.log + [TransactionOf(s, k)]))
    ensures TransactionOf(s, k) in Of(s.log + [TransactionOf(s, k)], k.bet)
  {
    hide BetOk, PostingOk, TransactionOf, Of;
    var tx := TransactionOf(s, k);
    OfAppend(s.log, tx, k.bet);
    OwnPostingOk(s, k) by { assert BetOk(s, k.bet); }
    NewPostingFrame(s, tx, k.bet);
    NewCodeIsDistinct(s.log, tx);
    hide BetsOk, PostingsOk, RowsOk, UniqueIdentities, DistinctCodes, Posted;
  }

  /** One more posting leaves the other bets and the earlier postings in step. */
  lemma NewPostingFrame(s: State, tx: Transaction, own: nat)
    requires BetsOk(s) && PostingsOk(s) && tx.roundId == own < |s.bets| && PostingOk(s, tx)
    requires BetOk(s.(log := s.log + [tx]), own)
    ensures BetsOk(s.(log := s.log + [tx])) && PostingsOk(s.(log := s.log + [tx]))
  {
    hide BetOk, PostingOk, Of;
    var t := s.(log := s.log + [tx]);
    forall b | 0 <= b < |t.bets| ensures BetOk(t, b) {
      if b != own {
        OfAppend(s.log, tx, b);
        BetFrame(s, t, b);
      }
    }
    forall i | 0 <= i < |t.log| ensures PostingOk(t, t.log[i]) {
      if i < |s.log| {
        assert PostingOk(s, s.log[i]);
      }
      PostingFrame(s, t, t.log[i]);
    }
  }

  lemma NewCodeIsDistinct(log: seq<Transaction>, tx: Transaction)
    requires DistinctCodes(log) && !Posted(log, tx.code)
    ensures DistinctCodes(log + [tx])
  {}

  lemma PostingFrame(s: State, t: State, e: Transaction)
    requires PostingOk(s, e) && s.bets == t.bets && s.rows == t.rows
    ensures PostingOk(t, e)
  {}

  /** Pending closing rows. */
  predicate Payable(s: State, keys: seq<Key>) {
    forall i :: 0 <= i < |keys| ==>
      keys[i] in s.rows && Closing(keys[i].kind) && s.rows[keys[i]].status == RowStatus.Pending && s.rows[keys[i]].payload.Some?
  }

  /** The stored transactions of these rows are in their bets' wallet histories. */
  ghost predicate Paid(s: State, keys: seq<Key>) {
    forall i :: 0 <= i < |keys| ==>
      keys[i] in s.rows && s.rows[keys[i]].payload.Some? && s.rows[keys[i]].payload.value in Of(s.log, keys[i].bet)
  }

  /** Posting a batch of closing rows: never refused, and every item ends up in its bet's history. */
  lemma {:induction false} PostAllKeepsInv(s: State, keys: seq<Key>)
    requires Inv(s) && Payable(s, keys)
    ensures var p := PostAll(s.cfg.wallet, s.log, Payloads(s.rows, keys));
            p.accepted && Inv(s.(log := p.log)) && Paid(s.(log := p.log), keys)
  {
    hide Inv, Of, Post;
    if keys == [] {
      assert s.(log := s.log) == s;
    } else {
      var front, last := keys[..|keys| - 1], keys[|keys| - 1];
      assert Payloads(s.rows, keys)[..|keys| - 1] == Payloads(s.rows, front);
      PostAllKeepsInv(s, front);
      var s1 := s.(log := PostAll(s.cfg.wallet, s.log, Payloads(s.rows, front)).log);
      RowBelongsToBet(s1, last);
      PostKeepsInv(s1, last);
      PostKeepsPaid(s1, front, TransactionOf(s1, last));
      hide PostAll;
      assert keys == front + [last];
    }
  }

  lemma RowBelongsToBet(s: State, k: Key)
    requires Inv(s) && k in s.rows
    ensures k.bet < |s.bets|
  {}

  lemma PostKeepsPaid(s: State, keys: seq<Key>, tx: Transaction)
    requires Paid(s, keys)
    ensures Paid(s.(log := Post(s.cfg.wallet, s.log, tx).log), keys)
  {
    hide Of, Post;
    forall i | 0 <= i < |keys|
      ensures s.rows[keys[i]].payload.value in Of(Post(s.cfg.wallet, s.log, tx).log, keys[i].bet)
    {
      PostKeepsHistory(s.cfg.wallet, s.log, tx, keys[i].bet, s.rows[keys[i]].payload.value);
    }
  }

  lemma PostKeepsHistory(cfg: WalletConfig, log: seq<Transaction>, tx: Transaction, b: nat, e: Transaction)
    requires e in Of(log, b)
    ensures e in Of(Post(cfg, log, tx).log, b)
  {
    OfAppend(log, tx, b);
  }

  lemma DeliverKeepsInv(s: State, keys: seq<Key>, d: Delivery)
    requires Inv(s)
    requires Payable(s, keys)
    ensures var sent := Deliver(s.cfg.wallet, s.log, Payloads(s.rows, keys), d);
            Inv(s.(log := sent.log)) && sent.reply != InsufficientFunds
            && (sent.reply == Done ==> Paid(s.(log := sent.log), keys))
  {
    hide Inv, Of, PostAll;
    var txs := Payloads(s.rows, keys);
    var reached := match d case Answered => keys case Lost(n) => if n < |keys| then keys[..n] else keys;
    assert Reached(txs, d) == Payloads(s.rows, reached);
    PostAllKeepsInv(s, reached);
  }

  // Database writes

  /** Bookkeeping on rows: retries, batch ids, and completion of closing rows that were paid. */
  ghost predicate Touched(s: State, t: State) {
    && t.bets == s.bets && t.log == s.log && t.created == s.created && t.rows.Keys == s.rows.Keys
    && forall k :: k in s.rows ==>
         && t.rows[k].code == s.rows[k].code && t.rows[k].group == s.rows[k].group && t.rows[k].payload == s.rows[k].payload
         && (t.rows[k].status == s.rows[k].status
             || (Closing(k.kind) && s.rows[k].status == RowStatus.Pending && t.rows[k].status == RowStatus.Completed
                 && s.rows[k].payload.Some? && s.rows[k].payload.value in Of(s.log, k.bet)))
  }

  lemma TouchedBet(s: State, t: State, b: nat)
    requires b < |s.bets| && BetOk(s, b) && Touched(s, t) && PayloadsStored(s.rows) && DistinctCodes(s.log)
    ensures BetOk(t, b)
  {
    hide Of;
    assert DebitOf(t, b) == DebitOf(s, b);
  }

  lemma TouchKeepsInv(s: State, t: State)
    requires Inv(s) && Touched(s, t)
    ensures Inv(t)
  {
    hide BetOk, Of;
    forall b | 0 <= b < |t.bets| ensures BetOk(t, b) {
      assert BetOk(s, b);
      TouchedBet(s, t, b);
    }
    forall i | 0 <= i < |t.log| ensures PostingOk(t, t.log[i]) {
      assert PostingOk(s, s.log[i]);
    }
  }

  /** A write that concerns one bet keeps the invariant when it leaves that bet in step. */
  lemma OneBetKeepsInv(s: State, t: State, b: nat)
    requires Inv(s) && t.log == s.log && |t.bets| == |s.bets| && b < |s.bets|
    requires t.bets[b].username == s.bets[b].username && t.bets[b].group == s.bets[b].group
    requires t.bets[b].userId == s.bets[b].userId && t.bets[b].idempotencyKey == s.bets[b].idempotencyKey
    requires forall c :: 0 <= c < |s.bets| && c != b ==> t.bets[c] == s.bets[c]
    requires forall k: Key :: k.bet != b ==> SameRow(s, t, k)
    requires Key(b, Debit) in s.rows && Key(b, Debit) in t.rows && t.rows[Key(b, Debit)].code == s.rows[Key(b, Debit)].code
    requires PayloadsStored(t.rows) && RowsOk(t) && BetOk(t, b)
    ensures Inv(t)
  {
    hide BetOk, Of, RowsOk;
    forall c | 0 <= c < |t.bets| ensures BetOk(t, c) {
      if c != b {
        assert BetOk(s, c);
        BetFrame(s, t, c);
      }
    }
    forall i | 0 <= i < |t.log| ensures PostingOk(t, t.log[i]) {
      assert PostingOk(s, s.log[i]);
      var k := Key(s.log[i].roundId, Debit);
      assert k.bet != b ==> SameRow(s, t, k);
    }
    forall b1, b2 | 0 <= b1 < b2 < |t.bets|
      ensures !SameIdentity(t.bets[b1], t.bets[b2].group, t.bets[b2].userId, t.bets[b2].idempotencyKey)
    {
      assert !SameIdentity(s.bets[b1], s.bets[b2].group, s.bets[b2].userId, s.bets[b2].idempotencyKey);
    }
  }

  // Steps

  lemma OfNewBet(log: seq<Transaction>, b: nat)
    requires forall i :: 0 <= i < |log| ==> log[i].roundId < b
    ensures Of(log, b) == []
  {}

  lemma AddRowOk(s: State, t: State, key: Key, row: Row)
    requires RowsOk(s) && key !in s.rows && key.bet < |t.bets| && row.group == t.bets[key.bet].group
    requires |t.bets| >= |s.bets| && forall b :: 0 <= b < |s.bets| ==> t.bets[b].group == s.bets[b].group
    requires t.rows == s.rows[key := row] && t.created == s.created + [key]
    requires key.kind == Debit ==> forall k :: k in s.rows ==> s.rows[k].code != row.code
    ensures RowsOk(t)
  {}

  lemma AddBetKeepsInv(s: State, t: State, bet: Bet, row: Row)
    requires Inv(s) && Key(|s.bets|, Debit) !in s.rows && row.group == bet.group
    requires t.bets == s.bets + [bet] && t.log == s.log
    requires t.rows == s.rows[Key(|s.bets|, Debit) := row] && t.created == s.created + [Key(|s.bets|, Debit)]
    requires forall k :: k in s.rows ==> s.rows[k].code != row.code
    requires forall b :: 0 <= b < |s.bets| ==> !SameIdentity(s.bets[b], bet.group, bet.userId, bet.idempotencyKey)
    requires BetOk(t, |s.bets|)
    ensures Inv(t)
  {
    hide BetOk, Of;
    AddRowOk(s, t, Key(|s.bets|, Debit), row) by { assert RowsOk(s); }
    hide RowsOk;
    forall b | 0 <= b < |t.bets| ensures BetOk(t, b) {
      if b < |s.bets| {
        assert BetOk(s, b);
        BetFrame(s, t, b);
      }
    }
    forall i | 0 <= i < |t.log| ensures PostingOk(t, t.log[i]) {
      assert PostingOk(s, s.log[i]);
    }
  }

  lemma PlaceKeepsInv(s: State, r: Request, nonce: nat, walletUp: bool)
    requires Inv(s)
    ensures Inv(DoPlace(s, r, nonce, walletUp))
  {
    var t := DoPlace(s, r, nonce, walletUp);
    if t != s {
      PlacedBetOk(s, r, nonce, walletUp);
      hide Inv, BetOk, Of, Validate, Balance;
      AddBetKeepsInv(s, t, t.bets[|s.bets|], t.rows[Key(|s.bets|, Debit)]);
    }
  }

  lemma QuoteLegs(cat: Catalogue, limits: Limits, group: string, ids: seq<string>, stake: nat)
    requires Validate(cat, limits, group, ids, stake).Quoted?
    ensures |Validate(cat, limits, group, ids, stake).quote.legs| == |ids|
  {}

  lemma PlacedBetOk(s: State, r: Request, nonce: nat, walletUp: bool)
    requires Inv(s) && DoPlace(s, r, nonce, walletUp) != s
    ensures BetOk(DoPlace(s, r, nonce, walletUp), |s.bets|)
  {
    QuoteLegs(s.cat, s.cfg.limits, r.group, r.selectionIds, r.stake);
    assert forall i :: 0 <= i < |s.log| ==> PostingOk(s, s.log[i]);
    assert forall k :: k in s.rows ==> k.bet < |s.bets|;
    OfNewBet(s.log, |s.bets|);
    hide Inv, Balance, ClosedOk, Validate, Of, NonceUsed, FindBet;
  }

  function Decided(s: State, b: nat, accept: bool): State
    requires b < |s.bets| && Key(b, Debit) in s.rows
  {
    s.(bets := s.bets[b := s.bets[b].(status := if accept then BetStatus.Accepted else BetStatus.Rejected)],
       rows := s.rows[Key(b, Debit) := s.rows[Key(b, Debit)].(status := if accept then RowStatus.Completed else RowStatus.Failed)])
  }

  lemma DecidedBetOk(s: State, b: nat, accept: bool)
    requires b < |s.bets| && s.bets[b].status == BetStatus.Pending && Key(b, Debit) in s.rows && BetOk(s, b)
    requires Of(s.log, b) == if accept then [DebitOf(s, b)] else []
    ensures BetOk(Decided(s, b, accept), b)
  {
    hide Of, ClosedOk;
    assert DebitOf(Decided(s, b, accept), b) == DebitOf(s, b);
  }

  lemma SameCodesRowsOk(s: State, t: State)
    requires RowsOk(s) && t.created == s.created && t.rows.Keys == s.rows.Keys && |t.bets| == |s.bets|
    requires forall b :: 0 <= b < |s.bets| ==> t.bets[b].group == s.bets[b].group
    requires forall k :: k in s.rows ==> t.rows[k].code == s.rows[k].code && t.rows[k].group == s.rows[k].group
    ensures RowsOk(t)
  {}

  /** The two ways a pending bet leaves that status. */
  lemma DecideKeepsInv(s: State, b: nat, accept: bool)
    requires Inv(s) && b < |s.bets| && s.bets[b].status == BetStatus.Pending && Key(b, Debit) in s.rows
    requires Of(s.log, b) == if accept then [DebitOf(s, b)] else []
    ensures Inv(Decided(s, b, accept))
  {
    hide BetOk, Of, PostingOk, RowsOk;
    assert BetOk(s, b) && RowsOk(s) && PayloadsStored(s.rows);
    hide Inv;
    DecidedBetOk(s, b, accept);
    SameCodesRowsOk(s, Decided(s, b, accept));
    OneBetKeepsInv(s, Decided(s, b, accept), b);
  }

  lemma RescheduleKeepsInv(s: State, keys: seq<Key>)
    requires Inv(s)
    ensures Inv(s.(rows := RescheduleAll(s.rows, keys, s.now)))
  {
    hide BetOk, RowsOk, PostingOk, Of;
    TouchKeepsInv(s, s.(rows := RescheduleAll(s.rows, keys, s.now)));
  }

  lemma AfterDebitKeepsInv(s: State, b: nat, reply: Reply, a: Aftermath)
    requires Inv(s) && b < |s.bets| && s.bets[b].status == BetStatus.Pending && Key(b, Debit) in s.rows
    requires reply == Done ==> Of(s.log, b) == [DebitOf(s, b)]
    requires reply == InsufficientFunds ==> Of(s.log, b) == []
    ensures Inv(AfterDebit(s, b, reply, a))
  {
    hide Inv, Of;
    if reply != Unavailable && a == Written {
      DecideKeepsInv(s, b, reply == Done);
    } else {
      RescheduleKeepsInv(s, [Key(b, Debit)]);
      assert RescheduleAll(s.rows, [Key(b, Debit)], s.now)
          == s.rows[Key(b, Debit) := Rescheduled(s.rows[Key(b, Debit)], s.now)];
    }
  }

  lemma DebitKeepsInv(s: State, b: nat, o: Outcome)
    requires Inv(s)
    ensures Inv(DoDebit(s, b, o))
  {
    hide Inv, Deliver, Of, AfterDebit;
    if b < |s.bets| && s.bets[b].status !in {BetStatus.Accepted, BetStatus.Rejected} && Key(b, Debit) in s.rows
       && s.rows[Key(b, Debit)].status != RowStatus.Completed {
      DebitPostKeepsInv(s, b, o.delivery);
      var sent := Deliver(s.cfg.wallet, s.log, [DebitOf(s, b)], o.delivery);
      AfterDebitKeepsInv(s.(log := sent.log), b, sent.reply, o.aftermath);
    }
  }

  lemma PendingDebit(s: State, b: nat)
    requires b < |s.bets| && Key(b, Debit) in s.rows && BetOk(s, b) && s.rows[Key(b, Debit)].status != RowStatus.Completed
    requires s.bets[b].status !in {BetStatus.Accepted, BetStatus.Rejected}
    ensures s.bets[b].status == BetStatus.Pending && s.rows[Key(b, Debit)].status == RowStatus.Pending
  {}

  lemma DebitPostKeepsInv(s: State, b: nat, d: Delivery)
    requires Inv(s) && b < |s.bets| && Key(b, Debit) in s.rows && s.rows[Key(b, Debit)].status != RowStatus.Completed
    requires s.bets[b].status !in {BetStatus.Accepted, BetStatus.Rejected}
    ensures s.bets[b].status == BetStatus.Pending
    ensures var sent := Deliver(s.cfg.wallet, s.log, [DebitOf(s, b)], d);
            Inv(s.(log := sent.log))
            && (sent.reply == Done ==> Of(sent.log, b) == [DebitOf(s, b)])
            && (sent.reply == InsufficientFunds ==> Of(sent.log, b) == [])
  {
    PendingDebit(s, b) by { assert BetOk(s, b); }
    hide Inv, Of, BetOk, Post;
    var tx := DebitOf(s, b);
    PostKeepsInv(s, Key(b, Debit));
    assert [tx][..0] == [];
    assert PostAll(s.cfg.wallet, s.log, []) == Posting(s.log, true);
    assert PostAll(s.cfg.wallet, s.log, [tx]) == Post(s.cfg.wallet, s.log, tx);
    PendingHistory(s.(log := Post(s.cfg.wallet, s.log, tx).log), b);
    assert s.(log := s.log) == s;
  }

  lemma PendingHistory(s: State, b: nat)
    requires Inv(s) && b < |s.bets| && s.bets[b].status == BetStatus.Pending
    ensures Key(b, Debit) in s.rows
    ensures Of(s.log, b) == [] || Of(s.log, b) == [DebitOf(s, b)]
  {
    assert BetOk(s, b);
  }

  lemma SendStaffVoidKeepsInv(s: State, b: nat, o: Outcome)
    requires Inv(s)
    ensures Inv(DoSendStaffVoid(s, b, o))
  {
    var k := Key(b, StaffVoid);
    if k in s.rows && s.rows[k].status == RowStatus.Pending && Due(s.rows[k], s.now) {
      assert PayloadsStored(s.rows) && Payable(s, [k]);
      hide Inv, Deliver, Of;
      DeliverKeepsInv(s, [k], o.delivery);
      assert Payloads(s.rows, [k]) == [s.rows[k].payload.value];
      var sent := Deliver(s.cfg.wallet, s.log, [s.rows[k].payload.value], o.delivery);
      RescheduleKeepsInv(s.(log := sent.log), [k]);
      assert RescheduleAll(s.rows, [k], s.now) == s.rows[k := Rescheduled(s.rows[k], s.now)];
      if sent.reply == Done {
        assert [k][0] in s.rows && s.rows[[k][0]].payload.value in Of(sent.log, [k][0].bet);
        CompleteOneKeepsInv(s.(log := sent.log), k);
      }
    }
  }

  lemma CompleteOneKeepsInv(s: State, k: Key)
    requires Inv(s) && k in s.rows && Closing(k.kind) && s.rows[k].status == RowStatus.Pending
    requires s.rows[k].payload.Some? && s.rows[k].payload.value in Of(s.log, k.bet)
    ensures Inv(s.(rows := s.rows[k := s.rows[k].(status := RowStatus.Completed)]))
  {
    hide BetOk, RowsOk, PostingOk, Of;
    TouchKeepsInv(s, s.(rows := s.rows[k := s.rows[k].(status := RowStatus.Completed)]));
  }

  lemma SelectedPayable(s: State, q: Query)
    requires PayloadsStored(s.rows) && Closing(q.kind)
    ensures Payable(s, Select(s.rows, s.created, q))
  {
    var keys := Select(s.rows, s.created, q);
    hide Select;
    forall i | 0 <= i < |keys| ensures keys[i] in s.rows && Matches(q, keys[i], s.rows[keys[i]]) {
      assert keys[i] in keys;
    }
  }

  lemma AssignKeepsInv(s: State, keys: seq<Key>, batch: nat)
    requires Inv(s)
    ensures var t := s.(rows := AssignBatch(s.rows, keys, batch));
            Inv(t) && (Payable(s, keys) ==> Payable(t, keys)) && (Paid(s, keys) ==> Paid(t, keys))
  {
    hide BetOk, RowsOk, PostingOk, Of;
    TouchKeepsInv(s, s.(rows := AssignBatch(s.rows, keys, batch)));
  }

  lemma AfterBatchKeepsInv(s: State, entries: seq<Key>, batch: nat, reply: Reply, a: Aftermath)
    requires Inv(s) && Payable(s, entries)
    requires reply == Done ==> Paid(s, entries)
    ensures Inv(AfterBatch(s, entries, batch, reply, a).state)
  {
    hide BetOk, RowsOk, PostingOk, Of;
    TouchKeepsInv(s, AfterBatch(s, entries, batch, reply, a).state);
  }

  lemma FlushKeepsInv(s: State, group: string, batch: nat, o: Outcome)
    requires Inv(s)
    ensures Inv(DoFlush(s, group, batch, o).state)
  {
    assert PayloadsStored(s.rows);
    hide Inv, Deliver, Of, Select, AfterBatch, AssignBatch, Paid;
    if DueSettles(s, group) != [] {
      var anchor := s.rows[DueSettles(s, group)[0]].batchId;
      var entries := BatchEntries(s, group, anchor);
      SelectedPayable(s, Query(Settle, Some(group), Some(s.now), Some(anchor)));
      DeliverKeepsInv(s, entries, o.delivery);
      var sent := Deliver(s.cfg.wallet, s.log, Payloads(s.rows, entries), o.delivery);
      var s1 := s.(log := sent.log);
      hide Payable;
      if anchor.Some? {
        AfterBatchKeepsInv(s1, entries, anchor.value, sent.reply, o.aftermath);
      } else {
        AssignKeepsInv(s1, entries, batch);
        AfterBatchKeepsInv(s1.(rows := AssignBatch(s.rows, entries, batch)), entries, batch, sent.reply, o.aftermath);
      }
    }
  }

  lemma BetInv(s: State, b: nat)
    requires Inv(s) && b < |s.bets|
    ensures BetOk(s, b) && RowsOk(s) && PayloadsStored(s.rows) && s.bets[b].legs != []
  {
    assert BetOk(s, b);
    hide RowsOk, PayloadsStored, ClosedOk, Of;
  }

  lemma CloseKeepsInv(s: State, b: nat, results: seq<LegResult>, key: Key, code: Code, batch: Option<nat>)
    requires Inv(s) && b < |s.bets| && |results| == |s.bets[b].legs| && s.bets[b].status == BetStatus.Accepted
    requires key.bet == b && Closing(key.kind)
    requires key.kind == Settle ==> code == SettleCode(b, Aggregate(results))
    requires key.kind == StaffVoid ==> code == StaffVoidCode(b) && Aggregate(results) == LegResult.Void
    ensures Inv(CloseBet(s, b, results, key, code, batch))
  {
    var t := CloseBet(s, b, results, key, code, batch);
    assert key in s.rows ==> t == s;
    hide *;
    if key !in s.rows {
      BetInv(s, b);
      ClosedBetOk(s, b, results, key, code, batch);
      CloseShape(s, b, results, key, code, batch);
      AddRowOk(s, t, key, t.rows[key]);
      OneBetKeepsInv(s, t, b);
    }
  }

  lemma AllVoidIsVoid(n: nat)
    ensures n > 0 ==> Aggregate(AllVoid(n)) == LegResult.Void
  {
    if n > 0 {
      assert AllVoid(n)[0] in AllVoid(n);
    }
  }

  /** Closing writes one bet and adds one row. */
  lemma CloseShape(s: State, b: nat, results: seq<LegResult>, key: Key, code: Code, batch: Option<nat>)
    requires b < |s.bets| && |results| == |s.bets[b].legs| && key.bet == b && Closing(key.kind) && key !in s.rows
    requires PayloadsStored(s.rows) && Key(b, Debit) in s.rows
    ensures var t := CloseBet(s, b, results, key, code, batch);
            && t.log == s.log && |t.bets| == |s.bets| && key in t.rows && t.rows == s.rows[key := t.rows[key]]
            && t.created == s.created + [key] && t.rows[key].group == s.bets[b].group
            && t.bets[b].username == s.bets[b].username && t.bets[b].group == s.bets[b].group
            && t.bets[b].userId == s.bets[b].userId && t.bets[b].idempotencyKey == s.bets[b].idempotencyKey
            && (forall c :: 0 <= c < |s.bets| && c != b ==> t.bets[c] == s.bets[c])
            && (forall k: Key :: k.bet != b ==> SameRow(s, t, k))
            && key.kind != Debit && Key(b, Debit) in t.rows && t.rows[Key(b, Debit)].code == s.rows[Key(b, Debit)].code
            && PayloadsStored(t.rows)
  {}

  lemma ClosedBetOk(s: State, b: nat, results: seq<LegResult>, key: Key, code: Code, batch: Option<nat>)
    requires b < |s.bets| && |results| == |s.bets[b].legs| && s.bets[b].status == BetStatus.Accepted && BetOk(s, b)
    requires key.bet == b && Closing(key.kind) && key !in s.rows
    requires key.kind == Settle ==> code == SettleCode(b, Aggregate(results))
    requires key.kind == StaffVoid ==> code == StaffVoidCode(b) && Aggregate(results) == LegResult.Void
    ensures Key(b, Debit) in s.rows && BetOk(CloseBet(s, b, results, key, code, batch), b)
  {
    hide Of;
    assert Results(CloseBet(s, b, results, key, code, batch).bets[b].legs) == results;
  }

  lemma ClearBackoffKeepsInv(s: State, group: string)
    requires Inv(s)
    ensures Inv(DoClearBackoff(s, group))
  {
    hide BetOk, RowsOk, PostingOk, Of;
    TouchKeepsInv(s, DoClearBackoff(s, group));
  }

  lemma EnvironmentKeepsInv(s: State, cat: Catalogue, now: int)
    requires Inv(s)
    ensures Inv(s.(cat := cat, now := now))
  {
    hide BetOk, RowsOk, PostingOk, Of;
    TouchKeepsInv(s, s.(cat := cat, now := now));
  }

  /** Every step keeps the invariant. */
  lemma StepKeepsInv(s: State, step: Step)
    requires Inv(s)
    ensures Inv(Apply(s, step))
  {
    hide Inv, DoPlace, DoDebit, DoSendStaffVoid, DoFlush, DoClearBackoff, CloseBet;
    match step
    case Place(r, nonce, walletUp) => PlaceKeepsInv(s, r, nonce, walletUp);
    case AttemptDebit(b, o) => DebitKeepsInv(s, b, o);
    case SendStaffVoid(b, o) => if PayloadsStored(s.rows) { SendStaffVoidKeepsInv(s, b, o); }
    case Flush(group, batch, o) => if PayloadsStored(s.rows) { FlushKeepsInv(s, group, batch, o); }
    case SettleBet(b, batch) =>
      if b < |s.bets| && s.bets[b].status == BetStatus.Accepted && GradeLegs(s.cat, s.bets[b].legs).Some? {
        var results := GradeLegs(s.cat, s.bets[b].legs).value;
        CloseKeepsInv(s, b, results, Key(b, Settle), SettleCode(b, Aggregate(results)), Some(batch));
      }
    case VoidBet(group, b, ok) =>
      if b < |s.bets| && s.bets[b].status == BetStatus.Accepted {
        BetInv(s, b);
        AllVoidIsVoid(|s.bets[b].legs|);
        CloseKeepsInv(s, b, AllVoid(|s.bets[b].legs|), Key(b, StaffVoid), StaffVoidCode(b), None);
      }
    case ClearBackoff(group) => ClearBackoffKeepsInv(s, group);
    case EditCatalogue(cat) => EnvironmentKeepsInv(s, cat, s.now);
    case Tick(ms) => EnvironmentKeepsInv(s, s.cat, s.now + ms);
  }

  /** The invariant holds in every reachable state. */
  lemma {:induction false} RunKeepsInv(s: State, steps: seq<Step>)
    requires Inv(s)
    ensures Inv(Run(s, steps))
  {
    if steps != [] {
      RunKeepsInv(s, steps[..|steps| - 1]);
      StepKeepsInv(Run(s, steps[..|steps| - 1]), steps[|steps| - 1]);
    }
  }

  lemma StartInv(cfg: Config, cat: Catalogue, now: int)
    ensures Inv(Start(cfg, cat, now))
  {}
}
