/** Debit attempts on one bet that overlap: every attempt reads the bet, calls the wallet and writes the
    result in separate steps, and the steps of different attempts interleave freely. */
module DebitRace {
  import opened Domain
  import opened Wallet
  import opened Ledger

  /** An attempt has read a bet that is still to be debited, or also has the wallet's reply. */
  datatype Phase = Ready | Replied(reply: Reply)

  /** One bet, its debit row and transaction, the wallet's postings and the attempts in flight. */
  datatype Race = Race(
    cfg: WalletConfig,
    debit: Transaction,
    log: seq<Transaction>,
    status: BetStatus,
    row: RowStatus,
    attempts: map<nat, Phase>)

  datatype Move =
    | Read(attempt: nat)
    | Send(attempt: nat, delivery: Delivery)
    | Write(attempt: nat, succeeds: bool)
    | Elsewhere(tx: Transaction)

  predicate Debitable(r: Race) {
    r.status != BetStatus.Accepted && r.status != BetStatus.Rejected && r.row != RowStatus.Completed
  }

  /** The write after a reply does not look at the bet again. */
  function Written(r: Race, reply: Reply): Race {
    match reply
    case Done => r.(status := BetStatus.Accepted, row := RowStatus.Completed)
    case InsufficientFunds => r.(status := BetStatus.Rejected, row := RowStatus.Failed)
    case Unavailable => r
  }

  ghost function Moved(r: Race, m: Move): Race {
    match m
    case Read(i) => if i !in r.attempts && Debitable(r) then r.(attempts := r.attempts[i := Ready]) else r
    case Send(i, d) =>
      if i in r.attempts && r.attempts[i] == Ready then
        var sent := Deliver(r.cfg, r.log, [r.debit], d);
        r.(log := sent.log, attempts := r.attempts[i := Replied(sent.reply)])
      else r
    case Write(i, succeeds) =>
      if i in r.attempts && r.attempts[i].Replied? then
        var done := r.(attempts := r.attempts - {i});
        if succeeds then Written(done, r.attempts[i].reply) else done
      else r
    case Elsewhere(tx) =>
      if tx.code == r.debit.code then r else r.(log := Post(r.cfg, r.log, tx).log)
  }

  ghost function Played(r: Race, moves: seq<Move>): Race {
    if moves == [] then r else Moved(Played(r, moves[..|moves| - 1]), moves[|moves| - 1])
  }

  /** How often the code was posted. */
  ghost function Postings(log: seq<Transaction>, code: Code): nat {
    if log == [] then 0 else Postings(log[..|log| - 1], code) + if log[|log| - 1].code == code then 1 else 0
  }

  ghost predicate Fair(r: Race) {
    && Postings(r.log, r.debit.code) <= 1
    && (Posted(r.log, r.debit.code) <==> Postings(r.log, r.debit.code) == 1)
    && (r.status == BetStatus.Accepted ==> Posted(r.log, r.debit.code))
    && (forall i :: i in r.attempts && r.attempts[i] == Replied(Done) ==> Posted(r.log, r.debit.code))
  }

  lemma PostCounted(cfg: WalletConfig, log: seq<Transaction>, tx: Transaction, code: Code)
    requires Postings(log, code) <= 1 && (Posted(log, code) <==> Postings(log, code) == 1)
    ensures var after := Post(cfg, log, tx).log;
            && Postings(after, code) <= 1 && (Posted(after, code) <==> Postings(after, code) == 1)
            && (Posted(log, code) ==> Posted(after, code))
            && (tx.code == code && Post(cfg, log, tx).accepted ==> Posted(after, code))
  {
    PostedAppend(log, tx);
    assert (log + [tx])[..|log|] == log;
  }

  lemma SingleDelivery(cfg: WalletConfig, log: seq<Transaction>, tx: Transaction, d: Delivery)
    ensures var sent := Deliver(cfg, log, [tx], d);
            && (sent.log == log || sent.log == Post(cfg, log, tx).log)
            && (sent.reply == Done ==> sent.log == Post(cfg, log, tx).log && Post(cfg, log, tx).accepted)
  {
    assert [tx][..0] == [];
    assert PostAll(cfg, log, []) == Posting(log, true);
    assert PostAll(cfg, log, [tx]) == Post(cfg, log, tx);
  }

  lemma MoveIsFair(r: Race, m: Move)
    requires Fair(r)
    ensures Fair(Moved(r, m)) && Moved(r, m).debit == r.debit
  {
    hide Deliver, Post, Posted, Postings;
    match m
    case Read(i) =>
    case Send(i, d) =>
      SingleDelivery(r.cfg, r.log, r.debit, d);
      PostCounted(r.cfg, r.log, r.debit, r.debit.code);
    case Write(i, succeeds) =>
    case Elsewhere(tx) =>
      PostCounted(r.cfg, r.log, tx, r.debit.code);
  }

  /** However the attempts interleave, the bet is debited at most once, and an accepted bet exactly once. */
  lemma {:induction false} AtMostOneDebit(r: Race, moves: seq<Move>)
    requires r.status == BetStatus.Pending && r.attempts == map[] && Postings(r.log, r.debit.code) == 0 && !Posted(r.log, r.debit.code)
    ensures Fair(Played(r, moves)) && Played(r, moves).debit == r.debit
    ensures Postings(Played(r, moves).log, r.debit.code) <= 1
    ensures Played(r, moves).status == BetStatus.Accepted ==> Postings(Played(r, moves).log, r.debit.code) == 1
  {
    hide Moved, Posted, Postings;
    if moves != [] {
      AtMostOneDebit(r, moves[..|moves| - 1]);
      MoveIsFair(Played(r, moves[..|moves| - 1]), moves[|moves| - 1]);
    }
  }

  // When rejection means that nothing was taken

  predicate Fresh(r: Race) {
    r.status == BetStatus.Pending && r.row == RowStatus.Pending && r.attempts == map[]
  }

  /** The wallet holding these postings would refuse the debit. */
  ghost predicate Short(r: Race, log: seq<Transaction>) {
    r.debit.amount < 0 && -r.debit.amount > Shown(r.cfg, Balance(r.cfg, log, r.debit.userCode))
  }

  /** Postings requested elsewhere, one after another, refusals ignored. */
  ghost function PostMany(cfg: WalletConfig, log: seq<Transaction>, txs: seq<Transaction>): seq<Transaction> {
    if txs == [] then log else Post(cfg, PostMany(cfg, log, txs[..|txs| - 1]), txs[|txs| - 1]).log
  }

  ghost predicate Drawn(txs: seq<Transaction>, allowed: iset<Transaction>, code: Code) {
    forall i :: 0 <= i < |txs| ==> txs[i] in allowed && txs[i].code != code
  }

  ghost predicate PlayableWith(moves: seq<Move>, allowed: iset<Transaction>) {
    forall i :: 0 <= i < |moves| && moves[i].Elsewhere? ==> moves[i].tx in allowed
  }

  /** No sequence of the allowed postings makes a refused debit affordable again. */
  ghost predicate NeverCovers(r: Race, allowed: iset<Transaction>) {
    forall before, after | Drawn(before, allowed, r.debit.code) && Drawn(after, allowed, r.debit.code)
                           && Short(r, PostMany(r.cfg, r.log, before)) :: Short(r, PostMany(r.cfg, r.log, before + after))
  }

  /** In every play whose other postings are allowed, a rejected bet's debit is not posted. */
  ghost predicate RejectionIsSafe(r: Race, allowed: iset<Transaction>) {
    forall moves | PlayableWith(moves, allowed) && Played(r, moves).status == BetStatus.Rejected ::
      !Posted(Played(r, moves).log, r.debit.code)
  }

  /** The allowed postings of a play that are not the debit's own code. */
  function Others(moves: seq<Move>, code: Code): seq<Transaction> {
    if moves == [] then []
    else
      var last := moves[|moves| - 1];
      Others(moves[..|moves| - 1], code) + if last.Elsewhere? && last.tx.code != code then [last.tx] else []
  }

  lemma {:induction false} OthersDrawn(moves: seq<Move>, allowed: iset<Transaction>, code: Code)
    requires PlayableWith(moves, allowed)
    ensures Drawn(Others(moves, code), allowed, code)
  {
    if moves != [] {
      OthersDrawn(moves[..|moves| - 1], allowed, code);
    }
  }

  lemma PostManyNext(cfg: WalletConfig, log: seq<Transaction>, txs: seq<Transaction>, tx: Transaction)
    ensures PostMany(cfg, log, txs + [tx]) == Post(cfg, PostMany(cfg, log, txs), tx).log && PostMany(cfg, log, txs + []) == PostMany(cfg, log, txs)
  {
    hide Post;
    assert (txs + [tx])[..|txs|] == txs && txs + [] == txs;
  }

  predicate Refusal(r: Race) {
    r.status == BetStatus.Rejected || exists i :: i in r.attempts && r.attempts[i] == Replied(InsufficientFunds)
  }

  /** While the debit is not posted the wallet holds the other postings only; and while a refusal is held
      or written, the debit is not posted and still not affordable. */
  ghost predicate Uncovered(r0: Race, r: Race, others: seq<Transaction>) {
    && r.cfg == r0.cfg && r.debit == r0.debit
    && (!Posted(r.log, r.debit.code) ==> r.log == PostMany(r0.cfg, r0.log, others))
    && (Refusal(r) ==> !Posted(r.log, r.debit.code) && Short(r, r.log))
  }

  lemma DebitReply(r: Race, d: Delivery)
    ensures var sent := Deliver(r.cfg, r.log, [r.debit], d);
            && (sent.reply == InsufficientFunds ==> !Posted(r.log, r.debit.code) && Short(r, r.log) && sent.log == r.log)
            && (!Posted(r.log, r.debit.code) && Short(r, r.log) ==> sent.log == r.log && sent.reply != Done)
            && (sent.log == r.log || Posted(sent.log, r.debit.code))
            && (!Posted(r.log, r.debit.code) && !Short(r, r.log) && d == Answered ==> sent == Delivered(r.log + [r.debit], Done))
            && (!Posted(r.log, r.debit.code) && Short(r, r.log) && d == Answered ==> sent == Delivered(r.log, InsufficientFunds))
  {
    assert [r.debit][..0] == [];
    assert PostAll(r.cfg, r.log, []) == Posting(r.log, true);
    assert PostAll(r.cfg, r.log, [r.debit]) == Post(r.cfg, r.log, r.debit);
    PostedAppend(r.log, r.debit);
  }

  lemma MoveStaysUncovered(r0: Race, r: Race, others: seq<Transaction>, m: Move, allowed: iset<Transaction>)
    requires Uncovered(r0, r, others) && NeverCovers(r0, allowed) && Drawn(others, allowed, r0.debit.code)
    requires m.Elsewhere? ==> m.tx in allowed
    ensures Uncovered(r0, Moved(r, m), others + if m.Elsewhere? && m.tx.code != r.debit.code then [m.tx] else [])
  {
    hide Deliver, Post, Posted, Balance, Shown;
    PostManyNext(r0.cfg, r0.log, others, r0.debit);
    match m
    case Read(i) =>
    case Send(i, d) => DebitReply(r, d);
    case Write(i, succeeds) =>
    case Elsewhere(tx) =>
      if tx.code != r.debit.code {
        PostManyNext(r0.cfg, r0.log, others, tx);
        PostOther(r.cfg, r.log, tx, r.debit.code);
        assert Drawn([tx], allowed, r0.debit.code);
      }
  }

  lemma PostOther(cfg: WalletConfig, log: seq<Transaction>, tx: Transaction, code: Code)
    requires tx.code != code
    ensures Posted(Post(cfg, log, tx).log, code) <==> Posted(log, code)
  {
    PostedAppend(log, tx);
  }

  lemma {:induction false} PlayStaysUncovered(r: Race, moves: seq<Move>, allowed: iset<Transaction>)
    requires Fresh(r) && !Posted(r.log, r.debit.code) && NeverCovers(r, allowed) && PlayableWith(moves, allowed)
    ensures Uncovered(r, Played(r, moves), Others(moves, r.debit.code))
  {
    hide Moved, Posted, NeverCovers, Short;
    if moves != [] {
      var front := moves[..|moves| - 1];
      PlayStaysUncovered(r, front, allowed);
      OthersDrawn(front, allowed, r.debit.code);
      MoveStaysUncovered(r, Played(r, front), Others(front, r.debit.code), moves[|moves| - 1], allowed);
    }
  }

  // The play that debits a rejected bet

  function Requests(txs: seq<Transaction>): (moves: seq<Move>)
    ensures |moves| == |txs| && forall i :: 0 <= i < |txs| ==> moves[i] == Elsewhere(txs[i])
  {
    seq(|txs|, i requires 0 <= i < |txs| => Elsewhere(txs[i]))
  }

  lemma {:induction false} PlayedConcat(r: Race, a: seq<Move>, b: seq<Move>)
    ensures Played(r, a + b) == Played(Played(r, a), b)
  {
    hide Moved;
    if b == [] {
      assert a + b == a;
    } else {
      assert (a + b)[..|a + b| - 1] == a + b[..|b| - 1];
      PlayedConcat(r, a, b[..|b| - 1]);
    }
  }

  lemma PlayedOne(r: Race, m: Move)
    ensures Played(r, [m]) == Moved(r, m) && Played(r, []) == r
  {
    hide Moved;
    assert [m][..0] == [];
  }

  lemma {:induction false} PlayRequests(r: Race, txs: seq<Transaction>)
    requires forall i :: 0 <= i < |txs| ==> txs[i].code != r.debit.code
    ensures Played(r, Requests(txs)) == r.(log := PostMany(r.cfg, r.log, txs))
    ensures Posted(r.log, r.debit.code) <==> Posted(PostMany(r.cfg, r.log, txs), r.debit.code)
  {
    hide Post, Posted;
    if txs == [] {
      assert Requests(txs) == [];
    } else {
      var front, last := txs[..|txs| - 1], txs[|txs| - 1];
      PlayRequests(r, front);
      assert Requests(txs) == Requests(front) + [Elsewhere(last)];
      PlayedConcat(r, Requests(front), [Elsewhere(last)]);
      PlayedOne(Played(r, Requests(front)), Elsewhere(last));
      PostOther(r.cfg, PostMany(r.cfg, r.log, front), last, r.debit.code);
    }
  }

  lemma {:induction false} PostManyConcat(cfg: WalletConfig, log: seq<Transaction>, a: seq<Transaction>, b: seq<Transaction>)
    ensures PostMany(cfg, log, a + b) == PostMany(cfg, PostMany(cfg, log, a), b)
  {
    hide Post;
    if b == [] {
      assert a + b == a;
    } else {
      assert (a + b)[..|a + b| - 1] == a + b[..|b| - 1];
      PostManyConcat(cfg, log, a, b[..|b| - 1]);
    }
  }

  /** Two attempts read the bet, the first is refused after the postings `before`, the second is paid after
      the postings `after`, and the refusal is written last. */
  function Overlap(before: seq<Transaction>, after: seq<Transaction>): seq<Move> {
    [Read(0), Read(1)] + Requests(before) + [Send(0, Answered)] + Requests(after) + [Send(1, Answered), Write(1, true), Write(0, true)]
  }

  lemma BothRead(r: Race)
    requires Fresh(r)
    ensures Played(r, [Read(0), Read(1)]) == r.(attempts := map[0 := Ready, 1 := Ready])
  {
    assert [Read(0), Read(1)] == [Read(0)] + [Read(1)];
    PlayedConcat(r, [Read(0)], [Read(1)]);
    PlayedOne(r, Read(0));
    PlayedOne(Moved(r, Read(0)), Read(1));
  }

  lemma LastThree(r: Race)
    requires r.status == BetStatus.Pending && r.attempts == map[0 := Replied(InsufficientFunds), 1 := Ready]
    requires !Posted(r.log, r.debit.code) && !Short(r, r.log)
    ensures var t := Played(r, [Send(1, Answered), Write(1, true), Write(0, true)]);
            t == r.(status := BetStatus.Rejected, row := RowStatus.Failed, attempts := map[], log := r.log + [r.debit])
  {
    DebitReply(r, Answered);
    hide Deliver, Posted, Short;
    var m1, m2, m3 := Send(1, Answered), Write(1, true), Write(0, true);
    assert [m1, m2, m3] == [m1] + [m2] + [m3];
    PlayedConcat(r, [m1] + [m2], [m3]);
    PlayedConcat(r, [m1], [m2]);
    PlayedOne(r, m1);
    PlayedOne(Moved(r, m1), m2);
    PlayedOne(Moved(Moved(r, m1), m2), m3);
    hide Played;
    assert Moved(r, m1).attempts == map[0 := Replied(InsufficientFunds), 1 := Replied(Done)];
    assert Moved(Moved(r, m1), m2).attempts == map[0 := Replied(InsufficientFunds)];
    assert Moved(Moved(Moved(r, m1), m2), m3).attempts == map[];
  }

  lemma OverlapDebits(r: Race, before: seq<Transaction>, after: seq<Transaction>)
    requires Fresh(r) && !Posted(r.log, r.debit.code)
    requires forall i :: 0 <= i < |before| ==> before[i].code != r.debit.code
    requires forall i :: 0 <= i < |after| ==> after[i].code != r.debit.code
    requires Short(r, PostMany(r.cfg, r.log, before)) && !Short(r, PostMany(r.cfg, r.log, before + after))
    ensures var t := Played(r, Overlap(before, after));
            && t.status == BetStatus.Rejected && t.attempts == map[] && Posted(t.log, r.debit.code)
            && t.log == PostMany(r.cfg, r.log, before + after) + [r.debit]
  {
    var r1 := r.(attempts := map[0 := Ready, 1 := Ready]);
    var r2 := r1.(log := PostMany(r.cfg, r.log, before));
    var r3 := r2.(attempts := map[0 := Replied(InsufficientFunds), 1 := Ready]);
    var r4 := r3.(log := PostMany(r.cfg, r.log, before + after));
    var a, b, c, d, e := [Read(0), Read(1)], Requests(before), [Send(0, Answered)], Requests(after),
                         [Send(1, Answered), Write(1, true), Write(0, true)];
    BothRead(r);
    PlayRequests(r1, before);
    DebitReply(r2, Answered);
    PlayedOne(r2, Send(0, Answered));
    assert Moved(r2, Send(0, Answered)) == r3 by { assert r2.attempts[0 := Replied(InsufficientFunds)] == r3.attempts; }
    PlayRequests(r3, after);
    PostManyConcat(r.cfg, r.log, before, after);
    LastThree(r4);
    PlayedConcat(r, a + b + c + d, e);
    PlayedConcat(r, a + b + c, d);
    PlayedConcat(r, a + b, c);
    PlayedConcat(r, a, b);
    PostedAppend(r4.log, r.debit);
  }

  /** Rejected means undebited, in every play with the allowed other postings, exactly when those postings
      can never make a refused debit affordable again. */
  lemma RejectionIsSafeExactly(r: Race, allowed: iset<Transaction>)
    requires Fresh(r) && !Posted(r.log, r.debit.code)
    ensures RejectionIsSafe(r, allowed) <==> NeverCovers(r, allowed)
  {
    hide Short, Posted, PostMany, Drawn;
    if NeverCovers(r, allowed) {
      forall moves | PlayableWith(moves, allowed) && Played(r, moves).status == BetStatus.Rejected
        ensures !Posted(Played(r, moves).log, r.debit.code)
      {
        PlayStaysUncovered(r, moves, allowed);
      }
    } else {
      var before, after :| Drawn(before, allowed, r.debit.code) && Drawn(after, allowed, r.debit.code)
                           && Short(r, PostMany(r.cfg, r.log, before)) && !Short(r, PostMany(r.cfg, r.log, before + after));
      DrawnCodes(before, allowed, r.debit.code);
      DrawnCodes(after, allowed, r.debit.code);
      OverlapDebits(r, before, after);
      OverlapPlayable(before, after, allowed, r.debit.code);
      assert !RejectionIsSafe(r, allowed);
    }
  }

  lemma DrawnCodes(txs: seq<Transaction>, allowed: iset<Transaction>, code: Code)
    requires Drawn(txs, allowed, code)
    ensures forall i :: 0 <= i < |txs| ==> txs[i].code != code
  {}

  lemma OverlapPlayable(before: seq<Transaction>, after: seq<Transaction>, allowed: iset<Transaction>, code: Code)
    requires Drawn(before, allowed, code) && Drawn(after, allowed, code)
    ensures PlayableWith(Overlap(before, after), allowed)
  {
    var moves, n := Overlap(before, after), |before|;
    forall i | 0 <= i < |moves| && moves[i].Elsewhere? ensures moves[i].tx in allowed {
      if i < n + 2 {
        assert moves[i] == Requests(before)[i - 2];
      } else {
        assert moves[i] == Requests(after)[i - n - 3];
      }
    }
  }

  /** None of the allowed postings credits the user. */
  ghost predicate NoCredits(allowed: iset<Transaction>, user: string) {
    forall tx :: tx in allowed && tx.userCode == user ==> tx.amount <= 0
  }

  lemma {:induction false} BalanceNeverRises(cfg: WalletConfig, log: seq<Transaction>, txs: seq<Transaction>, allowed: iset<Transaction>,
                                             code: Code, user: string)
    requires NoCredits(allowed, user) && Drawn(txs, allowed, code)
    ensures Balance(cfg, PostMany(cfg, log, txs), user) <= Balance(cfg, log, user)
  {
    hide Posted;
    if txs != [] {
      var front, last := txs[..|txs| - 1], txs[|txs| - 1];
      BalanceNeverRises(cfg, log, front, allowed, code, user);
      BalanceAppend(cfg, PostMany(cfg, log, front), last, user);
      hide Balance;
    }
  }

  lemma NoCreditsNeverCover(r: Race, allowed: iset<Transaction>)
    requires NoCredits(allowed, r.debit.userCode)
    ensures NeverCovers(r, allowed)
  {
    hide Balance, PostMany, Drawn, NoCredits;
    forall before, after | Drawn(before, allowed, r.debit.code) && Drawn(after, allowed, r.debit.code)
      && Short(r, PostMany(r.cfg, r.log, before))
      ensures Short(r, PostMany(r.cfg, r.log, before + after))
    {
      PostManyConcat(r.cfg, r.log, before, after);
      BalanceNeverRises(r.cfg, PostMany(r.cfg, r.log, before), after, allowed, r.debit.code, r.debit.userCode);
    }
  }

  /** For every wallet and every bet of a user, rejection is safe against overlapping attempts exactly when
      nothing allowed to happen meanwhile credits that user: any credit makes some refused stake affordable. */
  lemma OnlyCreditsEndanger(user: string, allowed: iset<Transaction>)
    ensures (forall r :: Fresh(r) && !Posted(r.log, r.debit.code) && r.debit.userCode == user ==> RejectionIsSafe(r, allowed))
            <==> NoCredits(allowed, user)
  {
    hide Posted, RejectionIsSafe, NeverCovers;
    if NoCredits(allowed, user) {
      forall r | Fresh(r) && !Posted(r.log, r.debit.code) && r.debit.userCode == user ensures RejectionIsSafe(r, allowed) {
        NoCreditsNeverCover(r, allowed);
        RejectionIsSafeExactly(r, allowed);
      }
    } else {
      var tx :| tx in allowed && tx.userCode == user && tx.amount > 0;
      var r := CoveredBy(tx);
      CreditCovers(tx, allowed);
      RejectionIsSafeExactly(r, allowed);
      assert !RejectionIsSafe(r, allowed);
    }
  }

  /** A pending bet of exactly this credit, at an empty wallet. */
  function CoveredBy(tx: Transaction): Race {
    var code := if tx.code == DebitCode(0) then DebitCode(1) else DebitCode(0);
    Race(WalletConfig(0, BelowHalf), Transaction(tx.userCode, "g", 0, code, -tx.amount, false, false), [], BetStatus.Pending,
         RowStatus.Pending, map[])
  }

  lemma CreditCovers(tx: Transaction, allowed: iset<Transaction>)
    requires tx in allowed && tx.amount > 0
    ensures Fresh(CoveredBy(tx)) && !Posted(CoveredBy(tx).log, CoveredBy(tx).debit.code) && !NeverCovers(CoveredBy(tx), allowed)
  {
    var r := CoveredBy(tx);
    OneCredit(r, tx);
    hide PostMany, Short, Posted, CoveredBy;
    assert [] + [tx] == [tx];
    assert Drawn([], allowed, r.debit.code) && Drawn([tx], allowed, r.debit.code);
    assert Short(r, PostMany(r.cfg, r.log, [])) && !Short(r, PostMany(r.cfg, r.log, [] + [tx]));
  }

  /** A concrete overlap: the first attempt is refused, the user is paid ten cents elsewhere, the second
      attempt debits them, and then the first one writes its refusal. */
  lemma OverlapRejectsADebitedBet() returns (r: Race, credit: Transaction)
    ensures Fresh(r) && r.log == [] && r.debit.amount == -10 && credit.amount == 10
    ensures var t := Played(r, Overlap([], [credit])); t.status == BetStatus.Rejected && t.attempts == map[] && t.log == [credit, r.debit]
  {
    credit := Transaction("u", "g", 1, SettleCode(1, LegResult.Won), 10, true, false);
    r := CoveredBy(credit);
    OneCredit(r, credit);
    hide *;
    assert [] + [credit] == [credit] && [credit] + [r.debit] == [credit, r.debit];
    OverlapDebits(r, [], [credit]);
  }

  lemma OneCredit(r: Race, credit: Transaction)
    requires credit.amount > 0 && r == CoveredBy(credit)
    ensures Fresh(r) && r.log == [] && r.debit.amount == -credit.amount && credit.code != r.debit.code && !Posted(r.log, r.debit.code)
    ensures PostMany(r.cfg, r.log, []) == [] && PostMany(r.cfg, r.log, [credit]) == [credit]
    ensures Short(r, []) && !Short(r, [credit])
  {
    assert [credit][..0] == [];
    assert Balance(r.cfg, [], credit.userCode) == 0 && Balance(r.cfg, [credit], credit.userCode) == credit.amount;
  }
}
