/** Debits against a merchant wallet: it may apply a debit or not, whatever it then answers, and the
    client decides from the answer alone. */
module MerchantDebits {
  import opened Domain
  import opened Wallet
  import opened Ledger
  import opened LedgerSafety
  import opened WalletReply
  import BetValidation

  /** A call the circuit breaker refuses, or one the merchant serves. */
  datatype Call = Blocked | Served(applies: bool, answer: Http)

  datatype Move =
    | Create(bet: Bet, nonce: nat)
    | Attempt(id: nat, call: Call, aftermath: Aftermath)

  /** The merchant applies a code at most once. */
  ghost function Called(log: seq<Transaction>, tx: Transaction, call: Call): Delivered {
    match call
    case Blocked => Delivered(log, Unavailable)
    case Served(applies, answer) =>
      Delivered(if applies && !Posted(log, tx.code) then log + [tx] else log, ReadTransaction(answer, tx.amount))
  }

  ghost function Moved(s: State, m: Move): State {
    match m
    case Create(bet, nonce) =>
      if NonceUsed(s.rows, nonce) || Key(|s.bets|, Debit) in s.rows then s
      else
        s.(bets := s.bets + [bet.(status := BetStatus.Pending)],
           rows := s.rows[Key(|s.bets|, Debit) := Row(bet.group, DebitCode(nonce), None, None, RowStatus.Pending, 0, None)],
           created := s.created + [Key(|s.bets|, Debit)])
    case Attempt(b, call, a) =>
      if !Debitable(s, b) then s
      else
        var sent := Called(s.log, DebitOf(s, b), call);
        AfterDebit(s.(log := sent.log), b, sent.reply, a)
  }

  ghost function Played(s: State, moves: seq<Move>): State {
    if moves == [] then s else Moved(Played(s, moves[..|moves| - 1]), moves[|moves| - 1])
  }

  /** The move is a call of a debit that the merchant has applied, now or before, and answers thus. */
  ghost predicate AnswersApplied(s: State, m: Move, answer: Http) {
    && m.Attempt? && Debitable(s, m.id) && m.call.Served? && m.call.answer == answer
    && Posted(Called(s.log, DebitOf(s, m.id), m.call).log, DebitOf(s, m.id).code)
  }

  /** Along the play every answer to an applied debit, at the first attempt or a later one, is among these. */
  ghost predicate Answers(s: State, moves: seq<Move>, answers: iset<Http>) {
    moves == []
    || (Answers(s, moves[..|moves| - 1], answers)
        && forall h :: AnswersApplied(Played(s, moves[..|moves| - 1]), moves[|moves| - 1], h) ==> h in answers)
  }

  ghost predicate RejectedUndebited(s: State) {
    forall b :: 0 <= b < |s.bets| && s.bets[b].status == BetStatus.Rejected && Key(b, Debit) in s.rows ==>
      !Posted(s.log, s.rows[Key(b, Debit)].code)
  }

  /** Success or the duplicate hint in the body, or no body and a status that says nothing about funds. */
  predicate Recognised(h: Http) {
    match h
    case NoAnswer => true
    case Error(status, None) => status != 400 && status != 402 && status != 409
    case Error(_, Some(b)) => IsSuccess(b) || IsDuplicateTransaction(b)
    case Ok(b) => IsSuccess(b) || IsDuplicateTransaction(b)
  }

  lemma RecognisedIsNoRefusal(h: Http, amount: int)
    ensures Recognised(h) ==> ReadTransaction(h, amount) != InsufficientFunds
    ensures !Recognised(h) && amount < 0 ==> ReadTransaction(h, amount) == InsufficientFunds
  {
    hide IsSuccess, IsDuplicateTransaction;
  }

  function CodeOf(s: State, b: nat): Option<Code> {
    if Key(b, Debit) in s.rows then Some(s.rows[Key(b, Debit)].code) else None
  }

  predicate OwnCodes(s: State) {
    && (forall b :: 0 <= b < |s.bets| ==> CodeOf(s, b).Some?)
    && (forall b, c :: 0 <= b < c < |s.bets| ==> CodeOf(s, b) != CodeOf(s, c))
  }

  predicate OwnPostings(s: State) {
    forall i :: 0 <= i < |s.log| ==> s.log[i].roundId < |s.bets| && CodeOf(s, s.log[i].roundId) == Some(s.log[i].code)
  }

  /** Every bet has its own debit code, every posting is of its bet's code, and rejected bets are undebited. */
  ghost predicate InStep(s: State) {
    OwnCodes(s) && OwnPostings(s) && RejectedUndebited(s)
  }

  lemma CreateKeepsInStep(s: State, bet: Bet, nonce: nat)
    requires InStep(s)
    ensures InStep(Moved(s, Create(bet, nonce)))
  {
    hide Posted;
    var t := Moved(s, Create(bet, nonce));
    if t != s {
      forall b | 0 <= b < |s.bets| ensures CodeOf(t, b) == CodeOf(s, b) && CodeOf(s, b) != Some(DebitCode(nonce)) {
        assert Key(b, Debit) != Key(|s.bets|, Debit) && CodeOf(s, b).Some?;
        assert s.rows[Key(b, Debit)].code != DebitCode(nonce);
      }
      assert CodeOf(t, |s.bets|) == Some(DebitCode(nonce));
      assert OwnCodes(t);
      assert OwnPostings(t);
      forall c | 0 <= c < |t.bets| && t.bets[c].status == BetStatus.Rejected && Key(c, Debit) in t.rows
        ensures !Posted(t.log, t.rows[Key(c, Debit)].code)
      {
        assert c < |s.bets| && CodeOf(t, c) == CodeOf(s, c);
      }
    }
  }

  lemma CallKeepsInStep(s: State, b: nat, call: Call)
    requires InStep(s) && Debitable(s, b)
    ensures InStep(s.(log := Called(s.log, DebitOf(s, b), call).log))
  {
    var tx := DebitOf(s, b);
    var t := s.(log := Called(s.log, tx, call).log);
    PostedAppend(s.log, tx);
    hide Posted;
    assert forall c: nat :: CodeOf(t, c) == CodeOf(s, c);
    assert OwnCodes(t);
    assert tx.roundId == b && CodeOf(s, b) == Some(tx.code) && (t.log == s.log || t.log == s.log + [tx]);
    assert OwnPostings(t);
    forall c | 0 <= c < |t.bets| && t.bets[c].status == BetStatus.Rejected && Key(c, Debit) in t.rows
      ensures !Posted(t.log, t.rows[Key(c, Debit)].code)
    {
      assert c != b && CodeOf(s, c) != CodeOf(s, b);
    }
  }

  lemma WriteKeepsInStep(s: State, b: nat, reply: Reply, a: Aftermath)
    requires InStep(s) && b < |s.bets| && Key(b, Debit) in s.rows
    requires reply == InsufficientFunds ==> !Posted(s.log, s.rows[Key(b, Debit)].code)
    ensures InStep(AfterDebit(s, b, reply, a))
  {
    hide Posted;
    var t := AfterDebit(s, b, reply, a);
    assert forall c: nat :: CodeOf(t, c) == CodeOf(s, c);
    assert OwnCodes(t) && OwnPostings(t);
    forall c | 0 <= c < |t.bets| && t.bets[c].status == BetStatus.Rejected && Key(c, Debit) in t.rows
      ensures !Posted(t.log, t.rows[Key(c, Debit)].code)
    {
      assert CodeOf(t, c) == CodeOf(s, c);
    }
  }

  lemma MoveKeepsInStep(s: State, m: Move, answers: iset<Http>)
    requires InStep(s) && (forall h :: AnswersApplied(s, m, h) ==> h in answers) && (forall h :: h in answers ==> Recognised(h))
    ensures InStep(Moved(s, m))
  {
    match m
    case Create(bet, nonce) => CreateKeepsInStep(s, bet, nonce);
    case Attempt(b, call, a) =>
      hide InStep, AfterDebit, Posted, ReadTransaction, Recognised;
      if Debitable(s, b) {
        var sent := Called(s.log, DebitOf(s, b), call);
        CallKeepsInStep(s, b, call);
        if sent.reply == InsufficientFunds {
          RecognisedIsNoRefusal(call.answer, DebitOf(s, b).amount);
          assert !AnswersApplied(s, m, call.answer);
        }
        WriteKeepsInStep(s.(log := sent.log), b, sent.reply, a);
      }
  }

  lemma {:induction false} PlayKeepsInStep(s: State, moves: seq<Move>, answers: iset<Http>)
    requires InStep(s) && Answers(s, moves, answers) && (forall h :: h in answers ==> Recognised(h))
    ensures InStep(Played(s, moves))
  {
    hide InStep, Moved, AnswersApplied, Recognised;
    if moves != [] {
      PlayKeepsInStep(s, moves[..|moves| - 1], answers);
      MoveKeepsInStep(Played(s, moves[..|moves| - 1]), moves[|moves| - 1], answers);
    }
  }

  /** Against a merchant whose answers to applied debits are among these, a rejected bet is never debited. */
  ghost predicate RejectionIsSafe(answers: iset<Http>) {
    forall cfg, cat, now, moves | Answers(Start(cfg, cat, now), moves, answers) ::
      RejectedUndebited(Played(Start(cfg, cat, now), moves))
  }

  /** Over every play of any number of bets and attempts, with lost answers, failed writes and crashes,
      rejected means undebited if and only if every answer the merchant gives to an applied debit is
      recognised: a single other answer, already to a first attempt, rejects a bet whose stake was taken. */
  lemma RejectionIsSafeExactly(answers: iset<Http>)
    ensures RejectionIsSafe(answers) <==> forall h :: h in answers ==> Recognised(h)
  {
    hide Recognised, Answers, Played, RejectedUndebited;
    if forall h :: h in answers ==> Recognised(h) {
      forall cfg, cat, now, moves | Answers(Start(cfg, cat, now), moves, answers)
        ensures RejectedUndebited(Played(Start(cfg, cat, now), moves))
      {
        StartInStep(cfg, cat, now);
        PlayKeepsInStep(Start(cfg, cat, now), moves, answers);
        StepMeansUndebited(Played(Start(cfg, cat, now), moves));
      }
    } else {
      var h :| h in answers && !Recognised(h);
      var s, moves := FirstAttemptMisread(h, answers);
      assert !RejectionIsSafe(answers);
    }
  }

  lemma StartInStep(cfg: Config, cat: Catalogue, now: int)
    ensures InStep(Start(cfg, cat, now))
  {}

  lemma StepMeansUndebited(s: State)
    requires InStep(s)
    ensures RejectedUndebited(s)
  {}

  /** One bet, one attempt: the merchant takes the stake and answers in a way that is not recognised. */
  lemma FirstAttemptMisread(h: Http, answers: iset<Http>) returns (s: State, moves: seq<Move>)
    requires h in answers && !Recognised(h)
    ensures s == Start(s.cfg, s.cat, s.now) && |moves| == 2 && Answers(s, moves, answers) && !RejectedUndebited(Played(s, moves))
  {
    var cat := Catalogue(map[], map[], map[], map[], map[], map[], map[], map[], {});
    s := Start(Config(WalletConfig(0, BelowHalf), BetValidation.Limits(0, 0, 0)), cat, 0);
    var bet := Bet("g", "u", "u", "key", 1, 1000, 1, [], BetStatus.Pending, None);
    var m1, m2 := Create(bet, 0), Attempt(0, Served(true, h), Written);
    moves := [m1, m2];
    var s1 := Moved(s, m1);
    assert s1.bets == [bet] && s1.log == [] && Debitable(s1, 0) && DebitOf(s1, 0).amount == -1;
    RecognisedIsNoRefusal(h, -1);
    PostedAppend([], DebitOf(s1, 0));
    assert !Posted([], DebitOf(s1, 0).code);
    assert [] + [DebitOf(s1, 0)] == [DebitOf(s1, 0)];
    var t := Moved(s1, m2);
    assert t.bets[0].status == BetStatus.Rejected && t.log == [DebitOf(s1, 0)] && t.rows[Key(0, Debit)].code == DebitOf(s1, 0).code;
    assert !RejectedUndebited(t);
    hide Moved, Recognised, RejectedUndebited;
    TwoMoves(s, m1, m2);
    OnlyAttemptAnswers(s, m1, m2, h, answers);
  }

  lemma TwoMoves(s: State, m1: Move, m2: Move)
    ensures Played(s, [m1]) == Moved(s, m1) && Played(s, [m1, m2]) == Moved(Moved(s, m1), m2)
    ensures [m1, m2][..1] == [m1] && [m1][..0] == [] && Played(s, []) == s
  {
    hide Moved;
    assert [m1, m2][..1] == [m1] && [m1][..0] == [];
  }

  lemma OnlyAttemptAnswers(s: State, m1: Move, m2: Move, h: Http, answers: iset<Http>)
    requires m1.Create? && m2.Attempt? && m2.call == Served(true, h) && h in answers
    ensures Answers(s, [m1, m2], answers)
  {
    TwoMoves(s, m1, m2);
    hide Moved, Played, Called;
    assert Answers(s, [], answers);
    assert Answers(s, [m1], answers);
  }
}
