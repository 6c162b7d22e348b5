/** The wallet side of the protocol: an in-memory wallet that deduplicates on transaction codes. */
module Wallet {
  import opened Domain

  /** Codes are injective tags: a debit carries a fresh random value, the closing codes are hashes
      of the bet (and outcome). */
  datatype Code =
    | DebitCode(nonce: nat)
    | SettleCode(bet: nat, outcome: LegResult)
    | StaffVoidCode(bet: nat)

  datatype Transaction = Transaction(
    userCode: string,
    group: string,
    roundId: nat,
    code: Code,
    amount: int,
    isFinished: bool,
    isCanceled: bool)

  datatype Fraction = BelowHalf | Half | AboveHalf

  /** The configured opening balance is `opening` whole cents, rounded down, plus a fraction of a cent
      that no posting touches. The configuration does not check its sign. */
  datatype WalletConfig = WalletConfig(opening: int, fraction: Fraction)

  datatype Posting = Posting(log: seq<Transaction>, accepted: bool)

  /** How a request fares on the wire: answered, or no answer after the wallet has processed the
      first `reached` of its items. */
  datatype Delivery = Answered | Lost(reached: nat)

  datatype Reply = Done | InsufficientFunds | Unavailable

  datatype Delivered = Delivered(log: seq<Transaction>, reply: Reply)

  ghost predicate Posted(log: seq<Transaction>, code: Code) {
    exists i :: 0 <= i < |log| && log[i].code == code
  }

  ghost predicate DistinctCodes(log: seq<Transaction>) {
    forall i, j :: 0 <= i < j < |log| ==> log[i].code != log[j].code
  }

  /** Whole cents held by a user: opening balance plus every posted amount. */
  ghost function Balance(cfg: WalletConfig, log: seq<Transaction>, user: string): int {
    if log == [] then cfg.opening
    else
      var last := log[|log| - 1];
      Balance(cfg, log[..|log| - 1], user) + (if last.userCode == user then last.amount else 0)
  }

  predicate RoundsUp(cfg: WalletConfig) {
    cfg.fraction != BelowHalf
  }

  /** The balance as the stub shows and compares it: rounded to whole cents, half a cent away from zero. */
  function Shown(cfg: WalletConfig, balance: int): int {
    balance + (if cfg.fraction == AboveHalf || (cfg.fraction == Half && balance >= 0) then 1 else 0)
  }

  /** The postings of one bet, oldest first. */
  ghost function Of(log: seq<Transaction>, bet: nat): seq<Transaction> {
    if log == [] then []
    else
      var last := log[|log| - 1];
      Of(log[..|log| - 1], bet) + (if last.roundId == bet then [last] else [])
  }

  ghost function Post(cfg: WalletConfig, log: seq<Transaction>, tx: Transaction): Posting {
    if Posted(log, tx.code) then Posting(log, true)
    else if tx.amount < 0 && -tx.amount > Shown(cfg, Balance(cfg, log, tx.userCode)) then Posting(log, false)
    else Posting(log + [tx], true)
  }

  /** Item by item, stopping at the first refusal. */
  ghost function PostAll(cfg: WalletConfig, log: seq<Transaction>, txs: seq<Transaction>): Posting {
    if txs == [] then Posting(log, true)
    else
      var front := PostAll(cfg, log, txs[..|txs| - 1]);
      if front.accepted then Post(cfg, front.log, txs[|txs| - 1]) else front
  }

  function Reached(txs: seq<Transaction>, d: Delivery): seq<Transaction> {
    match d
    case Answered => txs
    case Lost(n) => if n < |txs| then txs[..n] else txs
  }

  ghost function Deliver(cfg: WalletConfig, log: seq<Transaction>, txs: seq<Transaction>, d: Delivery): Delivered {
    var p := PostAll(cfg, log, Reached(txs, d));
    Delivered(p.log, if d.Lost? then Unavailable else if p.accepted then Done else InsufficientFunds)
  }

  /** Requests posted one after another, each refusal ignored. */
  ghost function PostEach(cfg: WalletConfig, txs: seq<Transaction>): seq<Transaction> {
    if txs == [] then [] else Post(cfg, PostEach(cfg, txs[..|txs| - 1]), txs[|txs| - 1]).log
  }

  function BalanceFor(cfg: WalletConfig, balances: map<string, int>, user: string): int {
    if user in balances then balances[user] else cfg.opening
  }

  /** The stub's two collections say what its postings say, and no code was posted twice. */
  ghost predicate Agrees(cfg: WalletConfig, balances: map<string, int>, codes: set<Code>, log: seq<Transaction>) {
    && DistinctCodes(log)
    && (forall c: Code :: c in codes <==> Posted(log, c))
    && (forall u: string :: BalanceFor(cfg, balances, u) == Balance(cfg, log, u))
  }

  lemma AgreesFor(cfg: WalletConfig, balances: map<string, int>, codes: set<Code>, log: seq<Transaction>, tx: Transaction)
    requires Agrees(cfg, balances, codes, log)
    ensures tx.code in codes <==> Posted(log, tx.code)
    ensures BalanceFor(cfg, balances, tx.userCode) == Balance(cfg, log, tx.userCode)
  {}

  lemma AgreesAfter(cfg: WalletConfig, before: map<string, int>, after: map<string, int>, codes: set<Code>,
                    log: seq<Transaction>, tx: Transaction)
    requires Agrees(cfg, before, codes, log) && tx.code !in codes
    requires if tx.amount == 0 then after == before
             else after == before[tx.userCode := BalanceFor(cfg, before, tx.userCode) + tx.amount]
    ensures Agrees(cfg, after, codes + {tx.code}, log + [tx])
  {
    PostedAppend(log, tx);
    hide Balance;
    forall u: string ensures BalanceFor(cfg, after, u) == Balance(cfg, log + [tx], u) {
      BalanceAppend(cfg, log, tx, u);
      assert BalanceFor(cfg, before, u) == Balance(cfg, log, u);
    }
  }

  class WalletStubClient {
    const cfg: WalletConfig
    var balances: map<string, int>
    var postedCodes: set<Code>
    ghost var log: seq<Transaction>

    ghost predicate Valid()
      reads this
    {
      Agrees(cfg, balances, postedCodes, log)
    }

    constructor (cfg: WalletConfig)
      ensures Valid() && log == [] && this.cfg == cfg
    {
      this.cfg := cfg;
      balances, postedCodes, log := map[], {}, [];
    }

    /** The balance shown to callers, in cents. */
    method GetBalance(user: string) returns (cents: int)
      requires Valid()
      ensures Valid() && cents == Shown(cfg, Balance(cfg, log, user))
    {
      cents := Shown(cfg, BalanceFor(cfg, balances, user));
    }

    method PostTransaction(tx: Transaction) returns (accepted: bool)
      requires Valid()
      modifies this
      ensures Valid()
      ensures Posting(log, accepted) == Post(cfg, old(log), tx)
    {
      hide Agrees, Posted, Balance;
      AgreesFor(cfg, balances, postedCodes, log, tx);
      if tx.code in postedCodes {
        return true;
      }
      var balance := BalanceFor(cfg, balances, tx.userCode);
      if tx.amount < 0 {
        if -tx.amount > Shown(cfg, balance) {
          return false;
        }
        balances := balances[tx.userCode := balance + tx.amount];
      } else if tx.amount > 0 {
        balances := balances[tx.userCode := balance + tx.amount];
      }
      postedCodes := postedCodes + {tx.code};
      log := log + [tx];
      AgreesAfter(cfg, old(balances), balances, old(postedCodes), old(log), tx);
      accepted := true;
    }

    method PostTransactionBatch(txs: seq<Transaction>) returns (accepted: bool)
      requires Valid()
      modifies this
      ensures Valid()
      ensures Posting(log, accepted) == PostAll(cfg, old(log), txs)
    {
      accepted := true;
      var i := 0;
      while i < |txs| && accepted
        invariant 0 <= i <= |txs| && Valid()
        invariant Posting(log, accepted) == PostAll(cfg, old(log), txs[..i])
      {
        assert txs[..i + 1][..i] == txs[..i];
        accepted := PostTransaction(txs[i]);
        i := i + 1;
      }
      if accepted {
        assert txs[..i] == txs;
      } else {
        RefusalStops(cfg, old(log), txs, i);
      }
    }

    /** One call over the network. */
    method Send(txs: seq<Transaction>, d: Delivery) returns (reply: Reply)
      requires Valid()
      modifies this
      ensures Valid()
      ensures Delivered(log, reply) == Deliver(cfg, old(log), txs, d)
    {
      var accepted := PostTransactionBatch(Reached(txs, d));
      reply := if d.Lost? then Unavailable else if accepted then Done else InsufficientFunds;
    }
  }

  lemma PostedAppend(log: seq<Transaction>, tx: Transaction)
    ensures forall c: Code :: Posted(log + [tx], c) <==> Posted(log, c) || c == tx.code
  {
    forall c: Code ensures Posted(log + [tx], c) <==> Posted(log, c) || c == tx.code {
      if Posted(log, c) {
        var i :| 0 <= i < |log| && log[i].code == c;
        assert (log + [tx])[i].code == c;
      }
      assert (log + [tx])[|log|].code == tx.code;
    }
  }

  lemma BalanceAppend(cfg: WalletConfig, log: seq<Transaction>, tx: Transaction, u: string)
    ensures Balance(cfg, log + [tx], u) == Balance(cfg, log, u) + (if tx.userCode == u then tx.amount else 0)
  {
    assert (log + [tx])[..|log|] == log;
  }

  lemma {:induction false} RefusalStops(cfg: WalletConfig, log: seq<Transaction>, txs: seq<Transaction>, i: nat)
    requires i <= |txs| && !PostAll(cfg, log, txs[..i]).accepted
    ensures PostAll(cfg, log, txs) == PostAll(cfg, log, txs[..i])
  {
    if i == |txs| {
      assert txs[..i] == txs;
    } else {
      var front := txs[..|txs| - 1];
      assert front[..i] == txs[..i];
      RefusalStops(cfg, log, front, i);
    }
  }

  /** A retry of an accepted request changes nothing and is accepted again. */
  lemma RetryIsFree(cfg: WalletConfig, log: seq<Transaction>, tx: Transaction)
    requires Post(cfg, log, tx).accepted
    ensures Post(cfg, Post(cfg, log, tx).log, tx) == Post(cfg, log, tx)
  {
    PostedAppend(log, tx);
  }

  /** A batch without negative amounts is never refused midway: afterwards every item is posted. */
  lemma {:induction false} CreditBatchNeverStops(cfg: WalletConfig, log: seq<Transaction>, txs: seq<Transaction>)
    requires forall i :: 0 <= i < |txs| ==> txs[i].amount >= 0
    ensures PostAll(cfg, log, txs).accepted
    ensures forall i :: 0 <= i < |txs| ==> Posted(PostAll(cfg, log, txs).log, txs[i].code)
  {
    if txs != [] {
      var front, last := txs[..|txs| - 1], txs[|txs| - 1];
      CreditBatchNeverStops(cfg, log, front);
      PostedAppend(PostAll(cfg, log, front).log, last);
      forall i | 0 <= i < |txs| ensures Posted(PostAll(cfg, log, txs).log, txs[i].code) {
        assert i < |front| ==> front[i] == txs[i];
      }
    }
  }

  /** Over every sequence of requests, no balance goes below zero if and only if the configured opening
      balance is not negative and does not round up when shown in cents. */
  lemma BalancesNeverNegative(cfg: WalletConfig)
    ensures (forall txs, user :: Balance(cfg, PostEach(cfg, txs), user) >= 0) <==> 0 <= cfg.opening && !RoundsUp(cfg)
  {
    if cfg.opening < 0 {
      assert Balance(cfg, PostEach(cfg, []), "u") == cfg.opening;
    } else if RoundsUp(cfg) {
      var tx := Transaction("u", "g", 0, DebitCode(0), -(cfg.opening + 1), false, false);
      assert [tx][..0] == [];
      assert PostEach(cfg, [tx]) == [tx];
      assert Balance(cfg, [tx], "u") == -1;
    } else {
      forall txs, user ensures Balance(cfg, PostEach(cfg, txs), user) >= 0 {
        PostEachNonNegative(cfg, txs, user);
      }
    }
  }

  lemma {:induction false} PostEachNonNegative(cfg: WalletConfig, txs: seq<Transaction>, user: string)
    requires 0 <= cfg.opening && !RoundsUp(cfg)
    ensures Balance(cfg, PostEach(cfg, txs), user) >= 0
  {
    if txs != [] {
      PostEachNonNegative(cfg, txs[..|txs| - 1], user);
      PostNonNegative(cfg, PostEach(cfg, txs[..|txs| - 1]), txs[|txs| - 1], user);
    }
  }

  lemma PostNonNegative(cfg: WalletConfig, log: seq<Transaction>, tx: Transaction, user: string)
    requires !RoundsUp(cfg) && Balance(cfg, log, user) >= 0
    ensures Balance(cfg, Post(cfg, log, tx).log, user) >= 0
  {
    assert (log + [tx])[..|log|] == log;
  }
}
