/** The money protocol as a state machine: bets, wallet outbox rows, the wallet's postings, the
    catalogue and a clock. A step is one database transaction, or one wallet call together with the
    database write that follows it; a crash or a lost answer may fall in between. */
module Ledger {
  import opened Domain
  import opened Wallet
  import opened Grading
  import opened BetValidation

  datatype Config = Config(wallet: WalletConfig, limits: Limits)

  /** Bets are numbered in creation order; the number is the bet's id. */
  datatype Bet = Bet(
    group: string,
    userId: string,
    username: string,
    idempotencyKey: string,
    stake: nat,
    odds: nat,
    potentialPayout: nat,
    legs: seq<Leg>,
    status: BetStatus,
    payoutAmount: Option<nat>)

  datatype RowKind = Debit | Settle | StaffVoid

  /** Outbox rows are unique per (bet, type). */
  datatype Key = Key(bet: nat, kind: RowKind)

  datatype RowStatus = Pending | Completed | Failed

  datatype Row = Row(
    group: string,
    code: Code,
    batchId: Option<nat>,
    payload: Option<Transaction>,
    status: RowStatus,
    attempts: nat,
    nextRetryAt: Option<int>)

  /** `created` lists the row keys in creation order; `log` is what the wallet has posted. */
  datatype State = State(
    cfg: Config,
    cat: Catalogue,
    bets: seq<Bet>,
    rows: map<Key, Row>,
    created: seq<Key>,
    log: seq<Transaction>,
    now: int)

  datatype Request = Request(
    group: string,
    userId: string,
    username: string,
    currency: string,
    idempotencyKey: string,
    selectionIds: seq<string>,
    stake: nat)

  /** What happens after the wallet call: the database write succeeds, fails with an error, or the
      process dies (having rescheduled some of a failed batch's rows). */
  datatype Aftermath = Written | WriteFailed | Crashed(rescheduled: nat)

  datatype Outcome = Outcome(delivery: Delivery, aftermath: Aftermath)

  datatype Step =
    | Place(request: Request, nonce: nat, walletUp: bool)
    | AttemptDebit(bet: nat, outcome: Outcome)
    | SendStaffVoid(bet: nat, outcome: Outcome)
    | Flush(group: string, freshBatch: nat, outcome: Outcome)
    | SettleBet(bet: nat, batch: nat)
    | VoidBet(group: string, bet: nat, reasonAccepted: bool)
    | ClearBackoff(group: string)
    | EditCatalogue(cat: Catalogue)
    | Tick(ms: nat)

  const STUB_CURRENCY := "USD"
  const MAX_LEGS := 12

  // Outbox queries

  /** A `where` clause over outbox rows; None leaves a column unconstrained. */
  datatype Query = Query(kind: RowKind, group: Option<string>, dueAt: Option<int>, batch: Option<Option<nat>>)

  predicate Due(row: Row, now: int) {
    row.nextRetryAt.None? || row.nextRetryAt.value <= now
  }

  predicate Matches(q: Query, k: Key, row: Row) {
    && k.kind == q.kind
    && row.status == RowStatus.Pending
    && (q.group.Some? ==> row.group == q.group.value)
    && (q.dueAt.Some? ==> Due(row, q.dueAt.value))
    && (q.batch.Some? ==> row.batchId == q.batch.value)
  }

  /** Matching pending rows, oldest first. */
  function Select(rows: map<Key, Row>, created: seq<Key>, q: Query): (keys: seq<Key>)
    ensures forall k :: k in keys <==> k in created && k in rows && Matches(q, k, rows[k])
  {
    if created == [] then []
    else
      var front, last := Select(rows, created[..|created| - 1], q), created[|created| - 1];
      if last in rows && Matches(q, last, rows[last]) then front + [last] else front
  }

  function DueSettles(s: State, group: string): seq<Key> {
    Select(s.rows, s.created, Query(Settle, Some(group), Some(s.now), None))
  }

  function BatchEntries(s: State, group: string, batch: Option<nat>): seq<Key> {
    Select(s.rows, s.created, Query(Settle, Some(group), Some(s.now), Some(batch)))
  }

  // Row updates

  /** Backoff of one minute per attempt, at most fifteen. */
  function RetryDelayMs(attempts: nat): nat {
    1000 * (if 60 * (attempts + 1) < 900 then 60 * (attempts + 1) else 900)
  }

  function Rescheduled(row: Row, now: int): Row {
    row.(attempts := row.attempts + 1, nextRetryAt := Some(now + RetryDelayMs(row.attempts)))
  }

  function RescheduleAll(rows: map<Key, Row>, keys: seq<Key>, now: int): map<Key, Row> {
    map k | k in rows :: if k in keys then Rescheduled(rows[k], now) else rows[k]
  }

  function AssignBatch(rows: map<Key, Row>, keys: seq<Key>, batch: nat): map<Key, Row> {
    map k | k in rows :: if k in keys then rows[k].(batchId := Some(batch)) else rows[k]
  }

  function CompleteAll(rows: map<Key, Row>, keys: seq<Key>, batch: nat): map<Key, Row> {
    map k | k in rows ::
      if k in keys then rows[k].(status := RowStatus.Completed, batchId := Some(batch)) else rows[k]
  }

  // Transactions

  function DebitTransaction(b: nat, bet: Bet, code: Code): Transaction {
    Transaction(bet.username, bet.group, b, code, 0 - bet.stake, false, false)
  }

  function SettlementTransaction(b: nat, bet: Bet, result: LegResult, payout: nat, code: Code): Transaction {
    Transaction(bet.username, bet.group, b, code, if result == LegResult.Lost then 0 else payout,
                true, result == LegResult.Void)
  }

  function Payloads(rows: map<Key, Row>, keys: seq<Key>): (txs: seq<Transaction>)
    requires forall i :: 0 <= i < |keys| ==> keys[i] in rows && rows[keys[i]].payload.Some?
    ensures |txs| == |keys| && forall i :: 0 <= i < |keys| ==> txs[i] == rows[keys[i]].payload.value
  {
    seq(|keys|, i requires 0 <= i < |keys| => rows[keys[i]].payload.value)
  }

  /** Settle and staff-void rows store the transaction they deliver. */
  predicate PayloadsStored(rows: map<Key, Row>) {
    forall k :: k in rows && k.kind != Debit ==> rows[k].payload.Some?
  }

  // Steps

  predicate SameIdentity(bet: Bet, group: string, userId: string, key: string) {
    bet.group == group && bet.userId == userId && bet.idempotencyKey == key
  }

  function FindBet(bets: seq<Bet>, group: string, userId: string, key: string): (r: Option<nat>)
    ensures r.Some? ==> r.value < |bets| && SameIdentity(bets[r.value], group, userId, key)
    ensures r.None? ==> forall b :: 0 <= b < |bets| ==> !SameIdentity(bets[b], group, userId, key)
  {
    if bets == [] then None
    else if SameIdentity(bets[|bets| - 1], group, userId, key) then Some(|bets| - 1)
    else FindBet(bets[..|bets| - 1], group, userId, key)
  }

  predicate NonceUsed(rows: map<Key, Row>, nonce: nat) {
    exists k :: k in rows && rows[k].code == DebitCode(nonce)
  }

  /** The first part of placing a bet: nothing happens when the identity already has a bet, when the
      slip, the balance or the currency is refused, or when the code is not unique; otherwise the
      bet and its debit row are created in one transaction. */
  ghost function DoPlace(s: State, r: Request, nonce: nat, walletUp: bool): State {
    var v := Validate(s.cat, s.cfg.limits, r.group, r.selectionIds, r.stake);
    if !(1 <= |r.selectionIds| <= MAX_LEGS)
       || FindBet(s.bets, r.group, r.userId, r.idempotencyKey).Some?
       || v.Refused? || !walletUp || r.currency != STUB_CURRENCY
       || r.stake > Shown(s.cfg.wallet, Balance(s.cfg.wallet, s.log, r.username))
       || NonceUsed(s.rows, nonce) || Key(|s.bets|, Debit) in s.rows
    then s
    else
      var bet := Bet(r.group, r.userId, r.username, r.idempotencyKey, v.quote.stake, v.quote.odds, v.quote.payout,
                     v.quote.legs, BetStatus.Pending, None);
      var key := Key(|s.bets|, Debit);
      s.(bets := s.bets + [bet],
         rows := s.rows[key := Row(r.group, DebitCode(nonce), None, None, RowStatus.Pending, 0, None)],
         created := s.created + [key])
  }

  /** A retry is scheduled when the call failed, or when it succeeded but its outcome could not be
      written; not when scheduling itself fails or the process dies. */
  predicate Retries(reply: Reply, a: Aftermath) {
    if reply == Done then a == WriteFailed else a == Written
  }

  /** The database write after a debit call: acceptance, rejection or a retry. */
  function AfterDebit(s: State, b: nat, reply: Reply, a: Aftermath): State
    requires b < |s.bets| && Key(b, Debit) in s.rows
  {
    var key := Key(b, Debit);
    if reply != Unavailable && a == Written then
      var accept := reply == Done;
      s.(bets := s.bets[b := s.bets[b].(status := if accept then BetStatus.Accepted else BetStatus.Rejected)],
         rows := s.rows[key := s.rows[key].(status := if accept then RowStatus.Completed else RowStatus.Failed)])
    else if reply != InsufficientFunds && Retries(reply, a) then
      s.(rows := s.rows[key := Rescheduled(s.rows[key], s.now)])
    else s
  }

  /** The bet is still to be debited. */
  predicate Debitable(s: State, b: nat) {
    && b < |s.bets| && s.bets[b].status !in {BetStatus.Accepted, BetStatus.Rejected}
    && Key(b, Debit) in s.rows && s.rows[Key(b, Debit)].status != RowStatus.Completed
  }

  ghost function DoDebit(s: State, b: nat, o: Outcome): State {
    if !Debitable(s, b) then s
    else
      var tx := DebitTransaction(b, s.bets[b], s.rows[Key(b, Debit)].code);
      var sent := Deliver(s.cfg.wallet, s.log, [tx], o.delivery);
      AfterDebit(s.(log := sent.log), b, sent.reply, o.aftermath)
  }

  ghost function DoSendStaffVoid(s: State, b: nat, o: Outcome): State
    requires PayloadsStored(s.rows)
  {
    var key := Key(b, StaffVoid);
    if key !in s.rows || s.rows[key].status != RowStatus.Pending || !Due(s.rows[key], s.now) then s
    else
      var row := s.rows[key];
      var sent := Deliver(s.cfg.wallet, s.log, [row.payload.value], o.delivery);
      var s1 := s.(log := sent.log);
      if sent.reply == Done && o.aftermath == Written then
        s1.(rows := s.rows[key := row.(status := RowStatus.Completed)])
      else if Retries(sent.reply, o.aftermath) then s1.(rows := s.rows[key := Rescheduled(row, s.now)])
      else s1
  }

  datatype Flushed = Flushed(state: State, sent: bool)

  /** The database write after a batch call. */
  function AfterBatch(s: State, entries: seq<Key>, batch: nat, reply: Reply, a: Aftermath): Flushed {
    if reply == Done && a == Written then Flushed(s.(rows := CompleteAll(s.rows, entries, batch)), true)
    else
      var retried := if Retries(reply, a) then entries
                     else if a.Crashed? && a.rescheduled < |entries| then entries[..a.rescheduled]
                     else [];
      Flushed(s.(rows := RescheduleAll(s.rows, retried, s.now)), false)
  }

  /** One settlement batch of one tenant: the due rows that share the batch of the oldest due row. */
  ghost function DoFlush(s: State, group: string, freshBatch: nat, o: Outcome): (f: Flushed)
    requires PayloadsStored(s.rows)
    ensures PayloadsStored(f.state.rows)
  {
    var due := DueSettles(s, group);
    if due == [] then Flushed(s, false)
    else
      assert due[0] in due;
      var anchor := s.rows[due[0]].batchId;
      var entries := BatchEntries(s, group, anchor);
      assert forall k :: k in entries ==> k in s.rows && k.kind == Settle;
      var batch := if anchor.Some? then anchor.value else freshBatch;
      var rows := if anchor.Some? then s.rows else AssignBatch(s.rows, entries, batch);
      var sent := Deliver(s.cfg.wallet, s.log, Payloads(s.rows, entries), o.delivery);
      AfterBatch(s.(log := sent.log, rows := rows), entries, batch, sent.reply, o.aftermath)
  }

  function WithOutcomes(legs: seq<Leg>, results: seq<LegResult>): (r: seq<Leg>)
    requires |results| == |legs|
    ensures |r| == |legs| && forall i :: 0 <= i < |legs| ==> r[i] == legs[i].(outcome := Some(results[i]))
  {
    seq(|legs|, i requires 0 <= i < |legs| => legs[i].(outcome := Some(results[i])))
  }

  /** Closes a bet: leg outcomes, status and payout, and the outbox row that pays it, in one
      transaction; a second row of the same type breaks uniqueness and rolls everything back. */
  function CloseBet(s: State, b: nat, results: seq<LegResult>, key: Key, code: Code, batch: Option<nat>): State
    requires b < |s.bets| && |results| == |s.bets[b].legs|
  {
    if key in s.rows then s
    else
      var bet := s.bets[b];
      var result := Aggregate(results);
      var payout := PayoutFor(bet.stake, bet.potentialPayout, result);
      s.(bets := s.bets[b := bet.(legs := WithOutcomes(bet.legs, results), status := StatusOf(result),
                                  payoutAmount := Some(payout))],
         rows := s.rows[key := Row(bet.group, code, batch, Some(SettlementTransaction(b, bet, result, payout, code)),
                                   RowStatus.Pending, 0, None)],
         created := s.created + [key])
  }

  function DoSettle(s: State, b: nat, batch: nat): State {
    if b >= |s.bets| || s.bets[b].status != BetStatus.Accepted then s
    else
      var results := GradeLegs(s.cat, s.bets[b].legs);
      if results.None? then s
      else CloseBet(s, b, results.value, Key(b, Settle), SettleCode(b, Aggregate(results.value)), Some(batch))
  }

  function AllVoid(n: nat): (r: seq<LegResult>)
    ensures |r| == n && forall i :: 0 <= i < n ==> r[i] == LegResult.Void
  {
    seq(n, i => LegResult.Void)
  }

  /** A staff void closes the bet with every leg void. */
  function DoVoid(s: State, group: string, b: nat, reasonAccepted: bool): State {
    if b >= |s.bets| || s.bets[b].group != group || s.bets[b].status != BetStatus.Accepted || !reasonAccepted
       || s.bets[b].legs == []
    then s
    else CloseBet(s, b, AllVoid(|s.bets[b].legs|), Key(b, StaffVoid), StaffVoidCode(b), None)
  }

  function DoClearBackoff(s: State, group: string): State {
    s.(rows := map k | k in s.rows ::
         if Matches(Query(Settle, Some(group), None, None), k, s.rows[k])
         then s.rows[k].(nextRetryAt := None) else s.rows[k])
  }

  ghost function Apply(s: State, step: Step): State {
    if !PayloadsStored(s.rows) then s
    else
      match step
      case Place(r, nonce, walletUp) => DoPlace(s, r, nonce, walletUp)
      case AttemptDebit(b, o) => DoDebit(s, b, o)
      case SendStaffVoid(b, o) => DoSendStaffVoid(s, b, o)
      case Flush(group, batch, o) => DoFlush(s, group, batch, o).state
      case SettleBet(b, batch) => DoSettle(s, b, batch)
      case VoidBet(group, b, ok) => DoVoid(s, group, b, ok)
      case ClearBackoff(group) => DoClearBackoff(s, group)
      case EditCatalogue(cat) => s.(cat := cat)
      case Tick(ms) => s.(now := s.now + ms)
  }

  ghost function Run(s: State, steps: seq<Step>): State {
    if steps == [] then s
    else Apply(Run(s, steps[..|steps| - 1]), steps[|steps| - 1])
  }

  /** Before the first bet: no rows, nothing posted. */
  function Start(cfg: Config, cat: Catalogue, now: int): State {
    State(cfg, cat, [], map[], [], [], now)
  }
}
