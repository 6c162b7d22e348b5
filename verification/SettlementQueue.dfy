/** Delivery of settlement batches: every flush of a tenant disposes of one batch, a failing batch
    cannot block the rest, and a staff retry delivers the tenant's batches in oldest-row order. */
module SettlementQueue {
  import opened Domain
  import opened Wallet
  import opened Ledger
  import opened LedgerSafety

  const MAX_BATCHES_PER_RETRY := 100

  function DueQuery(s: State, group: string): Query {
    Query(Settle, Some(group), Some(s.now), None)
  }

  /** Rows that are not in the given batch. */
  function Without(rows: map<Key, Row>, keys: seq<Key>, batch: Option<nat>): (rest: seq<Key>)
    requires forall k :: k in keys ==> k in rows
    ensures forall k :: k in rest <==> k in keys && rows[k].batchId != batch
    ensures |rest| <= |keys|
    ensures keys != [] && rows[keys[0]].batchId == batch ==> |rest| < |keys|
  {
    if keys == [] then []
    else
      var front, last := Without(rows, keys[..|keys| - 1], batch), keys[|keys| - 1];
      if rows[last].batchId != batch then front + [last] else front
  }

  /** The batches of these rows, in order of their oldest row. */
  function Batches(rows: map<Key, Row>, keys: seq<Key>): (order: seq<Option<nat>>)
    requires forall k :: k in keys ==> k in rows
    ensures forall b :: b in order <==> exists k :: k in keys && rows[k].batchId == b
    ensures forall i, j :: 0 <= i < j < |order| ==> order[i] != order[j]
    decreases |keys|
  {
    if keys == [] then []
    else
      var b := rows[keys[0]].batchId;
      var rest := Batches(rows, Without(rows, keys, b));
      assert b !in rest;
      [b] + rest
  }

  function BatchOrder(s: State, group: string): seq<Option<nat>> {
    Batches(s.rows, DueSettles(s, group))
  }

  lemma {:induction false} SelectAfter(rows: map<Key, Row>, after: map<Key, Row>, created: seq<Key>, q: Query, batch: Option<nat>)
    requires after.Keys == rows.Keys
    requires forall k :: k in created && k in rows ==>
               (Matches(q, k, after[k]) <==> Matches(q, k, rows[k]) && rows[k].batchId != batch)
    ensures Select(after, created, q) == Without(rows, Select(rows, created, q), batch)
  {
    hide Matches;
    if created != [] {
      var front, last := created[..|created| - 1], created[|created| - 1];
      SelectAfter(rows, after, front, q, batch);
      if last in rows && Matches(q, last, rows[last]) {
        assert (Select(rows, front, q) + [last])[..|Select(rows, front, q)|] == Select(rows, front, q);
      }
    }
  }

  lemma {:induction false} BatchesFrame(rows: map<Key, Row>, after: map<Key, Row>, keys: seq<Key>)
    requires forall k :: k in keys ==> k in rows && k in after && after[k].batchId == rows[k].batchId
    ensures Batches(after, keys) == Batches(rows, keys)
    decreases |keys|
  {
    if keys != [] {
      var b := rows[keys[0]].batchId;
      WithoutFrame(rows, after, keys, b);
      BatchesFrame(rows, after, Without(rows, keys, b));
    }
  }

  lemma {:induction false} WithoutFrame(rows: map<Key, Row>, after: map<Key, Row>, keys: seq<Key>, batch: Option<nat>)
    requires forall k :: k in keys ==> k in rows && k in after && after[k].batchId == rows[k].batchId
    ensures Without(after, keys, batch) == Without(rows, keys, batch)
  {
    if keys != [] {
      WithoutFrame(rows, after, keys[..|keys| - 1], batch);
    }
  }

  /** The wallet answers and the result is written. */
  predicate Succeeds(o: Outcome) {
    o.delivery == Answered && o.aftermath == Written
  }

  /** The result or the retry is written. */
  predicate Recorded(o: Outcome) {
    o.aftermath == Written || (o.delivery == Answered && o.aftermath == WriteFailed)
  }

  /** The backoff starts at one minute and grows by one minute per attempt up to fifteen. */
  lemma RetryDelayBounds(attempts: nat)
    ensures RetryDelayMs(0) == 60_000 && 60_000 <= RetryDelayMs(attempts) <= 900_000
    ensures RetryDelayMs(attempts + 1) == if RetryDelayMs(attempts) < 900_000 then RetryDelayMs(attempts) + 60_000 else 900_000
  {}

  /** A rescheduled row is passed over by every poll of the next minute and is due again to every poll
      from fifteen minutes on; only the attempt count and the retry time change. */
  lemma RescheduledComesBack(row: Row, now: int, later: int)
    ensures var r := Rescheduled(row, now);
            && (later < now + 60_000 ==> !Due(r, later)) && (later >= now + 900_000 ==> Due(r, later))
            && r.attempts == row.attempts + 1 && r.(attempts := row.attempts, nextRetryAt := row.nextRetryAt) == row
  {}

  // Oldest, by position in the order of creation

  /** A pending settlement row of the tenant. */
  predicate IsPending(s: State, group: string, k: Key) {
    k in s.created && k in s.rows && k.kind == Settle && s.rows[k].status == RowStatus.Pending && s.rows[k].group == group
  }

  /** One that no retry time holds back. */
  predicate IsDue(s: State, group: string, k: Key) {
    IsPending(s, group, k) && (s.rows[k].nextRetryAt == None || s.rows[k].nextRetryAt.value <= s.now)
  }

  /** The i-th row created is due, and no row created before it is. */
  predicate FirstDue(s: State, group: string, i: nat) {
    i < |s.created| && IsDue(s, group, s.created[i]) && forall j :: 0 <= j < i ==> !IsDue(s, group, s.created[j])
  }

  /** The due rows that share the batch of the one that was created first. */
  ghost predicate InOldestBatch(s: State, group: string, k: Key) {
    IsDue(s, group, k) && exists i: nat :: FirstDue(s, group, i) && s.rows[s.created[i]].batchId == s.rows[k].batchId
  }

  /** The first row selected is the first one created that matches. */
  lemma {:induction false} SelectHead(rows: map<Key, Row>, created: seq<Key>, q: Query) returns (i: nat)
    requires Select(rows, created, q) != []
    ensures i < |created| && created[i] == Select(rows, created, q)[0]
    ensures forall j :: 0 <= j < i ==> !(created[j] in rows && Matches(q, created[j], rows[created[j]]))
  {
    hide Matches;
    var front, last := created[..|created| - 1], created[|created| - 1];
    if Select(rows, front, q) != [] {
      i := SelectHead(rows, front, q);
    } else {
      i := |created| - 1;
      forall j | 0 <= j < i ensures !(created[j] in rows && Matches(q, created[j], rows[created[j]])) {
        assert front[j] in front;
      }
    }
  }

  lemma DueMeans(s: State, group: string, k: Key)
    ensures k in DueSettles(s, group) <==> IsDue(s, group, k)
  {}

  /** The oldest batch is that of the head of the due queue. */
  lemma HeadIsOldest(s: State, group: string)
    requires DueSettles(s, group) != []
    ensures forall k :: InOldestBatch(s, group, k)
                        <==> k in DueSettles(s, group) && s.rows[k].batchId == s.rows[DueSettles(s, group)[0]].batchId
  {
    var due := DueSettles(s, group);
    var i := SelectHead(s.rows, s.created, DueQuery(s, group));
    assert due[0] in due;
    forall k ensures k in due <==> IsDue(s, group, k) {
      DueMeans(s, group, k);
    }
    forall j | 0 <= j < i ensures !IsDue(s, group, s.created[j]) {
      assert !(s.created[j] in s.rows && Matches(DueQuery(s, group), s.created[j], s.rows[s.created[j]]));
    }
    hide Select, DueSettles, IsDue, Matches;
    assert FirstDue(s, group, i);
    forall j: nat | FirstDue(s, group, j) ensures j == i {}
  }

  /** A delivered row is completed; an undelivered one waits a minute per attempt made, at most fifteen. */
  predicate RowDone(before: Row, row: Row, sent: bool, now: int) {
    && row.code == before.code && row.payload == before.payload
    && if sent then row.status == RowStatus.Completed && row.batchId.Some?
       else
         && row.status == RowStatus.Pending && row.attempts == before.attempts + 1
         && row.nextRetryAt == Some(now + if row.attempts <= 15 then 60_000 * row.attempts else 900_000)
  }

  /** One batch is disposed of and no other row changes. */
  ghost predicate Disposes(s: State, t: State, group: string, sent: bool) {
    && t.now == s.now && t.created == s.created && t.rows.Keys == s.rows.Keys
    && forall k :: k in s.rows ==>
         if InOldestBatch(s, group, k) then RowDone(s.rows[k], t.rows[k], sent, s.now) else t.rows[k] == s.rows[k]
  }

  /** A flush whose result is recorded disposes of the oldest batch, and sends it exactly when the
      wallet answers and the write succeeds: a batch of payouts is never refused. */
  lemma FlushDisposes(s: State, group: string, freshBatch: nat, o: Outcome)
    requires Inv(s) && DueSettles(s, group) != [] && Recorded(o)
    ensures var f := DoFlush(s, group, freshBatch, o);
            f.sent == Succeeds(o) && Disposes(s, f.state, group, f.sent)
  {
    hide Inv, Deliver, Select, AfterBatch, DoFlush, InOldestBatch, RowDone, AssignBatch;
    OldestBatchAnswer(s, group, o.delivery);
    EntriesAreOldestBatch(s, group);
    FlushIsAfterBatch(s, group, freshBatch, o);
    var batch := s.rows[DueSettles(s, group)[0]].batchId;
    var entries := BatchEntries(s, group, batch);
    var id := if batch.Some? then batch.value else freshBatch;
    var sent := Deliver(s.cfg.wallet, s.log, Payloads(s.rows, entries), o.delivery);
    var s1 := s.(log := sent.log, rows := if batch.Some? then s.rows else AssignBatch(s.rows, entries, id));
    AssignedRows(s.rows, entries, id);
    AfterBatchRows(s1, entries, id, sent.reply, o.aftermath);
    var f := DoFlush(s, group, freshBatch, o);
    forall k | k in s.rows && k in entries ensures RowDone(s.rows[k], f.state.rows[k], f.sent, s.now) {
      assert s1.rows[k] == s.rows[k] || s1.rows[k] == s.rows[k].(batchId := Some(id));
      DoneAssigned(s.rows[k], id, f.state.rows[k], f.sent, s.now);
    }
  }

  lemma DoneAssigned(before: Row, batch: nat, row: Row, sent: bool, now: int)
    ensures RowDone(before.(batchId := Some(batch)), row, sent, now) <==> RowDone(before, row, sent, now)
  {}

  lemma OldestBatchAnswer(s: State, group: string, d: Delivery)
    requires Inv(s) && DueSettles(s, group) != []
    ensures PayloadsStored(s.rows)
    ensures var entries := BatchEntries(s, group, s.rows[DueSettles(s, group)[0]].batchId);
            Deliver(s.cfg.wallet, s.log, Payloads(s.rows, entries), d).reply == if d == Answered then Done else Unavailable
  {
    assert PayloadsStored(s.rows);
    hide Inv, Deliver, Select;
    var batch := s.rows[DueSettles(s, group)[0]].batchId;
    SelectedPayable(s, Query(Settle, Some(group), Some(s.now), Some(batch)));
    DeliverKeepsInv(s, BatchEntries(s, group, batch), d);
    DeliverReply(s, BatchEntries(s, group, batch), d);
  }

  lemma AssignedRows(rows: map<Key, Row>, keys: seq<Key>, batch: nat)
    ensures AssignBatch(rows, keys, batch).Keys == rows.Keys
    ensures forall k :: k in rows ==>
              if k in keys then AssignBatch(rows, keys, batch)[k] == rows[k].(batchId := Some(batch))
              else AssignBatch(rows, keys, batch)[k] == rows[k]
  {}

  lemma EntriesAreOldestBatch(s: State, group: string)
    requires DueSettles(s, group) != []
    ensures var entries := BatchEntries(s, group, s.rows[DueSettles(s, group)[0]].batchId);
            forall k :: (k in entries <==> InOldestBatch(s, group, k))
                        && (k in entries ==> k in s.rows && s.rows[k].status == RowStatus.Pending)
  {
    HeadIsOldest(s, group);
    hide InOldestBatch, IsDue;
  }

  lemma FlushIsAfterBatch(s: State, group: string, freshBatch: nat, o: Outcome)
    requires PayloadsStored(s.rows) && DueSettles(s, group) != []
    ensures var batch := s.rows[DueSettles(s, group)[0]].batchId;
            var entries := BatchEntries(s, group, batch);
            var id := if batch.Some? then batch.value else freshBatch;
            var rows := if batch.Some? then s.rows else AssignBatch(s.rows, entries, id);
            var sent := Deliver(s.cfg.wallet, s.log, Payloads(s.rows, entries), o.delivery);
            DoFlush(s, group, freshBatch, o) == AfterBatch(s.(log := sent.log, rows := rows), entries, id, sent.reply, o.aftermath)
  {
    hide Select, Deliver, AfterBatch, AssignBatch;
  }

  lemma DeliverReply(s: State, keys: seq<Key>, d: Delivery)
    requires Payable(s, keys)
    requires Deliver(s.cfg.wallet, s.log, Payloads(s.rows, keys), d).reply != InsufficientFunds
    ensures Deliver(s.cfg.wallet, s.log, Payloads(s.rows, keys), d).reply == if d == Answered then Done else Unavailable
  {}

  lemma AfterBatchRows(s: State, entries: seq<Key>, batch: nat, reply: Reply, a: Aftermath)
    requires a == Written || (reply == Done && a == WriteFailed)
    requires forall k :: k in entries ==> k in s.rows && s.rows[k].status == RowStatus.Pending
    ensures var f := AfterBatch(s, entries, batch, reply, a);
            && f.sent == (reply == Done && a == Written) && f.state == s.(rows := f.state.rows)
            && f.state.rows.Keys == s.rows.Keys
            && forall k :: k in s.rows ==>
                 if k in entries then RowDone(s.rows[k], f.state.rows[k], f.sent, s.now) else f.state.rows[k] == s.rows[k]
  {}

  lemma QueueAdvances(rows: map<Key, Row>, after: map<Key, Row>, created: seq<Key>, q: Query)
    requires Select(rows, created, q) != [] && after.Keys == rows.Keys && q.batch.None?
    requires var due := Select(rows, created, q);
             forall k :: k in rows ==>
               if k in due && rows[k].batchId == rows[due[0]].batchId then !Matches(q, k, after[k]) else after[k] == rows[k]
    ensures var due := Select(rows, created, q); var rest := Without(rows, due, rows[due[0]].batchId);
            && Select(after, created, q) == rest
            && Batches(after, rest) == Batches(rows, due)[1..]
  {
    hide Matches;
    var due := Select(rows, created, q);
    var batch := rows[due[0]].batchId;
    forall k | k in created && k in rows
      ensures Matches(q, k, after[k]) <==> Matches(q, k, rows[k]) && rows[k].batchId != batch
    {
      assert k in due <==> Matches(q, k, rows[k]);
    }
    SelectAfter(rows, after, created, q, batch);
    hide Select;
    BatchesFrame(rows, after, Without(rows, due, batch));
  }

  lemma NotDueWhenDone(s: State, t: State, group: string, sent: bool)
    requires Disposes(s, t, group, sent)
    ensures forall k :: k in s.rows && InOldestBatch(s, group, k) ==> !Matches(DueQuery(s, group), k, t.rows[k])
  {
    hide InOldestBatch;
  }

  /** A recorded flush takes exactly the oldest batch off the due queue. */
  lemma FlushAdvances(s: State, t: State, group: string, sent: bool)
    requires DueSettles(s, group) != [] && Disposes(s, t, group, sent)
    ensures && BatchOrder(t, group) == BatchOrder(s, group)[1..]
            && DueSettles(t, group) == Without(s.rows, DueSettles(s, group), s.rows[DueSettles(s, group)[0]].batchId)
            && |DueSettles(t, group)| < |DueSettles(s, group)|
  {
    HeadIsOldest(s, group);
    NotDueWhenDone(s, t, group, sent);
    hide Select, Batches, Without, InOldestBatch, RowDone;
    var q := DueQuery(s, group);
    QueueAdvances(s.rows, t.rows, s.created, q);
  }

  /** One call of the flush: the batch id it would mint and how the wallet call fares. */
  datatype Call = Call(freshBatch: nat, outcome: Outcome)

  predicate AllRecorded(calls: seq<Call>) {
    calls == [] || (Recorded(calls[0].outcome) && AllRecorded(calls[1..]))
  }

  /** Repeated flushes of one tenant at a fixed time. */
  ghost function FlushTimes(s: State, group: string, calls: seq<Call>): (t: State)
    requires PayloadsStored(s.rows)
    decreases |calls|
  {
    if calls == [] then s
    else FlushTimes(DoFlush(s, group, calls[0].freshBatch, calls[0].outcome).state, group, calls[1..])
  }

  lemma FlushIdle(s: State, group: string, freshBatch: nat, o: Outcome)
    requires PayloadsStored(s.rows) && DueSettles(s, group) == []
    ensures DoFlush(s, group, freshBatch, o) == Flushed(s, false)
  {}

  function Tail(order: seq<Option<nat>>, n: nat): seq<Option<nat>> {
    if n <= |order| then order[n..] else []
  }

  lemma FlushStep(s: State, group: string, freshBatch: nat, o: Outcome)
    requires Inv(s) && Recorded(o)
    ensures PayloadsStored(s.rows)
    ensures var t := DoFlush(s, group, freshBatch, o).state;
            Inv(t) && BatchOrder(t, group) == Tail(BatchOrder(s, group), 1)
  {
    assert PayloadsStored(s.rows);
    FlushKeepsInv(s, group, freshBatch, o);
    if DueSettles(s, group) == [] {
      FlushIdle(s, group, freshBatch, o);
    } else {
      FlushDisposes(s, group, freshBatch, o);
      hide Inv, DoFlush, Disposes, Select, Batches;
      FlushAdvances(s, DoFlush(s, group, freshBatch, o).state, group, Succeeds(o));
    }
  }

  /** Progress: whatever mixture of successes and recorded failures the calls meet, each one takes
      one batch off the due queue, so as many calls as there are due batches leave nothing due. */
  lemma {:induction false} FlushesDrain(s: State, group: string, calls: seq<Call>)
    requires Inv(s) && AllRecorded(calls)
    ensures PayloadsStored(s.rows) && Inv(FlushTimes(s, group, calls))
    ensures BatchOrder(FlushTimes(s, group, calls), group) == Tail(BatchOrder(s, group), |calls|)
    ensures |calls| >= |BatchOrder(s, group)| ==> DueSettles(FlushTimes(s, group, calls), group) == []
    decreases |calls|
  {
    assert PayloadsStored(s.rows);
    hide Inv, DoFlush, Recorded, DueSettles, BatchOrder, PayloadsStored;
    if calls != [] {
      FlushStep(s, group, calls[0].freshBatch, calls[0].outcome);
      FlushesDrain(DoFlush(s, group, calls[0].freshBatch, calls[0].outcome).state, group, calls[1..]);
      assert Tail(Tail(BatchOrder(s, group), 1), |calls| - 1) == Tail(BatchOrder(s, group), |calls|);
    }
    EmptyQueue(FlushTimes(s, group, calls), group);
  }

  lemma EmptyQueue(s: State, group: string)
    ensures BatchOrder(s, group) == [] <==> DueSettles(s, group) == []
  {}

  datatype Looped = Looped(state: State, sent: nat)

  /** The tenant flush loop: it stops at the first flush that sends nothing, or when its calls are
      used up (it is given 100). */
  ghost function FlushLoop(s: State, group: string, calls: seq<Call>): Looped
    requires PayloadsStored(s.rows)
    decreases |calls|
  {
    if calls == [] then Looped(s, 0)
    else
      var f := DoFlush(s, group, calls[0].freshBatch, calls[0].outcome);
      if !f.sent then Looped(f.state, 0)
      else
        var r := FlushLoop(f.state, group, calls[1..]);
        Looped(r.state, r.sent + 1)
  }

  /** Number of leading successes. */
  function Leading(calls: seq<Call>): (r: nat)
    ensures r <= |calls|
  {
    if calls == [] || !Succeeds(calls[0].outcome) then 0 else 1 + Leading(calls[1..])
  }

  function Min(a: nat, b: nat): nat {
    if a < b then a else b
  }

  /** `n` batches were sent, in queue order: the due rows that are completed are exactly those of
      these batches, and rows outside the due queue are untouched. */
  ghost predicate Sent(s: State, t: State, group: string, n: nat) {
    && n <= |BatchOrder(s, group)| && t.rows.Keys == s.rows.Keys
    && (forall k :: k in s.rows && k !in DueSettles(s, group) ==> t.rows[k] == s.rows[k])
    && (forall k :: k in DueSettles(s, group) ==>
          (t.rows[k].status == RowStatus.Completed <==> s.rows[k].batchId in BatchOrder(s, group)[..n]))
  }

  /** A flush that is not recorded sends nothing and completes nothing: some of the oldest batch's rows
      may have been given their batch id or a retry time, and no other row changes. */
  lemma UnrecordedSendsNothing(s: State, group: string, freshBatch: nat, o: Outcome)
    requires PayloadsStored(s.rows) && DueSettles(s, group) != [] && !Recorded(o)
    ensures var f := DoFlush(s, group, freshBatch, o); !f.sent && Sent(s, f.state, group, 0)
  {
    hide Deliver, Select, InOldestBatch, AfterBatch, AssignBatch, DoFlush;
    EntriesAreOldestBatch(s, group);
    FlushIsAfterBatch(s, group, freshBatch, o);
    var batch := s.rows[DueSettles(s, group)[0]].batchId;
    var entries := BatchEntries(s, group, batch);
    var id := if batch.Some? then batch.value else freshBatch;
    var sent := Deliver(s.cfg.wallet, s.log, Payloads(s.rows, entries), o.delivery);
    var s1 := s.(log := sent.log, rows := if batch.Some? then s.rows else AssignBatch(s.rows, entries, id));
    AssignedRows(s.rows, entries, id);
    AnswerOf(s, Payloads(s.rows, entries), o.delivery);
    UnrecordedRows(s1, entries, id, sent.reply, o.aftermath);
    AllPending(s, group);
    InOldestIsDue(s, group);
  }

  lemma AnswerOf(s: State, txs: seq<Transaction>, d: Delivery)
    ensures d.Lost? ==> Deliver(s.cfg.wallet, s.log, txs, d).reply == Unavailable
  {}

  lemma AllPending(s: State, group: string)
    ensures forall k :: k in DueSettles(s, group) ==> k in s.rows && s.rows[k].status == RowStatus.Pending
  {
    assert forall k :: k in DueSettles(s, group) ==> Matches(DueQuery(s, group), k, s.rows[k]);
  }

  lemma InOldestIsDue(s: State, group: string)
    ensures forall k :: InOldestBatch(s, group, k) ==> k in DueSettles(s, group)
  {
    forall k | InOldestBatch(s, group, k) ensures k in DueSettles(s, group) {
      DueMeans(s, group, k);
    }
  }

  lemma UnrecordedRows(s: State, entries: seq<Key>, batch: nat, reply: Reply, a: Aftermath)
    requires a != Written && (a == WriteFailed ==> reply != Done)
    ensures var f := AfterBatch(s, entries, batch, reply, a);
            && !f.sent && f.state.rows.Keys == s.rows.Keys
            && forall k :: k in s.rows ==>
                 f.state.rows[k].status == s.rows[k].status && (k !in entries ==> f.state.rows[k] == s.rows[k])
  {}

  /** One iteration. */
  lemma HeadCall(s: State, group: string, c: Call)
    requires Inv(s)
    ensures PayloadsStored(s.rows)
    ensures var f := DoFlush(s, group, c.freshBatch, c.outcome);
            && Inv(f.state)
            && f.sent == (BatchOrder(s, group) != [] && Succeeds(c.outcome))
            && (f.sent ==> |BatchOrder(f.state, group)| == |BatchOrder(s, group)| - 1
                           && DueSettles(s, group) != [] && Disposes(s, f.state, group, true))
            && (!f.sent ==> Sent(s, f.state, group, 0))
  {
    assert PayloadsStored(s.rows);
    FlushKeepsInv(s, group, c.freshBatch, c.outcome);
    SuccessIsRecorded(c.outcome);
    hide Inv, DoFlush, Recorded, Succeeds, Select, Batches, BatchOrder, Sent, Disposes, PayloadsStored;
    EmptyQueue(s, group);
    if DueSettles(s, group) == [] {
      FlushIdle(s, group, c.freshBatch, c.outcome);
      NothingSent(s, group);
    } else if !Recorded(c.outcome) {
      UnrecordedSendsNothing(s, group, c.freshBatch, c.outcome);
    } else {
      FlushStep(s, group, c.freshBatch, c.outcome);
      FlushDisposes(s, group, c.freshBatch, c.outcome);
      if !Succeeds(c.outcome) {
        NoneSent(s, DoFlush(s, group, c.freshBatch, c.outcome).state, group);
      }
    }
  }

  lemma SuccessIsRecorded(o: Outcome)
    ensures Succeeds(o) ==> Recorded(o)
  {}

  /** What a run of the loop sends: one batch per leading success, as long as there are batches. */
  ghost predicate LoopSends(s: State, group: string, calls: seq<Call>, r: Looped) {
    r.sent == Min(Leading(calls), |BatchOrder(s, group)|) && Sent(s, r.state, group, r.sent)
  }

  lemma LoopEnds(s: State, f: Flushed, group: string, calls: seq<Call>)
    requires calls == [] ==> f == Flushed(s, false)
    requires calls != [] ==> f.sent == (BatchOrder(s, group) != [] && Succeeds(calls[0].outcome))
    requires !f.sent && Sent(s, f.state, group, 0)
    ensures LoopSends(s, group, calls, Looped(f.state, 0))
  {
    hide Succeeds, BatchOrder, Sent;
  }

  lemma LoopGoesOn(s: State, mid: State, group: string, calls: seq<Call>, r: Looped)
    requires calls != [] && Succeeds(calls[0].outcome) && DueSettles(s, group) != [] && Disposes(s, mid, group, true)
    requires |BatchOrder(s, group)| == |BatchOrder(mid, group)| + 1
    requires LoopSends(mid, group, calls[1..], r)
    ensures LoopSends(s, group, calls, Looped(r.state, r.sent + 1))
  {
    hide Succeeds, BatchOrder, Sent, Disposes, DueSettles;
    SentAfterOne(s, mid, r.state, group, r.sent);
  }

  lemma LoopUnfolds(s: State, group: string, calls: seq<Call>)
    requires PayloadsStored(s.rows)
    ensures FlushLoop(s, group, calls) ==
            if calls == [] then Looped(s, 0)
            else
              var f := DoFlush(s, group, calls[0].freshBatch, calls[0].outcome);
              if f.sent then
                var r := FlushLoop(f.state, group, calls[1..]); Looped(r.state, r.sent + 1)
              else Looped(f.state, 0)
  {
    hide DoFlush, PayloadsStored;
  }

  lemma {:induction false} LoopDelivers(s: State, group: string, calls: seq<Call>)
    requires Inv(s)
    ensures PayloadsStored(s.rows) && LoopSends(s, group, calls, FlushLoop(s, group, calls))
    decreases |calls|
  {
    assert PayloadsStored(s.rows);
    LoopUnfolds(s, group, calls);
    hide Inv, DoFlush, Recorded, Succeeds, DueSettles, BatchOrder, Sent, Disposes, PayloadsStored, LoopSends,
         FlushLoop;
    if calls == [] {
      NothingSent(s, group);
      LoopEnds(s, Flushed(s, false), group, calls);
    } else {
      HeadCall(s, group, calls[0]);
      var f := DoFlush(s, group, calls[0].freshBatch, calls[0].outcome);
      if f.sent {
        LoopDelivers(f.state, group, calls[1..]);
        var r := FlushLoop(f.state, group, calls[1..]);
        assert FlushLoop(s, group, calls) == Looped(r.state, r.sent + 1);
        LoopGoesOn(s, f.state, group, calls, r);
      } else {
        assert FlushLoop(s, group, calls) == Looped(f.state, 0);
        LoopEnds(s, f, group, calls);
      }
    }
  }

  lemma NothingSent(s: State, group: string)
    requires PayloadsStored(s.rows)
    ensures Sent(s, s, group, 0)
  {
    assert forall k :: k in DueSettles(s, group) ==> Matches(DueQuery(s, group), k, s.rows[k]);
  }

  lemma NoneSent(s: State, t: State, group: string)
    requires DueSettles(s, group) != [] && Disposes(s, t, group, false)
    ensures Sent(s, t, group, 0)
  {
    assert forall k :: k in DueSettles(s, group) ==> Matches(DueQuery(s, group), k, s.rows[k]);
    InOldestIsDue(s, group);
    hide Select, Batches, InOldestBatch;
  }

  lemma SentAfterOne(s: State, mid: State, t: State, group: string, n: nat)
    requires DueSettles(s, group) != [] && Disposes(s, mid, group, true) && Sent(mid, t, group, n)
    ensures Sent(s, t, group, n + 1)
  {
    hide *;
    AfterOne(s, mid, group);
    SentGives(mid, t, group, n);
    var order, due, rest := BatchOrder(s, group), DueSettles(s, group), DueSettles(mid, group);
    OneMoreSent(s.rows, mid.rows, t.rows, due, rest, order, n);
    SentMeans(s, t, group, n + 1);
  }

  lemma SentGives(s: State, t: State, group: string, n: nat)
    requires Sent(s, t, group, n)
    ensures n <= |BatchOrder(s, group)| && t.rows.Keys == s.rows.Keys && forall k :: k in DueSettles(s, group) ==> k in s.rows
    ensures forall k :: k in s.rows && k !in DueSettles(s, group) ==> t.rows[k] == s.rows[k]
    ensures forall k :: k in DueSettles(s, group) ==> (t.rows[k].status == RowStatus.Completed <==> s.rows[k].batchId in BatchOrder(s, group)[..n])
  {
    DueRows(s, group);
    hide DueSettles, BatchOrder;
  }

  lemma SentMeans(s: State, t: State, group: string, n: nat)
    requires forall k :: k in DueSettles(s, group) ==> k in s.rows
    requires n <= |BatchOrder(s, group)| && t.rows.Keys == s.rows.Keys
    requires forall k :: k in s.rows && k !in DueSettles(s, group) ==> t.rows[k] == s.rows[k]
    requires forall k :: k in DueSettles(s, group) ==> (t.rows[k].status == RowStatus.Completed <==> s.rows[k].batchId in BatchOrder(s, group)[..n])
    ensures Sent(s, t, group, n)
  {
    hide DueSettles, BatchOrder;
  }

  lemma OneMoreSent(rows: map<Key, Row>, mid: map<Key, Row>, after: map<Key, Row>, due: seq<Key>, rest: seq<Key>,
                    order: seq<Option<nat>>, n: nat)
    requires n < |order| && mid.Keys == rows.Keys == after.Keys && forall k :: k in due ==> k in rows
    requires forall k :: k in rest <==> k in due && rows[k].batchId != order[0]
    requires forall k :: k in rows ==>
               if k in due && rows[k].batchId == order[0] then mid[k].status == RowStatus.Completed else mid[k] == rows[k]
    requires forall k :: k in rows && k !in rest ==> after[k] == mid[k]
    requires forall k :: k in rest ==> (after[k].status == RowStatus.Completed <==> mid[k].batchId in order[1..][..n])
    ensures forall k :: k in rows && k !in due ==> after[k] == rows[k]
    ensures forall k :: k in due ==> (after[k].status == RowStatus.Completed <==> rows[k].batchId in order[..n + 1])
  {
    assert order[..n + 1] == [order[0]] + order[1..][..n];
  }

  lemma DueRows(s: State, group: string)
    ensures forall k :: k in DueSettles(s, group) ==> k in s.rows
  {}

  /** One batch sent: its rows are completed and off the queue, and no other row has changed. */
  lemma AfterOne(s: State, mid: State, group: string)
    requires DueSettles(s, group) != [] && Disposes(s, mid, group, true)
    ensures BatchOrder(s, group) != [] && BatchOrder(mid, group) == BatchOrder(s, group)[1..] && mid.rows.Keys == s.rows.Keys
    ensures forall k :: k in DueSettles(s, group) ==> k in s.rows
    ensures forall k :: k in DueSettles(mid, group) <==> k in DueSettles(s, group) && s.rows[k].batchId != BatchOrder(s, group)[0]
    ensures forall k :: k in s.rows ==>
              if k in DueSettles(s, group) && s.rows[k].batchId == BatchOrder(s, group)[0] then mid.rows[k].status == RowStatus.Completed
              else mid.rows[k] == s.rows[k]
  {
    HeadIsOldest(s, group);
    FlushAdvances(s, mid, group, true);
    FirstBatch(s.rows, DueSettles(s, group)) by { DueRows(s, group); }
    CompletedNow(s, mid, group);
    DueRows(s, group);
    hide Select, Batches, Without, InOldestBatch, RowDone;
  }

  lemma CompletedNow(s: State, t: State, group: string)
    requires Disposes(s, t, group, true)
    ensures forall k :: k in s.rows && InOldestBatch(s, group, k) ==> t.rows[k].status == RowStatus.Completed
  {
    hide InOldestBatch;
  }

  lemma FirstBatch(rows: map<Key, Row>, keys: seq<Key>)
    requires keys != [] && forall k :: k in keys ==> k in rows
    ensures Batches(rows, keys) != [] && Batches(rows, keys)[0] == rows[keys[0]].batchId
  {}

  // Staff retry

  /** The tenant's pending settlement rows, due or not, oldest first. */
  function PendingSettles(s: State, group: string): seq<Key> {
    Select(s.rows, s.created, Query(Settle, Some(group), None, None))
  }

  lemma {:induction false} SelectFrame(rows: map<Key, Row>, after: map<Key, Row>, created: seq<Key>, q1: Query, q2: Query)
    requires rows.Keys == after.Keys
    requires forall k :: k in created && k in rows ==> (Matches(q1, k, rows[k]) <==> Matches(q2, k, after[k]))
    ensures Select(rows, created, q1) == Select(after, created, q2)
  {
    hide Matches;
    if created != [] {
      SelectFrame(rows, after, created[..|created| - 1], q1, q2);
    }
  }

  /** Clearing the backoff makes every pending row of the tenant due, and changes nothing else. */
  lemma ClearBackoffMakesDue(s: State, group: string)
    ensures var t := DoClearBackoff(s, group);
            && DueSettles(t, group) == PendingSettles(s, group) && t.rows.Keys == s.rows.Keys
            && BatchOrder(t, group) == Batches(s.rows, PendingSettles(s, group))
            && (forall k :: k in s.rows && k !in PendingSettles(s, group) && k in s.created ==> t.rows[k] == s.rows[k])
            && (forall k :: k in PendingSettles(s, group) ==> k in s.rows && t.rows[k] == s.rows[k].(nextRetryAt := None))
            && (forall k :: k in s.rows ==> t.rows[k].batchId == s.rows[k].batchId)
  {
    var t := DoClearBackoff(s, group);
    SelectFrame(s.rows, t.rows, s.created, Query(Settle, Some(group), None, None), DueQuery(t, group));
    hide Select;
    BatchesFrame(s.rows, t.rows, PendingSettles(s, group));
  }

  lemma {:induction false} DistinctCount(order: seq<Option<nat>>)
    requires forall i, j :: 0 <= i < j < |order| ==> order[i] != order[j]
    ensures |set b | b in order| == |order|
  {
    if order != [] {
      var front, last := order[..|order| - 1], order[|order| - 1];
      DistinctCount(front);
      assert (set b | b in order) == (set b | b in front) + {last};
    }
  }

  /** The outcome of a staff retry: `order` lists the distinct batch ids of the tenant's pending
      rows by oldest row; the first `sent` of them were sent; the pending rows that end up completed
      are exactly those of the batches sent; every other row of every tenant keeps its contents. */
  ghost predicate Retried(s: State, t: State, pending: seq<Key>, order: seq<Option<nat>>, sent: nat)
    requires forall k :: k in pending ==> k in s.rows
  {
    && t.rows.Keys == s.rows.Keys && sent <= |order|
    && |order| == |set k | k in pending :: s.rows[k].batchId|
    && forall k :: k in s.rows ==>
         if k in pending then t.rows[k].status == RowStatus.Completed <==> s.rows[k].batchId in order[..sent]
         else t.rows[k] == s.rows[k]
  }

  /** A staff retry clears the tenant's backoff and runs the flush loop with its 100 calls. It sends
      as many batches as there are leading successes, at most as many as there are distinct batch ids
      among the tenant's pending rows, in order of their oldest row. */
  lemma StaffRetryDelivers(s: State, group: string, calls: seq<Call>)
    requires Inv(s) && |calls| == MAX_BATCHES_PER_RETRY
    ensures PayloadsStored(DoClearBackoff(s, group).rows)
    ensures var r := FlushLoop(DoClearBackoff(s, group), group, calls);
            var order := Batches(s.rows, PendingSettles(s, group));
            && r.sent == Min(Leading(calls), |order|)
            && Retried(s, r.state, PendingSettles(s, group), order, r.sent)
  {
    var t := DoClearBackoff(s, group);
    assert forall k :: k in s.rows ==> k in s.created;
    ClearBackoffKeepsInv(s, group);
    ClearBackoffMakesDue(s, group);
    LoopDelivers(t, group, calls);
    RetriedFromSent(s, t, FlushLoop(t, group, calls), group) by { hide Inv, FlushLoop, Select, Matches, Batches; }
  }

  lemma RetriedFromSent(s: State, t: State, r: Looped, group: string)
    requires t.rows.Keys == s.rows.Keys && DueSettles(t, group) == PendingSettles(s, group)
    requires BatchOrder(t, group) == Batches(s.rows, PendingSettles(s, group))
    requires forall k :: k in s.rows && k !in PendingSettles(s, group) ==> t.rows[k] == s.rows[k]
    requires forall k :: k in s.rows ==> t.rows[k].batchId == s.rows[k].batchId
    requires Sent(t, r.state, group, r.sent)
    ensures Retried(s, r.state, PendingSettles(s, group), Batches(s.rows, PendingSettles(s, group)), r.sent)
  {
    assert forall k :: k in PendingSettles(s, group) ==> k in s.rows;
    hide Select, DueSettles, PendingSettles, Batches, BatchOrder;
    BatchCount(s.rows, PendingSettles(s, group));
  }

  lemma BatchCount(rows: map<Key, Row>, keys: seq<Key>)
    requires forall k :: k in keys ==> k in rows
    ensures |Batches(rows, keys)| == |set k | k in keys :: rows[k].batchId|
  {
    var order := Batches(rows, keys);
    DistinctCount(order);
    assert (set b | b in order) == (set k | k in keys :: rows[k].batchId);
  }

  /** Against a wallet that accepts everything the retry sends min(100, number of distinct batch ids)
      batches, so with at most 100 of them no row of the tenant stays pending. */
  lemma StaffRetryDrains(s: State, group: string, calls: seq<Call>)
    requires Inv(s) && |calls| == MAX_BATCHES_PER_RETRY
    requires forall i :: 0 <= i < |calls| ==> Succeeds(calls[i].outcome)
    ensures PayloadsStored(DoClearBackoff(s, group).rows)
    ensures var r := FlushLoop(DoClearBackoff(s, group), group, calls);
            var order := Batches(s.rows, PendingSettles(s, group));
            && r.sent == Min(MAX_BATCHES_PER_RETRY, |order|)
            && (|order| <= MAX_BATCHES_PER_RETRY ==>
                  forall k :: k in PendingSettles(s, group) ==> k in r.state.rows && r.state.rows[k].status == RowStatus.Completed)
  {
    var order := Batches(s.rows, PendingSettles(s, group));
    hide *;
    AllLead(calls);
    StaffRetryDelivers(s, group, calls);
    var sent := FlushLoop(DoClearBackoff(s, group), group, calls).sent;
    MinOf(Leading(calls), |order|);
    MinOf(MAX_BATCHES_PER_RETRY, |order|);
    if sent == |order| {
      AllSent(s, FlushLoop(DoClearBackoff(s, group), group, calls).state, group);
    }
  }

  lemma MinOf(a: nat, b: nat)
    ensures Min(a, b) == if a < b then a else b
  {}

  lemma AllSent(s: State, t: State, group: string)
    requires Retried(s, t, PendingSettles(s, group), Batches(s.rows, PendingSettles(s, group)), |Batches(s.rows, PendingSettles(s, group))|)
    ensures forall k :: k in PendingSettles(s, group) ==> k in t.rows && t.rows[k].status == RowStatus.Completed
  {
    var order := Batches(s.rows, PendingSettles(s, group));
    assert order[..|order|] == order;
    hide PendingSettles, Batches;
  }

  lemma {:induction false} AllLead(calls: seq<Call>)
    requires forall i :: 0 <= i < |calls| ==> Succeeds(calls[i].outcome)
    ensures Leading(calls) == |calls|
  {
    if calls != [] {
      AllLead(calls[1..]);
    }
  }
}
