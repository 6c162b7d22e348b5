/** The services as they run: classes over one database and one wallet, whose methods update both in
    place. Each method is proved to have exactly the effect of the corresponding step, or sequence
    of steps, of the ledger machine; the lemmas named IsRun say so for the longer ones, so the theorems
    about runs apply to all of them. */
module Services {
  import opened Domain
  import opened Text
  import opened Wallet
  import opened Grading
  import opened BetValidation
  import opened Ledger
  import opened LedgerSafety
  import opened SettlementQueue

  const DEBIT_BATCH_LIMIT: nat := 20
  const SETTLE_BATCH_SIZE := 50

  /** The tables the services share, and the clock. */
  class Database {
    const limits: Limits
    var cat: Catalogue
    var bets: seq<Bet>
    var rows: map<Key, Row>
    var created: seq<Key>
    var now: int

    constructor (limits: Limits, cat: Catalogue, now: int)
      ensures this.limits == limits && this.cat == cat && this.now == now && bets == [] && rows == map[] && created == []
    {
      this.limits, this.cat, this.now := limits, cat, now;
      bets, rows, created := [], map[], [];
    }

    /** The transaction that closes a bet: each leg's outcome, then the bet, then the outbox row. */
    method CloseBet(b: nat, results: seq<LegResult>, key: Key, row: Row)
      requires b < |bets| && |results| == |bets[b].legs| && key !in rows
      modifies this`bets, this`rows, this`created
      ensures bets == old(bets)[b := ClosedBet(old(bets)[b], results)]
      ensures rows == old(rows)[key := row] && created == old(created) + [key]
    {
      var bet := bets[b];
      var n := |bet.legs|;
      for i := 0 to n
        invariant |bets| == |old(bets)| && bets == old(bets)[b := bet.(legs := bets[b].legs)] && |bets[b].legs| == n
        invariant forall j | 0 <= j < n ::
          bets[b].legs[j] == if j < i then bet.legs[j].(outcome := Some(results[j])) else bet.legs[j]
        invariant rows == old(rows) && created == old(created)
      {
        bets := bets[b := bets[b].(legs := bets[b].legs[i := bets[b].legs[i].(outcome := Some(results[i]))])];
      }
      assert bets[b].legs == WithOutcomes(bet.legs, results);
      var result := Aggregate(results);
      bets := bets[b := bets[b].(status := StatusOf(result), payoutAmount := Some(PayoutFor(bet.stake, bet.potentialPayout, result)))];
      rows := rows[key := row];
      created := created + [key];
    }
  }

  function Oldest<T>(xs: seq<T>, limit: nat): seq<T> {
    if |xs| <= limit then xs else xs[..limit]
  }

  function DebitSteps(keys: seq<Key>, outcomes: seq<Outcome>): (steps: seq<Step>)
    requires |outcomes| >= |keys|
    ensures |steps| == |keys|
  {
    seq(|keys|, i requires 0 <= i < |keys| => AttemptDebit(keys[i].bet, outcomes[i]))
  }

  function VoidSteps(keys: seq<Key>, outcomes: seq<Outcome>): (steps: seq<Step>)
    requires |outcomes| >= |keys|
    ensures |steps| == |keys|
  {
    seq(|keys|, i requires 0 <= i < |keys| => SendStaffVoid(keys[i].bet, outcomes[i]))
  }

  function DueKeys(s: State, kind: RowKind, limit: nat): seq<Key> {
    Oldest(Select(s.rows, s.created, Query(kind, None, Some(s.now), None)), limit)
  }

  /** A run, one step at a time. */
  lemma RunStart(s: State, steps: seq<Step>)
    ensures Run(s, steps[..0]) == s && steps[..|steps|] == steps
  {}

  lemma RunNext(s: State, steps: seq<Step>, i: nat)
    requires i < |steps| && PayloadsStored(Run(s, steps[..i]).rows)
    ensures var step := steps[i];
            Run(s, steps[..i + 1]) ==
            match step
            case AttemptDebit(b, o) => DoDebit(Run(s, steps[..i]), b, o)
            case SendStaffVoid(b, o) => DoSendStaffVoid(Run(s, steps[..i]), b, o)
            case Flush(group, batch, o) => DoFlush(Run(s, steps[..i]), group, batch, o).state
            case SettleBet(b, batch) => DoSettle(Run(s, steps[..i]), b, batch)
            case _ => Apply(Run(s, steps[..i]), step)
  {
    hide DoDebit, DoSendStaffVoid, DoFlush, DoSettle, DoPlace, DoVoid, DoClearBackoff;
    assert steps[..i + 1][..i] == steps[..i];
  }

  /** Whether a poll of such rows ends with this outcome: errors of a debit are caught, so only the end
      of the process stops that poll; the other polls also stop when a failure cannot be recorded. */
  predicate Ends(kind: RowKind, o: Outcome) {
    if kind == Debit then o.aftermath.Crashed? else !Recorded(o)
  }

  /** Of n rows the first `worked` were worked on: those up to the first whose outcome ends the poll. */
  predicate StopsAt(kind: RowKind, outcomes: seq<Outcome>, worked: nat, n: nat) {
    && worked <= n <= |outcomes| && (forall i :: 0 <= i < worked - 1 ==> !Ends(kind, outcomes[i]))
    && (worked < n ==> worked > 0 && Ends(kind, outcomes[worked - 1]))
  }

  /** A poll that worked on `worked` rows took the run of their steps, over the oldest due rows of the kind,
      and stopped where such a poll stops. */
  ghost predicate Polled(kind: RowKind, start: State, outcomes: seq<Outcome>, worked: nat, s: State) {
    var keys := DueKeys(start, kind, DEBIT_BATCH_LIMIT);
    && StopsAt(kind, outcomes, worked, |keys|)
    && s == Run(start, if kind == Debit then DebitSteps(keys, outcomes)[..worked] else VoidSteps(keys, outcomes)[..worked])
  }

  lemma StopOrGoOn(kind: RowKind, outcomes: seq<Outcome>, worked: nat, n: nat)
    requires worked < n <= |outcomes| && StopsAt(kind, outcomes, worked, worked)
    requires worked > 0 ==> !Ends(kind, outcomes[worked - 1])
    ensures StopsAt(kind, outcomes, worked + 1, worked + 1)
    ensures Ends(kind, outcomes[worked]) ==> StopsAt(kind, outcomes, worked + 1, n)
  {}

  class WalletOutboxService {
    const db: Database
    const wallet: WalletStubClient

    constructor (db: Database, wallet: WalletStubClient)
      ensures this.db == db && this.wallet == wallet
    {
      this.db, this.wallet := db, wallet;
    }

    ghost function Current(): State
      reads db, wallet
    {
      State(Config(wallet.cfg, db.limits), db.cat, db.bets, db.rows, db.created, wallet.log, db.now)
    }

    ghost predicate Valid()
      reads db, wallet
    {
      wallet.Valid() && Inv(Current())
    }

    lemma StoredWhenValid()
      requires Valid()
      ensures PayloadsStored(Current().rows)
    {}

    lemma CurrentIs()
      ensures Current().rows == db.rows && Current().bets == db.bets && Current().now == db.now
    {}

    lemma DueAre(kind: RowKind)
      ensures Oldest(Select(db.rows, db.created, Query(kind, None, Some(db.now), None)), DEBIT_BATCH_LIMIT)
           == DueKeys(Current(), kind, DEBIT_BATCH_LIMIT)
      ensures |DueKeys(Current(), kind, DEBIT_BATCH_LIMIT)| <= DEBIT_BATCH_LIMIT
    {
      hide Select;
    }

    lemma VoidsReady(outcomes: seq<Outcome>)
      requires Valid() && |outcomes| >= DEBIT_BATCH_LIMIT
      ensures VoidedTo(Current(), DueKeys(Current(), StaffVoid, DEBIT_BATCH_LIMIT), outcomes, 0, Current())
    {
      DueAre(StaffVoid);
      hide Inv, DueKeys, VoidedTo;
      DueStaffVoidKeys(Current(), DEBIT_BATCH_LIMIT);
      NoneVoided(Current(), DueKeys(Current(), StaffVoid, DEBIT_BATCH_LIMIT), outcomes);
    }

    method ScheduleRetry(key: Key)
      requires key in db.rows
      modifies db`rows
      ensures db.rows == old(db.rows)[key := Rescheduled(old(db.rows)[key], db.now)]
    {
      db.rows := db.rows[key := Rescheduled(db.rows[key], db.now)];
    }

    method ProcessSingleDebit(b: nat, o: Outcome)
      requires Valid()
      modifies db, wallet
      ensures Valid() && Current() == DoDebit(old(Current()), b, o)
    {
      hide Inv, Agrees, Deliver;
      DebitKeepsInv(Current(), b, o);
      if b >= |db.bets| {
        return;
      }
      var bet := db.bets[b];
      if bet.status == BetStatus.Accepted || bet.status == BetStatus.Rejected {
        return;
      }
      var key := Key(b, Debit);
      if key !in db.rows || db.rows[key].status == RowStatus.Completed {
        return;
      }
      var row := db.rows[key];
      var reply := wallet.Send([DebitTransaction(b, bet, row.code)], o.delivery);
      if reply == Done && o.aftermath == Written {
        db.bets := db.bets[b := bet.(status := BetStatus.Accepted)];
        db.rows := db.rows[key := row.(status := RowStatus.Completed)];
      } else if reply == InsufficientFunds {
        if o.aftermath == Written {
          db.bets := db.bets[b := bet.(status := BetStatus.Rejected)];
          db.rows := db.rows[key := row.(status := RowStatus.Failed)];
        }
      } else if Retries(reply, o.aftermath) {
        ScheduleRetry(key);
      }
    }

    /** Polls the oldest due debits; a failing one does not stop the poll, only the end of the process does. */
    method ProcessPendingDebits(outcomes: seq<Outcome>) returns (worked: nat)
      requires Valid() && |outcomes| >= DEBIT_BATCH_LIMIT
      modifies db, wallet
      ensures Valid() && Polled(Debit, old(Current()), outcomes, worked, Current())
    {
      hide *;
      var entries := Oldest(Select(db.rows, db.created, Query(Debit, None, Some(db.now), None)), DEBIT_BATCH_LIMIT);
      ghost var start := Current();
      DueAre(Debit);
      NoneDebited(start, entries, outcomes);
      worked := 0;
      while worked < |entries|
        invariant worked <= |entries| && Valid()
        invariant DebitedTo(start, entries, outcomes, worked, Current())
      {
        ghost var before := Current();
        StoredWhenValid();
        ProcessSingleDebit(entries[worked].bet, outcomes[worked]);
        DebitedNext(start, entries, outcomes, worked, before, Current());
        worked := worked + 1;
        if Ends(Debit, outcomes[worked - 1]) {
          return;
        }
      }
      AllDebited(start, entries, outcomes, Current());
    }

    /** Sends one stored staff-void transaction. */
    method SendVoidRow(key: Key, o: Outcome)
      requires Valid() && key.kind == StaffVoid && key in db.rows
      requires db.rows[key].status == RowStatus.Pending && Due(db.rows[key], db.now)
      modifies db`rows, wallet
      ensures Valid() && PayloadsStored(old(Current()).rows) && Current() == DoSendStaffVoid(old(Current()), key.bet, o)
    {
      hide Inv, Agrees, Deliver;
      InvStored(Current());
      SendStaffVoidKeepsInv(Current(), key.bet, o);
      var row := db.rows[key];
      var reply := wallet.Send([row.payload.value], o.delivery);
      if reply == Done && o.aftermath == Written {
        db.rows := db.rows[key := row.(status := RowStatus.Completed)];
      } else if Retries(reply, o.aftermath) {
        ScheduleRetry(key);
      }
    }

    /** Polls the oldest due staff voids; the poll ends early when a failure cannot be recorded. */
    method ProcessPendingStaffVoids(outcomes: seq<Outcome>) returns (worked: nat)
      requires Valid() && |outcomes| >= DEBIT_BATCH_LIMIT
      modifies db, wallet
      ensures Valid() && Polled(StaffVoid, old(Current()), outcomes, worked, Current())
    {
      hide *;
      var entries := Oldest(Select(db.rows, db.created, Query(StaffVoid, None, Some(db.now), None)), DEBIT_BATCH_LIMIT);
      ghost var start := Current();
      DueAre(StaffVoid);
      VoidsReady(outcomes);
      worked := 0;
      while worked < |entries|
        invariant worked <= |entries| && Valid()
        invariant VoidedTo(start, entries, outcomes, worked, Current())
      {
        ghost var before := Current();
        VoidedHead(start, entries, outcomes, worked, before);
        CurrentIs();
        SendVoidRow(entries[worked], outcomes[worked]);
        VoidedNext(start, entries, outcomes, worked, before, Current());
        worked := worked + 1;
        if Ends(StaffVoid, outcomes[worked - 1]) {
          return;
        }
      }
      AllVoided(start, entries, outcomes, Current());
    }

    /** One due settlement batch of one tenant. */
    method FlushSettlementBatchForGroup(group: string, freshBatch: nat, o: Outcome) returns (sent: bool)
      requires Valid()
      modifies db`rows, wallet
      ensures Valid() && PayloadsStored(old(Current()).rows)
      ensures Flushed(Current(), sent) == DoFlush(old(Current()), group, freshBatch, o)
    {
      hide Inv, Agrees, Deliver, Select;
      InvStored(Current());
      FlushKeepsInv(Current(), group, freshBatch, o);
      var due := Select(db.rows, db.created, Query(Settle, Some(group), Some(db.now), None));
      if due == [] {
        return false;
      }
      var anchor := db.rows[due[0]].batchId;
      var batch := if anchor.Some? then anchor.value else freshBatch;
      var entries := Select(db.rows, db.created, Query(Settle, Some(group), Some(db.now), Some(anchor)));
      var payloads := Payloads(db.rows, entries);
      if anchor.None? {
        db.rows := AssignBatch(db.rows, entries, batch);
      }
      var reply := wallet.Send(payloads, o.delivery);
      if reply == Done && o.aftermath == Written {
        db.rows := CompleteAll(db.rows, entries, batch);
        sent := true;
      } else {
        var retried := if Retries(reply, o.aftermath) then entries
                       else if o.aftermath.Crashed? && o.aftermath.rescheduled < |entries|
                       then entries[..o.aftermath.rescheduled]
                       else [];
        db.rows := RescheduleAll(db.rows, retried, db.now);
        sent := false;
      }
    }

    /** One batch for each tenant that has a due row; the loop ends early when a failure cannot be recorded. */
    method FlushSettlementBatches(calls: string -> Call) returns (batches: nat)
      requires Valid()
      modifies db`rows, wallet
      ensures Valid() && PayloadsStored(old(Current()).rows)
      ensures Looped(Current(), batches) == FlushGroups(old(Current()), Worked(DueGroups(old(Current())), calls), calls)
    {
      StoredWhenValid();
      var groups := Groups(db.rows, Select(db.rows, db.created, Query(Settle, None, Some(db.now), None)));
      ghost var start := Current();
      assert groups == DueGroups(start);
      NoneFlushed(start, groups, calls);
      hide *;
      batches := 0;
      var i := 0;
      while i < |groups|
        invariant i <= |groups| && Valid() && PayloadsStored(start.rows)
        invariant if i < |groups| then FlushedTo(start, groups, calls, i, Looped(Current(), batches))
                  else Looped(Current(), batches) == FlushGroups(start, Worked(groups, calls), calls)
      {
        StoredWhenValid();
        ghost var before := Looped(Current(), batches);
        var call := calls(groups[i]);
        var sent := FlushSettlementBatchForGroup(groups[i], call.freshBatch, call.outcome);
        if sent {
          batches := batches + 1;
        }
        FlushedNext(start, groups, calls, i, before, Looped(Current(), batches), sent);
        i := i + 1;
        if !Recorded(call.outcome) {
          break;
        }
      }
    }

    /** All due batches of one tenant, at most 100. */
    method FlushSettlementBatchesForCasinoGroup(group: string, calls: seq<Call>) returns (batches: nat)
      requires Valid() && |calls| == MAX_BATCHES_PER_RETRY
      modifies db`rows, wallet
      ensures Valid() && PayloadsStored(old(Current()).rows)
      ensures Looped(Current(), batches) == FlushLoop(old(Current()), group, calls)
    {
      hide Inv, Agrees, DoFlush;
      batches := 0;
      InvStored(Current());
      ghost var start := Current();
      assert calls[0..] == calls;
      while batches < MAX_BATCHES_PER_RETRY
        invariant batches <= MAX_BATCHES_PER_RETRY && Valid() && PayloadsStored(Current().rows)
        invariant FlushLoop(start, group, calls)
               == Looped(FlushLoop(Current(), group, calls[batches..]).state, batches + FlushLoop(Current(), group, calls[batches..]).sent)
      {
        LoopUnfolds(Current(), group, calls[batches..]);
        var sent := FlushSettlementBatchForGroup(group, calls[batches].freshBatch, calls[batches].outcome);
        InvStored(Current());
        if !sent {
          break;
        }
        assert calls[batches..][1..] == calls[batches + 1..];
        batches := batches + 1;
      }
    }
  }

  /** The tenants with a due settlement row, in order of their oldest one. */
  function Groups(rows: map<Key, Row>, keys: seq<Key>): seq<string>
    requires forall k :: k in keys ==> k in rows
  {
    if keys == [] then []
    else
      var front, group := Groups(rows, keys[..|keys| - 1]), rows[keys[|keys| - 1]].group;
      if group in front then front else front + [group]
  }

  function DueGroups(s: State): seq<string> {
    Groups(s.rows, Select(s.rows, s.created, Query(Settle, None, Some(s.now), None)))
  }

  /** One flush per tenant, and how many of them sent their batch. */
  ghost function FlushGroups(s: State, groups: seq<string>, calls: string -> Call): (r: Looped)
    requires PayloadsStored(s.rows)
    ensures PayloadsStored(r.state.rows)
  {
    if groups == [] then Looped(s, 0)
    else
      var front, group := FlushGroups(s, groups[..|groups| - 1], calls), groups[|groups| - 1];
      var f := DoFlush(front.state, group, calls(group).freshBatch, calls(group).outcome);
      Looped(f.state, front.sent + if f.sent then 1 else 0)
  }

  /** The tenants that the loop reaches: up to the first whose outcome cannot be recorded. */
  function Worked(groups: seq<string>, calls: string -> Call): (reached: seq<string>)
    ensures reached <= groups
  {
    if groups == [] then []
    else
      var n := |groups| - 1;
      var front := Worked(groups[..n], calls);
      if front == groups[..n] && (n == 0 || Recorded(calls(groups[n - 1]).outcome)) then groups else front
  }

  /** The first i tenants were all reached, and none of their outcomes ended the loop. */
  predicate GoesOn(groups: seq<string>, calls: string -> Call, i: nat) {
    i <= |groups| && Worked(groups[..i], calls) == groups[..i] && (i > 0 ==> Recorded(calls(groups[i - 1]).outcome))
  }

  /** Where the loop stands before its i-th tenant. */
  ghost predicate FlushedTo(start: State, groups: seq<string>, calls: string -> Call, i: nat, l: Looped) {
    PayloadsStored(start.rows) && GoesOn(groups, calls, i) && l == FlushGroups(start, groups[..i], calls)
  }

  lemma NoneFlushed(start: State, groups: seq<string>, calls: string -> Call)
    requires PayloadsStored(start.rows)
    ensures if groups == [] then Looped(start, 0) == FlushGroups(start, Worked(groups, calls), calls)
            else FlushedTo(start, groups, calls, 0, Looped(start, 0))
  {
    NoneWorked(groups, calls);
  }

  lemma FlushedNext(start: State, groups: seq<string>, calls: string -> Call, i: nat, before: Looped, after: Looped, sent: bool)
    requires i < |groups| && FlushedTo(start, groups, calls, i, before) && PayloadsStored(before.state.rows)
    requires var call := calls(groups[i]);
             && Flushed(after.state, sent) == DoFlush(before.state, groups[i], call.freshBatch, call.outcome)
             && after.sent == before.sent + if sent then 1 else 0
    ensures if i + 1 < |groups| && Recorded(calls(groups[i]).outcome) then FlushedTo(start, groups, calls, i + 1, after)
            else PayloadsStored(start.rows) && after == FlushGroups(start, Worked(groups, calls), calls)
  {
    FlushGroupsNext(start, groups, calls, i);
    WorkedNext(groups, calls, i);
    hide DoFlush, FlushGroups, Worked, Recorded, PayloadsStored;
  }

  lemma NoneWorked(groups: seq<string>, calls: string -> Call)
    ensures GoesOn(groups, calls, 0) && groups[..0] == [] && groups[..|groups|] == groups
    ensures groups == [] ==> Worked(groups, calls) == []
  {}

  lemma WorkedNext(groups: seq<string>, calls: string -> Call, i: nat)
    requires i < |groups| && GoesOn(groups, calls, i)
    ensures if Recorded(calls(groups[i]).outcome) then GoesOn(groups, calls, i + 1) else Worked(groups, calls) == groups[..i + 1]
    ensures i + 1 == |groups| ==> Worked(groups, calls) == groups[..i + 1]
  {
    hide Recorded;
    assert groups[..i + 1][..i] == groups[..i];
    if !Recorded(calls(groups[i]).outcome) {
      WorkedStops(groups, calls, i + 1);
    } else if i + 1 == |groups| {
      assert groups[..i + 1] == groups;
    }
  }

  lemma {:induction false} WorkedStops(groups: seq<string>, calls: string -> Call, i: nat)
    requires 0 < i <= |groups| && Worked(groups[..i], calls) == groups[..i] && !Recorded(calls(groups[i - 1]).outcome)
    ensures Worked(groups, calls) == groups[..i]
  {
    hide Recorded;
    if i == |groups| {
      assert groups[..i] == groups;
    } else {
      var front := groups[..|groups| - 1];
      assert front[..i] == groups[..i] && front[i - 1] == groups[i - 1];
      WorkedStops(front, calls, i);
    }
  }

  lemma FlushGroupsNext(s: State, groups: seq<string>, calls: string -> Call, i: nat)
    requires PayloadsStored(s.rows) && i < |groups|
    ensures var front, call := FlushGroups(s, groups[..i], calls), calls(groups[i]);
            var f := DoFlush(front.state, groups[i], call.freshBatch, call.outcome);
            FlushGroups(s, groups[..i + 1], calls) == Looped(f.state, front.sent + if f.sent then 1 else 0)
  {
    hide DoFlush;
    assert groups[..i + 1][..i] == groups[..i];
  }

  /** The worker's flush is a run of flush steps. */
  lemma {:induction false} FlushGroupsIsRun(s: State, groups: seq<string>, calls: string -> Call)
    requires PayloadsStored(s.rows)
    ensures FlushGroups(s, groups, calls).state == Run(s, FlushSteps(groups, calls))
  {
    hide DoFlush, PayloadsStored;
    if groups == [] {
    } else {
      var front := groups[..|groups| - 1];
      FlushGroupsIsRun(s, front, calls);
      assert FlushSteps(groups, calls)[..|front|] == FlushSteps(front, calls);
      RunNext(s, FlushSteps(groups, calls), |front|);
      assert FlushSteps(groups, calls)[..|groups|] == FlushSteps(groups, calls);
    }
  }

  function FlushSteps(groups: seq<string>, calls: string -> Call): (steps: seq<Step>)
    ensures |steps| == |groups|
  {
    seq(|groups|, i requires 0 <= i < |groups| => Flush(groups[i], calls(groups[i]).freshBatch, calls(groups[i]).outcome))
  }

  lemma InvStored(s: State)
    requires Inv(s)
    ensures PayloadsStored(s.rows)
  {}

  predicate Distinct(keys: seq<Key>) {
    forall i, j :: 0 <= i < j < |keys| ==> keys[i] != keys[j]
  }

  lemma {:induction false} SelectDistinctIn(rows: map<Key, Row>, created: seq<Key>, q: Query)
    requires Distinct(created)
    ensures Distinct(Select(rows, created, q))
  {
    hide Matches;
    if created != [] {
      var front, last := created[..|created| - 1], created[|created| - 1];
      SelectDistinctIn(rows, front, q);
      assert last !in Select(rows, front, q);
    }
  }

  lemma SelectDistinct(s: State, q: Query)
    requires Inv(s)
    ensures Distinct(Select(s.rows, s.created, q))
  {
    SelectDistinctIn(s.rows, s.created, q);
  }

  predicate DueStaffVoids(s: State, keys: seq<Key>) {
    && Distinct(keys)
    && (forall i :: 0 <= i < |keys| ==>
          keys[i] in s.rows && keys[i].kind == StaffVoid && s.rows[keys[i]].status == RowStatus.Pending && Due(s.rows[keys[i]], s.now))
  }

  lemma DueStaffVoidKeys(s: State, limit: nat)
    requires Inv(s)
    ensures DueStaffVoids(s, DueKeys(s, StaffVoid, limit)) && Untouched(s, s, DueKeys(s, StaffVoid, limit), 0)
  {
    var q := Query(StaffVoid, None, Some(s.now), None);
    var all, keys := Select(s.rows, s.created, q), DueKeys(s, StaffVoid, limit);
    SelectDistinct(s, q);
    assert keys == all[..|keys|];
    hide Inv, Select, DueKeys, Oldest, Distinct;
    forall i | 0 <= i < |all| ensures all[i] in s.rows && Matches(q, all[i], s.rows[all[i]]) {
      assert all[i] in all;
    }
    SomeAreDue(s, q, all, |keys|);
  }

  lemma SomeAreDue(s: State, q: Query, all: seq<Key>, n: nat)
    requires q.kind == StaffVoid && q.dueAt == Some(s.now) && n <= |all| && Distinct(all)
    requires forall i :: 0 <= i < |all| ==> all[i] in s.rows && Matches(q, all[i], s.rows[all[i]])
    ensures DueStaffVoids(s, all[..n]) && Untouched(s, s, all[..n], 0)
  {}

  /** The rows from position i on are as they were at the start of the poll. */
  predicate Untouched(start: State, s: State, keys: seq<Key>, i: nat) {
    s.now == start.now
    && forall j :: i <= j < |keys| ==> keys[j] in s.rows && keys[j] in start.rows && s.rows[keys[j]] == start.rows[keys[j]]
  }

  lemma UntouchedHead(start: State, s: State, keys: seq<Key>, i: nat)
    requires i < |keys| && DueStaffVoids(start, keys) && Untouched(start, s, keys, i)
    ensures keys[i].kind == StaffVoid && keys[i] in s.rows
    ensures s.rows[keys[i]].status == RowStatus.Pending && Due(s.rows[keys[i]], s.now)
  {}

  lemma UntouchedTail(start: State, s: State, keys: seq<Key>, i: nat, o: Outcome)
    requires i < |keys| && DueStaffVoids(start, keys) && Untouched(start, s, keys, i) && PayloadsStored(s.rows)
    ensures Untouched(start, DoSendStaffVoid(s, keys[i].bet, o), keys, i + 1)
  {
    VoidTouchesOneRow(s, keys[i].bet, o);
    hide DoSendStaffVoid;
  }

  /** Where the poll stands before its next row. */
  ghost predicate VoidedTo(start: State, keys: seq<Key>, outcomes: seq<Outcome>, worked: nat, s: State) {
    && worked <= |keys| <= |outcomes| && DueStaffVoids(start, keys) && Untouched(start, s, keys, worked)
    && StopsAt(StaffVoid, outcomes, worked, worked) && (worked > 0 ==> !Ends(StaffVoid, outcomes[worked - 1]))
    && s == Run(start, VoidSteps(keys, outcomes)[..worked])
  }

  lemma NoneVoided(start: State, keys: seq<Key>, outcomes: seq<Outcome>)
    requires DueStaffVoids(start, keys) && Untouched(start, start, keys, 0) && |keys| <= |outcomes|
    ensures VoidedTo(start, keys, outcomes, 0, start)
  {
    hide DueStaffVoids, Untouched;
    RunStart(start, VoidSteps(keys, outcomes));
  }

  lemma AllVoided(start: State, keys: seq<Key>, outcomes: seq<Outcome>, s: State)
    requires VoidedTo(start, keys, outcomes, |keys|, s)
    ensures keys == DueKeys(start, StaffVoid, DEBIT_BATCH_LIMIT) ==> Polled(StaffVoid, start, outcomes, |keys|, s)
  {
    hide DueStaffVoids, Untouched, Run;
  }

  lemma VoidedHead(start: State, keys: seq<Key>, outcomes: seq<Outcome>, worked: nat, s: State)
    requires worked < |keys| && VoidedTo(start, keys, outcomes, worked, s)
    ensures worked < |outcomes| && keys[worked].kind == StaffVoid && keys[worked] in s.rows
    ensures s.rows[keys[worked]].status == RowStatus.Pending && Due(s.rows[keys[worked]], s.now)
  {
    hide Run;
    UntouchedHead(start, s, keys, worked);
  }

  lemma VoidedNext(start: State, keys: seq<Key>, outcomes: seq<Outcome>, worked: nat, before: State, after: State)
    requires worked < |keys| && VoidedTo(start, keys, outcomes, worked, before)
    requires PayloadsStored(before.rows) && after == DoSendStaffVoid(before, keys[worked].bet, outcomes[worked])
    ensures worked < |outcomes|
    ensures !Ends(StaffVoid, outcomes[worked]) ==> VoidedTo(start, keys, outcomes, worked + 1, after)
    ensures Ends(StaffVoid, outcomes[worked]) && keys == DueKeys(start, StaffVoid, DEBIT_BATCH_LIMIT) ==>
              Polled(StaffVoid, start, outcomes, worked + 1, after)
  {
    hide Run, Apply, DoSendStaffVoid, PayloadsStored, DueStaffVoids, Untouched, Ends;
    UntouchedTail(start, before, keys, worked, outcomes[worked]);
    RunNext(start, VoidSteps(keys, outcomes), worked);
    StopOrGoOn(StaffVoid, outcomes, worked, |keys|);
  }

  /** The loop invariant of the debit poll. */
  ghost predicate DebitedTo(start: State, keys: seq<Key>, outcomes: seq<Outcome>, worked: nat, s: State) {
    && worked <= |keys| <= |outcomes| && s == Run(start, DebitSteps(keys, outcomes)[..worked])
    && StopsAt(Debit, outcomes, worked, worked) && (worked > 0 ==> !Ends(Debit, outcomes[worked - 1]))
  }

  lemma NoneDebited(start: State, keys: seq<Key>, outcomes: seq<Outcome>)
    requires |keys| <= |outcomes|
    ensures DebitedTo(start, keys, outcomes, 0, start)
  {
    RunStart(start, DebitSteps(keys, outcomes));
    hide Run;
  }

  lemma AllDebited(start: State, keys: seq<Key>, outcomes: seq<Outcome>, s: State)
    requires DebitedTo(start, keys, outcomes, |keys|, s)
    ensures keys == DueKeys(start, Debit, DEBIT_BATCH_LIMIT) ==> Polled(Debit, start, outcomes, |keys|, s)
  {
    hide Run, Ends;
  }

  lemma DebitedNext(start: State, keys: seq<Key>, outcomes: seq<Outcome>, worked: nat, before: State, after: State)
    requires worked < |keys| && DebitedTo(start, keys, outcomes, worked, before)
    requires PayloadsStored(before.rows) && after == DoDebit(before, keys[worked].bet, outcomes[worked])
    ensures worked < |outcomes|
    ensures !Ends(Debit, outcomes[worked]) ==> DebitedTo(start, keys, outcomes, worked + 1, after)
    ensures Ends(Debit, outcomes[worked]) && keys == DueKeys(start, Debit, DEBIT_BATCH_LIMIT) ==>
              Polled(Debit, start, outcomes, worked + 1, after)
  {
    hide Run, Apply, DoDebit, PayloadsStored, Ends;
    RunNext(start, DebitSteps(keys, outcomes), worked);
    StopOrGoOn(Debit, outcomes, worked, |keys|);
  }

  lemma VoidTouchesOneRow(s: State, b: nat, o: Outcome)
    requires PayloadsStored(s.rows)
    ensures var t := DoSendStaffVoid(s, b, o);
            t.now == s.now && forall k :: k in s.rows && k != Key(b, StaffVoid) ==> k in t.rows && t.rows[k] == s.rows[k]
  {
    hide Deliver;
  }

  // Placement

  /** Placing a bet creates it, unless its identity already has one, and attempts the debit of the
      new bet, or again that of an existing bet that is still pending. */
  ghost function DoPlaceBet(s: State, r: Request, nonce: nat, walletUp: bool, o: Outcome): State {
    var existing := FindBet(s.bets, r.group, r.userId, r.idempotencyKey);
    if existing.Some? then
      if s.bets[existing.value].status == BetStatus.Pending then DoDebit(s, existing.value, o) else s
    else
      var t := DoPlace(s, r, nonce, walletUp);
      if |t.bets| == |s.bets| then s else DoDebit(t, |s.bets|, o)
  }

  datatype PlaceReply = Decided(id: nat) | DebitPending(id: nat) | SlipRefused

  class BetsService {
    const outbox: WalletOutboxService

    constructor (outbox: WalletOutboxService)
      ensures this.outbox == outbox
    {
      this.outbox := outbox;
    }

    function ReplyFor(b: nat): PlaceReply
      requires b < |outbox.db.bets|
      reads outbox, outbox.db
    {
      if outbox.db.bets[b].status == BetStatus.Pending then DebitPending(b) else Decided(b)
    }

    /** Answers with the decided bet, or with service unavailable while the debit is pending, or refuses the slip. */
    method PlaceBet(r: Request, nonce: nat, walletUp: bool, o: Outcome) returns (reply: PlaceReply)
      requires outbox.Valid()
      modifies outbox.db, outbox.wallet
      ensures outbox.Valid() && outbox.Current() == DoPlaceBet(old(outbox.Current()), r, nonce, walletUp, o)
      ensures reply.SlipRefused? <==> FindBet(outbox.db.bets, r.group, r.userId, r.idempotencyKey).None?
      ensures !reply.SlipRefused? ==>
                && reply.id < |outbox.db.bets| && SameIdentity(outbox.db.bets[reply.id], r.group, r.userId, r.idempotencyKey)
                && (reply.DebitPending? <==> outbox.db.bets[reply.id].status == BetStatus.Pending)
      ensures reply.SlipRefused? ==> outbox.Current() == old(outbox.Current())
    {
      hide Inv, Agrees, Validate, DoDebit;
      var db, wallet := outbox.db, outbox.wallet;
      ghost var s := outbox.Current();
      PlaceKeepsInv(s, r, nonce, walletUp);
      var existing := FindBet(db.bets, r.group, r.userId, r.idempotencyKey);
      if existing.Some? {
        if db.bets[existing.value].status == BetStatus.Pending {
          DebitKeepsIdentity(s, existing.value, o);
          outbox.ProcessSingleDebit(existing.value, o);
        }
        return ReplyFor(existing.value);
      }
      if !(1 <= |r.selectionIds| <= MAX_LEGS) {
        return SlipRefused;
      }
      var v := ValidatePlacement(db.cat, db.limits, r.group, r.selectionIds, r.stake);
      if v.Refused? || !walletUp || r.currency != STUB_CURRENCY {
        return SlipRefused;
      }
      var balance := wallet.GetBalance(r.username);
      if r.stake > balance || NonceUsed(db.rows, nonce) || Key(|db.bets|, Debit) in db.rows {
        return SlipRefused;
      }
      var b := |db.bets|;
      var bet := Bet(r.group, r.userId, r.username, r.idempotencyKey, v.quote.stake, v.quote.odds, v.quote.payout,
                     v.quote.legs, BetStatus.Pending, None);
      db.bets := db.bets + [bet];
      db.rows := db.rows[Key(b, Debit) := Row(r.group, DebitCode(nonce), None, None, RowStatus.Pending, 0, None)];
      db.created := db.created + [Key(b, Debit)];
      assert outbox.Current() == DoPlace(s, r, nonce, walletUp);
      DebitKeepsIdentity(outbox.Current(), b, o);
      outbox.ProcessSingleDebit(b, o);
      reply := ReplyFor(b);
    }
  }

  lemma DebitKeepsIdentity(s: State, b: nat, o: Outcome)
    ensures |DoDebit(s, b, o).bets| == |s.bets|
    ensures forall c :: 0 <= c < |s.bets| ==>
              SameIdentity(DoDebit(s, b, o).bets[c], s.bets[c].group, s.bets[c].userId, s.bets[c].idempotencyKey)
  {
    hide Deliver;
  }

  // Settlement

  /** The oldest accepted bets. */
  function AcceptedBets(bets: seq<Bet>): (ids: seq<nat>)
    ensures forall b :: b in ids <==> 0 <= b < |bets| && bets[b].status == BetStatus.Accepted
    ensures forall i :: 0 <= i < |ids| ==> ids[i] < |bets|
    ensures forall i, j :: 0 <= i < j < |ids| ==> ids[i] < ids[j]
  {
    if bets == [] then []
    else
      var n := |bets| - 1;
      var front := AcceptedBets(bets[..n]);
      assert forall b :: b in front <==> 0 <= b < n && bets[b].status == BetStatus.Accepted;
      if bets[n].status == BetStatus.Accepted then front + [n] else front
  }

  function OldestAccepted(bets: seq<Bet>): (ids: seq<nat>) {
    Oldest<nat>(AcceptedBets(bets), SETTLE_BATCH_SIZE)
  }

  /** At most 50, all accepted, and no accepted bet that is left out is older than any of them. */
  lemma OldestAcceptedAreOldest(bets: seq<Bet>)
    ensures var ids := OldestAccepted(bets);
            && |ids| <= 50 && (forall i :: 0 <= i < |ids| ==> ids[i] < |bets| && bets[ids[i]].status == BetStatus.Accepted)
            && (forall b :: 0 <= b < |bets| && bets[b].status == BetStatus.Accepted && b !in ids ==>
                  |ids| == 50 && forall i :: 0 <= i < |ids| ==> ids[i] < b)
  {
    var all, ids := AcceptedBets(bets), OldestAccepted(bets);
    forall i | 0 <= i < |ids| ensures ids[i] < |bets| && bets[ids[i]].status == BetStatus.Accepted {
      assert ids[i] == all[i] && all[i] in all;
    }
    assert forall i :: 0 <= i < |ids| ==> ids[i] == all[i] && all[i] in ids;
    forall b | 0 <= b < |bets| && bets[b].status == BetStatus.Accepted && b !in ids
      ensures |ids| == 50 && forall i :: 0 <= i < |ids| ==> ids[i] < b
    {
      var j :| 0 <= j < |all| && all[j] == b;
    }
  }

  datatype GradedBet = GradedBet(bet: nat, results: seq<LegResult>)

  /** Those of the given bets that can be graded now, with their leg results. */
  function Graded(cat: Catalogue, bets: seq<Bet>, ids: seq<nat>): (graded: seq<GradedBet>)
    requires forall i :: 0 <= i < |ids| ==> ids[i] < |bets|
  {
    if ids == [] then []
    else
      var b := ids[|ids| - 1];
      var front, results := Graded(cat, bets, ids[..|ids| - 1]), GradeLegs(cat, bets[b].legs);
      if results.Some? then front + [GradedBet(b, results.value)] else front
  }

  /** An accepted bet with the results its legs grade to. */
  predicate Gradable(s: State, g: GradedBet) {
    g.bet < |s.bets| && s.bets[g.bet].status == BetStatus.Accepted
    && GradeLegs(s.cat, s.bets[g.bet].legs) == Some(g.results)
  }

  /** No bet occurs twice, and the entries from position `from` on are still to be settled. */
  predicate ToSettle(s: State, graded: seq<GradedBet>, from: nat) {
    && (forall i :: from <= i < |graded| ==> Gradable(s, graded[i]))
    && (forall i, j :: 0 <= i < j < |graded| ==> graded[i].bet != graded[j].bet)
  }

  lemma {:induction false} GradedToSettle(s: State, ids: seq<nat>)
    requires forall i :: 0 <= i < |ids| ==> ids[i] < |s.bets| && s.bets[ids[i]].status == BetStatus.Accepted
    requires forall i, j :: 0 <= i < j < |ids| ==> ids[i] != ids[j]
    ensures ToSettle(s, Graded(s.cat, s.bets, ids), 0)
    ensures forall g :: g in Graded(s.cat, s.bets, ids) ==> g.bet in ids
    ensures forall b :: b in ids && GradeLegs(s.cat, s.bets[b].legs).Some? ==>
              GradedBet(b, GradeLegs(s.cat, s.bets[b].legs).value) in Graded(s.cat, s.bets, ids)
  {
    hide GradeLegs;
    if ids != [] {
      var front, last := ids[..|ids| - 1], ids[|ids| - 1];
      GradedToSettle(s, front);
      assert last in ids && last !in front;
      forall b | b in front ensures b in ids {
        var i :| 0 <= i < |front| && front[i] == b;
        assert ids[i] == b;
      }
      forall b | b in ids ensures b in front || b == last {}
    }
  }

  /** The settlement batch of a call gets one new id per tenant: `minted(tenant)`. */
  ghost function SettleAll(s: State, graded: seq<GradedBet>, minted: string -> nat): State {
    if graded == [] then s
    else
      var front, b := SettleAll(s, graded[..|graded| - 1], minted), graded[|graded| - 1].bet;
      if b < |front.bets| then DoSettle(front, b, minted(front.bets[b].group)) else front
  }

  /** Everything but one bet, and everything already in the outbox, stays. */
  lemma SettleTouchesOneBet(s: State, b: nat, batch: nat)
    ensures var t := DoSettle(s, b, batch);
            && t.cat == s.cat && |t.bets| == |s.bets|
            && (forall c :: 0 <= c < |s.bets| && c != b ==> t.bets[c] == s.bets[c])
            && (forall k :: k in s.rows ==> k in t.rows && t.rows[k] == s.rows[k])
            && (forall k :: k in t.rows && k != Key(b, Settle) ==> k in s.rows)
  {
    hide GradeLegs;
  }

  lemma ToSettleNext(s: State, graded: seq<GradedBet>, i: nat, batch: nat)
    requires i < |graded| && ToSettle(s, graded, i)
    ensures ToSettle(DoSettle(s, graded[i].bet, batch), graded, i + 1)
  {
    SettleTouchesOneBet(s, graded[i].bet, batch);
    hide GradeLegs, DoSettle;
    assert forall j :: i < j < |graded| ==> graded[j].bet != graded[i].bet;
  }

  /** A bet with its leg results, its result and its payout. */
  function ClosedBet(bet: Bet, results: seq<LegResult>): Bet
    requires |results| == |bet.legs|
  {
    bet.(legs := WithOutcomes(bet.legs, results), status := StatusOf(Aggregate(results)),
         payoutAmount := Some(PayoutFor(bet.stake, bet.potentialPayout, Aggregate(results))))
  }

  /** The bet carries its leg results, its result and its payout, and one settlement row pays it. */
  predicate SettledAs(s: State, t: State, b: nat, results: seq<LegResult>, batch: nat)
    requires b < |s.bets| && |t.bets| == |s.bets| && |results| == |s.bets[b].legs|
  {
    && t.bets[b] == ClosedBet(s.bets[b], results)
    && Key(b, Settle) in t.rows && t.rows[Key(b, Settle)].batchId == Some(batch)
    && t.rows[Key(b, Settle)].payload.Some?
    && t.rows[Key(b, Settle)].payload.value.amount == PayoutFor(s.bets[b].stake, s.bets[b].potentialPayout, Aggregate(results))
  }

  predicate Mentions(graded: seq<GradedBet>, b: nat) {
    exists g :: g in graded && g.bet == b
  }

  lemma SettleOne(s: State, g: GradedBet, batch: nat)
    requires Inv(s) && Gradable(s, g)
    ensures var t := DoSettle(s, g.bet, batch);
            Inv(t) && |t.bets| == |s.bets| && |g.results| == |s.bets[g.bet].legs| && SettledAs(s, t, g.bet, g.results, batch)
  {
    assert BetOk(s, g.bet);
    var code := SettleCode(g.bet, Aggregate(g.results));
    hide BetOk, Inv, Of, GradeLeg, Aggregate, PayoutFor, SettlementTransaction;
    CloseKeepsInv(s, g.bet, g.results, Key(g.bet, Settle), code, Some(batch));
    assert Key(g.bet, Settle) !in s.rows by { hide Inv; assert BetOk(s, g.bet); }
  }

  lemma SettledStays(s: State, mid: State, t: State, g: GradedBet, b: nat, batch: nat)
    requires |s.bets| == |mid.bets| == |t.bets| && g.bet < |s.bets| && |g.results| == |s.bets[g.bet].legs|
    requires SettledAs(s, mid, g.bet, g.results, batch) && t.bets[g.bet] == mid.bets[g.bet]
    requires forall k :: k in mid.rows ==> k in t.rows && t.rows[k] == mid.rows[k]
    ensures SettledAs(s, t, g.bet, g.results, batch)
  {}

  lemma SettledFrom(s: State, mid: State, t: State, g: GradedBet, batch: nat)
    requires |s.bets| == |mid.bets| == |t.bets| && g.bet < |s.bets| && |g.results| == |s.bets[g.bet].legs|
    requires mid.bets[g.bet] == s.bets[g.bet] && SettledAs(mid, t, g.bet, g.results, batch)
    ensures SettledAs(s, t, g.bet, g.results, batch)
  {}

  /** Each entry is settled as graded, under its tenant's one batch id; no other bet changes. */
  ghost predicate AllSettled(s: State, t: State, graded: seq<GradedBet>, minted: string -> nat) {
    && t.cat == s.cat && |t.bets| == |s.bets|
    && (forall g :: g in graded ==>
          g.bet < |s.bets| && |g.results| == |s.bets[g.bet].legs|
          && SettledAs(s, t, g.bet, g.results, minted(s.bets[g.bet].group)))
    && (forall b :: 0 <= b < |s.bets| && !Mentions(graded, b) ==> t.bets[b] == s.bets[b])
  }

  lemma {:induction false} SettleAllSettles(s: State, graded: seq<GradedBet>, minted: string -> nat)
    requires Inv(s) && ToSettle(s, graded, 0)
    ensures Inv(SettleAll(s, graded, minted)) && AllSettled(s, SettleAll(s, graded, minted), graded, minted)
  {
    hide Inv, DoSettle, SettledAs, GradeLegs;
    if graded != [] {
      var front, g := graded[..|graded| - 1], graded[|graded| - 1];
      SettleAllSettles(s, front, minted);
      var mid, t := SettleAll(s, front, minted), SettleAll(s, graded, minted);
      LastStillGradable(s, mid, graded, minted);
      SettleOne(mid, g, minted(s.bets[g.bet].group));
      SettledNext(s, mid, front, g, minted);
      assert front + [g] == graded;
    }
  }

  lemma LastStillGradable(s: State, mid: State, graded: seq<GradedBet>, minted: string -> nat)
    requires graded != [] && ToSettle(s, graded, 0) && AllSettled(s, mid, graded[..|graded| - 1], minted)
    ensures var g := graded[|graded| - 1]; !Mentions(graded[..|graded| - 1], g.bet) && Gradable(mid, g) && mid.bets[g.bet] == s.bets[g.bet]
  {
    hide GradeLegs, SettledAs;
    var front, g := graded[..|graded| - 1], graded[|graded| - 1];
    assert Gradable(s, g) && !Mentions(front, g.bet);
  }

  /** One more bet settled. */
  lemma SettledNext(s: State, mid: State, front: seq<GradedBet>, g: GradedBet, minted: string -> nat)
    requires AllSettled(s, mid, front, minted) && !Mentions(front, g.bet) && g.bet < |s.bets| && mid.bets[g.bet] == s.bets[g.bet]
    requires |g.results| == |s.bets[g.bet].legs|
    requires var t := DoSettle(mid, g.bet, minted(s.bets[g.bet].group));
             |t.bets| == |mid.bets| && SettledAs(mid, t, g.bet, g.results, minted(s.bets[g.bet].group))
    ensures AllSettled(s, DoSettle(mid, g.bet, minted(s.bets[g.bet].group)), front + [g], minted)
  {
    hide DoSettle, SettledAs;
    var batch := minted(s.bets[g.bet].group);
    var t := DoSettle(mid, g.bet, batch);
    SettleTouchesOneBet(mid, g.bet, batch);
    SettledFrom(s, mid, t, g, batch);
    forall h | h in front
      ensures h.bet < |s.bets| && |h.results| == |s.bets[h.bet].legs| && SettledAs(s, t, h.bet, h.results, minted(s.bets[h.bet].group))
    {
      SettledStays(s, mid, t, h, g.bet, minted(s.bets[h.bet].group));
    }
    forall b | 0 <= b < |s.bets| && !Mentions(front + [g], b) ensures t.bets[b] == s.bets[b] {
      assert g in front + [g];
      assert !Mentions(front, b) by { MentionsMore(front, g, b); }
    }
  }

  lemma MentionsMore(front: seq<GradedBet>, g: GradedBet, b: nat)
    ensures Mentions(front, b) ==> Mentions(front + [g], b)
  {
    if Mentions(front, b) {
      var h :| h in front && h.bet == b;
      assert h in front + [g];
    }
  }

  /** What settling a batch of bets does: the oldest accepted bets that can be graded are settled,
      and if there are any, one batch of each tenant with a due row is flushed. */
  ghost function DoSettleBatch(s: State, minted: string -> nat, calls: string -> Call): State
    requires Inv(s)
  {
    SettleAllOk(s, minted);
    var graded := Graded(s.cat, s.bets, OldestAccepted(s.bets));
    var t := SettleAll(s, graded, minted);
    if graded == [] then s else FlushGroups(t, Worked(DueGroups(t), calls), calls).state
  }

  lemma NextToSettle(s: State, graded: seq<GradedBet>, i: nat)
    requires i < |graded| && ToSettle(s, graded, i)
    ensures Gradable(s, graded[i]) && graded[i].bet < |s.bets|
  {}

  lemma SettleAllNext(s: State, graded: seq<GradedBet>, minted: string -> nat, i: nat)
    requires i < |graded|
    ensures var front, b := SettleAll(s, graded[..i], minted), graded[i].bet;
            SettleAll(s, graded[..i + 1], minted) == if b < |front.bets| then DoSettle(front, b, minted(front.bets[b].group)) else front
  {
    hide DoSettle;
    assert graded[..i + 1][..i] == graded[..i];
  }

  lemma SettleAllOk(s: State, minted: string -> nat)
    requires Inv(s)
    ensures var ids := OldestAccepted(s.bets);
            && (forall i :: 0 <= i < |ids| ==> ids[i] < |s.bets| && s.bets[ids[i]].status == BetStatus.Accepted)
            && ToSettle(s, Graded(s.cat, s.bets, ids), 0)
            && Inv(SettleAll(s, Graded(s.cat, s.bets, ids), minted))
            && PayloadsStored(SettleAll(s, Graded(s.cat, s.bets, ids), minted).rows)
  {
    var ids := OldestAccepted(s.bets);
    forall i | 0 <= i < |ids| ensures ids[i] < |s.bets| && s.bets[ids[i]].status == BetStatus.Accepted {
      assert ids[i] == AcceptedBets(s.bets)[i] && ids[i] in AcceptedBets(s.bets);
    }
    hide OldestAccepted, Inv;
    GradedToSettle(s, ids);
    SettleAllSettles(s, Graded(s.cat, s.bets, ids), minted);
    InvStored(SettleAll(s, Graded(s.cat, s.bets, ids), minted));
  }

  lemma {:induction false} FlushGroupsKeepsBets(s: State, groups: seq<string>, calls: string -> Call)
    requires PayloadsStored(s.rows)
    ensures FlushGroups(s, groups, calls).state.bets == s.bets
  {
    hide Deliver, Select, PayloadsStored, AfterBatch;
    if groups != [] {
      FlushGroupsKeepsBets(s, groups[..|groups| - 1], calls);
      var front, group := FlushGroups(s, groups[..|groups| - 1], calls), groups[|groups| - 1];
      FlushKeepsBets(front.state, group, calls(group));
      hide DoFlush;
    }
  }

  lemma FlushKeepsBets(s: State, group: string, call: Call)
    requires PayloadsStored(s.rows)
    ensures DoFlush(s, group, call.freshBatch, call.outcome).state.bets == s.bets
  {
    hide Deliver, Select;
  }

  /** A settlement batch decides exactly the gradable ones among the 50 oldest accepted bets, each by
      the aggregate of its leg results; no other bet changes. */
  lemma SettleBatchCloses(s: State, minted: string -> nat, calls: string -> Call)
    requires Inv(s)
    ensures var t := DoSettleBatch(s, minted, calls);
            |t.bets| == |s.bets|
            && forall b :: 0 <= b < |s.bets| ==>
                 t.bets[b] == if b in OldestAccepted(s.bets) && GradeLegs(s.cat, s.bets[b].legs).Some?
                              then ClosedBet(s.bets[b], GradeLegs(s.cat, s.bets[b].legs).value) else s.bets[b]
  {
    hide Inv, GradeLegs, SettledAs, ClosedBet;
    SettleAllOk(s, minted);
    var ids := OldestAccepted(s.bets);
    var graded := Graded(s.cat, s.bets, ids);
    OldestDistinct(s.bets);
    GradedToSettle(s, ids);
    SettleAllSettles(s, graded, minted);
    var mid := SettleAll(s, graded, minted);
    FlushGroupsKeepsBets(mid, Worked(DueGroups(mid), calls), calls);
    hide OldestAccepted, SettleAll, FlushGroups, Graded, DueGroups, Worked;
    forall b | 0 <= b < |s.bets|
      ensures mid.bets[b] == if b in ids && GradeLegs(s.cat, s.bets[b].legs).Some?
                             then ClosedBet(s.bets[b], GradeLegs(s.cat, s.bets[b].legs).value) else s.bets[b]
    {
      if Mentions(graded, b) {
        var g :| g in graded && g.bet == b;
        SettledBet(s, mid, g, minted(s.bets[b].group));
      }
    }
  }

  lemma OldestDistinct(bets: seq<Bet>)
    ensures forall i, j :: 0 <= i < j < |OldestAccepted(bets)| ==> OldestAccepted(bets)[i] != OldestAccepted(bets)[j]
  {}

  lemma SettledBet(s: State, t: State, g: GradedBet, batch: nat)
    requires g.bet < |s.bets| && |t.bets| == |s.bets| && |g.results| == |s.bets[g.bet].legs|
    requires SettledAs(s, t, g.bet, g.results, batch)
    ensures t.bets[g.bet] == ClosedBet(s.bets[g.bet], g.results)
  {}

  class SettlementService {
    const outbox: WalletOutboxService

    constructor (outbox: WalletOutboxService)
      ensures this.outbox == outbox
    {
      this.outbox := outbox;
    }

    /** Grades an accepted bet, or returns None: every leg must load, be settleable and have a result. */
    method GradeBet(b: nat) returns (g: Option<GradedBet>)
      requires b < |outbox.db.bets|
      ensures var bet, cat := outbox.db.bets[b], outbox.db.cat;
              g == if bet.status == BetStatus.Accepted && GradeLegs(cat, bet.legs).Some?
                   then Some(GradedBet(b, GradeLegs(cat, bet.legs).value)) else None
    {
      hide LoadLegContext, Settleable, Evaluate;
      var bet, cat := outbox.db.bets[b], outbox.db.cat;
      if bet.status != BetStatus.Accepted {
        return None;
      }
      var contexts: seq<LegContext> := [];
      for i := 0 to |bet.legs|
        invariant |contexts| == i && forall j | 0 <= j < i :: LoadLegContext(cat, bet.legs[j]) == Some(contexts[j])
      {
        var ctx := LoadLegContext(cat, bet.legs[i]);
        if ctx.None? {
          assert GradeLeg(cat, bet.legs[i]).None?;
          return None;
        }
        contexts := contexts + [ctx.value];
      }
      for i := 0 to |contexts|
        invariant forall j | 0 <= j < i :: Settleable(contexts[j])
      {
        if !Settleable(contexts[i]) {
          assert GradeLeg(cat, bet.legs[i]).None?;
          return None;
        }
      }
      var results: seq<LegResult> := [];
      for i := 0 to |contexts|
        invariant |results| == i && forall j | 0 <= j < i :: GradeLeg(cat, bet.legs[j]) == Some(results[j])
      {
        var result := Evaluate(contexts[i].input);
        assert GradeLeg(cat, bet.legs[i]) == result;
        if result.None? {
          return None;
        }
        results := results + [result.value];
      }
      assert results == GradeLegs(cat, bet.legs).value;
      g := Some(GradedBet(b, results));
    }

    /** Writes one graded bet and its settlement row. */
    method PersistGraded(g: GradedBet, batch: nat)
      requires outbox.Valid() && Gradable(outbox.Current(), g)
      modifies outbox.db
      ensures outbox.Valid() && outbox.Current() == DoSettle(old(outbox.Current()), g.bet, batch)
    {
      hide Inv, Agrees, GradeLegs;
      var db := outbox.db;
      SettleOne(outbox.Current(), g, batch);
      AcceptedIsOpen(outbox.Current(), g.bet);
      var bet, result := db.bets[g.bet], Aggregate(g.results);
      var code := SettleCode(g.bet, result);
      var payout := PayoutFor(bet.stake, bet.potentialPayout, result);
      db.CloseBet(g.bet, g.results, Key(g.bet, Settle),
                  Row(bet.group, code, Some(batch), Some(SettlementTransaction(g.bet, bet, result, payout, code)), RowStatus.Pending, 0, None));
    }

    /** Writes the graded bets one by one, with one new batch id for each tenant. */
    method PersistGradedSettlements(graded: seq<GradedBet>, minted: string -> nat)
      requires outbox.Valid() && ToSettle(outbox.Current(), graded, 0)
      modifies outbox.db
      ensures outbox.Valid() && outbox.Current() == SettleAll(old(outbox.Current()), graded, minted)
    {
      var batchIdByGroup: map<string, nat> := map[];
      ghost var start := outbox.Current();
      assert graded[..0] == [];
      assert SettleAll(start, [], minted) == start;
      hide *;
      for i := 0 to |graded|
        invariant outbox.Valid() && outbox.Current() == SettleAll(start, graded[..i], minted)
        invariant ToSettle(outbox.Current(), graded, i)
        invariant forall group | group in batchIdByGroup :: batchIdByGroup[group] == minted(group)
      {
        var g := graded[i];
        NextToSettle(outbox.Current(), graded, i);
        outbox.CurrentIs();
        var group := outbox.db.bets[g.bet].group;
        if group !in batchIdByGroup {
          batchIdByGroup := batchIdByGroup[group := minted(group)];
        }
        ToSettleNext(outbox.Current(), graded, i, minted(group));
        SettleAllNext(start, graded, minted, i);
        PersistGraded(g, batchIdByGroup[group]);
      }
      assert graded[..|graded|] == graded;
    }

    /** Settles what can be settled among the 50 oldest accepted bets. */
    method SettleBatch(minted: string -> nat, calls: string -> Call) returns (settled: nat)
      requires outbox.Valid()
      modifies outbox.db, outbox.wallet
      ensures outbox.Valid() && Inv(old(outbox.Current())) && outbox.Current() == DoSettleBatch(old(outbox.Current()), minted, calls)
    {
      hide Inv, Agrees, GradeLegs, DoSettle, OldestAccepted, SettleAll;
      var db := outbox.db;
      ghost var start := outbox.Current();
      SettleAllOk(start, minted);
      var ids := OldestAccepted(db.bets);
      var graded: seq<GradedBet> := [];
      for i := 0 to |ids|
        modifies {}
        invariant outbox.Valid() && outbox.Current() == start && graded == Graded(start.cat, start.bets, ids[..i])
      {
        var g := GradeBet(ids[i]);
        assert ids[..i + 1][..i] == ids[..i];
        if g.Some? {
          graded := graded + [g.value];
        }
      }
      assert ids[..|ids|] == ids;
      settled := |graded|;
      if graded != [] {
        PersistGradedSettlements(graded, minted);
        var _ := outbox.FlushSettlementBatches(calls);
      }
    }
  }

  lemma AcceptedIsOpen(s: State, b: nat)
    requires Inv(s) && b < |s.bets| && s.bets[b].status == BetStatus.Accepted
    ensures Key(b, Settle) !in s.rows && Key(b, StaffVoid) !in s.rows && s.bets[b].legs != []
  {
    assert BetOk(s, b);
  }

  /** A staff void gives a reason; the catch-all reason needs a note. */
  predicate ReasonAccepted(reason: string) {
    !("other:" <= reason) || Contains(reason, " \U{2014} ")
  }

  class StaffBetsService {
    const outbox: WalletOutboxService

    constructor (outbox: WalletOutboxService)
      ensures this.outbox == outbox
    {
      this.outbox := outbox;
    }

    method VoidBet(group: string, b: nat, reason: string) returns (voided: bool)
      requires outbox.Valid()
      modifies outbox.db
      ensures outbox.Valid() && outbox.Current() == DoVoid(old(outbox.Current()), group, b, ReasonAccepted(reason))
      ensures voided <==> outbox.Current() != old(outbox.Current())
      ensures voided <==>
                && b < |old(outbox.db.bets)| && old(outbox.db.bets)[b].group == group && old(outbox.db.bets)[b].status == BetStatus.Accepted
                && (|reason| < 6 || reason[..6] != "other:" || Contains(reason, " \U{2014} "))
    {
      hide Inv, Agrees;
      var db := outbox.db;
      if b >= |db.bets| || db.bets[b].group != group || db.bets[b].status != BetStatus.Accepted || !ReasonAccepted(reason) {
        return false;
      }
      var bet, results := db.bets[b], AllVoid(|db.bets[b].legs|);
      var code := StaffVoidCode(b);
      AcceptedIsOpen(outbox.Current(), b);
      assert Aggregate(results) == LegResult.Void by { assert results[0] in results; }
      CloseKeepsInv(outbox.Current(), b, results, Key(b, StaffVoid), code, None);
      db.CloseBet(b, results, Key(b, StaffVoid),
                  Row(bet.group, code, None, Some(SettlementTransaction(b, bet, LegResult.Void, bet.stake, code)), RowStatus.Pending, 0, None));
      voided := true;
    }
  }

  class StaffSettlementService {
    const outbox: WalletOutboxService

    constructor (outbox: WalletOutboxService)
      ensures this.outbox == outbox
    {
      this.outbox := outbox;
    }

    /** Clears the tenant's backoff and sends its pending batches at once. */
    method RetryWalletSettlementTransmission(group: string, calls: seq<Call>)
      returns (batchesSent: nat, pendingBefore: nat, pendingAfter: nat)
      requires outbox.Valid() && |calls| == MAX_BATCHES_PER_RETRY
      modifies outbox.db, outbox.wallet
      ensures outbox.Valid() && PayloadsStored(DoClearBackoff(old(outbox.Current()), group).rows)
      ensures pendingBefore == |PendingSettles(old(outbox.Current()), group)| && pendingAfter == |PendingSettles(outbox.Current(), group)|
      ensures Looped(outbox.Current(), batchesSent)
           == if pendingBefore == 0 then Looped(old(outbox.Current()), 0)
              else FlushLoop(DoClearBackoff(old(outbox.Current()), group), group, calls)
    {
      hide Inv, Agrees, FlushLoop, Select;
      var db := outbox.db;
      ClearBackoffKeepsInv(outbox.Current(), group);
      InvStored(DoClearBackoff(outbox.Current(), group));
      var q := Query(Settle, Some(group), None, None);
      pendingBefore := |Select(db.rows, db.created, q)|;
      if pendingBefore == 0 {
        return 0, 0, 0;
      }
      db.rows := map k | k in db.rows ::
        if Matches(q, k, db.rows[k]) then db.rows[k].(nextRetryAt := None) else db.rows[k];
      batchesSent := outbox.FlushSettlementBatchesForCasinoGroup(group, calls);
      pendingAfter := |Select(db.rows, db.created, q)|;
    }
  }

  // Service calls as runs

  lemma {:induction false} RunConcat(s: State, a: seq<Step>, b: seq<Step>)
    ensures Run(s, a + b) == Run(Run(s, a), b)
  {
    hide Apply;
    if b == [] {
      assert a + b == a;
    } else {
      assert (a + b)[..|a + b| - 1] == a + b[..|b| - 1];
      RunConcat(s, a, b[..|b| - 1]);
    }
  }

  lemma RunOne(s: State, step: Step)
    ensures Run(s, []) == s && Run(s, [step]) == Apply(s, step)
  {
    hide Apply;
    assert [step][..0] == [];
  }

  /** Placing a bet is a run of the ledger machine, of at most two steps. */
  lemma PlaceBetIsRun(s: State, r: Request, nonce: nat, walletUp: bool, o: Outcome) returns (steps: seq<Step>)
    requires Inv(s)
    ensures |steps| <= 2 && DoPlaceBet(s, r, nonce, walletUp, o) == Run(s, steps)
  {
    var existing := FindBet(s.bets, r.group, r.userId, r.idempotencyKey);
    var t := DoPlace(s, r, nonce, walletUp);
    PlaceKeepsInv(s, r, nonce, walletUp);
    InvStored(s);
    InvStored(t);
    hide Inv, DoDebit, DoPlace, FindBet;
    RunOne(s, Place(r, nonce, walletUp));
    if existing.Some? {
      RunOne(s, AttemptDebit(existing.value, o));
      steps := if s.bets[existing.value].status == BetStatus.Pending then [AttemptDebit(existing.value, o)] else [];
    } else if |t.bets| == |s.bets| {
      steps := [];
    } else {
      steps := [Place(r, nonce, walletUp), AttemptDebit(|s.bets|, o)];
      assert steps == [Place(r, nonce, walletUp)] + [AttemptDebit(|s.bets|, o)];
      RunConcat(s, [Place(r, nonce, walletUp)], [AttemptDebit(|s.bets|, o)]);
      RunOne(t, AttemptDebit(|s.bets|, o));
    }
  }

  lemma {:induction false} SettleAllIsRun(s: State, graded: seq<GradedBet>, minted: string -> nat) returns (steps: seq<Step>)
    requires Inv(s)
    ensures SettleAll(s, graded, minted) == Run(s, steps) && Inv(Run(s, steps))
  {
    hide Inv, DoSettle;
    steps := [];
    RunKeepsInv(s, steps);
    if graded != [] {
      var before := SettleAllIsRun(s, graded[..|graded| - 1], minted);
      var front, b := Run(s, before), graded[|graded| - 1].bet;
      steps := before;
      if b < |front.bets| {
        var step := SettleBet(b, minted(front.bets[b].group));
        steps := before + [step];
        InvStored(front);
        RunConcat(s, before, [step]);
        RunOne(front, step);
        RunKeepsInv(s, steps);
      }
    }
  }

  /** So is settling a batch of bets. */
  lemma SettleBatchIsRun(s: State, minted: string -> nat, calls: string -> Call) returns (steps: seq<Step>)
    requires Inv(s)
    ensures DoSettleBatch(s, minted, calls) == Run(s, steps)
  {
    SettleAllOk(s, minted);
    var graded := Graded(s.cat, s.bets, OldestAccepted(s.bets));
    steps := SettleAllIsRun(s, graded, minted);
    hide Inv, SettleAll, Graded, OldestAccepted, FlushGroups, DueGroups, Worked;
    if graded == [] {
      steps := [];
    } else {
      var t := Run(s, steps);
      var flushes := FlushSteps(Worked(DueGroups(t), calls), calls);
      FlushGroupsIsRun(t, Worked(DueGroups(t), calls), calls);
      RunConcat(s, steps, flushes);
      steps := steps + flushes;
    }
  }

  lemma {:induction false} FlushLoopIsRun(s: State, group: string, calls: seq<Call>) returns (steps: seq<Step>)
    requires PayloadsStored(s.rows)
    ensures FlushLoop(s, group, calls).state == Run(s, steps)
    decreases |calls|
  {
    LoopUnfolds(s, group, calls);
    hide PayloadsStored, DoFlush, FlushLoop;
    steps := [];
    if calls != [] {
      var step := Flush(group, calls[0].freshBatch, calls[0].outcome);
      var f := DoFlush(s, group, calls[0].freshBatch, calls[0].outcome);
      RunOne(s, step);
      if f.sent {
        var rest := FlushLoopIsRun(f.state, group, calls[1..]);
        RunConcat(s, [step], rest);
        steps := [step] + rest;
      } else {
        steps := [step];
      }
    }
  }

  /** And so is a staff retry. */
  lemma StaffRetryIsRun(s: State, group: string, calls: seq<Call>) returns (steps: seq<Step>)
    requires Inv(s)
    ensures PayloadsStored(DoClearBackoff(s, group).rows)
    ensures FlushLoop(DoClearBackoff(s, group), group, calls).state == Run(s, steps)
  {
    ClearBackoffKeepsInv(s, group);
    InvStored(s);
    InvStored(DoClearBackoff(s, group));
    hide Inv, DoClearBackoff, FlushLoop;
    var rest := FlushLoopIsRun(DoClearBackoff(s, group), group, calls);
    RunOne(s, ClearBackoff(group));
    RunConcat(s, [ClearBackoff(group)], rest);
    steps := [ClearBackoff(group)] + rest;
  }
}
