/** Which outbox rows go first: polls, tenant loops and staff retries against the order of creation. */
module QueueOrder {
  import opened Domain
  import opened Wallet
  import opened Ledger
  import opened LedgerSafety
  import opened SettlementQueue
  import opened Services

  /** The first key was created before the second. */
  predicate Before(created: seq<Key>, k1: Key, k2: Key) {
    k1 in created && k2 in created && exists i, j :: 0 <= i < j < |created| && created[i] == k1 && created[j] == k2
  }

  lemma BeforeGrows(front: seq<Key>, last: Key, k1: Key, k2: Key)
    ensures Before(front, k1, k2) ==> Before(front + [last], k1, k2)
    ensures k1 in front && k2 == last ==> Before(front + [last], k1, k2)
  {
    var created := front + [last];
    if Before(front, k1, k2) {
      var i, j :| 0 <= i < j < |front| && front[i] == k1 && front[j] == k2;
      assert created[i] == k1 && created[j] == k2;
    } else if k1 in front && k2 == last {
      var i :| 0 <= i < |front| && front[i] == k1;
      assert created[i] == k1 && created[|front|] == k2;
    }
  }

  /** A query lists what matches in the order of creation. */
  lemma {:induction false} SelectInOrder(rows: map<Key, Row>, created: seq<Key>, q: Query, i: nat, j: nat)
    requires i < j < |Select(rows, created, q)|
    ensures Before(created, Select(rows, created, q)[i], Select(rows, created, q)[j])
  {
    hide Matches, Before;
    var front, last := created[..|created| - 1], created[|created| - 1];
    var older, keys := Select(rows, front, q), Select(rows, created, q);
    assert created == front + [last] && keys[i] == older[i] && older[i] in older;
    BeforeGrows(front, last, keys[i], keys[j]);
    if j < |older| {
      SelectInOrder(rows, front, q, i, j);
    }
  }

  /** A pending row of this kind that no retry time holds back. */
  predicate DueOf(s: State, kind: RowKind, k: Key) {
    && k in s.created && k in s.rows && k.kind == kind && s.rows[k].status == RowStatus.Pending
    && (s.rows[k].nextRetryAt == None || s.rows[k].nextRetryAt.value <= s.now)
  }

  lemma DueOfMeans(s: State, kind: RowKind, k: Key)
    ensures k in Select(s.rows, s.created, Query(kind, None, Some(s.now), None)) <==> DueOf(s, kind, k)
  {}

  /** A poll takes at most 20 rows, all due and oldest first, and leaves out a due row only when 20 due rows
      created before it are taken. */
  lemma PollTakesOldest(s: State, kind: RowKind)
    ensures var keys := DueKeys(s, kind, DEBIT_BATCH_LIMIT);
            && |keys| <= 20 && (forall k :: k in keys ==> DueOf(s, kind, k))
            && (forall i, j :: 0 <= i < j < |keys| ==> Before(s.created, keys[i], keys[j]))
            && (forall k :: DueOf(s, kind, k) && k !in keys ==> |keys| == 20 && forall i :: 0 <= i < 20 ==> Before(s.created, keys[i], k))
  {
    var all, keys := Select(s.rows, s.created, Query(kind, None, Some(s.now), None)), DueKeys(s, kind, DEBIT_BATCH_LIMIT);
    assert keys == all[..|keys|] && (|keys| == 20 || keys == all) && |keys| <= 20;
    hide Select, DueOf, Before, DueKeys, Oldest;
    forall k ensures k in all <==> DueOf(s, kind, k) {
      DueOfMeans(s, kind, k);
    }
    forall i | 0 <= i < |keys| ensures keys[i] == all[i] && all[i] in all && all[i] in keys {}
    forall i, j | 0 <= i < j < |keys| ensures Before(s.created, keys[i], keys[j]) {
      SelectInOrder(s.rows, s.created, Query(kind, None, Some(s.now), None), i, j);
    }
    forall k | DueOf(s, kind, k) && k !in keys
      ensures |keys| == 20 && forall i :: 0 <= i < 20 ==> Before(s.created, keys[i], k)
    {
      var j :| 0 <= j < |all| && all[j] == k;
      forall i | 0 <= i < |keys| ensures Before(s.created, keys[i], k) {
        SelectInOrder(s.rows, s.created, Query(kind, None, Some(s.now), None), i, j);
      }
    }
  }

  /** The worker's flush visits exactly the tenants with a due row, each once. */
  lemma DueTenantsOnce(s: State)
    ensures forall i, j :: 0 <= i < j < |DueGroups(s)| ==> DueGroups(s)[i] != DueGroups(s)[j]
    ensures forall g :: g in DueGroups(s) <==> exists k :: IsDue(s, g, k)
  {
    var due := Select(s.rows, s.created, Query(Settle, None, Some(s.now), None));
    GroupsOfKeys(s.rows, due);
    hide Groups;
    forall g ensures g in DueGroups(s) <==> exists k :: IsDue(s, g, k) {
      if k :| IsDue(s, g, k) {
        assert k in due;
      }
      if g in DueGroups(s) {
        var k :| k in due && s.rows[k].group == g;
        assert IsDue(s, g, k);
      }
    }
  }

  lemma {:induction false} GroupsOfKeys(rows: map<Key, Row>, keys: seq<Key>)
    requires forall k :: k in keys ==> k in rows
    ensures forall i, j :: 0 <= i < j < |Groups(rows, keys)| ==> Groups(rows, keys)[i] != Groups(rows, keys)[j]
    ensures forall g :: g in Groups(rows, keys) <==> exists k :: k in keys && rows[k].group == g
  {
    if keys != [] {
      var front, last := keys[..|keys| - 1], keys[|keys| - 1];
      GroupsOfKeys(rows, front);
      assert keys == front + [last];
      forall g ensures g in Groups(rows, keys) <==> exists k :: k in keys && rows[k].group == g {
        if k :| k in keys && rows[k].group == g {
          assert k in front || k == last;
        }
        assert last in keys;
      }
    }
  }

  // Batches in order

  /** The batch has a pending row of the tenant created before every pending row of the other one. */
  predicate Earlier(s: State, group: string, batch: Option<nat>, other: Option<nat>) {
    exists i :: 0 <= i < |s.created| && IsPending(s, group, s.created[i]) && s.rows[s.created[i]].batchId == batch
      && forall j :: 0 <= j <= i && IsPending(s, group, s.created[j]) ==> s.rows[s.created[j]].batchId != other
  }

  lemma {:induction false} WithoutSplits(rows: map<Key, Row>, keys: seq<Key>, batch: Option<nat>, p: nat) returns (q: nat)
    requires p < |keys| && forall k :: k in keys ==> k in rows
    requires rows[keys[p]].batchId != batch
    ensures var rest := Without(rows, keys, batch);
            q < |rest| && rest[q] == keys[p] && forall j :: 0 <= j <= q ==> rest[j] in keys[..p + 1]
  {
    var front := keys[..|keys| - 1];
    var rest, more := Without(rows, front, batch), Without(rows, keys, batch);
    if p == |front| {
      q := |rest|;
      assert keys[..p + 1] == keys && more[q] == keys[p];
      forall j | 0 <= j <= q ensures more[j] in keys {
        assert more[j] in more;
      }
    } else {
      q := WithoutSplits(rows, front, batch, p);
      assert front[..p + 1] == keys[..p + 1] && rest <= more;
    }
  }

  /** Whoever has a row before all rows of a batch comes before it in the order of batches. */
  lemma {:induction false} EarlierComesFirst(rows: map<Key, Row>, keys: seq<Key>, p: nat, other: Option<nat>, n: nat)
    requires p < |keys| && forall k :: k in keys ==> k in rows
    requires forall j :: 0 <= j <= p ==> rows[keys[j]].batchId != other
    requires n <= |Batches(rows, keys)| && other in Batches(rows, keys)[..n]
    ensures rows[keys[p]].batchId in Batches(rows, keys)[..n]
    decreases |keys|
  {
    hide *;
    var b := rows[keys[0]].batchId;
    var rest := Without(rows, keys, b);
    BatchesNext(rows, keys);
    FirstThenMore(b, Batches(rows, rest), other, rows[keys[p]].batchId, n);
    if rows[keys[p]].batchId != b {
      var q := WithoutSplits(rows, keys, b, p);
      NoneBefore(rows, keys, p, rest, q, other);
      EarlierComesFirst(rows, rest, q, other, n - 1);
    }
  }

  lemma FirstThenMore<T>(first: T, more: seq<T>, other: T, mine: T, n: nat)
    requires n <= |more| + 1 && other in ([first] + more)[..n] && other != first
    ensures n > 0 && other in more[..n - 1] && first in ([first] + more)[..n]
    ensures mine in more[..n - 1] ==> mine in ([first] + more)[..n]
  {
    assert ([first] + more)[..n] == [first] + more[..n - 1];
  }

  lemma BatchesNext(rows: map<Key, Row>, keys: seq<Key>)
    requires keys != [] && forall k :: k in keys ==> k in rows
    ensures var rest := Without(rows, keys, rows[keys[0]].batchId);
            && (forall k :: k in rest ==> k in rows) && |rest| < |keys|
            && Batches(rows, keys) == [rows[keys[0]].batchId] + Batches(rows, rest)
  {}

  lemma NoneBefore(rows: map<Key, Row>, keys: seq<Key>, p: nat, some: seq<Key>, q: nat, other: Option<nat>)
    requires p < |keys| && q < |some|
    requires forall j :: 0 <= j <= p ==> keys[j] in rows && rows[keys[j]].batchId != other
    requires forall j :: 0 <= j <= q ==> some[j] in keys[..p + 1]
    ensures forall j :: 0 <= j <= q ==> some[j] in rows && rows[some[j]].batchId != other
  {
    forall j | 0 <= j <= q ensures some[j] in rows && rows[some[j]].batchId != other {
      var m :| 0 <= m <= p && keys[..p + 1][m] == some[j];
      assert keys[m] == some[j];
    }
  }

  /** A staff retry works in order: when it completes a pending row, it completes every pending row of every
      batch that began earlier. */
  lemma StaffRetryInOrder(s: State, group: string, calls: seq<Call>, k: Key, earlier: Key)
    requires Inv(s) && |calls| == MAX_BATCHES_PER_RETRY
    requires IsPending(s, group, k) && IsPending(s, group, earlier)
    requires Earlier(s, group, s.rows[earlier].batchId, s.rows[k].batchId)
    ensures PayloadsStored(DoClearBackoff(s, group).rows)
    ensures var t := FlushLoop(DoClearBackoff(s, group), group, calls).state;
            && k in t.rows && earlier in t.rows
            && (t.rows[k].status == RowStatus.Completed ==> t.rows[earlier].status == RowStatus.Completed)
  {
    StaffRetryDelivers(s, group, calls);
    var pending := PendingSettles(s, group);
    PendingMeans(s, group, k);
    PendingMeans(s, group, earlier);
    var r := FlushLoop(DoClearBackoff(s, group), group, calls);
    hide Inv, FlushLoop, Select, PendingSettles, DoClearBackoff, Batches, IsPending, PayloadsStored;
    if r.state.rows[k].status == RowStatus.Completed {
      var p := EarlierRow(s, group, s.rows[earlier].batchId, s.rows[k].batchId);
      AllPendingStored(s, group);
      EarlierComesFirst(s.rows, pending, p, s.rows[k].batchId, r.sent);
    }
  }

  lemma AllPendingStored(s: State, group: string)
    ensures forall k :: k in PendingSettles(s, group) ==> k in s.rows
  {}

  lemma PendingMeans(s: State, group: string, k: Key)
    ensures k in PendingSettles(s, group) <==> IsPending(s, group, k)
  {}

  /** The early row, in the queue of pending rows. */
  lemma EarlierRow(s: State, group: string, batch: Option<nat>, other: Option<nat>) returns (p: nat)
    requires Earlier(s, group, batch, other)
    ensures var pending := PendingSettles(s, group);
            && p < |pending| && (forall k :: k in pending ==> k in s.rows) && s.rows[pending[p]].batchId == batch
            && forall j :: 0 <= j <= p ==> s.rows[pending[j]].batchId != other
  {
    var i :| 0 <= i < |s.created| && IsPending(s, group, s.created[i]) && s.rows[s.created[i]].batchId == batch
      && forall j :: 0 <= j <= i && IsPending(s, group, s.created[j]) ==> s.rows[s.created[j]].batchId != other;
    p := SelectSplits(s.rows, s.created, Query(Settle, Some(group), None, None), i);
    var pending := PendingSettles(s, group);
    AllPendingStored(s, group);
    hide Select, Matches, IsPending, Earlier;
    forall j | 0 <= j <= p ensures s.rows[pending[j]].batchId != other {
      PendingIsCreated(s, group, pending[j], i);
    }
  }

  lemma PendingIsCreated(s: State, group: string, k: Key, i: nat)
    requires i < |s.created| && k in PendingSettles(s, group) && k in s.created[..i + 1]
    ensures IsPending(s, group, k) && exists m :: 0 <= m <= i && s.created[m] == k
  {
    PendingMeans(s, group, k);
    hide PendingSettles, IsPending;
    var m :| 0 <= m <= i && s.created[..i + 1][m] == k;
    assert s.created[m] == k;
  }

  lemma {:induction false} SelectSplits(rows: map<Key, Row>, created: seq<Key>, q: Query, i: nat) returns (p: nat)
    requires i < |created| && created[i] in rows && Matches(q, created[i], rows[created[i]])
    ensures var keys := Select(rows, created, q); p < |keys| && keys[p] == created[i] && forall j :: 0 <= j <= p ==> keys[j] in created[..i + 1]
  {
    hide Matches;
    var front := created[..|created| - 1];
    var some, keys := Select(rows, front, q), Select(rows, created, q);
    if i == |front| {
      p := |some|;
      assert created[..i + 1] == created && keys[p] == created[i];
      forall j | 0 <= j <= p ensures keys[j] in created {
        assert keys[j] in keys;
      }
    } else {
      p := SelectSplits(rows, front, q, i);
      assert front[..i + 1] == created[..i + 1] && some <= keys;
    }
  }
}
