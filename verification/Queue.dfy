/** The durable store of the daemon: the saved sessions, the queue of unsent rings and the drop counter. */
module Queue {
  import opened Types
  import opened Activity

  datatype Status = Pending | AuthorizationFailure

  datatype Row = Row(
    message: Option<string>,
    targets: seq<string>,
    createdAt: I64,
    attempts: nat,
    nextAttempt: I64,
    status: Status,
    lastError: Option<string>)

  /** The ring queue, keyed by event, and the number of events given up so far. */
  datatype Queue = Queue(rows: map<Uuid, Row>, dropped: nat)

  function NewRow(a: Action, now: I64): Row {
    Row(a.message, a.targets, now, 0, now, Pending, None)
  }

  /** Rows created before this instant are too old. */
  function Cutoff(now: I64, maxAge: nat): I64 { SatSubI64(now, ToI64(maxAge)) }

  function Expired(q: Queue, cutoff: I64): set<Uuid> {
    set id | id in q.rows && q.rows[id].createdAt < cutoff
  }

  function DeleteExpired(q: Queue, cutoff: I64): Queue {
    q.(rows := q.rows - Expired(q, cutoff))
  }

  /** Expiry inside a transaction, where the counter is updated with the deletion. */
  function Pruned(q: Queue, cutoff: I64): Queue {
    Queue(q.rows - Expired(q, cutoff), q.dropped + |Expired(q, cutoff)|)
  }

  /** A row no other row is older than; ties are broken arbitrarily. */
  predicate Oldest(rows: map<Uuid, Row>, id: Uuid) {
    id in rows && forall x :: x in rows ==> rows[id].createdAt <= rows[x].createdAt
  }

  /** Room is made by deleting one oldest row when the queue is full. */
  ghost predicate MakesRoom(q: Queue, limit: nat, q': Queue) {
    if |q.rows| < limit || q.rows == map[] then q' == q
    else exists victim :: Oldest(q.rows, victim) && q' == Queue(q.rows - {victim}, q.dropped + 1)
  }

  /** An event already queued keeps its row. */
  function Inserted(q: Queue, a: Action, now: I64): Queue {
    if a.eventId in q.rows then q else q.(rows := q.rows[a.eventId := NewRow(a, now)])
  }

  ghost predicate Enqueues(q: Queue, a: Action, now: I64, limit: nat, q': Queue) {
    exists mid :: MakesRoom(q, limit, mid) && q' == Inserted(mid, a, now)
  }

  ghost predicate EnqueuesAll(q: Queue, actions: seq<Action>, now: I64, limit: nat, q': Queue) {
    if actions == [] then q' == q else
      var rest, last := actions[..|actions| - 1], actions[|actions| - 1];
      exists mid :: EnqueuesAll(q, rest, now, limit, mid) && Enqueues(mid, last, now, limit, q')
  }

  /** What one transaction makes of the queue: expiry, then the actions in order. */
  ghost predicate Commits(q: Queue, actions: seq<Action>, now: I64, limit: nat, maxAge: nat, q': Queue) {
    EnqueuesAll(Pruned(q, Cutoff(now, maxAge)), actions, now, limit, q')
  }

  /** A row that may be submitted now, and that no other such row is older than. */
  predicate NextDue(rows: map<Uuid, Row>, now: I64, id: Uuid) {
    && id in rows && Due(rows[id], now)
    && forall x :: x in rows && Due(rows[x], now) ==> rows[id].createdAt <= rows[x].createdAt
  }

  predicate Due(r: Row, now: I64) { r.status == Pending && r.nextAttempt <= now }

  function Deleted(q: Queue, id: Uuid): Queue { q.(rows := q.rows - {id}) }

  function Retried(q: Queue, id: Uuid, next: I64, diagnostic: string): Queue {
    if id !in q.rows then q else
      var r := q.rows[id];
      q.(rows := q.rows[id := r.(attempts := r.attempts + 1, nextAttempt := next, lastError := Some(Truncated(diagnostic)))])
  }

  function Refused(q: Queue, id: Uuid, diagnostic: string): Queue {
    if id !in q.rows then q else
      var r := q.rows[id];
      q.(rows := q.rows[id := r.(status := AuthorizationFailure, attempts := r.attempts + 1,
                                 lastError := Some(Truncated(diagnostic)))])
  }

  function Truncated(s: string): string { if |s| <= 240 then s else s[..240] }

  /** What a saved table contains: every session without its monotonic clock readings. */
  function Saved(m: Sessions): Sessions { map id | id in m :: m[id].Persisted() }

  // ----- laws of a commit -----

  /** The identifiers of a batch. */
  function EventIds(actions: seq<Action>): set<Uuid> { set a | a in actions :: a.eventId }

  ghost predicate FreshFor(q: Queue, actions: seq<Action>) {
    && (forall a :: a in actions ==> a.eventId !in q.rows)
    && forall i, j :: 0 <= i < j < |actions| ==> actions[i].eventId != actions[j].eventId
  }

  lemma DropOne(rows: map<Uuid, Row>, id: Uuid)
    requires id in rows
    ensures |rows - {id}| == |rows| - 1
  {
    assert (rows - {id}).Keys == rows.Keys - {id};
    assert |rows.Keys| == |rows| && |(rows - {id}).Keys| == |rows - {id}|;
  }

  lemma AddOne(rows: map<Uuid, Row>, id: Uuid, r: Row)
    requires id !in rows
    ensures |rows[id := r]| == |rows| + 1
  {
    assert rows[id := r].Keys == rows.Keys + {id};
    assert |rows.Keys| == |rows| && |rows[id := r].Keys| == |rows[id := r]|;
  }

  lemma PruneCounts(q: Queue, cutoff: I64)
    ensures |Pruned(q, cutoff).rows| + |Expired(q, cutoff)| == |q.rows|
  {
    var stored := Expired(q, cutoff);
    assert (q.rows - stored).Keys == q.rows.Keys - stored;
    assert |q.rows.Keys - stored| == |q.rows.Keys| - |stored|;
    assert |(q.rows - stored).Keys| == |q.rows - stored|;
  }

  /** Expiry keeps exactly the rows that are not past the maximum age, and counts the others. */
  lemma PruningKeepsYoung(q: Queue, now: I64, maxAge: nat)
    requires maxAge <= I64_MAX
    ensures var q' := Pruned(q, Cutoff(now, maxAge));
            && q'.rows == (map id | id in q.rows && now <= q.rows[id].createdAt + maxAge :: q.rows[id])
            && q'.dropped + |q'.rows| == q.dropped + |q.rows|
  {
    PruneCounts(q, Cutoff(now, maxAge));
  }

  /** With room the action's row is added; without, one oldest row goes first and is counted. A row of the event stays. */
  lemma EnqueueSays(q: Queue, a: Action, now: I64, limit: nat, q': Queue)
    requires Enqueues(q, a, now, limit, q')
    ensures var row := Row(a.message, a.targets, now, 0, now, Pending, None);
            if |q.rows| < limit || q.rows == map[] then
              q' == q.(rows := if a.eventId in q.rows then q.rows else q.rows[a.eventId := row])
            else
              exists victim ::
                && victim in q.rows && (forall x :: x in q.rows ==> q.rows[victim].createdAt <= q.rows[x].createdAt)
                && var rest := q.rows - {victim};
                   q' == Queue(if a.eventId in rest then rest else rest[a.eventId := row], q.dropped + 1)
  {
    var mid := Room(q, a, now, limit, q');
    if |q.rows| >= limit && q.rows != map[] {
      var victim :| Oldest(q.rows, victim) && mid == Queue(q.rows - {victim}, q.dropped + 1);
      assert victim in q.rows;
    }
  }

  /** The row picked is pending, its time has come, and no such row is older. */
  lemma NextDueSays(rows: map<Uuid, Row>, now: I64, id: Uuid)
    ensures NextDue(rows, now, id) <==>
              && id in rows && rows[id].status == Pending && rows[id].nextAttempt <= now
              && forall x :: x in rows && rows[x].status == Pending && rows[x].nextAttempt <= now ==> rows[id].createdAt <= rows[x].createdAt
  {
  }

  /** Enqueuing one action keeps the count of rows and drops, and the size bound. */
  lemma EnqueueCounts(q: Queue, a: Action, now: I64, limit: nat, q': Queue)
    requires Enqueues(q, a, now, limit, q') && a.eventId !in q.rows
    ensures |q'.rows| + q'.dropped == |q.rows| + q.dropped + 1
    ensures 1 <= limit ==> |q'.rows| <= Max(limit, |q.rows|)
    ensures a.eventId in q'.rows && q'.rows[a.eventId] == NewRow(a, now)
    ensures forall id :: id in q'.rows && id != a.eventId ==> id in q.rows && q'.rows[id] == q.rows[id]
    ensures q.dropped <= q'.dropped
  {
    var mid :| MakesRoom(q, limit, mid) && q' == Inserted(mid, a, now);
    if |q.rows| >= limit && q.rows != map[] {
      var victim :| Oldest(q.rows, victim) && mid == Queue(q.rows - {victim}, q.dropped + 1);
      DropOne(q.rows, victim);
    }
    AddOne(mid.rows, a.eventId, NewRow(a, now));
  }

  lemma FreshPrefix(q: Queue, rest: seq<Action>, last: Action)
    requires FreshFor(q, rest + [last])
    ensures FreshFor(q, rest) && last.eventId !in q.rows && last.eventId !in EventIds(rest)
    ensures EventIds(rest + [last]) == EventIds(rest) + {last.eventId}
  {
    var all := rest + [last];
    assert last == all[|rest|] && last in all;
    forall a | a in rest ensures a in all && a.eventId != last.eventId {
      var i :| 0 <= i < |rest| && rest[i] == a;
      assert all[i] == a && all[i].eventId != all[|rest|].eventId;
    }
    forall i, j | 0 <= i < j < |rest| ensures rest[i].eventId != rest[j].eventId {
      assert all[i].eventId != all[j].eventId;
    }
    assert forall a :: a in all <==> a in rest || a == last;
  }

  /** Every row was there before, or is a pristine one of the batch. */
  ghost predicate OldOrPristine(q: Queue, ids: set<Uuid>, now: I64, q': Queue) {
    forall id :: id in q'.rows ==>
      || (id in q.rows && q'.rows[id] == q.rows[id])
      || (id in ids && q'.rows[id].createdAt == now && q'.rows[id].nextAttempt == now
          && q'.rows[id].attempts == 0 && q'.rows[id].status == Pending)
  }

  /**
   Committing fresh events loses none silently: rows plus drops grow by exactly the events committed; no row
   appears except theirs; and the queue never outgrows its limit, unless it already had.
   */
  lemma {:induction false} BatchCounts(q: Queue, actions: seq<Action>, now: I64, limit: nat, q': Queue)
    requires EnqueuesAll(q, actions, now, limit, q') && FreshFor(q, actions)
    ensures |q'.rows| + q'.dropped == |q.rows| + q.dropped + |actions|
    ensures 1 <= limit ==> |q'.rows| <= Max(limit, |q.rows|)
    ensures q.dropped <= q'.dropped
    ensures OldOrPristine(q, EventIds(actions), now, q')
  {
    hide Enqueues, FreshFor, EventIds;
    if actions == [] {
    } else {
      var rest, last := actions[..|actions| - 1], actions[|actions| - 1];
      var mid :| EnqueuesAll(q, rest, now, limit, mid) && Enqueues(mid, last, now, limit, q');
      assert actions == rest + [last];
      FreshPrefix(q, rest, last);
      BatchCounts(q, rest, now, limit, mid);
      EnqueueCounts(mid, last, now, limit, q');
    }
  }

  /** Every row was there before, or is the row of an action of the batch. */
  ghost predicate OldOrMade(q: Queue, actions: seq<Action>, now: I64, q': Queue) {
    forall id :: id in q'.rows ==>
      || (id in q.rows && q'.rows[id] == q.rows[id])
      || exists a :: a in actions && a.eventId == id && q'.rows[id] == NewRow(a, now)
  }

  lemma MadeNext(q: Queue, rest: seq<Action>, last: Action, now: I64, mid: Queue, q': Queue)
    requires OldOrMade(q, rest, now, mid)
    requires last.eventId in q'.rows && q'.rows[last.eventId] == NewRow(last, now)
    requires forall id :: id in q'.rows && id != last.eventId ==> id in mid.rows && q'.rows[id] == mid.rows[id]
    ensures OldOrMade(q, rest + [last], now, q')
  {
    var actions := rest + [last];
    assert forall a :: a in actions <==> a in rest || a == last;
    assert last in actions;
  }

  lemma {:induction false} BatchRows(q: Queue, actions: seq<Action>, now: I64, limit: nat, q': Queue)
    requires EnqueuesAll(q, actions, now, limit, q') && FreshFor(q, actions)
    ensures OldOrMade(q, actions, now, q')
  {
    hide Enqueues, FreshFor, EventIds;
    if actions == [] {
    } else {
      hide OldOrMade;
      var rest, last := actions[..|actions| - 1], actions[|actions| - 1];
      var mid :| EnqueuesAll(q, rest, now, limit, mid) && Enqueues(mid, last, now, limit, q');
      assert actions == rest + [last];
      FreshPrefix(q, rest, last);
      BatchRows(q, rest, now, limit, mid);
      BatchCounts(q, rest, now, limit, mid);
      EnqueueCounts(mid, last, now, limit, q');
      MadeNext(q, rest, last, now, mid, q');
    }
  }

  /** What a batch that postdates every stored row leaves of those rows: the newest ones. */
  ghost predicate KeepsNewest(q: Queue, actions: seq<Action>, now: I64, q': Queue) {
    && (forall a :: a in actions ==> a.eventId in q'.rows && q'.rows[a.eventId] == NewRow(a, now))
    && (forall id :: id in q'.rows && id !in EventIds(actions) ==> id in q.rows && q'.rows[id] == q.rows[id])
    && (forall x, y :: x in q.rows && x !in q'.rows && y in q'.rows && y !in EventIds(actions)
                       ==> q.rows[x].createdAt <= q'.rows[y].createdAt)
  }

  lemma EvictionKeepsNewest(q: Queue, actions: seq<Action>, now: I64, mid: Queue, victim: Uuid)
    requires KeepsNewest(q, actions, now, mid)
    requires Oldest(mid.rows, victim) && victim !in EventIds(actions)
    ensures KeepsNewest(q, actions, now, Queue(mid.rows - {victim}, mid.dropped + 1))
  {
    var room := Queue(mid.rows - {victim}, mid.dropped + 1);
    forall a | a in actions ensures a.eventId in room.rows {
      assert a.eventId in EventIds(actions);
    }
  }

  lemma InsertionKeepsNewest(q: Queue, rest: seq<Action>, last: Action, now: I64, mid: Queue)
    requires KeepsNewest(q, rest, now, mid)
    requires last.eventId !in mid.rows && last.eventId !in q.rows
    requires EventIds(rest + [last]) == EventIds(rest) + {last.eventId}
    ensures KeepsNewest(q, rest + [last], now, Inserted(mid, last, now))
  {
    assert forall a :: a in rest + [last] <==> a in rest || a == last;
    hide EventIds;
  }

  lemma EvictsStored(q: Queue, rest: seq<Action>, last: Action, now: I64, limit: nat, mid: Queue, q': Queue)
    requires FreshFor(q, rest + [last]) && |rest| < limit
    requires forall id :: id in q.rows ==> q.rows[id].createdAt < now
    requires KeepsNewest(q, rest, now, mid) && |mid.rows| == Min(|q.rows| + |rest|, limit)
    requires Enqueues(mid, last, now, limit, q')
    ensures KeepsNewest(q, rest + [last], now, q')
    ensures |q'.rows| == Min(|q.rows| + |rest| + 1, limit)
  {
    hide KeepsNewest, Enqueues, FreshFor;
    FreshPrefix(q, rest, last);
    NoSuchRow(q, rest, last, now, mid);
    EnqueueSize(mid, last, now, limit, q');
    var room := Room(mid, last, now, limit, q');
    if |mid.rows| >= limit {
      var victim :| Oldest(mid.rows, victim) && room == Queue(mid.rows - {victim}, mid.dropped + 1);
      VictimIsStored(q, rest, now, limit, mid, victim);
      EvictionKeepsNewest(q, rest, now, mid, victim);
    }
    InsertionKeepsNewest(q, rest, last, now, room);
  }

  lemma NoSuchRow(q: Queue, rest: seq<Action>, last: Action, now: I64, mid: Queue)
    requires KeepsNewest(q, rest, now, mid)
    requires last.eventId !in EventIds(rest) && last.eventId !in q.rows
    ensures last.eventId !in mid.rows
  {
  }

  /** The queue between making room and inserting. */
  lemma Room(q: Queue, a: Action, now: I64, limit: nat, q': Queue) returns (room: Queue)
    requires Enqueues(q, a, now, limit, q')
    ensures MakesRoom(q, limit, room) && q' == Inserted(room, a, now)
  {
    room :| MakesRoom(q, limit, room) && q' == Inserted(room, a, now);
  }

  lemma EnqueueSize(q: Queue, a: Action, now: I64, limit: nat, q': Queue)
    requires Enqueues(q, a, now, limit, q') && a.eventId !in q.rows && 1 <= limit
    ensures |q'.rows| == if |q.rows| < limit then |q.rows| + 1 else |q.rows|
  {
    var mid :| MakesRoom(q, limit, mid) && q' == Inserted(mid, a, now);
    if |q.rows| >= limit {
      var victim :| Oldest(q.rows, victim) && mid == Queue(q.rows - {victim}, q.dropped + 1);
      DropOne(q.rows, victim);
    }
    AddOne(mid.rows, a.eventId, NewRow(a, now));
  }

  /** A full queue holds a row that was there before the batch, so no event of the batch is the oldest. */
  lemma VictimIsStored(q: Queue, rest: seq<Action>, now: I64, limit: nat, mid: Queue, victim: Uuid)
    requires |rest| < limit <= |mid.rows| && KeepsNewest(q, rest, now, mid)
    requires forall id :: id in q.rows ==> q.rows[id].createdAt < now
    requires Oldest(mid.rows, victim)
    ensures victim !in EventIds(rest)
  {
    var stored := SomeStored(rest, mid);
    assert mid.rows[victim].createdAt <= mid.rows[stored].createdAt < now;
    forall a | a in rest ensures a.eventId != victim {
    }
  }

  /** More rows than events in the batch. */
  lemma SomeStored(rest: seq<Action>, mid: Queue) returns (stored: Uuid)
    requires |rest| < |mid.rows|
    ensures stored in mid.rows && stored !in EventIds(rest)
  {
    BatchIsSmall(rest);
    assert |mid.rows.Keys| == |mid.rows|;
    if mid.rows.Keys <= EventIds(rest) {
      SubsetSize(mid.rows.Keys, EventIds(rest));
      assert false;
    }
    stored :| stored in mid.rows && stored !in EventIds(rest);
  }

  lemma SubsetSize(a: set<Uuid>, b: set<Uuid>)
    requires a <= b
    ensures |a| <= |b|
  {
    assert b == a + (b - a);
  }

  lemma {:induction false} BatchIsSmall(actions: seq<Action>)
    ensures |EventIds(actions)| <= |actions|
  {
    if actions == [] {
    } else {
      var rest, last := actions[..|actions| - 1], actions[|actions| - 1];
      BatchIsSmall(rest);
      assert actions == rest + [last];
      assert EventIds(actions) == EventIds(rest) + {last.eventId};
    }
  }

  lemma NothingEnqueued(q: Queue, now: I64)
    ensures KeepsNewest(q, [], now, q)
  {
  }

  lemma {:induction false} BatchKeepsNewest(q: Queue, actions: seq<Action>, now: I64, limit: nat, q': Queue)
    requires EnqueuesAll(q, actions, now, limit, q') && FreshFor(q, actions)
    requires |actions| <= limit && |q.rows| <= limit
    requires forall id :: id in q.rows ==> q.rows[id].createdAt < now
    ensures KeepsNewest(q, actions, now, q')
    ensures |q'.rows| == Min(|q.rows| + |actions|, limit)
  {
    hide Enqueues, KeepsNewest;
    if actions == [] {
      assert KeepsNewest(q, [], now, q) by { NothingEnqueued(q, now); }
    } else {
      var rest, last := actions[..|actions| - 1], actions[|actions| - 1];
      var mid :| EnqueuesAll(q, rest, now, limit, mid) && Enqueues(mid, last, now, limit, q');
      assert actions == rest + [last];
      FreshPrefix(q, rest, last);
      BatchKeepsNewest(q, rest, now, limit, mid);
      EvictsStored(q, rest, last, now, limit, mid, q');
    }
  }

  /**
   A commit of at most `limit` fresh events, later than every stored row, stores them all; the queue ends with
   as many rows as fit; the rows given up are the expired ones and then the oldest; and the counter grows by
   exactly their number.
   */
  lemma BoundedBatchEnqueue(q: Queue, actions: seq<Action>, now: I64, limit: nat, maxAge: nat, q': Queue)
    requires Commits(q, actions, now, limit, maxAge, q') && FreshFor(q, actions)
    requires |actions| <= limit && |q.rows| <= limit
    requires forall id :: id in q.rows ==> q.rows[id].createdAt < now
    ensures var expired := Expired(q, Cutoff(now, maxAge));
            var unexpired := |q.rows| - |expired|;
            && KeepsNewest(Pruned(q, Cutoff(now, maxAge)), actions, now, q')
            && |q'.rows| == Min(unexpired + |actions|, limit)
            && q'.dropped == q.dropped + |expired| + Max(0, unexpired + |actions| - limit)
  {
    var p := Pruned(q, Cutoff(now, maxAge));
    PruneCounts(q, Cutoff(now, maxAge));
    BatchKeepsNewest(p, actions, now, limit, q');
    BatchCounts(p, actions, now, limit, q');
  }

  lemma EnqueueBounded(q: Queue, a: Action, now: I64, limit: nat, q': Queue)
    requires Enqueues(q, a, now, limit, q') && 1 <= limit
    ensures |q'.rows| <= Max(limit, |q.rows|)
    ensures |q.rows| + q.dropped <= |q'.rows| + q'.dropped <= |q.rows| + q.dropped + 1
  {
    var mid := Room(q, a, now, limit, q');
    if |q.rows| >= limit && q.rows != map[] {
      var victim :| Oldest(q.rows, victim) && mid == Queue(q.rows - {victim}, q.dropped + 1);
      DropOne(q.rows, victim);
    }
    if a.eventId !in mid.rows {
      AddOne(mid.rows, a.eventId, NewRow(a, now));
    }
  }

  lemma {:induction false} BatchBounded(q: Queue, actions: seq<Action>, now: I64, limit: nat, q': Queue)
    requires EnqueuesAll(q, actions, now, limit, q') && 1 <= limit
    ensures |q'.rows| <= Max(limit, |q.rows|)
    ensures |q.rows| + q.dropped <= |q'.rows| + q'.dropped <= |q.rows| + q.dropped + |actions|
  {
    if actions == [] {
    } else {
      hide Enqueues;
      var rest, last := actions[..|actions| - 1], actions[|actions| - 1];
      var mid :| EnqueuesAll(q, rest, now, limit, mid) && Enqueues(mid, last, now, limit, q');
      BatchBounded(q, rest, now, limit, mid);
      EnqueueBounded(mid, last, now, limit, q');
    }
  }

  /**
   In general, too, even for events already queued, the queue never outgrows its limit, unless it already had; and a
   commit adds at most one row or drop for each action, exactly one for each if all are fresh.
   */
  lemma CommitBounded(q: Queue, actions: seq<Action>, now: I64, limit: nat, maxAge: nat, q': Queue)
    requires Commits(q, actions, now, limit, maxAge, q') && 1 <= limit
    ensures |q'.rows| <= Max(limit, |q.rows|)
    ensures |q.rows| + q.dropped <= |q'.rows| + q'.dropped <= |q.rows| + q.dropped + |actions|
    ensures FreshFor(q, actions) ==> |q'.rows| + q'.dropped == |q.rows| + q.dropped + |actions|
  {
    var p := Pruned(q, Cutoff(now, maxAge));
    PruneCounts(q, Cutoff(now, maxAge));
    BatchBounded(p, actions, now, limit, q');
    if FreshFor(q, actions) {
      BatchCounts(p, actions, now, limit, q');
    }
  }

  // ----- saved sessions -----

  /**
   What is read back from disk is what was in memory without the two monotonic readings, and neither recovering it
   nor saving it again can tell the difference.
   */
  lemma LoadedIsAsGood(m: Sessions, nowMono: U64, nowWall: I64)
    ensures Saved(m).Keys == m.Keys && Saved(Saved(m)) == Saved(m)
    ensures forall id :: id in m ==>
              && Saved(m)[id].commandStarted == None && Saved(m)[id].deadlineMono == None
              && m[id] == Saved(m)[id].(commandStarted := m[id].commandStarted, deadlineMono := m[id].deadlineMono)
              && Saved(m)[id].RecoverLiveTiming(nowMono, nowWall) == m[id].RecoverLiveTiming(nowMono, nowWall)
  {
    assert Saved(Saved(m)).Keys == Saved(m).Keys;
    forall id | id in m ensures Saved(m)[id].Persisted() == Saved(m)[id] {
    }
  }
}
