/** The store as the daemon calls it: statements and transactions over mutable tables. */
module Store {
  import opened Types
  import opened Activity
  import opened Queue

  /** Among finitely many rows one is oldest. */
  lemma {:induction false} OldestExists(rows: map<Uuid, Row>, ids: set<Uuid>, some: Uuid)
    requires some in ids && forall id :: id in ids ==> id in rows
    ensures exists id :: id in ids && forall x :: x in ids ==> rows[id].createdAt <= rows[x].createdAt
    decreases rows[some].createdAt - I64_MIN
  {
    if older :| older in ids && rows[older].createdAt < rows[some].createdAt {
      OldestExists(rows, ids, older);
    }
  }

  class Store {
    var sessions: Sessions
    var rows: map<Uuid, Row>
    var dropped: nat

    ghost function View(): Queue
      reads this
    {
      Queue(rows, dropped)
    }

    constructor Open()
      ensures sessions == map[] && View() == Queue(map[], 0)
    {
      sessions, rows, dropped := map[], map[], 0;
    }

    /** The counter is only written when it changes. */
    method IncrementDropped(amount: nat)
      modifies this`dropped
      ensures dropped == old(dropped) + amount
    {
      if amount == 0 {
        return;
      }
      dropped := dropped + amount;
    }

    method SaveSessions(m: Sessions)
      modifies this`sessions
      ensures sessions == Saved(m)
    {
      sessions := map[];
      var todo := m.Keys;
      while todo != {}
        invariant todo <= m.Keys && sessions.Keys == m.Keys - todo
        invariant forall id :: id in sessions ==> sessions[id] == m[id].Persisted()
      {
        var id :| id in todo;
        sessions := sessions[id := m[id].Persisted()];
        todo := todo - {id};
      }
    }

    method LoadSessions() returns (m: Sessions)
      ensures m == sessions
    {
      m := sessions;
    }

    method PruneQueueIn(now: I64, maxAge: nat)
      modifies this`rows, this`dropped
      ensures View() == Pruned(old(View()), Cutoff(now, maxAge))
    {
      var expired := set id | id in rows && rows[id].createdAt < Cutoff(now, maxAge);
      assert expired == Expired(View(), Cutoff(now, maxAge));
      rows := rows - expired;
      IncrementDropped(|expired|);
    }

    method EnqueueIn(action: Action, now: I64, limit: nat)
      modifies this`rows, this`dropped
      ensures Enqueues(old(View()), action, now, limit, View())
    {
      var count := |rows|;
      if count >= limit && rows != map[] {
        var some :| some in rows.Keys;
        OldestExists(rows, rows.Keys, some);
        assert exists id :: Oldest(rows, id) by {
          var id :| id in rows.Keys && forall x :: x in rows.Keys ==> rows[id].createdAt <= rows[x].createdAt;
          assert Oldest(rows, id);
        }
        var victim :| Oldest(rows, victim);
        rows := rows - {victim};
        IncrementDropped(1);
      }
      assert MakesRoom(old(View()), limit, View());
      ghost var room := View();
      if action.eventId !in rows {
        rows := rows[action.eventId := NewRow(action, now)];
      }
      assert View() == Inserted(room, action, now);
    }

    /** One transaction: the session table, expiry, and the actions in order. */
    method SaveSessionsAndEnqueue(m: Sessions, actions: seq<Action>, now: I64, limit: nat, maxAge: nat)
      modifies this
      ensures sessions == Saved(m)
      ensures Commits(old(View()), actions, now, limit, maxAge, View())
    {
      SaveSessions(m);
      PruneQueueIn(now, maxAge);
      ghost var pruned := View();
      assert pruned == Pruned(old(View()), Cutoff(now, maxAge));
      for i := 0 to |actions|
        invariant sessions == Saved(m)
        invariant EnqueuesAll(pruned, actions[..i], now, limit, View())
      {
        ghost var mid := View();
        EnqueueIn(actions[i], now, limit);
        assert actions[..i + 1][..i] == actions[..i];
        assert EnqueuesAll(pruned, actions[..i + 1], now, limit, View());
      }
      assert actions[..|actions|] == actions;
    }

    method ExpireOld(now: I64, maxAge: nat) returns (removed: nat)
      modifies this`rows, this`dropped
      ensures View() == Pruned(old(View()), Cutoff(now, maxAge))
      ensures removed == |Expired(old(View()), Cutoff(now, maxAge))|
    {
      var expired := set id | id in rows && rows[id].createdAt < Cutoff(now, maxAge);
      assert expired == Expired(View(), Cutoff(now, maxAge));
      removed := |expired|;
      rows := rows - expired;
      IncrementDropped(removed);
    }

    /** Expire, then pick a pending row whose time has come, oldest first. */
    method NextDueRing(now: I64, maxAge: nat) returns (event: Option<(Uuid, Row)>)
      modifies this`rows, this`dropped
      ensures View() == Pruned(old(View()), Cutoff(now, maxAge))
      ensures event.Some? ==> NextDue(rows, now, event.value.0) && event.value.1 == rows[event.value.0]
      ensures event.None? ==> forall id :: id in rows ==> !Due(rows[id], now)
    {
      var _ := ExpireOld(now, maxAge);
      var due := set id | id in rows && Due(rows[id], now);
      if due == {} {
        assert forall id :: id in rows && Due(rows[id], now) ==> id in due;
        return None;
      }
      var some :| some in due;
      OldestExists(rows, due, some);
      var id :| id in due && forall x :: x in due ==> rows[id].createdAt <= rows[x].createdAt;
      return Some((id, rows[id]));
    }

    method MarkDelivered(id: Uuid)
      modifies this`rows
      ensures View() == Deleted(old(View()), id)
      ensures rows == old(rows) - {id}
    {
      rows := rows - {id};
    }

    method MarkRetry(id: Uuid, next: I64, diagnostic: string)
      modifies this`rows
      ensures View() == Retried(old(View()), id, next, diagnostic)
      ensures id !in old(rows) ==> rows == old(rows)
      ensures id in old(rows) ==>
                rows == old(rows)[id := old(rows)[id].(
                  attempts := old(rows)[id].attempts + 1, nextAttempt := next,
                  lastError := Some(if |diagnostic| <= 240 then diagnostic else diagnostic[..240]))]
    {
      if id in rows {
        var r := rows[id];
        rows := rows[id := r.(attempts := r.attempts + 1, nextAttempt := next, lastError := Some(Truncated(diagnostic)))];
      }
    }

    method MarkAuthorizationFailure(id: Uuid, diagnostic: string)
      modifies this`rows
      ensures View() == Refused(old(View()), id, diagnostic)
      ensures id !in old(rows) ==> rows == old(rows)
      ensures id in old(rows) ==>
                rows == old(rows)[id := old(rows)[id].(
                  attempts := old(rows)[id].attempts + 1, status := AuthorizationFailure,
                  lastError := Some(if |diagnostic| <= 240 then diagnostic else diagnostic[..240]))]
    {
      if id in rows {
        var r := rows[id];
        rows := rows[id := r.(status := AuthorizationFailure, attempts := r.attempts + 1,
                              lastError := Some(Truncated(diagnostic)))];
      }
    }

    /** The counter grows by one even if the row was already gone. */
    method DiscardPermanent(id: Uuid)
      modifies this`rows, this`dropped
      ensures View() == Deleted(old(View()), id).(dropped := old(dropped) + 1)
      ensures rows == old(rows) - {id} && dropped == old(dropped) + 1
    {
      rows := rows - {id};
      IncrementDropped(1);
    }
  }
}
