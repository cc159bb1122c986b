/** What every step of the daemon keeps, and what follows for every run. */
module DaemonLaws {
  import opened Types
  import opened Activity
  import opened Bursts
  import opened Queue
  import opened Retry
  import opened Daemon

  ghost predicate Distinct(ids: seq<Uuid>) {
    forall i, j :: 0 <= i < j < |ids| ==> ids[i] != ids[j]
  }

  // ----- the books: one ring per burst, across crashes -----

  /** A session read back from disk. */
  ghost predicate ValidOnDisk(s: Session) {
    && s == s.Persisted() && s.state != Notified
    && (s.mode == Off <==> s.state == Disarmed)
    && (s.state == Disarmed || s.state == Armed ==> s == s.ResetBurst())
    && (s.state == Settling ==> s.burstId.Some? && s.deadlineWall.Some?)
    && (s.mode == Once ==> !s.burstNotified)
  }

  ghost predicate ValidDisk(m: Sessions) {
    forall id :: id in m ==> ValidOnDisk(m[id]) && m[id].id == id
  }

  ghost predicate Books(n: Node) {
    && ValidTable(n.mem) && ValidDisk(n.disk)
    && (!n.up ==> n.mem == map[])
    && BurstsMarked(n.mem, n.log.rung, n.log.bursts)
    && BurstsMarked(n.disk, n.log.rung, n.log.bursts)
    && OneRingPerBurst(n.log.rung)
    && (forall r :: r in n.log.rung ==> r.1 in n.log.inserted)
  }

  lemma SavedIsValid(m: Sessions, rung: set<(Uuid, Uuid)>, bursts: set<Uuid>)
    requires ValidTable(m) && BurstsMarked(m, rung, bursts)
    ensures ValidDisk(Saved(m)) && BurstsMarked(Saved(m), rung, bursts)
  {
    SubtableKeepsMarks(m, Saved(m), rung, bursts);
  }

  lemma RecoveryOfSaved(s: Session, now: I64)
    requires ValidOnDisk(s)
    ensures var s' := s.RecoverLiveTiming(0, now);
            && s'.Valid() && s'.id == s.id
            && (s'.burstId == None || (s'.burstId == s.burstId && s'.burstNotified == s.burstNotified))
  {
  }

  lemma ResumedIsValid(disk: Sessions, alive: set<Uuid>, now: I64, rung: set<(Uuid, Uuid)>, bursts: set<Uuid>)
    requires ValidDisk(disk) && BurstsMarked(disk, rung, bursts)
    ensures ValidTable(Resumed(disk, alive, now)) && BurstsMarked(Resumed(disk, alive, now), rung, bursts)
  {
    var m := Resumed(disk, alive, now);
    forall id | id in m
      ensures m[id].Valid() && m[id].id == id
      ensures m[id].burstId == None || (m[id].burstId == disk[id].burstId && m[id].burstNotified == disk[id].burstNotified)
    {
      RecoveryOfSaved(disk[id], now);
    }
    SubtableKeepsMarks(disk, m, rung, bursts);
  }

  /** Every ring counted for a burst is among the events of the step. */
  lemma RungAreInserted(m: Sessions, e: Event)
    ensures forall r :: r in RungBy(m, e) ==> r.1 in Ids(Apply(m, e).1)
  {
    hide Apply;
    forall r | r in RungBy(m, e) ensures r.1 in Ids(Apply(m, e).1) {
      var a :| a in Apply(m, e).1 && CountsForBurst(m, a) && r == (m[a.sessionId.value].burstId.value, a.eventId);
      var i :| 0 <= i < |Apply(m, e).1| && Apply(m, e).1[i] == a;
      assert Ids(Apply(m, e).1)[i] == r.1;
    }
  }

  /** The engine part of a step keeps the books of memory; if nothing rang, those of the disk too. */
  lemma EngineKeepsBooks(n: Node, e: Event)
    requires Books(n) && n.up && Proper(e) && DrawnBurst(e) !! n.log.bursts
    ensures var n' := NextEngine(n, e);
            && ValidTable(n'.mem)
            && BurstsMarked(n'.mem, n'.log.rung, n'.log.bursts)
            && OneRingPerBurst(n'.log.rung)
            && (forall r :: r in n'.log.rung ==> r.1 in n'.log.inserted)
            && (Apply(n.mem, e).1 == [] ==> BurstsMarked(n'.disk, n'.log.rung, n'.log.bursts))
  {
    ApplyKeepsTable(n.mem, e);
    StepKeepsBooks(n.mem, e, n.log.rung, n.log.bursts);
    RungAreInserted(n.mem, e);
    hide Apply;
  }

  lemma SavingKeepsBooks(n: Node)
    requires n.up && ValidTable(n.mem) && BurstsMarked(n.mem, n.log.rung, n.log.bursts) && OneRingPerBurst(n.log.rung)
    requires forall r :: r in n.log.rung ==> r.1 in n.log.inserted
    ensures Books(n.(disk := Saved(n.mem)))
  {
    SavedIsValid(n.mem, n.log.rung, n.log.bursts);
  }

  lemma ArmingRingsNot(m: Sessions, arm: Event)
    requires arm.Arm? || arm.Start?
    ensures Apply(m, arm).1 == []
  {
  }

  lemma EmptyTableMarked(m: Sessions, rung: set<(Uuid, Uuid)>, bursts: set<Uuid>)
    requires BurstsMarked(m, rung, bursts)
    ensures ValidTable(map[]) && BurstsMarked(map[], rung, bursts)
  {
  }

  lemma SweepKeepsBooks(n: Node, alive: set<Uuid>, now: I64)
    requires Books(n) && n.up
    ensures var m := Swept(n.mem, alive, now);
            Books(n.(mem := m, disk := if m == n.mem then n.disk else Saved(m)))
  {
    var m := Swept(n.mem, alive, now);
    SubtableKeepsMarks(n.mem, m, n.log.rung, n.log.bursts);
    SavingKeepsBooks(n.(mem := m));
  }

  lemma BooksKept(c: Config, n: Node, s: Step)
    requires Books(n) && Enabled(c, n, s)
    ensures Books(Next(c, n, s))
  {
    hide Apply, BurstsMarked, ValidTable, ValidDisk, QueueAfter, RungBy, OneRingPerBurst, DrawnEvents;
    hide DrawnBurst, Swept, Resumed, Saved;
    match s
    case Request(e, _) =>
      EngineKeepsBooks(n, e);
      SavingKeepsBooks(NextEngine(n, e));
    case ArmAndStart(arm, start) =>
      ArmingKeepsBooks(n, arm, start);
    case Timer(tick, _) =>
      EngineKeepsBooks(n, tick);
      SavingKeepsBooks(NextEngine(n, tick));
    case Sweep(alive, now) =>
      SweepKeepsBooks(n, alive, now);
    case Shutdown =>
      SavingKeepsBooks(n);
      EmptyTableMarked(n.mem, n.log.rung, n.log.bursts);
    case Crash =>
      EmptyTableMarked(n.mem, n.log.rung, n.log.bursts);
    case Restart(alive, now) =>
      ResumedIsValid(n.disk, alive, now, n.log.rung, n.log.bursts);
      SavingKeepsBooks(n.(up := true, mem := Resumed(n.disk, alive, now)));
    case _ =>
  }

  lemma ArmingKeepsBooks(n: Node, arm: Event, start: Event)
    requires Books(n) && n.up && arm.Arm? && Proper(arm) && start.Start?
    requires DrawnBurst(start) !! n.log.bursts
    ensures var n' := NextEngine(NextEngine(n, arm), start);
            Books(n'.(disk := Saved(n'.mem)))
  {
    EngineKeepsBooks(n, arm);
    ArmingRingsNot(n.mem, arm);
    var armed := NextEngine(n, arm);
    assert armed.log.bursts == n.log.bursts;
    SavingKeepsBooks(armed);
    EngineKeepsBooks(armed.(disk := Saved(armed.mem)), start);
    SavingKeepsBooks(NextEngine(armed, start));
  }

  lemma {:induction false} BooksOverRuns(c: Config, steps: seq<Step>, n: Node)
    requires Run(c, steps, n)
    ensures Books(n)
  {
    if steps == [] {
    } else {
      var before :| Run(c, steps[..|steps| - 1], before)
                    && Enabled(c, before, steps[|steps| - 1]) && n == Next(c, before, steps[|steps| - 1]);
      BooksOverRuns(c, steps[..|steps| - 1], before);
      BooksKept(c, before, steps[|steps| - 1]);
    }
  }

  // ----- the counts: no event disappears silently -----

  ghost predicate Counts(n: Node) {
    && Distinct(n.log.inserted) && Distinct(n.log.delivered)
    && (forall id :: id in n.log.inserted ==> id in n.log.events)
    && (forall id :: id in n.log.delivered ==> id in n.log.inserted && id !in n.queue.rows)
    && (forall id :: id in n.queue.rows ==> id in n.log.inserted)
    && |n.log.inserted| + n.log.phantom
       == |n.queue.rows| + |n.log.delivered| + n.queue.dropped + Owed(n.worker) + n.log.lost
  }

  /** The events of an engine step are new and distinct. */
  ghost predicate NewIds(actions: seq<Action>, events: set<Uuid>) {
    && (forall a :: a in actions ==> a.eventId !in events)
    && forall i, j :: 0 <= i < j < |actions| ==> actions[i].eventId != actions[j].eventId
  }

  lemma WordingKeepsIds(actions: seq<Action>, message: string, events: set<Uuid>)
    requires NewIds(actions, events)
    ensures NewIds(AllWorded(actions, message), events)
    ensures Ids(AllWorded(actions, message)) == Ids(actions) && EventIds(AllWorded(actions, message)) == EventIds(actions)
  {
    var worded := AllWorded(actions, message);
    forall a | a in worded ensures a.eventId !in events && a.eventId in EventIds(actions) {
      var i :| 0 <= i < |worded| && worded[i] == a;
      assert actions[i] in actions && actions[i].eventId == a.eventId;
    }
    forall id | id in EventIds(actions) ensures id in EventIds(worded) {
      var a :| a in actions && a.eventId == id;
      var i :| 0 <= i < |actions| && actions[i] == a;
      assert worded[i] in worded && worded[i].eventId == id;
    }
  }

  /** One commit adds its events to the queue or to the drops. */
  lemma CommitCounts(c: Config, q: Queue, actions: seq<Action>, now: I64, q': Queue, inserted: seq<Uuid>, events: set<Uuid>)
    requires QueueAfter(c, q, actions, now, q') && NewIds(actions, events)
    requires forall id :: id in q.rows ==> id in inserted
    requires forall id :: id in inserted ==> id in events
    ensures |q'.rows| + q'.dropped == |q.rows| + q.dropped + |actions|
    ensures OldOrPristine(q, EventIds(actions), now, q')
  {
    var p := Pruned(q, Cutoff(now, c.maxAge));
    if actions != [] {
      PruneCounts(q, Cutoff(now, c.maxAge));
      assert FreshFor(p, actions);
      BatchCounts(p, actions, now, c.queueLimit, q');
    }
  }

  lemma EventIdsAreIds(actions: seq<Action>, id: Uuid)
    ensures id in EventIds(actions) <==> id in Ids(actions)
  {
    if id in EventIds(actions) {
      var a :| a in actions && a.eventId == id;
      var i :| 0 <= i < |actions| && actions[i] == a;
      assert Ids(actions)[i] == id;
    }
    if id in Ids(actions) {
      var i :| 0 <= i < |Ids(actions)| && Ids(actions)[i] == id;
      assert actions[i] in actions;
    }
  }

  lemma OneIsDistinct(id: Uuid)
    ensures Distinct([id])
  {
  }

  lemma DistinctConcat(a: seq<Uuid>, b: seq<Uuid>)
    requires Distinct(a) && Distinct(b) && forall id :: id in b ==> id !in a
    ensures Distinct(a + b)
  {
    forall i, j | 0 <= i < j < |a + b| ensures (a + b)[i] != (a + b)[j] {
      if i < |a| <= j {
        assert b[j - |a|] in b && a[i] in a;
      }
    }
  }

  /** The log and queue part of a step that commits. */
  lemma CommittingKeepsCounts(c: Config, n: Node, actions: seq<Action>, now: I64, q': Queue, n': Node)
    requires Counts(n) && QueueAfter(c, n.queue, actions, now, q') && NewIds(actions, n.log.events)
    requires n'.queue == q' && n'.worker == n.worker
    requires n'.log.inserted == n.log.inserted + Ids(actions)
    requires n'.log.delivered == n.log.delivered && n'.log.lost == n.log.lost && n'.log.phantom == n.log.phantom
    requires n.log.events <= n'.log.events && forall a :: a in actions ==> a.eventId in n'.log.events
    ensures Counts(n')
  {
    CommitCounts(c, n.queue, actions, now, q', n.log.inserted, n.log.events);
    hide QueueAfter, EventIds, Distinct;
    forall id ensures id in EventIds(actions) <==> id in Ids(actions) {
      EventIdsAreIds(actions, id);
    }
    forall id | id in Ids(actions) ensures id !in n.log.events && id in n'.log.events {
      var i :| 0 <= i < |actions| && Ids(actions)[i] == id;
      assert actions[i] in actions;
    }
    NewIdsDistinct(actions, n.log.events);
    DistinctConcat(n.log.inserted, Ids(actions));
  }

  lemma NewIdsDistinct(actions: seq<Action>, events: set<Uuid>)
    requires NewIds(actions, events)
    ensures Distinct(Ids(actions))
  {
  }

  lemma EngineIdsAreNew(n: Node, e: Event)
    requires ValidTable(n.mem) && DrawsFresh(n.mem, e, n.log.bursts, n.log.events)
    ensures NewIds(Apply(n.mem, e).1, n.log.events)
    ensures forall a :: a in Apply(n.mem, e).1 ==> a.eventId in DrawnEvents(n.mem, e)
  {
    RingsAreFresh(n.mem, e, n.log.bursts, n.log.events);
  }

  lemma TimerKeepsCounts(c: Config, n: Node, tick: Event, q': Queue)
    requires Books(n) && Counts(n) && Enabled(c, n, Timer(tick, q'))
    ensures Counts(Next(c, n, Timer(tick, q')))
  {
    hide Apply, Books;
    var rings := Apply(n.mem, tick).1;
    assert ValidTable(n.mem) by { BooksGiveTable(n); }
    EngineIdsAreNew(n, tick);
    WordingKeepsIds(rings, c.automaticMessage, n.log.events);
    var actions := AllWorded(rings, c.automaticMessage);
    forall a | a in actions ensures a.eventId in DrawnEvents(n.mem, tick) {
      var i :| 0 <= i < |actions| && actions[i] == a;
      assert rings[i] in rings && rings[i].eventId == a.eventId;
    }
    CommittingKeepsCounts(c, n, actions, tick.wall, q', Next(c, n, Timer(tick, q')));
  }

  lemma BooksGiveTable(n: Node)
    requires Books(n)
    ensures ValidTable(n.mem)
  {
  }

  lemma RequestKeepsCounts(c: Config, n: Node, e: Event, q': Queue)
    requires Books(n) && Counts(n) && Enabled(c, n, Request(e, q'))
    ensures Counts(Next(c, n, Request(e, q')))
  {
    hide Apply, Books;
    assert ValidTable(n.mem) by { BooksGiveTable(n); }
    EngineIdsAreNew(n, e);
    CommittingKeepsCounts(c, n, Apply(n.mem, e).1, WallOf(e), q', Next(c, n, Request(e, q')));
  }

  lemma DeletingCounts(n: Node, id: Uuid)
    requires Counts(n) && id in n.queue.rows
    ensures |Deleted(n.queue, id).rows| == |n.queue.rows| - 1
    ensures id in n.log.inserted && id !in n.log.delivered
  {
    DropOne(n.queue.rows, id);
  }

  lemma ExpiringCounts(c: Config, n: Node, now: I64)
    requires Counts(n)
    ensures |DeleteExpired(n.queue, Cutoff(now, c.maxAge)).rows| + |Expired(n.queue, Cutoff(now, c.maxAge))| == |n.queue.rows|
  {
    PruneCounts(n.queue, Cutoff(now, c.maxAge));
  }

  lemma UpdateCounts(rows: map<Uuid, Row>, id: Uuid, r: Row)
    requires id in rows
    ensures |rows[id := r]| == |rows|
  {
    assert rows[id := r].Keys == rows.Keys;
    assert |rows.Keys| == |rows| && |rows[id := r].Keys| == |rows[id := r]|;
  }

  lemma ArmingKeepsCounts(c: Config, n: Node, arm: Event, start: Event)
    requires Counts(n) && Enabled(c, n, ArmAndStart(arm, start))
    ensures Counts(Next(c, n, ArmAndStart(arm, start)))
  {
    hide Apply, DrawsFresh;
    ArmingRingsNot(n.mem, arm);
    ArmingRingsNot(NextEngine(n, arm).mem, start);
    assert n.log.inserted + [] + [] == n.log.inserted;
  }

  lemma ExpiryKeepsCounts(c: Config, n: Node, now: I64, selecting: bool)
    requires Counts(n) && Enabled(c, n, Expire(now, selecting))
    ensures Counts(Next(c, n, Expire(now, selecting)))
  {
    hide Distinct;
    ExpiringCounts(c, n, now);
  }

  /** The count law when the submitted row goes: delivered, or given up and owed to the counter. */
  lemma RemovalKeepsCounts(n: Node, n': Node, id: Uuid)
    requires Counts(n) && Owed(n.worker) == 0 && n'.queue == Deleted(n.queue, id)
    requires n'.log.inserted == n.log.inserted && n'.log.events == n.log.events && n'.log.lost == n.log.lost
    requires if id in n.queue.rows && Owed(n'.worker) == 0 then n'.log.delivered == n.log.delivered + [id]
             else n'.log.delivered == n.log.delivered
    requires Owed(n'.worker) <= 1
    requires n'.log.phantom == n.log.phantom + if id in n.queue.rows then 0 else Owed(n'.worker)
    ensures Counts(n')
  {
    hide Distinct;
    if id in n.queue.rows {
      DeletingCounts(n, id);
      OneIsDistinct(id);
      DistinctConcat(n.log.delivered, [id]);
      assert forall x :: x in n.log.delivered + [id] <==> x in n.log.delivered || x == id;
    } else {
      assert Deleted(n.queue, id).rows == n.queue.rows;
    }
  }

  lemma MarkingKeepsCounts(c: Config, n: Node, s: Step)
    requires Counts(n) && (s.Refuse? || s.Fail?) && Enabled(c, n, s)
    ensures Counts(Next(c, n, s))
  {
    if n.worker.id in n.queue.rows {
      UpdateCounts(n.queue.rows, n.worker.id, Next(c, n, s).queue.rows[n.worker.id]);
    }
  }

  lemma CountsKept(c: Config, n: Node, s: Step)
    requires Books(n) && Counts(n) && Enabled(c, n, s)
    ensures Counts(Next(c, n, s))
  {
    match s
    case Request(e, q') => RequestKeepsCounts(c, n, e, q');
    case Timer(tick, q') => TimerKeepsCounts(c, n, tick, q');
    case ArmAndStart(arm, start) => ArmingKeepsCounts(c, n, arm, start);
    case Expire(now, selecting) => ExpiryKeepsCounts(c, n, now, selecting);
    case Accept => RemovalKeepsCounts(n, Next(c, n, s), n.worker.id);
    case Reject => RemovalKeepsCounts(n, Next(c, n, s), n.worker.id);
    case Refuse(_) => MarkingKeepsCounts(c, n, s);
    case Fail(_, _) => MarkingKeepsCounts(c, n, s);
    case _ => QuietKeepsCounts(c, n, s);
  }

  lemma QuietKeepsCounts(c: Config, n: Node, s: Step)
    requires Counts(n) && Enabled(c, n, s)
    requires s.Sweep? || s.Count? || s.Select? || s.SelectNone? || s.Crash? || s.Shutdown? || s.Restart?
    ensures Counts(Next(c, n, s))
  {
    hide Apply, Books, QueueAfter, DrawsFresh, Swept, Resumed, Saved, Distinct;
  }

  /**
   In every run, every inserted event is still queued, was deleted as delivered, or was given up and counted:
   in the counter, or owed to it, or lost to it by a crash between a deletion and its count. `phantom` is what the
   counter got for rows that had been given up before their permanent failure was reported.
   */
  lemma {:induction false} NoSilentLoss(c: Config, steps: seq<Step>, n: Node)
    requires Run(c, steps, n)
    ensures Books(n) && Counts(n)
  {
    if steps == [] {
    } else {
      var before :| Run(c, steps[..|steps| - 1], before)
                    && Enabled(c, before, steps[|steps| - 1]) && n == Next(c, before, steps[|steps| - 1]);
      NoSilentLoss(c, steps[..|steps| - 1], before);
      BooksKept(c, before, steps[|steps| - 1]);
      CountsKept(c, before, steps[|steps| - 1]);
    }
  }
}
