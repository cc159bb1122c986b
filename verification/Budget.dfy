/** How often an event is submitted: the retry budget, over any run and any wall clock. */
module Budget {
  import opened Types
  import opened Activity
  import opened Bursts
  import opened Queue
  import opened Retry
  import opened Daemon
  import opened DaemonLaws

  /** A row's next attempt lies behind all the backoff its failures have earned. */
  ghost predicate Paced(r: Row) {
    && SaneWall(r.createdAt)
    && (r.status == Pending ==> r.createdAt + Backoff(r.attempts) <= r.nextAttempt)
  }

  /** Submissions of an event whose outcome was recorded, or will be. */
  function Recorded(log: Log, id: Uuid): int { Get(log.sends, id) - Get(log.unrecorded, id) }

  function Outstanding(w: Worker, id: Uuid): nat { if w.Sent? && w.id == id then 1 else 0 }

  /** Rows created by `now - maxAge`, or never tried. */
  ghost predicate YoungOrUntried(q: Queue, now: I64, maxAge: nat) {
    forall id :: id in q.rows && q.rows[id].attempts > 0 ==> now - maxAge <= q.rows[id].createdAt
  }

  ghost predicate WorkerPaced(c: Config, n: Node) {
    match n.worker
    case Counting(now, _, _) => SaneWall(now) && YoungOrUntried(n.queue, now, c.maxAge)
    case Selecting(now) => SaneWall(now) && YoungOrUntried(n.queue, now, c.maxAge)
    case Sent(id, row, now) =>
      && SaneWall(now) && Paced(row) && row.status == Pending && row.nextAttempt <= now
      && (id in n.queue.rows ==> n.queue.rows[id] == row)
      && Recorded(n.log, id) == row.attempts + 1
    case _ => true
  }

  ghost predicate RowsPaced(n: Node) {
    forall id :: id in n.queue.rows ==>
      && Paced(n.queue.rows[id])
      && Recorded(n.log, id) == n.queue.rows[id].attempts + Outstanding(n.worker, id)
  }

  /** The last recorded submission of an event came while its backoff was within the maximum age. */
  ghost predicate WithinBudget(c: Config, log: Log) {
    forall id :: 0 <= Recorded(log, id) && (Recorded(log, id) > 0 ==> Backoff(Recorded(log, id) - 1) <= c.maxAge)
  }

  ghost predicate NeverSent(log: Log) {
    forall id :: id !in log.inserted ==> Get(log.sends, id) == 0
  }

  ghost predicate Budgeted(c: Config, n: Node) {
    RowsPaced(n) && WorkerPaced(c, n) && WithinBudget(c, n.log) && NeverSent(n.log)
  }

  /** What a commit does to the rows, as far as pacing goes. */
  ghost predicate AddsOnlyUntried(n: Node, q': Queue) {
    forall id :: id in q'.rows ==>
      || (id in n.queue.rows && q'.rows[id] == n.queue.rows[id])
      || (id !in n.log.inserted && Paced(q'.rows[id]) && q'.rows[id].attempts == 0)
  }

  lemma CommitAddsOnlyUntried(c: Config, n: Node, actions: seq<Action>, now: I64, q': Queue)
    requires Counts(n) && QueueAfter(c, n.queue, actions, now, q') && NewIds(actions, n.log.events)
    ensures AddsOnlyUntried(n, q')
  {
    CommitCounts(c, n.queue, actions, now, q', n.log.inserted, n.log.events);
    forall id | id in EventIds(actions) ensures id !in n.log.inserted {
      var a :| a in actions && a.eventId == id;
      assert a.eventId !in n.log.events;
    }
  }

  /** A commit keeps the budget. */
  lemma CommittingKeepsBudget(c: Config, n: Node, q': Queue, n': Node)
    requires Budgeted(c, n) && Counts(n) && AddsOnlyUntried(n, q')
    requires n'.queue == q' && n'.worker == n.worker
    requires forall id :: id in n.log.inserted ==> id in n'.log.inserted
    requires n'.log.sends == n.log.sends && n'.log.unrecorded == n.log.unrecorded
    ensures Budgeted(c, n')
  {
    hide Paced;
    forall id | id !in n.log.inserted ensures Recorded(n.log, id) == 0 && Outstanding(n.worker, id) == 0 {
      assert Get(n.log.sends, id) == 0;
      assert 0 <= Recorded(n.log, id);
    }
    assert forall id :: Recorded(n'.log, id) == Recorded(n.log, id);
    assert WithinBudget(c, n'.log) && NeverSent(n'.log);
    hide WithinBudget, NeverSent, Outstanding, AddsOnlyUntried, WorkerPaced;
    CommittingKeepsRows(n, n');
    CommittingKeepsWorker(c, n, n');
  }

  lemma CommittingKeepsRows(n: Node, n': Node)
    requires RowsPaced(n) && AddsOnlyUntried(n, n'.queue) && n'.worker == n.worker
    requires forall id :: Recorded(n'.log, id) == Recorded(n.log, id)
    requires forall id :: id !in n.log.inserted ==> Recorded(n.log, id) == 0 && Outstanding(n.worker, id) == 0
    ensures RowsPaced(n')
  {
    hide Paced, Recorded, Outstanding;
  }

  lemma CommittingKeepsWorker(c: Config, n: Node, n': Node)
    requires Budgeted(c, n) && Counts(n) && AddsOnlyUntried(n, n'.queue) && n'.worker == n.worker
    requires n'.log.sends == n.log.sends && n'.log.unrecorded == n.log.unrecorded
    ensures WorkerPaced(c, n')
  {
    hide Paced, RowsPaced;
    match n.worker
    case Sent(id, row, now) =>
      assert Get(n.log.sends, id) > 0;
      assert id in n.log.inserted;
    case _ =>
  }

  lemma ExpiryKeepsBudget(c: Config, n: Node, now: I64, selecting: bool)
    requires c.Valid() && Budgeted(c, n) && Enabled(c, n, Expire(now, selecting))
    ensures Budgeted(c, Next(c, n, Expire(now, selecting)))
  {
    hide Paced;
    var n' := Next(c, n, Expire(now, selecting));
    assert Cutoff(now, c.maxAge) == now - c.maxAge;
    forall id | id in n'.queue.rows
      ensures id in n.queue.rows && n'.queue.rows[id] == n.queue.rows[id] && now - c.maxAge <= n'.queue.rows[id].createdAt
    {
    }
  }

  /** A submission is made only while the backoff earned so far is within the maximum age. */
  lemma DueWithinBudget(c: Config, q: Queue, now: I64, id: Uuid)
    requires id in q.rows && Paced(q.rows[id]) && Due(q.rows[id], now) && YoungOrUntried(q, now, c.maxAge)
    ensures Backoff(q.rows[id].attempts) <= c.maxAge
  {
    assert Backoff(0) == 0;
  }

  lemma SelectKeepsBudget(c: Config, n: Node, id: Uuid)
    requires Budgeted(c, n) && Counts(n) && Enabled(c, n, Select(id))
    ensures Budgeted(c, Next(c, n, Select(id)))
  {
    hide Paced, Counts, YoungOrUntried, Backoff;
    var row := n.queue.rows[id];
    var n' := n.(worker := Sent(id, row, n.worker.now), log := n.log.(sends := Bump(n.log.sends, id)));
    DueWithinBudget(c, n.queue, n.worker.now, id);
    BumpedSends(n.log, id);
    assert id in n.log.inserted by { QueuedIsInserted(n, id); }
    assert RowsPaced(n');
    assert WithinBudget(c, n'.log);
  }

  lemma QueuedIsInserted(n: Node, id: Uuid)
    requires Counts(n) && id in n.queue.rows
    ensures id in n.log.inserted
  {
  }

  lemma BumpedSends(log: Log, id: Uuid)
    ensures var log' := log.(sends := Bump(log.sends, id));
            forall x :: Recorded(log', x) == Recorded(log, x) + (if x == id then 1 else 0)
  {
  }

  /** A failure adds its delay to the time of the attempt, which lay behind the backoff so far. */
  lemma FailurePaces(q: Queue, id: Uuid, row: Row, now: I64, delay: nat, diagnostic: string)
    requires Paced(row) && row.status == Pending && row.nextAttempt <= now && SaneWall(now)
    requires PossibleDelay(row.attempts, delay) && id in q.rows && q.rows[id] == row
    ensures var r := Retried(q, id, SatAddI64(now, ToI64(delay)), diagnostic).rows[id];
            Paced(r) && r.attempts == row.attempts + 1
  {
    BaseDelayBound(row.attempts);
  }

  lemma FailKeepsBudget(c: Config, n: Node, delay: nat, diagnostic: string)
    requires Budgeted(c, n) && Enabled(c, n, Fail(delay, diagnostic))
    ensures Budgeted(c, Next(c, n, Fail(delay, diagnostic)))
  {
    var w := n.worker;
    var n' := Next(c, n, Fail(delay, diagnostic));
    if w.id in n.queue.rows {
      FailurePaces(n.queue, w.id, w.row, w.now, delay, diagnostic);
    }
    hide Paced, PossibleDelay;
    forall id | id in n'.queue.rows && id != w.id ensures id in n.queue.rows && n'.queue.rows[id] == n.queue.rows[id] {
    }
  }

  lemma RefuseKeepsBudget(c: Config, n: Node, diagnostic: string)
    requires Budgeted(c, n) && Enabled(c, n, Refuse(diagnostic))
    ensures Budgeted(c, Next(c, n, Refuse(diagnostic)))
  {
    hide Backoff;
    var id, n' := n.worker.id, Next(c, n, Refuse(diagnostic));
    if id in n.queue.rows {
      assert Paced(n'.queue.rows[id]) && n'.queue.rows[id].attempts == n.worker.row.attempts + 1;
    }
    hide Paced;
    forall x | x in n'.queue.rows && x != id ensures x in n.queue.rows && n'.queue.rows[x] == n.queue.rows[x] {
    }
  }

  /** Steps that remove the submitted row. */
  lemma RemovalKeepsBudget(c: Config, n: Node, s: Step)
    requires Budgeted(c, n) && Enabled(c, n, s) && (s.Accept? || s.Reject?)
    ensures Budgeted(c, Next(c, n, s))
  {
    hide Backoff, Paced;
    var n' := Next(c, n, s);
    assert forall x :: Recorded(n'.log, x) == Recorded(n.log, x);
  }

  /** Steps that leave the rows alone. */
  lemma QuietKeepsBudget(c: Config, n: Node, s: Step)
    requires Budgeted(c, n) && Enabled(c, n, s) && (s.Sweep? || s.Count? || s.SelectNone? || s.Restart?)
    ensures Budgeted(c, Next(c, n, s))
  {
    hide Swept, Resumed, Saved, Backoff, Paced;
    var n' := Next(c, n, s);
    assert forall x :: Recorded(n'.log, x) == Recorded(n.log, x);
  }

  /** A crash while a request is outstanding leaves that submission unrecorded. */
  lemma StoppingKeepsBudget(c: Config, n: Node, disk: Sessions)
    requires Budgeted(c, n)
    ensures Budgeted(c, Stopped(n.(disk := disk)))
  {
    var n' := Stopped(n.(disk := disk));
    hide Paced;
    if n.worker.Sent? {
      var id, k := n.worker.id, n.worker.row.attempts;
      assert forall x :: x != id ==> Recorded(n'.log, x) == Recorded(n.log, x);
      assert Recorded(n.log, id) == k + 1 && Recorded(n'.log, id) == k;
      assert Backoff(Recorded(n.log, id) - 1) <= c.maxAge;
      if k > 0 {
        BackoffGrows(k - 1, k);
      }
      forall x ensures 0 <= Recorded(n'.log, x) && (Recorded(n'.log, x) > 0 ==> Backoff(Recorded(n'.log, x) - 1) <= c.maxAge) {
        if x != id {
          assert 0 <= Recorded(n.log, x);
        }
      }
    } else {
      assert forall x :: Recorded(n'.log, x) == Recorded(n.log, x);
    }
  }

  lemma BudgetKept(c: Config, n: Node, s: Step)
    requires c.Valid() && Books(n) && Counts(n) && Budgeted(c, n) && Enabled(c, n, s)
    ensures Budgeted(c, Next(c, n, s))
  {
    hide Apply, Books, QueueAfter, DrawsFresh, Swept, Resumed, Saved, RowsPaced, WorkerPaced, WithinBudget;
    hide NeverSent, Counts;
    match s
    case Request(e, q') =>
      BooksGiveTable(n);
      EngineIdsAreNew(n, e);
      CommitAddsOnlyUntried(c, n, Apply(n.mem, e).1, WallOf(e), q');
      CommittingKeepsBudget(c, n, q', Next(c, n, s));
    case Timer(tick, q') =>
      BooksGiveTable(n);
      EngineIdsAreNew(n, tick);
      WordingKeepsIds(Apply(n.mem, tick).1, c.automaticMessage, n.log.events);
      CommitAddsOnlyUntried(c, n, AllWorded(Apply(n.mem, tick).1, c.automaticMessage), tick.wall, q');
      CommittingKeepsBudget(c, n, Next(c, n, s).queue, Next(c, n, s));
    case ArmAndStart(arm, start) =>
      CommittingKeepsBudget(c, n, n.queue, Next(c, n, s));
    case Expire(now, selecting) => ExpiryKeepsBudget(c, n, now, selecting);
    case Select(id) => SelectKeepsBudget(c, n, id);
    case Fail(delay, diagnostic) => FailKeepsBudget(c, n, delay, diagnostic);
    case Refuse(diagnostic) => RefuseKeepsBudget(c, n, diagnostic);
    case Crash => StoppingKeepsBudget(c, n, n.disk);
    case Shutdown => StoppingKeepsBudget(c, n, Saved(n.mem));
    case Accept => RemovalKeepsBudget(c, n, s);
    case Reject => RemovalKeepsBudget(c, n, s);
    case _ => QuietKeepsBudget(c, n, s);
  }

  lemma {:induction false} BudgetOverRuns(c: Config, steps: seq<Step>, n: Node)
    requires c.Valid() && Run(c, steps, n)
    ensures Books(n) && Counts(n) && Budgeted(c, n)
  {
    if steps == [] {
    } else {
      var last := steps[|steps| - 1];
      var before :| Run(c, steps[..|steps| - 1], before) && Enabled(c, before, last) && n == Next(c, before, last);
      BudgetOverRuns(c, steps[..|steps| - 1], before);
      BooksKept(c, before, last);
      CountsKept(c, before, last);
      BudgetKept(c, before, last);
    }
  }

  /**
   Over every run, whatever the jitter and however the wall clock moves: after `k` recorded failures a row's next
   attempt is at least `Backoff(k)` after its creation; an event is submitted again only while that is within its
   maximum age; so at the default of one day it is submitted at most 103 times, not counting submissions whose
   outcome a crash kept from being recorded.
   */
  lemma RetryBudget(c: Config, steps: seq<Step>, n: Node, id: Uuid)
    requires c.Valid() && Run(c, steps, n)
    ensures id in n.queue.rows && n.queue.rows[id].status == Pending ==>
              n.queue.rows[id].createdAt + Backoff(n.queue.rows[id].attempts) <= n.queue.rows[id].nextAttempt
    ensures var submissions := Get(n.log.sends, id) - Get(n.log.unrecorded, id);
            && (submissions > 0 ==> Backoff(submissions - 1) <= c.maxAge)
            && (c.maxAge == 86_400_000 ==> submissions <= 103)
  {
    hide Run, Books, Counts, Budgeted, Backoff;
    BudgetOverRuns(c, steps, n);
    BudgetSays(c, n, id);
  }

  lemma BudgetSays(c: Config, n: Node, id: Uuid)
    requires Budgeted(c, n)
    ensures id in n.queue.rows && n.queue.rows[id].status == Pending ==>
              n.queue.rows[id].createdAt + Backoff(n.queue.rows[id].attempts) <= n.queue.rows[id].nextAttempt
    ensures Recorded(n.log, id) > 0 ==> Backoff(Recorded(n.log, id) - 1) <= c.maxAge
    ensures c.maxAge == 86_400_000 ==> Recorded(n.log, id) <= 103
  {
    assert 0 <= Recorded(n.log, id);
    if Recorded(n.log, id) > 0 {
      DefaultSubmissions(Recorded(n.log, id) - 1);
    }
  }
}
