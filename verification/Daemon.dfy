/**
 The daemon as a step machine: the engine in memory, the store on disk, and the delivery worker, with crashes and
 restarts between any two atomic store operations. Requests interleave with the worker's statements.
 */
module Daemon {
  import opened Types
  import opened Activity
  import opened Bursts
  import opened Queue
  import opened Retry

  datatype Config = Config(queueLimit: nat, maxAge: nat, automaticMessage: string) {
    predicate Valid() { 1 <= queueLimit && maxAge <= 2_592_000_000 }
  }

  const STALE_AFTER: I64 := 86_400_000

  /** Wall clock readings from 1970 on, far from the end of the type. */
  const MAX_WALL: int := 0x1000_0000_0000_0000

  predicate SaneWall(now: I64) { 0 <= now <= MAX_WALL }

  /** What the main loop is in the middle of. Expiry and discarding are a deletion and, separately, a count. */
  datatype Worker =
    | Idle
    | Counting(now: I64, removed: nat, selecting: bool)
    | Selecting(now: I64)
    | Sent(id: Uuid, row: Row, now: I64)
    | Discarding

  /** The history the theorems speak about; the program keeps none of it. */
  datatype Log = Log(
    inserted: seq<Uuid>,
    delivered: seq<Uuid>,
    lost: nat,
    phantom: nat,
    rung: set<(Uuid, Uuid)>,
    bursts: set<Uuid>,
    events: set<Uuid>,
    sends: map<Uuid, nat>,
    unrecorded: map<Uuid, nat>)

  datatype Node = Node(up: bool, mem: Sessions, disk: Sessions, queue: Queue, worker: Worker, log: Log)

  datatype Step =
    | Request(e: Event, queue: Queue)
    | ArmAndStart(arm: Event, start: Event)
    | Timer(tick: Event, queue: Queue)
    | Sweep(alive: set<Uuid>, now: I64)
    | Expire(now: I64, selecting: bool)
    | Count
    | Select(id: Uuid)
    | SelectNone
    | Accept
    | Refuse(diagnostic: string)
    | Reject
    | Fail(delay: nat, diagnostic: string)
    | Crash
    | Shutdown
    | Restart(alive: set<Uuid>, now: I64)

  function Get(m: map<Uuid, nat>, id: Uuid): nat { if id in m then m[id] else 0 }

  function Bump(m: map<Uuid, nat>, id: Uuid): map<Uuid, nat> { m[id := Get(m, id) + 1] }

  /** The configured message replaces the default one. */
  function Worded(a: Action, message: string): Action {
    if a.automatic && a.message == Some("Shell is ready") then a.(message := Some(message)) else a
  }

  function AllWorded(actions: seq<Action>, message: string): seq<Action> {
    seq(|actions|, i requires 0 <= i < |actions| => Worded(actions[i], message))
  }

  function Ids(actions: seq<Action>): seq<Uuid> {
    seq(|actions|, i requires 0 <= i < |actions| => actions[i].eventId)
  }

  /** Requests about an unknown session fail, except opening, closing and ringing by hand. */
  predicate Known(m: Sessions, e: Event) {
    e.Start? || e.Prompt? || e.Disarm? || e.SetLabel? ==> e.id in m
  }

  predicate IsRequest(e: Event) { !e.Tick? && !e.Cleanup? && !e.Arm? }

  /** The queue after the actions of a step: untouched, or one commit. */
  ghost predicate QueueAfter(c: Config, q: Queue, actions: seq<Action>, now: I64, q': Queue) {
    if actions == [] then q' == q
    else SaneWall(now) && Commits(q, actions, now, c.queueLimit, c.maxAge, q')
  }

  function WallOf(e: Event): I64 { if e.Manual? || e.Tick? then e.wall else 0 }

  /** The sessions a sweep leaves: seen recently enough, with a shell that is alive. */
  function Swept(m: Sessions, alive: set<Uuid>, now: I64): Sessions {
    map id | id in m && id in alive && m[id].lastSeen >= SatSubI64(now, STALE_AFTER) :: m[id]
  }

  /** The sessions a restarted daemon resumes. */
  function Resumed(disk: Sessions, alive: set<Uuid>, now: I64): Sessions {
    map id | id in disk && id in alive && SatSubI64(now, disk[id].lastSeen) <= STALE_AFTER
      :: disk[id].RecoverLiveTiming(0, now)
  }

  ghost function NextEngine(n: Node, e: Event): Node {
    n.(mem := Apply(n.mem, e).0,
       log := n.log.(rung := n.log.rung + RungBy(n.mem, e),
                     bursts := n.log.bursts + DrawnBurst(e),
                     events := n.log.events + DrawnEvents(n.mem, e),
                     inserted := n.log.inserted + Ids(Apply(n.mem, e).1)))
  }

  /** How many deletions the counter has yet to learn of. */
  function Owed(w: Worker): nat {
    match w
    case Counting(_, removed, _) => removed
    case Discarding => 1
    case _ => 0
  }

  function Stopped(n: Node): Node {
    n.(up := false, mem := map[], worker := Idle,
       log := n.log.(lost := n.log.lost + Owed(n.worker),
                     unrecorded := if n.worker.Sent? then Bump(n.log.unrecorded, n.worker.id) else n.log.unrecorded))
  }

  ghost predicate Enabled(c: Config, n: Node, s: Step) {
    match s
    case Request(e, q') =>
      && n.up && Proper(e) && IsRequest(e) && Known(n.mem, e)
      && DrawsFresh(n.mem, e, n.log.bursts, n.log.events)
      && QueueAfter(c, n.queue, Apply(n.mem, e).1, WallOf(e), q')
    case ArmAndStart(arm, start) =>
      && n.up && arm.Arm? && Proper(arm) && start.Start? && start.id == arm.id && arm.id in n.mem
      && DrawsFresh(n.mem, start, n.log.bursts, n.log.events)
    case Timer(tick, q') =>
      && n.up && tick.Tick?
      && DrawsFresh(n.mem, tick, n.log.bursts, n.log.events)
      && QueueAfter(c, n.queue, AllWorded(Apply(n.mem, tick).1, c.automaticMessage), WallOf(tick), q')
    case Sweep(_, now) => n.up && n.worker == Idle && SaneWall(now)
    case Expire(now, _) => n.up && n.worker == Idle && SaneWall(now)
    case Count => n.up && (n.worker.Counting? || n.worker.Discarding?)
    case Select(id) => n.up && n.worker.Selecting? && NextDue(n.queue.rows, n.worker.now, id)
    case SelectNone => n.up && n.worker.Selecting? && forall id :: id in n.queue.rows ==> !Due(n.queue.rows[id], n.worker.now)
    case Accept => n.up && n.worker.Sent?
    case Refuse(_) => n.up && n.worker.Sent?
    case Reject => n.up && n.worker.Sent?
    case Fail(delay, _) => n.up && n.worker.Sent? && PossibleDelay(n.worker.row.attempts, delay)
    case Crash => n.up
    case Shutdown => n.up && n.worker == Idle
    case Restart(_, now) => !n.up && SaneWall(now)
  }

  ghost function Next(c: Config, n: Node, s: Step): Node
    requires Enabled(c, n, s)
  {
    match s
    case Request(e, q') =>
      var n' := NextEngine(n, e);
      n'.(disk := Saved(n'.mem), queue := q')
    case ArmAndStart(arm, start) =>
      var n' := NextEngine(NextEngine(n, arm), start);
      n'.(disk := Saved(n'.mem))
    case Timer(tick, q') =>
      var n' := NextEngine(n, tick);
      // a tick that rings for no one is not written to disk
      if Apply(n.mem, tick).1 == [] then n' else n'.(disk := Saved(n'.mem), queue := q')
    case Sweep(alive, now) =>
      var m := Swept(n.mem, alive, now);
      n.(mem := m, disk := if m == n.mem then n.disk else Saved(m))
    case Expire(now, selecting) =>
      var cutoff := Cutoff(now, c.maxAge);
      n.(queue := DeleteExpired(n.queue, cutoff), worker := Counting(now, |Expired(n.queue, cutoff)|, selecting))
    case Count =>
      n.(queue := n.queue.(dropped := n.queue.dropped + Owed(n.worker)),
         worker := if n.worker.Counting? && n.worker.selecting then Selecting(n.worker.now) else Idle)
    case Select(id) =>
      n.(worker := Sent(id, n.queue.rows[id], n.worker.now), log := n.log.(sends := Bump(n.log.sends, id)))
    case SelectNone => n.(worker := Idle)
    case Accept =>
      n.(queue := Deleted(n.queue, n.worker.id), worker := Idle,
         log := if n.worker.id in n.queue.rows then n.log.(delivered := n.log.delivered + [n.worker.id]) else n.log)
    case Refuse(diagnostic) =>
      n.(queue := Refused(n.queue, n.worker.id, diagnostic), worker := Idle)
    case Reject =>
      n.(queue := Deleted(n.queue, n.worker.id), worker := Discarding,
         log := if n.worker.id in n.queue.rows then n.log else n.log.(phantom := n.log.phantom + 1))
    case Fail(delay, diagnostic) =>
      n.(queue := Retried(n.queue, n.worker.id, SatAddI64(n.worker.now, ToI64(delay)), diagnostic), worker := Idle)
    case Crash => Stopped(n)
    case Shutdown => Stopped(n.(disk := Saved(n.mem)))
    case Restart(alive, now) =>
      var m := Resumed(n.disk, alive, now);
      n.(up := true, mem := m, disk := Saved(m))
  }

  const FIRST := Node(false, map[], map[], Queue(map[], 0), Idle, Log([], [], 0, 0, {}, {}, {}, map[], map[]))

  /** Any finite run from an empty store. */
  ghost predicate Run(c: Config, steps: seq<Step>, n: Node) {
    if steps == [] then n == FIRST else
      var rest, last := steps[..|steps| - 1], steps[|steps| - 1];
      exists before :: Run(c, rest, before) && Enabled(c, before, last) && n == Next(c, before, last)
  }
}
