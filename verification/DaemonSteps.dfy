/** The commands of the daemon and the answers to its submissions, and the steps of its machine that they make. */
module DaemonSteps {
  import opened Types
  import opened Activity
  import opened Bursts
  import opened Queue
  import opened Retry
  import opened Daemon
  import opened DaemonLaws

  datatype Command =
    | SessionOpen(id: Uuid, shellPid: U32, shellType: ShellType, tty: Option<string>,
                  minimumActive: U64, idleFor: U64, targets: seq<string>)
    | CommandStart(id: Uuid)
    | PromptReady(id: Uuid)
    | SessionClose(id: Uuid)
    | Arm(id: Uuid, once: bool, minimumActive: U64, idleFor: U64, targets: seq<string>)
    | Disarm(id: Uuid)
    | SetLabel(id: Uuid, title: Option<string>)
    | ManualRing(session: Option<Uuid>, message: Option<string>, targets: seq<string>)

  datatype Reply = Acknowledged | RingQueued(event: Option<Uuid>) | NotRegistered

  /** What the network made of a submission. */
  datatype Answer =
    | NoCredentials(diagnostic: string)
    | BadEndpoint
    | Unreachable(diagnostic: string)
    | Http(status: nat, event: Option<Uuid>)

  datatype DeliveryResult = Accepted | AuthorizationFailed(diagnostic: string) | Permanent | Transient(diagnostic: string)

  predicate Succeeds(status: nat) { 200 <= status <= 299 }

  /** Only a success that names the event delivers it; only an answer that will not change gives it up. */
  function Classify(a: Answer, event: Uuid): DeliveryResult {
    match a
    case NoCredentials(diagnostic) => Transient(diagnostic)
    case BadEndpoint => Permanent
    case Unreachable(diagnostic) => Transient(diagnostic)
    case Http(status, echoed) =>
      if Succeeds(status) then (if echoed == Some(event) then Accepted else Transient("relay returned an invalid response"))
      else if status == 401 || status == 403 then AuthorizationFailed("relay returned HTTP error")
      else if status == 429 || 500 <= status <= 599 then Transient("relay returned HTTP error")
      else Permanent
  }

  /** The engine call a command makes, but for arming, which makes two. */
  function EventOf(c: Command, burst: Uuid, event: Uuid, mono: U64, wall: I64): Event
    requires !c.Arm?
  {
    match c
    case SessionOpen(id, pid, shellType, tty, minimumActive, idleFor, targets) =>
      Open(id, pid, shellType, tty, minimumActive, idleFor, targets, wall)
    case CommandStart(id) => Start(id, burst, mono, wall)
    case PromptReady(id) => Prompt(id, mono, wall)
    case SessionClose(id) => Close(id)
    case Disarm(id) => Event.Disarm(id, wall)
    case SetLabel(id, title) => Event.SetLabel(id, title, wall)
    case ManualRing(session, message, targets) => Manual(session, event, message, targets, mono, wall)
  }

  // ----- the steps an operation takes -----

  lemma RunExtends(c: Config, steps: seq<Step>, n: Node, s: Step)
    requires Run(c, steps, n) && Enabled(c, n, s)
    ensures Run(c, steps + [s], Next(c, n, s))
  {
    hide Enabled, Next;
    assert (steps + [s])[..|steps + [s]| - 1] == steps;
  }

  /** The machine takes these steps from one state to another. */
  ghost predicate Extends(c: Config, n: Node, more: seq<Step>, n': Node) {
    if more == [] then n' == n else
      var rest, last := more[..|more| - 1], more[|more| - 1];
      exists mid :: Extends(c, n, rest, mid) && Enabled(c, mid, last) && n' == Next(c, mid, last)
  }

  lemma ExtendsBy(c: Config, n: Node, more: seq<Step>, mid: Node, s: Step)
    requires Extends(c, n, more, mid) && Enabled(c, mid, s)
    ensures Extends(c, n, more + [s], Next(c, mid, s))
  {
    hide Enabled, Next;
    assert (more + [s])[..|more + [s]| - 1] == more;
  }

  lemma NoSteps(c: Config, n: Node)
    ensures Extends(c, n, [], n)
  {
  }

  lemma LastStep(c: Config, n: Node, more: seq<Step>, n': Node) returns (mid: Node)
    requires more != [] && Extends(c, n, more, n')
    ensures Extends(c, n, more[..|more| - 1], mid)
    ensures Enabled(c, mid, more[|more| - 1]) && n' == Next(c, mid, more[|more| - 1])
  {
    hide Enabled, Next;
    mid :| Extends(c, n, more[..|more| - 1], mid) && Enabled(c, mid, more[|more| - 1]) && n' == Next(c, mid, more[|more| - 1]);
  }

  lemma NothingTaken(c: Config, n: Node, n': Node)
    requires Extends(c, n, [], n')
    ensures n' == n
  {
  }

  /** Calls in sequence make one run. */
  lemma {:induction false} CallsCompose(c: Config, n: Node, first: seq<Step>, mid: Node, second: seq<Step>, n': Node)
    requires Extends(c, n, first, mid) && Extends(c, mid, second, n')
    ensures Extends(c, n, first + second, n')
    decreases |second|
  {
    hide *;
    if second == [] {
      NothingTaken(c, mid, n');
      assert first + second == first;
    } else {
      var rest, last := second[..|second| - 1], second[|second| - 1];
      var before := LastStep(c, mid, second, n');
      CallsCompose(c, n, first, mid, rest, before);
      ExtendsBy(c, n, first + rest, before, last);
      assert first + second == first + rest + [last];
    }
  }

  /** What the log says of the past stays. */
  ghost predicate Remembers(n: Node, n': Node) {
    && n.log.rung <= n'.log.rung && n.log.inserted <= n'.log.inserted && n.log.delivered <= n'.log.delivered
    && n.log.bursts <= n'.log.bursts && n.log.events <= n'.log.events
  }

  lemma StepRemembers(c: Config, n: Node, s: Step)
    requires Enabled(c, n, s)
    ensures Remembers(n, Next(c, n, s))
  {
    hide Apply, QueueAfter, DrawsFresh, Swept, Resumed, Saved, RungBy;
  }

  /**
   Whatever is called in between, rings counted for bursts, stored events and deliveries are not forgotten, and at any
   time a burst has at most one ring.
   */
  lemma {:induction false} CallsRemember(c: Config, n: Node, more: seq<Step>, n': Node)
    requires Books(n) && Extends(c, n, more, n')
    ensures Remembers(n, n') && Books(n') && OneRingPerBurst(n'.log.rung)
  {
    if more == [] {
    } else {
      hide Enabled, Next, BurstsMarked, ValidTable, ValidDisk, OneRingPerBurst;
      var rest, last := more[..|more| - 1], more[|more| - 1];
      var mid :| Extends(c, n, rest, mid) && Enabled(c, mid, last) && n' == Next(c, mid, last);
      CallsRemember(c, n, rest, mid);
      StepRemembers(c, mid, last);
      BooksKept(c, mid, last);
    }
  }

  lemma RequestStep(c: Config, n: Node, e: Event, q': Queue)
    requires n.up && Proper(e) && IsRequest(e) && Known(n.mem, e) && DrawsFresh(n.mem, e, n.log.bursts, n.log.events)
    requires QueueAfter(c, n.queue, Apply(n.mem, e).1, WallOf(e), q')
    ensures Enabled(c, n, Request(e, q'))
    ensures var n' := Next(c, n, Request(e, q'));
            && n'.up && n'.worker == n.worker && n'.queue == q'
            && n'.mem == Apply(n.mem, e).0 && n'.disk == Saved(n'.mem)
  {
    hide Apply, QueueAfter, DrawsFresh, Saved, RungBy;
  }

  lemma ArmStep(c: Config, n: Node, arm: Event, start: Event)
    requires n.up && arm.Arm? && Proper(arm) && start.Start? && start.id == arm.id && arm.id in n.mem
    requires DrawsFresh(n.mem, start, n.log.bursts, n.log.events)
    ensures Enabled(c, n, ArmAndStart(arm, start))
    ensures var n' := Next(c, n, ArmAndStart(arm, start));
            && n'.up && n'.worker == n.worker && n'.queue == n.queue
            && n'.mem == Apply(Apply(n.mem, arm).0, start).0 && n'.disk == Saved(n'.mem)
  {
    hide Apply, QueueAfter, DrawsFresh, Saved, RungBy;
  }

  lemma TimerStep(c: Config, n: Node, tick: Event, q': Queue)
    requires n.up && tick.Tick? && DrawsFresh(n.mem, tick, n.log.bursts, n.log.events)
    requires QueueAfter(c, n.queue, AllWorded(Apply(n.mem, tick).1, c.automaticMessage), tick.wall, q')
    ensures Enabled(c, n, Timer(tick, q'))
    ensures var n' := Next(c, n, Timer(tick, q'));
            && n'.up && n'.worker == n.worker && n'.mem == Apply(n.mem, tick).0
            && (if Apply(n.mem, tick).1 == [] then n'.queue == n.queue && n'.disk == n.disk
                else n'.queue == q' && n'.disk == Saved(n'.mem))
  {
    hide Apply, QueueAfter, DrawsFresh, Saved, RungBy;
  }

  lemma SweepStep(c: Config, n: Node, alive: set<Uuid>, now: I64)
    requires n.up && n.worker == Idle && SaneWall(now)
    ensures Enabled(c, n, Sweep(alive, now))
    ensures var m := Swept(n.mem, alive, now);
            Next(c, n, Sweep(alive, now)) == n.(mem := m, disk := if m == n.mem then n.disk else Saved(m))
  {
    hide Swept, Saved;
  }

  /** Expiry and its count, back to back. */
  lemma ExpireSteps(c: Config, n: Node, now: I64, selecting: bool)
    requires n.up && n.worker == Idle && SaneWall(now)
    ensures Enabled(c, n, Expire(now, selecting))
    ensures var n1 := Next(c, n, Expire(now, selecting));
            && Enabled(c, n1, Count)
            && Next(c, n1, Count) == n.(queue := Pruned(n.queue, Cutoff(now, c.maxAge)),
                                        worker := if selecting then Selecting(now) else Idle)
  {
  }

  lemma SelectStep(c: Config, n: Node, id: Uuid)
    requires n.up && n.worker.Selecting? && NextDue(n.queue.rows, n.worker.now, id)
    ensures Enabled(c, n, Select(id))
    ensures var n' := Next(c, n, Select(id));
            n'.up && n'.worker == Sent(id, n.queue.rows[id], n.worker.now) && n'.queue == n.queue && n'.mem == n.mem && n'.disk == n.disk
  {
  }

  lemma SelectNoneStep(c: Config, n: Node)
    requires n.up && n.worker.Selecting? && forall id :: id in n.queue.rows ==> !Due(n.queue.rows[id], n.worker.now)
    ensures Enabled(c, n, SelectNone) && Next(c, n, SelectNone) == n.(worker := Idle)
  {
  }

  /** The step a delivery result makes, and what it leaves of the queue. */
  function OutcomeStep(r: DeliveryResult, delay: nat): Step {
    match r
    case Accepted => Accept
    case AuthorizationFailed(diagnostic) => Refuse(diagnostic)
    case Permanent => Reject
    case Transient(diagnostic) => Fail(delay, diagnostic)
  }

  /** All the steps a delivery result makes. */
  function OutcomeList(r: DeliveryResult, delay: nat): seq<Step> {
    if r.Permanent? then [Reject, Count] else [OutcomeStep(r, delay)]
  }

  /** The steps of one round of delivery. */
  ghost predicate IsDelivery(now: I64, answer: Answer, steps: seq<Step>) {
    || steps == [Expire(now, true), Count, SelectNone]
    || exists id, delay :: steps == DeliverySteps(now, answer, id, delay)
  }

  function DeliverySteps(now: I64, answer: Answer, id: Uuid, delay: nat): seq<Step> {
    [Expire(now, true), Count, Select(id)] + OutcomeList(Classify(answer, id), delay)
  }

  function AfterOutcome(q: Queue, id: Uuid, r: DeliveryResult, now: I64, delay: nat): Queue {
    match r
    case Accepted => Deleted(q, id)
    case AuthorizationFailed(diagnostic) => Refused(q, id, diagnostic)
    case Permanent => Deleted(q, id).(dropped := q.dropped + 1)
    case Transient(diagnostic) => Retried(q, id, SatAddI64(now, ToI64(delay)), diagnostic)
  }

  lemma OutcomeSteps(c: Config, n: Node, r: DeliveryResult, delay: nat)
    requires n.up && n.worker.Sent? && PossibleDelay(n.worker.row.attempts, delay)
    ensures Enabled(c, n, OutcomeStep(r, delay))
    ensures var n' := Next(c, n, OutcomeStep(r, delay));
            && n'.up && n'.mem == n.mem && n'.disk == n.disk
            && (!r.Permanent? ==> n'.worker == Idle && n'.queue == AfterOutcome(n.queue, n.worker.id, r, n.worker.now, delay))
            && (r.Permanent? ==>
                  && Enabled(c, n', Count)
                  && Next(c, n', Count) == n'.(worker := Idle, queue := AfterOutcome(n.queue, n.worker.id, r, n.worker.now, delay)))
  {
    hide PossibleDelay;
  }

  lemma ShutdownStep(c: Config, n: Node)
    requires n.up && n.worker == Idle
    ensures Enabled(c, n, Shutdown)
    ensures var n' := Next(c, n, Shutdown); !n'.up && n'.worker == Idle && n'.disk == Saved(n.mem) && n'.queue == n.queue
  {
    hide Saved;
  }

  lemma CrashStep(c: Config, n: Node)
    requires n.up
    ensures Enabled(c, n, Crash)
    ensures var n' := Next(c, n, Crash); !n'.up && n'.worker == Idle && n'.disk == n.disk && n'.queue == n.queue
  {
  }

  lemma RestartStep(c: Config, n: Node, alive: set<Uuid>, now: I64)
    requires !n.up && SaneWall(now)
    ensures Enabled(c, n, Restart(alive, now))
    ensures var n' := Next(c, n, Restart(alive, now));
            && n'.up && n'.mem == Resumed(n.disk, alive, now) && n'.disk == Saved(n'.mem)
            && n'.queue == n.queue && n'.worker == n.worker
  {
    hide Saved, Resumed;
  }

  /** What one round of delivery makes of the queue after expiry. */
  ghost predicate Attempted(q: Queue, q': Queue, now: I64, answer: Answer) {
    || (q' == q && forall id :: id in q.rows ==> !Due(q.rows[id], now))
    || exists id, delay :: AttemptedWith(q, q', now, answer, id, delay)
  }

  ghost predicate AttemptedWith(q: Queue, q': Queue, now: I64, answer: Answer, id: Uuid, delay: nat) {
    && NextDue(q.rows, now, id) && PossibleDelay(q.rows[id].attempts, delay)
    && q' == AfterOutcome(q, id, Classify(answer, id), now, delay)
  }

  lemma NothingAttempted(q: Queue, now: I64, answer: Answer)
    requires forall id :: id in q.rows ==> !Due(q.rows[id], now)
    ensures Attempted(q, q, now, answer) && IsDelivery(now, answer, [Expire(now, true), Count, SelectNone])
  {
  }

  lemma OneAttempted(q: Queue, q': Queue, now: I64, answer: Answer, id: Uuid, delay: nat)
    requires AttemptedWith(q, q', now, answer, id, delay)
    ensures Attempted(q, q', now, answer) && IsDelivery(now, answer, DeliverySteps(now, answer, id, delay))
  {
  }

  lemma SameRest(before: seq<Action>, a: seq<Action>, b: seq<Action>)
    requires before + a == before + b
    ensures a == b
  {
    assert (before + a)[|before|..] == a && (before + b)[|before|..] == b;
  }

  lemma UnknownChangesNothing(m: Sessions, e: Event)
    requires (e.Start? || e.Prompt? || e.Disarm? || e.SetLabel? || e.Arm?) && e.id !in m
    ensures Apply(m, e) == (m, [])
  {
  }

  lemma OnlyManualRings(m: Sessions, e: Event)
    requires !e.Tick?
    ensures !e.Manual? ==> Apply(m, e).1 == []
    ensures forall a :: a in Apply(m, e).1 ==> e.Manual? && a.eventId == e.event
  {
  }

  /** The event committed last is in the queue. */
  lemma CommittedIsStored(q: Queue, a: Action, now: I64, limit: nat, maxAge: nat, q': Queue)
    requires Commits(q, [a], now, limit, maxAge, q')
    ensures a.eventId in q'.rows && (a.eventId !in q.rows ==> q'.rows[a.eventId] == NewRow(a, now))
  {
    assert a.eventId !in q.rows ==> a.eventId !in Pruned(q, Cutoff(now, maxAge)).rows;
    hide Pruned;
    var p := Pruned(q, Cutoff(now, maxAge));
    var mid :| EnqueuesAll(p, [a][..|[a]| - 1], now, limit, mid) && Enqueues(mid, [a][|[a]| - 1], now, limit, q');
    var room := Room(mid, a, now, limit, q');
  }

  function ArmOf(c: Command, wall: I64): Event
    requires c.Arm?
  {
    Event.Arm(c.id, if c.once then Once else Persistent, c.minimumActive, c.idleFor, c.targets, wall)
  }

  function TableArmed(m: Sessions, c: Command, burst: Uuid, mono: U64, wall: I64): Sessions
    requires c.Arm?
  {
    Apply(Apply(m, ArmOf(c, wall)).0, Start(c.id, burst, mono, wall)).0
  }

  /** The sessions whose shell is alive. */
  function Alive(m: Sessions, alivePids: set<U32>): set<Uuid> {
    set id | id in m && m[id].shellPid in alivePids
  }

  /** What is read back from disk has the shape the engine needs. */
  lemma ResumedAreValid(c: Config, steps: seq<Step>, n: Node, alive: set<Uuid>, now: I64)
    requires Run(c, steps, n)
    ensures ValidTable(Resumed(n.disk, alive, now))
    ensures forall id :: id in n.disk ==> n.disk[id].RecoverLiveTiming(0, now).id == id
  {
    BooksOverRuns(c, steps, n);
    ResumedIsValid(n.disk, alive, now, n.log.rung, n.log.bursts);
    forall id | id in n.disk ensures n.disk[id].RecoverLiveTiming(0, now).id == id {
      RecoveryOfSaved(n.disk[id], now);
    }
  }

  /** A listing of a session table, in any order. */
  ghost predicate Lists(listed: seq<Session>, m: Sessions) {
    && (forall s :: s in listed ==> s.id in m && m[s.id] == s)
    && forall id :: id in m ==> m[id] in listed
  }

  lemma SameTable(listed: seq<Session>, m: Sessions)
    requires Lists(listed, m) && ValidTable(m)
    ensures forall s :: s in listed ==> s.Valid()
    ensures forall id :: id in m <==> exists s :: s in listed && s.id == id
    ensures forall m': Sessions :: m'.Keys == m.Keys && (forall id :: id in m' ==> m'[id] in listed && m'[id].id == id) ==> m' == m
  {
  }

  lemma DeliveryAddsUp(before: seq<Step>, now: I64, answer: Answer, id: Uuid, delay: nat)
    ensures before + [Expire(now, true), Count] + ([Select(id)] + OutcomeList(Classify(answer, id), delay))
            == before + DeliverySteps(now, answer, id, delay)
  {
    hide OutcomeList, Classify;
    AddUp(before, [Expire(now, true), Count], [Select(id)] + OutcomeList(Classify(answer, id), delay),
          DeliverySteps(now, answer, id, delay));
  }

  /** A table made of a listing is the table listed. */
  lemma IsTable(listed: seq<Session>, m: Sessions, m': Sessions)
    requires Lists(listed, m) && ValidTable(m) && ValidTable(m')
    requires forall id :: id in m' <==> exists s :: s in listed && s.id == id
    requires forall id :: id in m' ==> m'[id] in listed
    ensures m' == m
  {
    hide Session.Valid;
    SameTable(listed, m);
  }

  lemma AddUp(before: seq<Step>, a: seq<Step>, b: seq<Step>, all: seq<Step>)
    requires a + b == all
    ensures before + a + b == before + all
  {
  }

  lemma ClosingForgets(m: Sessions, id: Uuid)
    ensures Apply(m, Close(id)).0 == m - {id}
  {
  }
}
