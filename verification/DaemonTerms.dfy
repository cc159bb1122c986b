/** What the daemon's operations come to in plain terms: for the table, one session at a time, and for the queue, one row. */
module DaemonTerms {
  import opened Types
  import opened Activity
  import opened Bursts
  import opened Queue
  import opened Retry
  import opened Daemon
  import opened DaemonLaws
  import opened DaemonSteps
  import Relay

  // ----- answers to a submission -----

  /**
   What an answer makes of the submitted row: it is delivered by a success that names the event, held back by a refusal of
   the source, put off by anything that another attempt may change, and given up otherwise.
   */
  ghost predicate Settled(q: Queue, q': Queue, id: Uuid, answer: Answer, now: I64, delay: nat)
    requires id in q.rows
  {
    var row := q.rows[id];
    var success := answer.Http? && 200 <= answer.status <= 299;
    var refused := answer.Http? && (answer.status == 401 || answer.status == 403);
    var trouble := answer.Http? && (answer.status == 429 || 500 <= answer.status <= 599);
    if success && answer.event == Some(id) then q' == q.(rows := q.rows - {id})
    else if refused then
      && id in q'.rows
      && q' == q.(rows := q.rows[id := row.(status := AuthorizationFailure, attempts := row.attempts + 1,
                                            lastError := q'.rows[id].lastError)])
    else if success || trouble || answer.NoCredentials? || answer.Unreachable? then
      && id in q'.rows && q'.rows[id].nextAttempt == Min(now + Min(delay, I64_MAX), I64_MAX)
      && q' == q.(rows := q.rows[id := row.(attempts := row.attempts + 1, nextAttempt := q'.rows[id].nextAttempt,
                                            lastError := q'.rows[id].lastError)])
    else q' == Queue(q.rows - {id}, q.dropped + 1)
  }

  lemma OutcomeSettles(q: Queue, id: Uuid, answer: Answer, now: I64, delay: nat)
    requires id in q.rows
    ensures Settled(q, AfterOutcome(q, id, Classify(answer, id), now, delay), id, answer, now, delay)
  {
  }

  /**
   A submitted row leaves the queue exactly if the relay said it has this very event, or gave an answer that another
   attempt would not change; only the latter is counted. A row that stays has one attempt more, and is held back
   exactly if the source was refused. No other row is touched.
   */
  lemma RowLeaves(q: Queue, id: Uuid, answer: Answer, now: I64, delay: nat)
    requires id in q.rows
    ensures var q' := AfterOutcome(q, id, Classify(answer, id), now, delay);
            var delivered := answer.Http? && 200 <= answer.status <= 299 && answer.event == Some(id);
            var hopeless := answer.BadEndpoint?
              || (answer.Http? && !(200 <= answer.status <= 299) && answer.status != 401 && answer.status != 403
                  && answer.status != 429 && !(500 <= answer.status <= 599));
            && (id !in q'.rows <==> delivered || hopeless)
            && q'.dropped == q.dropped + (if hopeless then 1 else 0)
            && (id in q'.rows ==>
                  && q'.rows[id].attempts == q.rows[id].attempts + 1
                  && (q'.rows[id].status == if answer.Http? && (answer.status == 401 || answer.status == 403)
                                            then AuthorizationFailure else q.rows[id].status)
                  && q'.rows[id].message == q.rows[id].message && q'.rows[id].targets == q.rows[id].targets
                  && q'.rows[id].createdAt == q.rows[id].createdAt)
            && (forall x :: x != id ==> (x in q'.rows <==> x in q.rows) && (x in q.rows ==> q'.rows[x] == q.rows[x]))
  {
    OutcomeSettles(q, id, answer, now, delay);
    hide AfterOutcome, Classify;
  }

  /** The relay's own answers, to a new ring as to one it already had, deliver the row and count nothing. */
  lemma RelayAnswersDeliver(q: Queue, id: Uuid, response: Relay.Response, now: I64, delay: nat)
    requires id in q.rows && response.event == id
    ensures var answer := Http(Relay.StatusCode(response), Some(response.event));
            AfterOutcome(q, id, Classify(answer, id), now, delay) == Queue(q.rows - {id}, q.dropped)
  {
    OutcomeSettles(q, id, Http(Relay.StatusCode(response), Some(response.event)), now, delay);
    hide AfterOutcome, Classify;
  }

  /** A delay after so many failures: five seconds doubled for each, fifteen minutes at most, and up to a quarter more. */
  ghost predicate Paces(attempts: nat, delay: nat) {
    var base := Min(5_000 * Pow2(Min(attempts, 8)), 900_000);
    base <= delay <= base + base / 4
  }

  lemma DelayPaces(attempts: nat, delay: nat)
    requires PossibleDelay(attempts, delay)
    ensures Paces(attempts, delay)
  {
  }

  /** Nothing is due, or the oldest of the rows that are was submitted and settled. */
  ghost predicate Delivers(q: Queue, q': Queue, now: I64, answer: Answer, picked: Option<Uuid>, delay: nat) {
    if picked.None? then
      q' == q && forall id :: id in q.rows ==> q.rows[id].status != Pending || now < q.rows[id].nextAttempt
    else
      && picked.value in q.rows && q.rows[picked.value].status == Pending && q.rows[picked.value].nextAttempt <= now
      && (forall id :: id in q.rows && q.rows[id].status == Pending && q.rows[id].nextAttempt <= now ==>
            q.rows[picked.value].createdAt <= q.rows[id].createdAt)
      && Settled(q, q', picked.value, answer, now, delay) && Paces(q.rows[picked.value].attempts, delay)
  }

  lemma RowDelivers(q: Queue, id: Uuid, answer: Answer, now: I64, delay: nat)
    requires NextDue(q.rows, now, id) && PossibleDelay(q.rows[id].attempts, delay)
    ensures Delivers(q, AfterOutcome(q, id, Classify(answer, id), now, delay), now, answer, Some(id), delay)
  {
    OutcomeSettles(q, id, answer, now, delay);
    DelayPaces(q.rows[id].attempts, delay);
    hide Settled, Paces, AfterOutcome, Classify, PossibleDelay;
  }

  lemma NothingDelivers(q: Queue, now: I64, answer: Answer)
    requires forall id :: id in q.rows ==> !Due(q.rows[id], now)
    ensures Delivers(q, q, now, answer, None, 0)
  {
  }

  // ----- commands -----

  /** What a command other than arming makes of the session it is about. */
  ghost predicate Changes(c: Command, s: Session, s': Session, burst: Uuid, mono: U64, wall: I64)
    requires c.CommandStart? || c.PromptReady? || c.Disarm? || c.SetLabel?
  {
    match c
    case CommandStart(_) =>
      s' == if s.state == Armed then
              s.(state := Active, burstId := Some(burst), accumulated := 0, burstNotified := false,
                 commandStarted := Some(mono), lastSeen := wall)
            else if s.state == Settling then
              s.(state := Active, deadlineMono := None, deadlineWall := None, commandStarted := Some(mono), lastSeen := wall)
            else s.(lastSeen := wall)
    case PromptReady(_) =>
      if s.state != Active || s.commandStarted.None? then s.state != Active && s' == s.(lastSeen := wall) else
        && s' == s.(state := Settling, commandStarted := None, lastSeen := wall, accumulated := s'.accumulated,
                    deadlineMono := s'.deadlineMono, deadlineWall := s'.deadlineWall)
        && s'.accumulated == Min(s.accumulated + Max(0, mono - s.commandStarted.value), U64_MAX)
        && s'.deadlineMono == Some(Min(mono + s.idleFor, U64_MAX))
        && s'.deadlineWall == Some(Min(wall + Min(s.idleFor, I64_MAX), I64_MAX))
    case Disarm(_) =>
      s' == s.(mode := Off, state := Disarmed, burstId := None, accumulated := 0, commandStarted := None,
               deadlineMono := None, deadlineWall := None, burstNotified := false, lastSeen := wall)
    case SetLabel(_, title) => s' == s.(title := title, lastSeen := wall)
  }

  /** What a command other than arming makes of the session table. */
  ghost predicate Does(c: Command, m: Sessions, m': Sessions, burst: Uuid, mono: U64, wall: I64)
    requires !c.Arm?
  {
    if c.SessionOpen? then
      m' == m[c.id := if c.id in m then m[c.id].(shellPid := c.shellPid, shellType := c.shellType, tty := c.tty, lastSeen := wall)
                      else Session(
                        id := c.id, shellPid := c.shellPid, shellType := c.shellType, tty := c.tty, mode := Off, state := Disarmed,
                        burstId := None, accumulated := 0, commandStarted := None, deadlineMono := None, deadlineWall := None,
                        burstNotified := false, title := None, targets := c.targets, minimumActive := c.minimumActive,
                        idleFor := c.idleFor, lastSeen := wall)]
    else if c.SessionClose? then m' == m - {c.id}
    else if c.ManualRing? then
      if c.session.None? || c.session.value !in m then m' == m else
        var s := m[c.session.value];
        var live := s.state == Active || s.state == Settling;
        m' == m[c.session.value :=
                if live && s.mode == Once then
                  s.(mode := Off, state := Disarmed, burstId := None, accumulated := 0, commandStarted := None,
                     deadlineMono := None, deadlineWall := None, burstNotified := false, lastSeen := wall)
                else s.(burstNotified := s.burstNotified || live, lastSeen := wall)]
    else if c.id !in m then m' == m
    else m'.Keys == m.Keys && m' == m[c.id := m'[c.id]] && Changes(c, m[c.id], m'[c.id], burst, mono, wall)
  }

  lemma CommandChanges(c: Command, s: Session, burst: Uuid, event: Uuid, mono: U64, wall: I64)
    requires (c.CommandStart? || c.PromptReady? || c.Disarm? || c.SetLabel?) && s.Valid()
    ensures Changes(c, s, React(s, EventOf(c, burst, event, mono, wall)).0, burst, mono, wall)
  {
    hide React;
    ReactCases(s, EventOf(c, burst, event, mono, wall));
    if c.PromptReady? && s.state == Active {
      PromptSays(s, mono, wall);
    }
    hide OnPrompt;
  }

  lemma CommandDoes(m: Sessions, c: Command, burst: Uuid, event: Uuid, mono: U64, wall: I64)
    requires ValidTable(m) && !c.Arm?
    ensures Does(c, m, Apply(m, EventOf(c, burst, event, mono, wall)).0, burst, mono, wall)
  {
    hide React, Changes;
    var e := EventOf(c, burst, event, mono, wall);
    if c.SessionOpen? {
      if c.id in m { ReactCases(m[c.id], e); }
    } else if c.SessionClose? {
    } else if c.ManualRing? {
      if c.session.Some? && c.session.value in m { ReactCases(m[c.session.value], e); }
    } else if c.id in m {
      hide Session.Valid;
      CommandChanges(c, m[c.id], burst, event, mono, wall);
    }
  }

  /** When a manual ring is made, and what it says. */
  lemma ManualRings(m: Sessions, c: Command, burst: Uuid, event: Uuid, mono: U64, wall: I64)
    requires ValidTable(m) && c.ManualRing?
    ensures var rings := Apply(m, EventOf(c, burst, event, mono, wall)).1;
            var rung := c.session.Some? && c.session.value in m && m[c.session.value].burstNotified
                        && (m[c.session.value].state == Active || m[c.session.value].state == Settling);
            if rung then rings == []
            else |rings| == 1 && rings[0].eventId == event && rings[0].message == c.message && rings[0].targets == c.targets
  {
    hide React;
    if c.session.Some? && c.session.value in m {
      ReactCases(m[c.session.value], EventOf(c, burst, event, mono, wall));
    }
  }

  /**
   What a command other than arming is answered, and what it makes of the queue: unknown sessions are refused where the
   command needs one; a manual ring is queued as asked for, unless its burst has rung.
   */
  ghost predicate Replies(c: Command, m: Sessions, q: Queue, q': Queue, event: Uuid, wall: I64, reply: Reply)
    requires !c.Arm?
  {
    var unknown := (c.CommandStart? || c.PromptReady? || c.Disarm? || c.SetLabel?) && c.id !in m;
    var rung := c.ManualRing? && c.session.Some? && c.session.value in m && m[c.session.value].burstNotified
                && (m[c.session.value].state == Active || m[c.session.value].state == Settling);
    && reply == (if unknown then NotRegistered else if !c.ManualRing? then Acknowledged
                 else RingQueued(if rung then None else Some(event)))
    && (if c.ManualRing? && !rung then
          event in q'.rows && (event !in q.rows ==> q'.rows[event] == Row(c.message, c.targets, wall, 0, wall, Pending, None))
        else q' == q)
  }

  lemma UnknownReplies(m: Sessions, c: Command, burst: Uuid, event: Uuid, mono: U64, wall: I64, q: Queue)
    requires !c.Arm? && !Known(m, EventOf(c, burst, event, mono, wall))
    ensures Replies(c, m, q, q, event, wall, NotRegistered)
  {
  }

  lemma KnownReplies(m: Sessions, c: Command, burst: Uuid, event: Uuid, mono: U64, wall: I64, config: Config, q: Queue, q': Queue)
    requires ValidTable(m) && !c.Arm? && Known(m, EventOf(c, burst, event, mono, wall))
    requires QueueAfter(config, q, Apply(m, EventOf(c, burst, event, mono, wall)).1, wall, q')
    ensures Replies(c, m, q, q', event, wall,
                    if !c.ManualRing? then Acknowledged
                    else RingQueued(if Apply(m, EventOf(c, burst, event, mono, wall)).1 == [] then None else Some(event)))
  {
    hide Apply, Commits;
    var e := EventOf(c, burst, event, mono, wall);
    OnlyManualRings(m, e);
    if c.ManualRing? {
      ManualRings(m, c, burst, event, mono, wall);
      var rings := Apply(m, e).1;
      if rings != [] {
        assert rings == [rings[0]];
        CommittedIsStored(q, rings[0], wall, config.queueLimit, config.maxAge, q');
      }
    }
  }

  lemma ArmingDoes(m: Sessions, c: Command, burst: Uuid, mono: U64, wall: I64)
    requires c.Arm? && c.id in m
    ensures TableArmed(m, c, burst, mono, wall) ==
            m[c.id := m[c.id].(
              mode := if c.once then Once else Persistent, state := Active, burstId := Some(burst), accumulated := 0,
              commandStarted := Some(mono), deadlineMono := None, deadlineWall := None, burstNotified := false,
              minimumActive := c.minimumActive, idleFor := c.idleFor, targets := c.targets, lastSeen := wall)]
  {
    hide React;
    ReactCases(m[c.id], ArmOf(c, wall));
    ReactCases(OnArm(m[c.id], ArmOf(c, wall)), Start(c.id, burst, mono, wall));
  }

  // ----- sweeps and restarts -----

  /** Which sessions a sweep keeps. */
  lemma SweepKeeps(m: Sessions, alivePids: set<U32>, now: I64)
    requires SaneWall(now)
    ensures Swept(m, Alive(m, alivePids), now) ==
            map id | id in m && m[id].shellPid in alivePids && now - 86_400_000 <= m[id].lastSeen :: m[id]
  {
  }

  /** What a restart makes of a session read back from disk. */
  ghost predicate Resumes(s: Session, s': Session, now: I64) {
    if s.state == Settling then
      && s.deadlineWall.Some? && s'.deadlineMono == Some(Max(0, s.deadlineWall.value - now))
      && s' == s.(deadlineMono := s'.deadlineMono)
    else if s.state == Active then
      s' == s.(state := Armed, burstId := None, accumulated := 0, commandStarted := None, deadlineMono := None,
               deadlineWall := None, burstNotified := false)
    else s' == s
  }

  /** Which sessions a restart resumes, and as what. */
  lemma RestartResumes(disk: Sessions, alivePids: set<U32>, now: I64)
    requires SaneWall(now) && ValidDisk(disk)
    ensures var m := Resumed(disk, Alive(disk, alivePids), now);
            && (forall id :: id in m <==> id in disk && disk[id].shellPid in alivePids && now - disk[id].lastSeen <= 86_400_000)
            && (forall id :: id in m ==> Resumes(disk[id], m[id], now))
  {
    hide ValidOnDisk;
    var m := Resumed(disk, Alive(disk, alivePids), now);
    forall id | id in m ensures Resumes(disk[id], m[id], now) {
      OneResumes(disk[id], now);
    }
  }

  lemma RunHasDisk(c: Config, steps: seq<Step>, n: Node)
    requires Run(c, steps, n)
    ensures ValidDisk(n.disk)
  {
    hide Run;
    BooksOverRuns(c, steps, n);
  }

  lemma OneResumes(s: Session, now: I64)
    requires SaneWall(now) && ValidOnDisk(s)
    ensures Resumes(s, s.RecoverLiveTiming(0, now), now)
  {
  }

  // ----- rings of a tick -----

  /** The row of a session's automatic ring: the title given to it, or the configured text. */
  ghost predicate RowOf(s: Session, row: Row, message: string, wall: I64) {
    row == Row(Some(if s.title.Some? && s.title.value != "" && s.title.value != "Shell" then s.title.value + " is ready" else message),
               s.targets, wall, 0, wall, Pending, None)
  }

  lemma TitleIsShell(title: string)
    ensures title + " is ready" == "Shell is ready" <==> title == "Shell"
  {
    var text := title + " is ready";
    if text == "Shell is ready" {
      assert |title| == 5 && title == text[..5];
    }
  }

  lemma WordedRow(s: Session, a: Action, message: string, wall: I64)
    requires a.automatic && a.targets == s.targets
    requires a.message == Some(if s.title.Some? && s.title.value != "" then s.title.value + " is ready" else "Shell is ready")
    ensures RowOf(s, NewRow(Worded(a, message), wall), message, wall)
  {
    if s.title.Some? {
      TitleIsShell(s.title.value);
    }
  }

  /** Due and qualified, and not yet rung. */
  ghost predicate Announced(s: Session, mono: U64) {
    && s.state == Settling && s.deadlineMono.Some? && s.deadlineMono.value <= mono
    && s.minimumActive <= s.accumulated && !s.burstNotified
  }

  /** The row is that of a session which the tick found due and qualified. */
  ghost predicate IsAnnounced(m: Sessions, events: Uuid -> Uuid, mono: U64, wall: I64, message: string, id: Uuid, row: Row) {
    exists x :: x in m && Announced(m[x], mono) && id == events(x) && RowOf(m[x], row, message, wall)
  }

  /** The queue has only rows it had before, and those of the sessions that were due and qualified. */
  ghost predicate Announces(m: Sessions, events: Uuid -> Uuid, mono: U64, wall: I64, message: string, q: Queue, q': Queue) {
    forall id :: id in q'.rows ==>
      (id in q.rows && q'.rows[id] == q.rows[id]) || IsAnnounced(m, events, mono, wall, message, id, q'.rows[id])
  }

  lemma TickAnnounces(c: Config, n: Node, events: Uuid -> Uuid, mono: U64, wall: I64, q': Queue)
    requires Books(n) && Counts(n) && DrawsFresh(n.mem, Event.Tick(events, mono, wall), n.log.bursts, n.log.events)
    requires QueueAfter(c, n.queue, AllWorded(Apply(n.mem, Event.Tick(events, mono, wall)).1, c.automaticMessage), wall, q')
    ensures Announces(n.mem, events, mono, wall, c.automaticMessage, n.queue, q')
  {
    var tick := Event.Tick(events, mono, wall);
    var rings := Apply(n.mem, tick).1;
    var worded := AllWorded(rings, c.automaticMessage);
    BooksGiveTable(n);
    EngineIdsAreNew(n, tick);
    WordingKeepsIds(rings, c.automaticMessage, n.log.events);
    if worded != [] {
      BatchAnnounced(c, n, worded, wall, q');
      RingsAnnounced(n.mem, events, mono, wall, c.automaticMessage);
      hide *;
      RowsAnnounced(n.mem, events, mono, wall, c.automaticMessage, worded, n.queue, q');
    }
  }

  lemma RowsAnnounced(m: Sessions, events: Uuid -> Uuid, mono: U64, wall: I64, message: string, worded: seq<Action>,
                      q: Queue, q': Queue)
    requires OldOrMade(q, worded, wall, q')
    requires forall a :: a in worded ==> IsAnnounced(m, events, mono, wall, message, a.eventId, NewRow(a, wall))
    ensures Announces(m, events, mono, wall, message, q, q')
  {
    hide IsAnnounced, NewRow;
  }

  lemma RingsAnnounced(m: Sessions, events: Uuid -> Uuid, mono: U64, wall: I64, message: string)
    requires ValidTable(m)
    ensures forall a :: a in AllWorded(Apply(m, Event.Tick(events, mono, wall)).1, message) ==>
              IsAnnounced(m, events, mono, wall, message, a.eventId, NewRow(a, wall))
  {
    hide Apply, IsAnnounced, NewRow;
    var rings := Apply(m, Event.Tick(events, mono, wall)).1;
    forall a | a in AllWorded(rings, message) ensures IsAnnounced(m, events, mono, wall, message, a.eventId, NewRow(a, wall)) {
      var i :| 0 <= i < |rings| && AllWorded(rings, message)[i] == a;
      assert rings[i] in rings && a == Worded(rings[i], message);
      RingAnnounced(m, events, mono, wall, rings[i], message);
    }
  }

  lemma BatchAnnounced(c: Config, n: Node, worded: seq<Action>, wall: I64, q': Queue)
    requires Counts(n) && NewIds(worded, n.log.events) && worded != [] && QueueAfter(c, n.queue, worded, wall, q')
    ensures OldOrMade(n.queue, worded, wall, q')
  {
    var p := Pruned(n.queue, Cutoff(wall, c.maxAge));
    assert FreshFor(p, worded);
    BatchRows(p, worded, wall, c.queueLimit, q');
  }

  lemma RingAnnounced(m: Sessions, events: Uuid -> Uuid, mono: U64, wall: I64, a: Action, message: string)
    requires ValidTable(m) && a in Apply(m, Event.Tick(events, mono, wall)).1
    ensures IsAnnounced(m, events, mono, wall, message, a.eventId, NewRow(Worded(a, message), wall))
  {
    TickSays(m, events, mono, wall);
    hide Apply, RowOf, Worded;
    var x :| x in m &&
      var s := m[x];
      && s.state == Settling && s.deadlineMono.value <= mono
      && s.accumulated >= s.minimumActive && !s.burstNotified
      && a == Action(events(x), Some(x),
                     Some(if s.title.Some? && s.title.value != "" then s.title.value + " is ready" else "Shell is ready"),
                     s.targets, true, Some(s.accumulated));
    WordedRow(m[x], a, message, wall);
  }
}
