/**
 The daemon's own operations on its engine and its store. Each performs steps of the daemon's step machine, so what
 is proved of every run of that machine holds of every sequence of calls, crashes and restarts.
 */
module DaemonHost {
  import opened Types
  import opened Activity
  import opened Bursts
  import opened Queue
  import opened Retry
  import opened Store
  import opened Daemon
  import opened DaemonLaws
  import opened DaemonSteps
  import opened DaemonTerms

  class DaemonHost {
    const config: Config
    var engine: ActivityEngine
    var store: Store
    ghost var node: Node
    ghost var steps: seq<Step>

    /** The store holds what the step machine has on disk, after a run of that machine. */
    ghost predicate Durable()
      reads this, store
    {
      && Run(config, steps, node)
      && node.disk == store.sessions && node.queue == store.View()
    }

    /** The daemon is up and between two operations. */
    ghost predicate Valid()
      reads this, engine, store
    {
      && Durable() && engine.Valid()
      && node.up && node.worker == Idle && node.mem == engine.sessions
    }

    /** The daemon is not running; its worker stopped with it. */
    ghost predicate Down()
      reads this, store
    {
      Durable() && !node.up && node.worker == Idle
    }

    /** A new installation: an empty store, and the daemon started for the first time. */
    constructor Install(config: Config, now: I64)
      requires SaneWall(now)
      ensures Valid() && this.config == config && engine.sessions == map[] && store.View() == Queue(map[], 0)
      ensures steps == [Restart({}, now)]
    {
      this.config := config;
      var engine := new ActivityEngine.FromSessions([]);
      var store := new Store.Open();
      this.engine, this.store := engine, store;
      node, steps := FIRST, [];
      new;
      assert engine.sessions == map[];
      assert Resumed(map[], {}, now) == map[] && Saved(map[]) == map[];
      RestartStep(config, node, {}, now);
      NoSteps(config, node);
      Advance(node, [], Restart({}, now));
      assert [] + [Restart({}, now)] == steps;
    }

    /** The machine takes a step; so far it has taken `more` from `start`. */
    ghost method Advance(start: Node, more: seq<Step>, s: Step)
      requires Run(config, steps, node) && Extends(config, start, more, node) && Enabled(config, node, s)
      modifies this`node, this`steps
      ensures Run(config, steps, node) && node == Next(config, old(node), s) && steps == old(steps) + [s]
      ensures Extends(config, start, more + [s], node)
    {
      RunExtends(config, steps, node, s);
      ExtendsBy(config, start, more, node, s);
      node, steps := Next(config, node, s), steps + [s];
    }

    /** The delivery loop has submitted a row; record what came of it. `more` are the steps taken from `start` so far. */
    method RecordOutcome(id: Uuid, now: I64, result: DeliveryResult, delay: nat, ghost start: Node, ghost more: seq<Step>)
      requires Durable() && engine.Valid() && node.up && node.mem == engine.sessions
      requires node.worker.Sent? && node.worker.id == id && node.worker.now == now
      requires PossibleDelay(node.worker.row.attempts, delay) && Extends(config, start, more, node)
      modifies this`node, this`steps, store
      ensures Valid() && store.sessions == old(store.sessions)
      ensures store.View() == AfterOutcome(old(store.View()), id, result, now, delay)
      ensures steps == old(steps) + OutcomeList(result, delay) && Extends(config, start, more + OutcomeList(result, delay), node)
    {
      hide Run, Extends, Enabled, Next, PossibleDelay, Truncated;
      OutcomeSteps(config, node, result, delay);
      Advance(start, more, OutcomeStep(result, delay));
      match result {
        case Accepted =>
          store.MarkDelivered(id);
        case AuthorizationFailed(diagnostic) =>
          store.MarkAuthorizationFailure(id, diagnostic);
        case Permanent =>
          Advance(start, more + [Reject], Count);
          assert more + [Reject] + [Count] == more + [Reject, Count];
          store.DiscardPermanent(id);
        case Transient(diagnostic) =>
          store.MarkRetry(id, SatAddI64(now, ToI64(delay)), diagnostic);
      }
    }

    /** Submit a row that is due and record what came of it; `draw` is the random jitter. */
    method SubmitRow(id: Uuid, row: Row, now: I64, answer: Answer, draw: nat -> nat, ghost start: Node)
      returns (ghost delay: nat)
      requires Durable() && engine.Valid() && node.up && node.worker == Selecting(now) && node.mem == engine.sessions
      requires NextDue(store.rows, now, id) && row == store.rows[id] && forall bound :: draw(bound) <= bound
      requires Extends(config, start, [Expire(now, true), Count], node)
      modifies this`node, this`steps, store
      ensures Valid() && store.sessions == old(store.sessions)
      ensures AttemptedWith(old(store.View()), store.View(), now, answer, id, delay)
      ensures Delivers(old(store.View()), store.View(), now, answer, Some(id), delay)
      ensures steps == old(steps) + ([Select(id)] + OutcomeList(Classify(answer, id), delay))
      ensures Extends(config, start, DeliverySteps(now, answer, id, delay), node)
    {
      hide Run, Extends, Enabled, Next, AfterOutcome, Delivers;
      SelectStep(config, node, id);
      Advance(start, [Expire(now, true), Count], Select(id));
      var wait := BaseDelay(row.attempts) + draw(BaseDelay(row.attempts) / 4);
      delay := wait;
      ghost var taken := [Expire(now, true), Count] + [Select(id)];
      RowDelivers(store.View(), id, answer, now, wait);
      RecordOutcome(id, now, Classify(answer, id), wait, start, taken);
      assert taken + OutcomeList(Classify(answer, id), delay) == DeliverySteps(now, answer, id, delay);
      assert old(steps) + [Select(id)] + OutcomeList(Classify(answer, id), delay)
          == old(steps) + ([Select(id)] + OutcomeList(Classify(answer, id), delay));
    }

    /** Expire, pick the row that is due, submit it, and record what came of it. */
    method DeliverOne(now: I64, answer: Answer, draw: nat -> nat)
      returns (ghost picked: Option<Uuid>, ghost delay: nat, ghost more: seq<Step>)
      requires Valid() && SaneWall(now) && forall bound :: draw(bound) <= bound
      modifies this`node, this`steps, store
      ensures Valid() && store.sessions == old(store.sessions)
      ensures Attempted(Pruned(old(store.View()), Cutoff(now, config.maxAge)), store.View(), now, answer)
      ensures IsDelivery(now, answer, more) && steps == old(steps) + more && Extends(config, old(node), more, node)
      ensures Delivers(Pruned(old(store.View()), Cutoff(now, config.maxAge)), store.View(), now, answer, picked, delay)
    {
      picked, delay, more := None, 0, [Expire(now, true), Count, SelectNone];
      ghost var q := Pruned(store.View(), Cutoff(now, config.maxAge));
      hide Run, Extends, Enabled, Next, Pruned, Cutoff, AttemptedWith, OutcomeList, ActivityEngine.Valid, Settled, Delivers, Attempted, IsDelivery, DeliverySteps, Due, Paces;
      var event := store.NextDueRing(now, config.maxAge);
      BeginDelivery(now);
      if event.None? {
        NothingDelivers(q, now, answer);
        NothingAttempted(q, now, answer);
        SelectNothing(now, old(node));
        AddUp(old(steps), [Expire(now, true), Count], [SelectNone], [Expire(now, true), Count, SelectNone]);
      } else {
        var id := event.value.0;
        delay := SubmitRow(id, event.value.1, now, answer, draw, old(node));
        picked, more := Some(id), DeliverySteps(now, answer, id, delay);
        OneAttempted(q, store.View(), now, answer, id, delay);
        DeliveryAddsUp(old(steps), now, answer, id, delay);
      }
    }

    /** The machine's side of finding no row due. */
    ghost method SelectNothing(now: I64, start: Node)
      requires Durable() && engine.Valid() && node.up && node.worker == Selecting(now) && node.mem == engine.sessions
      requires (forall id :: id in store.rows ==> !Due(store.rows[id], now)) && Extends(config, start, [Expire(now, true), Count], node)
      modifies this`node, this`steps
      ensures Valid() && steps == old(steps) + [SelectNone]
      ensures Extends(config, start, [Expire(now, true), Count, SelectNone], node)
    {
      hide Run, Extends, Enabled, Next, Due;
      SelectNoneStep(config, node);
      Advance(start, [Expire(now, true), Count], SelectNone);
      assert [Expire(now, true), Count] + [SelectNone] == [Expire(now, true), Count, SelectNone];
    }

    /** The machine's side of expiry before a row is picked. */
    ghost method BeginDelivery(now: I64)
      requires Run(config, steps, node) && node.up && node.worker == Idle && SaneWall(now)
      modifies this`node, this`steps
      ensures Run(config, steps, node) && steps == old(steps) + [Expire(now, true), Count]
      ensures node == old(node).(queue := Pruned(old(node).queue, Cutoff(now, config.maxAge)), worker := Selecting(now))
      ensures Extends(config, old(node), [Expire(now, true), Count], node)
    {
      hide Run, Extends, Enabled, Next, Pruned, Cutoff;
      NoSteps(config, node);
      ExpireSteps(config, node, now, true);
      Advance(old(node), [], Expire(now, true));
      Advance(old(node), [] + [Expire(now, true)], Count);
      assert [] + [Expire(now, true)] + [Count] == [Expire(now, true), Count];
    }

    /** One tick of the timers: whatever rings is stored in the same transaction as the sessions. */
    method ProcessTimers(events: Uuid -> Uuid, nowMono: U64, nowWall: I64)
      requires Valid() && SaneWall(nowWall)
      requires DrawsFresh(engine.sessions, Tick(events, nowMono, nowWall), node.log.bursts, node.log.events)
      modifies this`node, this`steps, engine, store
      ensures Valid()
      ensures engine.sessions == Apply(old(engine.sessions), Tick(events, nowMono, nowWall)).0
      ensures Apply(old(engine.sessions), Tick(events, nowMono, nowWall)).1 == [] ==>
                store.sessions == old(store.sessions) && store.View() == old(store.View())
      ensures Apply(old(engine.sessions), Tick(events, nowMono, nowWall)).1 != [] ==>
                && store.sessions == Saved(engine.sessions)
                && Commits(old(store.View()),
                           AllWorded(Apply(old(engine.sessions), Tick(events, nowMono, nowWall)).1, config.automaticMessage),
                           nowWall, config.queueLimit, config.maxAge, store.View())
      ensures Announces(old(engine.sessions), events, nowMono, nowWall, config.automaticMessage, old(store.View()), store.View())
      ensures var more := [Timer(Tick(events, nowMono, nowWall), store.View())];
              steps == old(steps) + more && Extends(config, old(node), more, node)
    {
      hide Extends, Run, Enabled, Next, Apply, Saved, DrawsFresh, Commits;
      ghost var tick := Tick(events, nowMono, nowWall);
      ghost var before := engine.sessions;
      ghost var emitted := engine.emitted;
      AfterStep(engine.initial, engine.history, tick);
      var actions := engine.Tick(events, nowMono, nowWall);
      SameRest(emitted, actions, Apply(before, tick).1);
      var worded := Reword(actions, config.automaticMessage);
      if worded != [] {
        store.SaveSessionsAndEnqueue(engine.sessions, worded, nowWall, config.queueLimit, config.maxAge);
      }
      Announce(events, nowMono, nowWall, store.View());
      TimerStep(config, node, tick, store.View());
      NoSteps(config, node);
      Advance(node, [], Timer(tick, store.View()));
      assert [] + [Timer(tick, store.View())] == [Timer(tick, store.View())];
    }

    ghost method Announce(events: Uuid -> Uuid, nowMono: U64, nowWall: I64, q': Queue)
      requires Run(config, steps, node)
      requires DrawsFresh(node.mem, Tick(events, nowMono, nowWall), node.log.bursts, node.log.events)
      requires QueueAfter(config, node.queue, AllWorded(Apply(node.mem, Tick(events, nowMono, nowWall)).1, config.automaticMessage),
                          nowWall, q')
      ensures Announces(node.mem, events, nowMono, nowWall, config.automaticMessage, node.queue, q')
    {
      NoSilentLoss(config, steps, node);
      TickAnnounces(config, node, events, nowMono, nowWall, q');
    }

    /** The configured message takes the place of the default one. */
    static method Reword(actions: seq<Action>, message: string) returns (worded: seq<Action>)
      ensures worded == AllWorded(actions, message)
    {
      worded := [];
      for i := 0 to |actions|
        invariant |worded| == i && forall k :: 0 <= k < i ==> worded[k] == Worded(actions[k], message)
      {
        var action := actions[i];
        if action.automatic && action.message == Some("Shell is ready") {
          action := action.(message := Some(message));
        }
        worded := worded + [action];
      }
    }

    /** The engine call of a command. `burst` and `event` are used if the command opens a burst or rings. */
    method CallEngine(c: Command, burst: Uuid, event: Uuid, nowMono: U64, nowWall: I64)
      returns (found: bool, ring: Option<Action>)
      requires engine.Valid() && !c.Arm?
      modifies engine
      ensures engine.Valid() && found == Known(old(engine.sessions), EventOf(c, burst, event, nowMono, nowWall))
      ensures engine.sessions == Apply(old(engine.sessions), EventOf(c, burst, event, nowMono, nowWall)).0
      ensures (if ring.Some? then [ring.value] else []) == Apply(old(engine.sessions), EventOf(c, burst, event, nowMono, nowWall)).1
    {
      hide Apply;
      ghost var e := EventOf(c, burst, event, nowMono, nowWall);
      ghost var before, emitted := engine.sessions, engine.emitted;
      AfterStep(engine.initial, engine.history, e);
      found, ring := true, None;
      match c {
        case SessionOpen(id, pid, shellType, tty, minimumActive, idleFor, targets) =>
          engine.SessionOpen(id, pid, shellType, tty, minimumActive, idleFor, targets, nowWall);
        case CommandStart(id) =>
          found := engine.CommandStart(id, burst, nowMono, nowWall);
        case PromptReady(id) =>
          found := engine.PromptReady(id, nowMono, nowWall);
        case SessionClose(id) =>
          var _ := engine.SessionClose(id);
        case Disarm(id) =>
          found := engine.Disarm(id, nowWall);
        case SetLabel(id, title) =>
          found := engine.SetLabel(id, title, nowWall);
        case ManualRing(session, message, targets) =>
          ring := engine.ManualRing(session, event, message, targets, nowMono, nowWall);
      }
      assert emitted + [] == emitted;
      SameRest(emitted, if ring.Some? then [ring.value] else [], Apply(before, e).1);
    }

    /** A command about an unknown session changes nothing; `burst` and `event` are fresh identifiers. */
    method HandleRequest(c: Command, burst: Uuid, event: Uuid, nowMono: U64, nowWall: I64) returns (reply: Reply)
      requires Valid() && SaneWall(nowWall) && !c.Arm?
      requires DrawsFresh(engine.sessions, EventOf(c, burst, event, nowMono, nowWall), node.log.bursts, node.log.events)
      modifies this`node, this`steps, engine, store
      ensures Valid()
      ensures var e := EventOf(c, burst, event, nowMono, nowWall);
              if Known(old(engine.sessions), e)
              then engine.sessions == Apply(old(engine.sessions), e).0 && store.sessions == Saved(engine.sessions)
              else engine.sessions == old(engine.sessions) && store.sessions == old(store.sessions)
      ensures reply == NotRegistered <==> !Known(old(engine.sessions), EventOf(c, burst, event, nowMono, nowWall))
      ensures Does(c, old(engine.sessions), engine.sessions, burst, nowMono, nowWall)
      ensures Replies(c, old(engine.sessions), old(store.View()), store.View(), event, nowWall, reply)
      ensures !(reply.RingQueued? && reply.event.Some?) ==> store.View() == old(store.View())
      ensures reply.RingQueued? <==> c.ManualRing?
      ensures reply.RingQueued? && reply.event.Some? ==>
                && reply.event.value == event && event in store.rows
                && Commits(old(store.View()), Apply(old(engine.sessions), EventOf(c, burst, event, nowMono, nowWall)).1,
                           nowWall, config.queueLimit, config.maxAge, store.View())
      ensures var more := if reply == NotRegistered then [] else [Request(EventOf(c, burst, event, nowMono, nowWall), store.View())];
              steps == old(steps) + more && Extends(config, old(node), more, node)
    {
      hide Extends, Run, Enabled, Next, Saved, DrawsFresh, Commits, Apply;
      ghost var e := EventOf(c, burst, event, nowMono, nowWall);
      ghost var before := engine.sessions;
      NoSteps(config, node);
      CommandDoes(engine.sessions, c, burst, event, nowMono, nowWall);
      hide Does, Replies;
      var found, ring := CallEngine(c, burst, event, nowMono, nowWall);
      if !found {
        UnknownChangesNothing(before, e);
        UnknownReplies(before, c, burst, event, nowMono, nowWall, store.View());
        return NotRegistered;
      }
      OnlyManualRings(before, e);
      if ring.Some? {
        store.SaveSessionsAndEnqueue(engine.sessions, [ring.value], nowWall, config.queueLimit, config.maxAge);
        CommittedIsStored(old(store.View()), ring.value, nowWall, config.queueLimit, config.maxAge, store.View());
      } else {
        store.SaveSessions(engine.sessions);
      }
      RequestStep(config, node, e, store.View());
      Advance(node, [], Request(e, store.View()));
      assert [] + [Request(e, store.View())] == [Request(e, store.View())];
      KnownReplies(before, c, burst, event, nowMono, nowWall, config, old(store.View()), store.View());
      reply := if c.ManualRing? then RingQueued(if ring.Some? then Some(event) else None) else Acknowledged;
    }

    method ArmEngine(c: Command, burst: Uuid, nowMono: U64, nowWall: I64) returns (found: bool)
      requires engine.Valid() && c.Arm?
      modifies engine
      ensures engine.Valid() && found == (c.id in old(engine.sessions))
      ensures engine.sessions == if found then TableArmed(old(engine.sessions), c, burst, nowMono, nowWall) else old(engine.sessions)
    {
      hide Apply;
      var mode := if c.once then Once else Persistent;
      ghost var arm, start := ArmOf(c, nowWall), Start(c.id, burst, nowMono, nowWall);
      ghost var history := engine.history;
      AfterStep(engine.initial, history, arm);
      AfterStep(engine.initial, history + [arm], start);
      if c.id !in engine.sessions {
        UnknownChangesNothing(engine.sessions, arm);
      }
      found := engine.ArmAndStart(c.id, mode, c.minimumActive, c.idleFor, c.targets, burst, nowMono, nowWall);
      assert engine.history == if found then history + [arm] + [start] else history + [arm];
    }

    /** Arming starts a burst at once: the prompt from which the command came is behind it. */
    method HandleArm(c: Command, burst: Uuid, nowMono: U64, nowWall: I64) returns (reply: Reply)
      requires Valid() && c.Arm?
      requires DrawsFresh(engine.sessions, Start(c.id, burst, nowMono, nowWall), node.log.bursts, node.log.events)
      modifies this`node, this`steps, engine, store
      ensures Valid() && store.View() == old(store.View())
      ensures reply == if c.id in old(engine.sessions) then Acknowledged else NotRegistered
      ensures reply == NotRegistered ==> engine.sessions == old(engine.sessions) && store.sessions == old(store.sessions)
      ensures reply == Acknowledged ==>
                && engine.sessions == TableArmed(old(engine.sessions), c, burst, nowMono, nowWall)
                && engine.sessions == old(engine.sessions)[c.id := old(engine.sessions)[c.id].(
                     mode := if c.once then Once else Persistent, state := Active, burstId := Some(burst), accumulated := 0,
                     commandStarted := Some(nowMono), deadlineMono := None, deadlineWall := None, burstNotified := false,
                     minimumActive := c.minimumActive, idleFor := c.idleFor, targets := c.targets, lastSeen := nowWall)]
                && store.sessions == Saved(engine.sessions)
      ensures var more := if reply == NotRegistered then []
                          else [ArmAndStart(ArmOf(c, nowWall), Start(c.id, burst, nowMono, nowWall))];
              steps == old(steps) + more && Extends(config, old(node), more, node)
    {
      hide Extends, Run, Enabled, Next, Saved, DrawsFresh, Apply;
      NoSteps(config, node);
      if c.id in engine.sessions { ArmingDoes(engine.sessions, c, burst, nowMono, nowWall); }
      var found := ArmEngine(c, burst, nowMono, nowWall);
      if !found {
        return NotRegistered;
      }
      hide TableArmed;
      store.SaveSessions(engine.sessions);
      ghost var arm, start := ArmOf(c, nowWall), Start(c.id, burst, nowMono, nowWall);
      ArmStep(config, node, arm, start);
      Advance(node, [], ArmAndStart(arm, start));
      assert [] + [ArmAndStart(arm, start)] == [ArmAndStart(arm, start)];
      reply := Acknowledged;
    }

    /** Close the sessions whose shell is gone. */
    method CloseDead(alivePids: set<U32>) returns (dead: set<Uuid>)
      requires engine.Valid()
      modifies engine
      ensures engine.Valid()
      ensures dead == set id | id in old(engine.sessions) && old(engine.sessions)[id].shellPid !in alivePids
      ensures engine.sessions == old(engine.sessions) - dead
    {
      hide Apply, After, Emitted, ValidTable;
      ghost var before := engine.sessions;
      dead := set id | id in engine.sessions && engine.sessions[id].shellPid !in alivePids;
      var todo := dead;
      while todo != {}
        invariant todo <= dead && engine.Valid() && engine.sessions == before - (dead - todo)
      {
        var id :| id in todo;
        AfterStep(engine.initial, engine.history, Close(id));
        ClosingForgets(engine.sessions, id);
        var _ := engine.SessionClose(id);
        todo := todo - {id};
      }
      assert dead - todo == dead;
    }

    /** Forget the sessions not seen for a day, then those whose shell is gone. */
    method SweepSessions(alivePids: set<U32>, now: I64) returns (anyRemoved: bool)
      requires engine.Valid()
      modifies engine
      ensures engine.Valid()
      ensures engine.sessions == Swept(old(engine.sessions), Alive(old(engine.sessions), alivePids), now)
      ensures anyRemoved <==> engine.sessions != old(engine.sessions)
    {
      hide After, Emitted, ValidTable;
      ghost var before := engine.sessions;
      AfterStep(engine.initial, engine.history, Cleanup(SatSubI64(now, STALE_AFTER)));
      var stale := engine.CleanupStale(SatSubI64(now, STALE_AFTER));
      var dead := CloseDead(alivePids);
      assert engine.sessions == Swept(before, Alive(before, alivePids), now);
      anyRemoved := stale != [] || dead != {};
      assert stale != [] ==> stale[0] in stale && stale[0] !in engine.sessions;
    }

    /** `more` are the steps taken from `start` so far. */
    method ExpireRows(now: I64, ghost start: Node, ghost more: seq<Step>)
      requires Valid() && SaneWall(now) && Extends(config, start, more, node)
      modifies this`node, this`steps, store
      ensures Valid() && store.sessions == old(store.sessions)
      ensures store.View() == Pruned(old(store.View()), Cutoff(now, config.maxAge))
      ensures steps == old(steps) + [Expire(now, false), Count] && Extends(config, start, more + [Expire(now, false), Count], node)
    {
      hide Run, Extends, Enabled, Next, Pruned, Cutoff;
      ExpireSteps(config, node, now, false);
      var _ := store.ExpireOld(now, config.maxAge);
      Advance(start, more, Expire(now, false));
      Advance(start, more + [Expire(now, false)], Count);
      AddUp(more, [Expire(now, false)], [Count], [Expire(now, false), Count]);
      AddUp(old(steps), [Expire(now, false)], [Count], [Expire(now, false), Count]);
    }

    /** Forget old and dead sessions, save if there were any, then expire old rows. */
    method CleanupSessions(alivePids: set<U32>, now: I64)
      requires Valid() && SaneWall(now)
      modifies this`node, this`steps, engine, store
      ensures Valid()
      ensures engine.sessions == Swept(old(engine.sessions), Alive(old(engine.sessions), alivePids), now)
      ensures engine.sessions == map id | id in old(engine.sessions) && old(engine.sessions)[id].shellPid in alivePids
                                      && now - 86_400_000 <= old(engine.sessions)[id].lastSeen :: old(engine.sessions)[id]
      ensures store.sessions == if engine.sessions == old(engine.sessions) then old(store.sessions) else Saved(engine.sessions)
      ensures store.View() == Pruned(old(store.View()), Cutoff(now, config.maxAge))
      ensures var more := [Sweep(Alive(old(engine.sessions), alivePids), now), Expire(now, false), Count];
              steps == old(steps) + more && Extends(config, old(node), more, node)
    {
      hide Run, Extends, Enabled, Next, Saved, Pruned, Cutoff, Swept, Alive, ValidTable;
      ghost var alive := Alive(engine.sessions, alivePids);
      SweepKeeps(engine.sessions, alivePids, now);
      var anyRemoved := SweepSessions(alivePids, now);
      if anyRemoved {
        store.SaveSessions(engine.sessions);
      }
      SweepStep(config, node, alive, now);
      NoSteps(config, node);
      Advance(node, [], Sweep(alive, now));
      ExpireRows(now, old(node), [] + [Sweep(alive, now)]);
      assert [] + [Sweep(alive, now)] + [Expire(now, false), Count] == [Sweep(alive, now), Expire(now, false), Count];
    }

    /** The end of an orderly run: the sessions are saved once more. */
    method ShutDown()
      requires Valid()
      modifies this`node, this`steps, store
      ensures Down() && store.sessions == Saved(engine.sessions) && store.View() == old(store.View())
      ensures steps == old(steps) + [Shutdown] && Extends(config, old(node), [Shutdown], node)
    {
      hide Run, Extends, Enabled, Next, Saved;
      ShutdownStep(config, node);
      store.SaveSessions(engine.sessions);
      NoSteps(config, node);
      Advance(node, [], Shutdown);
      assert [] + [Shutdown] == [Shutdown];
    }

    /** Power goes off between two operations: nothing is saved, and the store stays as it is. */
    ghost method PowerOff()
      requires Valid()
      modifies this`node, this`steps
      ensures Down() && steps == old(steps) + [Crash] && Extends(config, old(node), [Crash], node)
    {
      hide Run, Extends, Enabled, Next;
      CrashStep(config, node);
      NoSteps(config, node);
      Advance(node, [], Crash);
      assert [] + [Crash] == [Crash];
    }

    /** The sessions read back that were seen lately and whose shell is still alive, with their timers recovered. */
    method LoadResumed(alivePids: set<U32>, now: I64) returns (resumed: seq<Session>)
      requires forall id :: id in store.sessions ==> store.sessions[id].RecoverLiveTiming(0, now).id == id
      ensures Lists(resumed, Resumed(store.sessions, Alive(store.sessions, alivePids), now))
    {
      var loaded := store.LoadSessions();
      ghost var table := Resumed(loaded, Alive(loaded, alivePids), now);
      var todo := loaded.Keys;
      resumed := [];
      while todo != {}
        invariant todo <= loaded.Keys
        invariant forall s: Session :: s in resumed ==> s.id in table && table[s.id] == s
        invariant forall id :: id in table && id !in todo ==> table[id] in resumed
      {
        var id :| id in todo;
        todo := todo - {id};
        var session := loaded[id];
        if session.shellPid in alivePids && SatSubI64(now, session.lastSeen) <= STALE_AFTER {
          session := session.RecoverLiveTiming(0, now);
          resumed := resumed + [session];
        }
      }
    }

    /** A restart resumes the sessions seen lately whose shell is still alive. */
    method StartUp(alivePids: set<U32>, now: I64)
      requires Down() && SaneWall(now)
      modifies this, store
      ensures Valid() && fresh(engine) && store == old(store)
      ensures engine.sessions == Resumed(old(store.sessions), Alive(old(store.sessions), alivePids), now)
      ensures store.sessions == Saved(engine.sessions) && store.View() == old(store.View())
      ensures forall id :: id in engine.sessions <==>
                && id in old(store.sessions) && old(store.sessions)[id].shellPid in alivePids
                && now - old(store.sessions)[id].lastSeen <= 86_400_000
      ensures forall id :: id in engine.sessions ==> Resumes(old(store.sessions)[id], engine.sessions[id], now)
      ensures var more := [Restart(Alive(old(store.sessions), alivePids), now)];
              steps == old(steps) + more && Extends(config, old(node), more, node)
    {
      hide Run, Extends, Enabled, Next, Saved, Resumed;
      ghost var alive := Alive(store.sessions, alivePids);
      ResumedAreValid(config, steps, node, alive, now);
      RunHasDisk(config, steps, node);
      RestartResumes(store.sessions, alivePids, now);
      hide Resumes, Session.Valid, ValidDisk, Alive, ValidTable, Lists, After, Emitted;
      var resumed := LoadResumed(alivePids, now);
      SameTable(resumed, Resumed(store.sessions, alive, now));
      engine := new ActivityEngine.FromSessions(resumed);
      IsTable(resumed, Resumed(old(store.sessions), alive, now), engine.sessions);
      store.SaveSessions(engine.sessions);
      RestartStep(config, node, alive, now);
      NoSteps(config, node);
      Advance(node, [], Restart(alive, now));
      assert [] + [Restart(alive, now)] == [Restart(alive, now)];
    }
  }
}
