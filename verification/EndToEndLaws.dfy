/** At most one notification for a burst, from the shell's prompt to the push, over every run of the chain. */
module EndToEndLaws {
  import opened Types
  import opened Activity
  import opened Bursts
  import opened Queue
  import opened Daemon
  import opened DaemonLaws
  import opened EndToEnd
  import Relay

  // ----- what holds in every reachable world -----

  /** Rows are as young as their birth says, and the delivery loop only has rows young enough for its clock reading. */
  ghost predicate RowsTimed(p: Params, w: World) {
    && (forall id :: id in w.past.born <==> id in w.node.log.inserted)
    && (forall id :: id in w.past.born ==> w.past.born[id] <= w.time)
    && (forall id :: id in w.node.queue.rows ==>
          id in w.past.born && w.node.queue.rows[id].createdAt <= w.past.born[id] + p.skew)
    && w.since <= w.time
    && (w.node.worker.Counting? || w.node.worker.Selecting? ==>
          && w.since - p.skew <= w.node.worker.now
          && forall id :: id in w.node.queue.rows ==>
               w.node.worker.now - p.config.maxAge <= w.node.queue.rows[id].createdAt || w.since <= w.past.born[id])
  }

  /** A request was sent while its event was young. */
  ghost predicate MessageTimed(p: Params, w: World, m: Message) {
    && m.request.source == p.source && m.request.event in w.past.born
    && m.since <= w.past.born[m.request.event] + p.config.maxAge + 2 * p.skew
    && (m.answered ==> m.request.event in Accepted(w))
  }

  function Accepted(w: World): set<Uuid> { set a | a in w.past.accepted :: a.1 }

  /** Accepted events are known, each has one ring, and ring identifiers stay below the relay's high-water mark. */
  ghost predicate AcceptedOnce(w: World) {
    && (forall a :: a in w.past.accepted ==> a.0 <= w.tables.lastId && a.1 in w.past.born)
    && (forall a, b :: a in w.past.accepted && b in w.past.accepted && a.1 == b.1 ==> a == b)
  }

  /** An accepted event has its ring in the relay's history, unless the event can no longer arrive. */
  ghost predicate AcceptedHeld(p: Params, w: World) {
    forall a :: a in w.past.accepted ==>
      Relay.Holds(w.tables.rings, p.source, a.1) || (a.1 in w.past.born && w.past.born[a.1] + p.Horizon() < w.time)
  }

  /** The source's rings are those accepted, none older than its event. */
  ghost predicate RingsAccepted(p: Params, w: World) {
    forall r :: r in w.tables.rings && r.source == p.source ==>
      (r.id, r.event) in w.past.accepted && r.event in w.past.born && w.past.born[r.event] <= r.createdAt
  }

  ghost predicate RingsRecorded(p: Params, w: World) {
    && w.tables.Valid() && p.Horizon() <= w.tables.retention
    && AcceptedOnce(w) && AcceptedHeld(p, w) && RingsAccepted(p, w)
  }

  /** Each push is attempted once, for an accepted event, and what is still to be attempted was not. */
  ghost predicate PushesOnce(w: World) {
    && (forall i, j :: 0 <= i < j < |w.past.pushed| ==> w.past.pushed[i] != w.past.pushed[j])
    && (forall x :: x in w.past.pushed ==> x.0 in Accepted(w))
    && (forall t :: t in w.tasks ==> (t.0, t.1) in w.past.accepted && (t.1, t.2) !in w.past.pushed)
  }

  ghost predicate DeliveriesAccepted(w: World) {
    forall id :: id in w.node.log.delivered ==> id in Accepted(w)
  }

  ghost predicate NetTimed(p: Params, w: World) {
    forall m :: m in w.net ==> MessageTimed(p, w, m)
  }

  ghost predicate Kept(p: Params, w: World) {
    && Books(w.node) && Counts(w.node)
    && RowsTimed(p, w) && NetTimed(p, w) && RingsRecorded(p, w) && PushesOnce(w) && DeliveriesAccepted(w)
  }

  // ----- local steps -----

  /** The rows after a node step are old ones, or new ones stamped with the step's clock reading. */
  ghost predicate RowsComeFrom(n: Node, s: Step, n': Node) {
    && (forall id :: id in n.log.inserted ==> id in n'.log.inserted)
    && (forall id :: id in n'.queue.rows ==>
          || (id in n.queue.rows && n'.queue.rows[id].createdAt == n.queue.rows[id].createdAt)
          || (id !in n.log.inserted && id in n'.log.inserted && Reading(s).Some?
              && n'.queue.rows[id].createdAt == Reading(s).value))
  }

  lemma CommitRowsComeFrom(c: Config, n: Node, s: Step, actions: seq<Action>, now: I64, n': Node)
    requires Counts(n) && QueueAfter(c, n.queue, actions, now, n'.queue) && NewIds(actions, n.log.events)
    requires n'.log.inserted == n.log.inserted + Ids(actions)
    requires actions != [] ==> Reading(s) == Some(now)
    ensures RowsComeFrom(n, s, n')
  {
    CommitCounts(c, n.queue, actions, now, n'.queue, n.log.inserted, n.log.events);
    forall id | id in EventIds(actions) ensures id !in n.log.inserted && id in Ids(actions) && actions != [] {
      EventIdsAreIds(actions, id);
      var a :| a in actions && a.eventId == id;
      assert a.eventId !in n.log.events;
    }
    hide QueueAfter, EventIds, Counts, NewIds;
  }

  lemma NothingCommits(c: Config, q: Queue, now: I64, message: string)
    ensures AllWorded([], message) == [] && QueueAfter(c, q, [], now, q)
  {
  }

  lemma OnlyManualRequestsRing(m: Sessions, e: Event)
    requires IsRequest(e) && !e.Manual?
    ensures Apply(m, e).1 == []
  {
  }

  lemma StepRowsComeFrom(c: Config, n: Node, s: Step)
    requires Books(n) && Counts(n) && Enabled(c, n, s)
    ensures RowsComeFrom(n, s, Next(c, n, s))
  {
    hide Apply, Books, QueueAfter, DrawsFresh, Swept, Resumed, Saved, Counts, RowsComeFrom;
    var n' := Next(c, n, s);
    match s
    case Request(e, q') =>
      BooksGiveTable(n);
      EngineIdsAreNew(n, e);
      if !e.Manual? { OnlyManualRequestsRing(n.mem, e); }
      CommitRowsComeFrom(c, n, s, Apply(n.mem, e).1, WallOf(e), n');
    case Timer(tick, q') =>
      var rings := Apply(n.mem, tick).1;
      BooksGiveTable(n);
      EngineIdsAreNew(n, tick);
      WordingKeepsIds(rings, c.automaticMessage, n.log.events);
      if rings == [] { NothingCommits(c, n.queue, tick.wall, c.automaticMessage); }
      CommitRowsComeFrom(c, n, s, AllWorded(rings, c.automaticMessage), tick.wall, n');
    case _ => QuietRowsComeFrom(c, n, s);
  }

  lemma QuietRowsComeFrom(c: Config, n: Node, s: Step)
    requires Enabled(c, n, s) && !s.Request? && !s.Timer?
    ensures RowsComeFrom(n, s, Next(c, n, s))
  {
    hide Apply, Books, QueueAfter, DrawsFresh, Swept, Resumed, Saved, Counts;
  }

  /** Where the delivery loop's clock reading comes from. */
  lemma WorkerAfter(c: Config, n: Node, s: Step)
    requires Enabled(c, n, s)
    ensures var n' := Next(c, n, s);
            n'.worker.Counting? || n'.worker.Selecting? ==>
              || (s.Expire? && n'.worker.Counting? && n'.worker.now == s.now)
              || ((n.worker.Counting? || n.worker.Selecting?) && n'.worker.now == n.worker.now && !s.Expire?)
  {
    hide Apply, QueueAfter, DrawsFresh, Swept, Resumed, Saved;
  }

  lemma ExpiryLeavesYoung(c: Config, n: Node, now: I64, selecting: bool)
    requires c.Valid() && Enabled(c, n, Expire(now, selecting))
    ensures forall id :: id in Next(c, n, Expire(now, selecting)).queue.rows ==>
              now - c.maxAge <= Next(c, n, Expire(now, selecting)).queue.rows[id].createdAt
  {
  }

  lemma LocalKeepsTiming(p: Params, w: World, s: Step)
    requires p.Valid() && Kept(p, w) && Possible(p, w, Local(s))
    ensures RowsTimed(p, Progress(p, w, Local(s)))
  {
    hide Books, Counts, Enabled, Next, RingsRecorded, PushesOnce, DeliveriesAccepted, MessageTimed;
    var n, n', w' := w.node, Next(p.config, w.node, s), Progress(p, w, Local(s));
    StepRowsComeFrom(p.config, n, s);
    WorkerAfter(p.config, n, s);
    if s.Expire? {
      ExpiryLeavesYoung(p.config, n, s.now, s.selecting);
    }
    forall id | id in n'.queue.rows
      ensures id in w'.past.born && n'.queue.rows[id].createdAt <= w'.past.born[id] + p.skew
      ensures id in n.queue.rows || w'.past.born[id] == w.time
    {
    }
  }

  // ----- the network and the relay -----

  lemma SendIsTimely(p: Params, w: World, id: Uuid)
    requires p.Valid() && Counts(w.node) && RowsTimed(p, w) && Enabled(p.config, w.node, Select(id))
    ensures MessageTimed(p, w, AfterSend(p, w, id).net[|w.net|])
  {
  }

  /** The request is the source's first for its event, or another source's. */
  ghost predicate FirstOrForeign(p: Params, w: World, q: Relay.Request, w': World) {
    && w'.tables == Relay.Submitted(w.tables, q, w.time) && w'.time == w.time && w'.past.born == w.past.born
    && (if q.source != p.source then w'.past.accepted == w.past.accepted
        else && w'.past.accepted == w.past.accepted + {(w.tables.lastId + 1, q.event)}
             && q.event in w.past.born && q.event !in Accepted(w))
  }

  lemma NewRingKeepsRecords(p: Params, w: World, q: Relay.Request, w': World)
    requires RingsRecorded(p, w) && RowsTimed(p, w) && !Relay.Holds(w.tables.rings, q.source, q.event)
    requires FirstOrForeign(p, w, q, w') && w'.tables.Valid()
    ensures RingsRecorded(p, w')
  {
    NewRingIsOnce(p, w, q, w');
    NewRingKeepsHeld(p, w, q, w');
    NewRingIsAccepted(p, w, q, w');
    hide Relay.Cascaded, Relay.Matched, Relay.MatchedPulls, Relay.QueuedFor, Relay.Tables.Valid, AcceptedOnce;
    hide AcceptedHeld, RingsAccepted;
  }

  lemma NewRingIsOnce(p: Params, w: World, q: Relay.Request, w': World)
    requires AcceptedOnce(w) && FirstOrForeign(p, w, q, w') && !Relay.Holds(w.tables.rings, q.source, q.event)
    ensures AcceptedOnce(w')
  {
    hide Relay.Cascaded, Relay.Matched, Relay.MatchedPulls, Relay.QueuedFor, Relay.Holds, Relay.Retained;
    forall a, b | a in w'.past.accepted && b in w'.past.accepted && a.1 == b.1 ensures a == b {
      assert a in w.past.accepted ==> a.1 in Accepted(w);
      assert b in w.past.accepted ==> b.1 in Accepted(w);
    }
  }

  lemma NewRingKeepsHeld(p: Params, w: World, q: Relay.Request, w': World)
    requires RingsRecorded(p, w) && FirstOrForeign(p, w, q, w') && !Relay.Holds(w.tables.rings, q.source, q.event)
    ensures AcceptedHeld(p, w')
  {
    hide Relay.Cascaded, Relay.Matched, Relay.MatchedPulls, Relay.QueuedFor, Relay.Tables.Valid, RingsAccepted;
    hide AcceptedOnce;
    var ring := Relay.NewRing(w.tables, q, w.time);
    assert w'.tables.rings == Relay.Retained(w.tables.rings + [ring], w.time - w.tables.retention);
    assert ring in w.tables.rings + [ring];
    forall a | a in w'.past.accepted
      ensures Relay.Holds(w'.tables.rings, p.source, a.1) || (a.1 in w.past.born && w.past.born[a.1] + p.Horizon() < w.time)
    {
      if a !in w.past.accepted {
        Relay.HeldBy(w'.tables.rings, ring);
      } else if Relay.Holds(w.tables.rings, p.source, a.1) {
        KeptOrExpired(p, w, ring, w'.tables.rings, a);
      }
    }
  }

  lemma NewRingIsAccepted(p: Params, w: World, q: Relay.Request, w': World)
    requires RingsRecorded(p, w) && RowsTimed(p, w) && FirstOrForeign(p, w, q, w')
    requires !Relay.Holds(w.tables.rings, q.source, q.event)
    ensures RingsAccepted(p, w')
  {
    hide Relay.Cascaded, Relay.Matched, Relay.MatchedPulls, Relay.QueuedFor, Relay.Holds, Relay.Tables.Valid;
    hide AcceptedHeld, AcceptedOnce;
    var ring := Relay.NewRing(w.tables, q, w.time);
    assert w'.tables.rings == Relay.Retained(w.tables.rings + [ring], w.time - w.tables.retention);
    assert forall r :: r in w.tables.rings + [ring] <==> r in w.tables.rings || r == ring;
  }

  /** A ring that retention removes belongs to an event that can no longer arrive. */
  lemma KeptOrExpired(p: Params, w: World, ring: Relay.Ring, rings: seq<Relay.Ring>, a: (nat, Uuid))
    requires RingsRecorded(p, w) && a in w.past.accepted && Relay.Holds(w.tables.rings, p.source, a.1)
    requires rings == Relay.Retained(w.tables.rings + [ring], w.time - w.tables.retention)
    ensures Relay.Holds(rings, p.source, a.1) || (a.1 in w.past.born && w.past.born[a.1] + p.Horizon() < w.time)
  {
    var i :| 0 <= i < |w.tables.rings| && w.tables.rings[i].source == p.source && w.tables.rings[i].event == a.1;
    var r := w.tables.rings[i];
    assert r in w.tables.rings + [ring];
    if r in rings {
      Relay.HeldBy(rings, r);
    }
  }

  /** A submission keeps the relay's records: a duplicate changes nothing, a new ring is accounted for. */
  lemma SubmissionKeepsRecords(p: Params, w: World, q: Relay.Request, w': World)
    requires RingsRecorded(p, w) && RowsTimed(p, w)
    requires if Relay.Holds(w.tables.rings, q.source, q.event)
             then w'.tables == w.tables && w'.time == w.time && w'.past.born == w.past.born && w'.past.accepted == w.past.accepted
             else FirstOrForeign(p, w, q, w')
    ensures RingsRecorded(p, w')
  {
    Relay.SubmissionKeepsTables(w.tables, q, w.time);
    if !Relay.Holds(w.tables.rings, q.source, q.event) {
      NewRingKeepsRecords(p, w, q, w');
    }
  }

  /** A request that arrives in time, for an event the relay does not hold, is the first for that event. */
  lemma FirstArrival(p: Params, w: World, m: nat)
    requires RingsRecorded(p, w) && Possible(p, w, Arrive(m)) && MessageTimed(p, w, w.net[m])
    requires !Relay.Holds(w.tables.rings, p.source, w.net[m].request.event)
    ensures w.net[m].request.event !in Accepted(w)
  {
    hide Relay.Holds, Relay.Tables.Valid, AcceptedOnce, RingsAccepted;
    forall a | a in w.past.accepted ensures a.1 != w.net[m].request.event {
    }
  }

  lemma HeldIsAccepted(p: Params, w: World, event: Uuid)
    requires RingsRecorded(p, w) && Relay.Holds(w.tables.rings, p.source, event)
    ensures event in Accepted(w)
  {
    var i :| 0 <= i < |w.tables.rings| && w.tables.rings[i].source == p.source && w.tables.rings[i].event == event;
    assert w.tables.rings[i] in w.tables.rings;
    assert (w.tables.rings[i].id, event) in w.past.accepted;
  }

  // ----- every step -----

  /** The network's and the relay's records only mention what grows. */
  ghost predicate Grows(w: World, w': World) {
    && (forall id :: id in w.past.born ==> id in w'.past.born && w'.past.born[id] == w.past.born[id])
    && w.past.accepted <= w'.past.accepted
  }

  lemma NetGrows(p: Params, w: World, w': World)
    requires NetTimed(p, w) && Grows(w, w') && w'.net == w.net
    ensures NetTimed(p, w')
  {
    forall m | m in w'.net ensures MessageTimed(p, w', m) {
      assert MessageTimed(p, w, m);
      assert forall id :: id in Accepted(w) ==> id in Accepted(w');
    }
  }

  lemma SameRows(p: Params, w: World, w': World)
    requires RowsTimed(p, w) && w'.node == w.node && w'.since == w.since && w'.past.born == w.past.born && w.time <= w'.time
    ensures RowsTimed(p, w')
  {
  }

  lemma SameDeliveries(w: World, w': World)
    requires DeliveriesAccepted(w) && w'.node.log.delivered == w.node.log.delivered && w'.past.accepted == w.past.accepted
    ensures DeliveriesAccepted(w')
  {
  }

  lemma SamePushes(w: World, w': World)
    requires PushesOnce(w) && w'.past.pushed == w.past.pushed && w'.past.accepted == w.past.accepted && w'.tasks <= w.tasks
    ensures PushesOnce(w')
  {
  }

  lemma RecordsGrow(p: Params, w: World, w': World)
    requires RingsRecorded(p, w) && Grows(w, w') && w.time <= w'.time
    requires w'.tables.rings == w.tables.rings && w'.tables.lastId == w.tables.lastId
    requires w'.tables.Valid() && p.Horizon() <= w'.tables.retention && w'.past.accepted == w.past.accepted
    ensures RingsRecorded(p, w')
  {
    hide Relay.Holds, Relay.Tables.Valid;
  }

  lemma DeliveredOnlyByAccept(c: Config, n: Node, s: Step)
    requires Enabled(c, n, s) && !s.Accept?
    ensures Next(c, n, s).log.delivered == n.log.delivered
  {
    hide Apply, QueueAfter, DrawsFresh, Swept, Resumed, Saved;
  }

  /** A step that leaves the relay's history and the network alone. */
  lemma FrameKept(p: Params, w: World, w': World)
    requires Kept(p, w) && Books(w'.node) && Counts(w'.node) && RowsTimed(p, w') && Grows(w, w') && w.time <= w'.time
    requires w'.node.log.delivered == w.node.log.delivered && w'.net == w.net && w'.tasks <= w.tasks
    requires w'.past.accepted == w.past.accepted && w'.past.pushed == w.past.pushed
    requires w'.tables.rings == w.tables.rings && w'.tables.lastId == w.tables.lastId
    requires w'.tables.Valid() && p.Horizon() <= w'.tables.retention
    ensures Kept(p, w')
  {
    hide Books, Counts, RowsTimed, NetTimed, PushesOnce, DeliveriesAccepted, AcceptedOnce, AcceptedHeld;
    hide RingsAccepted, Grows, Relay.Tables.Valid;
    NetGrows(p, w, w');
    RecordsGrow(p, w, w');
    SameDeliveries(w, w');
    SamePushes(w, w');
  }

  lemma LocalGrows(p: Params, w: World, s: Step)
    requires RowsTimed(p, w) && Enabled(p.config, w.node, s)
    ensures Grows(w, AfterLocal(p, w, s))
  {
    hide Enabled, Next;
  }

  lemma LocalKept(p: Params, w: World, s: Step)
    requires p.Valid() && Kept(p, w) && Possible(p, w, Local(s))
    ensures Kept(p, AfterLocal(p, w, s))
  {
    BooksKept(p.config, w.node, s);
    CountsKept(p.config, w.node, s);
    LocalKeepsTiming(p, w, s);
    DeliveredOnlyByAccept(p.config, w.node, s);
    LocalGrows(p, w, s);
    hide Books, Counts, Enabled, Next, RowsTimed, NetTimed, PushesOnce, DeliveriesAccepted, AcceptedOnce;
    hide AcceptedHeld, RingsAccepted, Grows, Relay.Tables.Valid;
    FrameKept(p, w, AfterLocal(p, w, s));
  }

  lemma SelectedRows(c: Config, n: Node, id: Uuid)
    requires Enabled(c, n, Select(id))
    ensures var n' := Next(c, n, Select(id));
            n'.queue == n.queue && n'.worker.Sent? && n'.log.inserted == n.log.inserted && n'.log.delivered == n.log.delivered
  {
  }

  /** The rows stay timed when the delivery loop leaves its clock reading, and rows at most disappear. */
  lemma SelectionKeepsTiming(p: Params, w: World, w': World)
    requires RowsTimed(p, w) && w'.time == w.time && w'.since == w.since && w'.past.born == w.past.born
    requires w'.node.log.inserted == w.node.log.inserted && (w'.node.worker.Sent? || w'.node.worker.Idle?)
    requires forall id :: id in w'.node.queue.rows ==> id in w.node.queue.rows && w'.node.queue.rows[id] == w.node.queue.rows[id]
    ensures RowsTimed(p, w')
  {
  }

  lemma SendKeepsNode(p: Params, w: World, id: Uuid)
    requires p.Valid() && Books(w.node) && Counts(w.node) && RowsTimed(p, w) && Enabled(p.config, w.node, Select(id))
    ensures var w' := AfterSend(p, w, id);
            && Books(w'.node) && Counts(w'.node) && RowsTimed(p, w') && MessageTimed(p, w, w'.net[|w.net|])
            && w'.node.log.delivered == w.node.log.delivered
  {
    BooksKept(p.config, w.node, Select(id));
    CountsKept(p.config, w.node, Select(id));
    SelectedRows(p.config, w.node, id);
    SendIsTimely(p, w, id);
    hide Books, Counts, Enabled, Next;
    SelectionKeepsTiming(p, w, AfterSend(p, w, id));
  }

  lemma SendKept(p: Params, w: World, id: Uuid)
    requires p.Valid() && Kept(p, w) && Enabled(p.config, w.node, Select(id))
    ensures Kept(p, AfterSend(p, w, id))
  {
    hide Books, Counts, Enabled, Next, RowsTimed, PushesOnce, DeliveriesAccepted, AcceptedOnce, AcceptedHeld;
    hide RingsAccepted, Relay.Tables.Valid;
    var w' := AfterSend(p, w, id);
    SendKeepsNode(p, w, id);
    SameDeliveries(w, w');
    SamePushes(w, w');
    forall m | m in w'.net ensures MessageTimed(p, w', m) {
      assert m in w.net || m == w'.net[|w.net|];
      if m in w.net { assert MessageTimed(p, w, m); }
    }
    RecordsGrow(p, w, w');
  }

  lemma ArriveKept(p: Params, w: World, m: nat)
    requires Kept(p, w) && Possible(p, w, Arrive(m))
    ensures Kept(p, AfterArrival(w, m))
  {
    hide Relay.Normal, Kept;
    if Relay.Normal(w.net[m].request).Some? {
      NormalKeepsKey(w.net[m].request);
      NormalKept(p, w, m, Relay.Normal(w.net[m].request).value);
    }
  }

  lemma NormalKeepsKey(q: Relay.Request)
    requires Relay.Normal(q).Some?
    ensures Relay.Normal(q).value.source == q.source && Relay.Normal(q).value.event == q.event
  {
  }

  lemma NormalKept(p: Params, w: World, m: nat, q: Relay.Request)
    requires Kept(p, w) && Possible(p, w, Arrive(m))
    requires q.source == w.net[m].request.source && q.event == w.net[m].request.event
    ensures Kept(p, AfterNormal(w, m, q))
  {
    hide Books, Counts, AcceptedOnce, AcceptedHeld, RingsAccepted, Relay.Tables.Valid, Relay.Submitted;
    var w' := AfterNormal(w, m, q);
    assert MessageTimed(p, w, w.net[m]);
    if Relay.Holds(w.tables.rings, p.source, q.event) {
      HeldIsAccepted(p, w, q.event);
    } else {
      FirstArrival(p, w, m);
      assert (w.tables.lastId + 1, q.event) in w'.past.accepted;
    }
    DuplicateChangesNothing(w.tables, q, w.time);
    SubmissionKeepsRecords(p, w, q, w');
    ArrivalKeepsNet(p, w, m, q);
    ArrivalKeepsPushes(p, w, m, q);
  }

  lemma DuplicateChangesNothing(t: Relay.Tables, q: Relay.Request, now: int)
    ensures Relay.Holds(t.rings, q.source, q.event) ==> Relay.Submitted(t, q, now) == t
  {
  }

  lemma ArrivalKeepsNet(p: Params, w: World, m: nat, q: Relay.Request)
    requires NetTimed(p, w) && m < |w.net| && q.event == w.net[m].request.event
    requires q.event in Accepted(AfterNormal(w, m, q))
    ensures NetTimed(p, AfterNormal(w, m, q))
  {
    hide Relay.Submitted, Relay.Holds, Relay.Matched;
    var w' := AfterNormal(w, m, q);
    assert Grows(w, w');
    forall x | x in w'.net ensures MessageTimed(p, w', x) {
      var i :| 0 <= i < |w'.net| && w'.net[i] == x;
      assert MessageTimed(p, w, w.net[i]);
      assert forall id :: id in Accepted(w) ==> id in Accepted(w');
    }
  }

  lemma ArrivalKeepsPushes(p: Params, w: World, m: nat, q: Relay.Request)
    requires PushesOnce(w) && AcceptedOnce(w) && m < |w.net|
    requires Relay.Holds(w.tables.rings, q.source, q.event) || q.event !in Accepted(w)
    ensures PushesOnce(AfterNormal(w, m, q))
  {
    hide Relay.Submitted, Relay.Holds, Relay.Matched, AcceptedOnce;
    var w' := AfterNormal(w, m, q);
    assert forall id :: id in Accepted(w) ==> id in Accepted(w');
    forall t | t in w'.tasks ensures (t.0, t.1) in w'.past.accepted && (t.1, t.2) !in w'.past.pushed {
      assert (t.1, t.2) in w.past.pushed ==> t.1 in Accepted(w);
    }
  }

  lemma AcknowledgeKept(p: Params, w: World)
    requires Kept(p, w) && Possible(p, w, Acknowledge)
    ensures Kept(p, Progress(p, w, Acknowledge))
  {
    var w' := Progress(p, w, Acknowledge);
    BooksKept(p.config, w.node, Accept);
    CountsKept(p.config, w.node, Accept);
    SelectionKeepsTiming(p, w, w');
    hide Books, Counts, RowsTimed, PushesOnce, AcceptedOnce, AcceptedHeld, RingsAccepted, Relay.Tables.Valid;
    assert MessageTimed(p, w, w.net[w.current]);
    SamePushes(w, w');
    NetGrows(p, w, w');
    RecordsGrow(p, w, w');
  }

  lemma MarkedKeepsTables(t: Relay.Tables, ring: nat, receiver: Uuid, outcome: Relay.Outcome)
    requires t.Valid()
    ensures Relay.Marked(t, ring, receiver, outcome).Valid()
  {
    hide Relay.Ordered, Relay.UniqueKeys, Relay.Bounded;
  }

  lemma PushKept(p: Params, w: World, task: (nat, Uuid, Uuid), outcome: Relay.Outcome)
    requires Kept(p, w) && task in w.tasks
    ensures Kept(p, AfterPush(w, task, outcome))
  {
    var w' := AfterPush(w, task, outcome);
    MarkedKeepsTables(w.tables, task.0, task.2, outcome);
    PushIsNew(w, task, outcome);
    hide Books, Counts, RowsTimed, NetTimed, PushesOnce, DeliveriesAccepted, AcceptedOnce, AcceptedHeld;
    hide RingsAccepted, Relay.Tables.Valid;
    SameRows(p, w, w');
    SameDeliveries(w, w');
    NetGrows(p, w, w');
    RecordsGrow(p, w, w');
  }

  /** No other task is for the same event and receiver, since an event has one ring. */
  lemma PushIsNew(w: World, task: (nat, Uuid, Uuid), outcome: Relay.Outcome)
    requires PushesOnce(w) && AcceptedOnce(w) && task in w.tasks
    ensures PushesOnce(AfterPush(w, task, outcome))
  {
    var pushed := w.past.pushed + [(task.1, task.2)];
    assert task.1 in Accepted(w) by { assert (task.0, task.1) in w.past.accepted; }
    forall x | x in pushed ensures x.0 in Accepted(w) {
      assert x in w.past.pushed || x == (task.1, task.2);
    }
    forall t | t in w.tasks - {task} ensures (t.0, t.1) in w.past.accepted && (t.1, t.2) !in pushed {
      assert t.1 == task.1 ==> t.0 == task.0;
    }
  }

  lemma OtherKept(p: Params, w: World, q: Relay.Request)
    requires Kept(p, w) && q.source != p.source
    ensures Kept(p, w.(tables := Relay.Handled(w.tables, q, w.time)))
  {
    hide Relay.Normal, Kept, Relay.Submitted;
    if Relay.Normal(q).Some? {
      NormalKeepsKey(q);
      OtherNormalKept(p, w, Relay.Normal(q).value);
    } else {
      assert w.(tables := w.tables) == w;
    }
  }

  lemma OtherNormalKept(p: Params, w: World, q: Relay.Request)
    requires Kept(p, w) && q.source != p.source
    ensures Kept(p, w.(tables := Relay.Submitted(w.tables, q, w.time)))
  {
    hide Books, Counts, AcceptedOnce, AcceptedHeld, RingsAccepted, Relay.Tables.Valid, Relay.Submitted;
    var w' := w.(tables := Relay.Submitted(w.tables, q, w.time));
    DuplicateChangesNothing(w.tables, q, w.time);
    SubmissionKeepsRecords(p, w, q, w');
    NetGrows(p, w, w');
  }

  lemma StepKept(p: Params, w: World, s: WorldStep)
    requires p.Valid() && Kept(p, w) && Possible(p, w, s)
    ensures Kept(p, Progress(p, w, s))
  {
    hide Enabled, AfterLocal, AfterSend, AfterArrival, AfterPush, Books, Counts, RowsTimed, NetTimed;
    hide PushesOnce, DeliveriesAccepted;
    hide AcceptedOnce, AcceptedHeld, RingsAccepted, Relay.Tables.Valid;
    match s
    case Local(step) => LocalKept(p, w, step);
    case Send(id) => SendKept(p, w, id);
    case Arrive(m) => ArriveKept(p, w, m);
    case Acknowledge => AcknowledgeKept(p, w);
    case Push(task, outcome) => PushKept(p, w, task, outcome);
    case Other(q) => OtherKept(p, w, q);
    case _ => EnvironmentKept(p, w, Progress(p, w, s));
  }

  /** The relay restarts, its receivers or its retention change, or time passes. */
  lemma EnvironmentKept(p: Params, w: World, w': World)
    requires Kept(p, w) && p.Horizon() <= w'.tables.retention && w.time <= w'.time && w'.tasks <= w.tasks
    requires w' == w.(tables := w.tables.(receivers := w'.tables.receivers, pullTags := w'.tables.pullTags, retention := w'.tables.retention),
                      time := w'.time, tasks := w'.tasks)
    ensures Kept(p, w')
  {
    assert w'.tables.Valid();
    SameRows(p, w, w');
    FrameKept(p, w, w');
  }

  lemma InitiallyKept(p: Params, w: World)
    requires Initial(p, w)
    ensures Kept(p, w)
  {
  }

  lemma {:induction false} KeptOverRuns(p: Params, start: World, steps: seq<WorldStep>, w: World)
    requires p.Valid() && Initial(p, start) && Reaches(p, start, steps, w)
    ensures Kept(p, w)
  {
    hide Kept, Initial, Possible, Progress;
    if steps == [] {
      InitiallyKept(p, start);
    } else {
      var rest, last := steps[..|steps| - 1], steps[|steps| - 1];
      var before :| Reaches(p, start, rest, before) && Possible(p, before, last) && w == Progress(p, before, last);
      KeptOverRuns(p, start, rest, before);
      StepKept(p, before, last);
    }
  }

  /** Two push attempts for rings of one burst at one receiver. */
  ghost predicate SameBurstAndReceiver(w: World, x: (Uuid, Uuid), y: (Uuid, Uuid)) {
    x.1 == y.1 && exists r, r' :: r in w.node.log.rung && r' in w.node.log.rung && r.0 == r'.0 && r.1 == x.0 && r'.1 == y.0
  }

  /**
   Over every run from an empty store: a burst of activity has at most one ring, which is stored once; an event has
   at most one ring at the relay, ever; and no receiver gets two push attempts for one burst.
   */
  lemma AtMostOncePerBurst(p: Params, start: World, steps: seq<WorldStep>, w: World)
    requires p.Valid() && Initial(p, start) && Reaches(p, start, steps, w)
    ensures OneRingPerBurst(w.node.log.rung)
    ensures forall r :: r in w.node.log.rung ==> r.1 in w.node.log.inserted
    ensures Distinct(w.node.log.inserted)
    ensures forall id :: id in w.node.queue.rows ==> id in w.node.log.inserted
    ensures forall a, b :: a in w.past.accepted && b in w.past.accepted && a.1 == b.1 ==> a == b
    ensures forall r :: r in w.tables.rings && r.source == p.source ==> (r.id, r.event) in w.past.accepted
    ensures forall i, j :: 0 <= i < j < |w.past.pushed| ==> !SameBurstAndReceiver(w, w.past.pushed[i], w.past.pushed[j])
  {
    hide Initial, Reaches;
    KeptOverRuns(p, start, steps, w);
    KeptSays(p, w);
  }

  lemma KeptSays(p: Params, w: World)
    requires Kept(p, w)
    ensures OneRingPerBurst(w.node.log.rung)
    ensures forall r :: r in w.node.log.rung ==> r.1 in w.node.log.inserted
    ensures Distinct(w.node.log.inserted)
    ensures forall id :: id in w.node.queue.rows ==> id in w.node.log.inserted
    ensures forall a, b :: a in w.past.accepted && b in w.past.accepted && a.1 == b.1 ==> a == b
    ensures forall r :: r in w.tables.rings && r.source == p.source ==> (r.id, r.event) in w.past.accepted
    ensures forall i, j :: 0 <= i < j < |w.past.pushed| ==> !SameBurstAndReceiver(w, w.past.pushed[i], w.past.pushed[j])
  {
    hide RowsTimed, NetTimed, AcceptedHeld, DeliveriesAccepted, Relay.Tables.Valid, BurstsMarked, ValidTable, ValidDisk;
  }

  lemma Elements(ids: seq<Uuid>) returns (elements: set<Uuid>)
    requires Distinct(ids)
    ensures |elements| == |ids| && forall id :: id in elements <==> id in ids
  {
    if ids == [] {
      elements := {};
    } else {
      var rest, last := ids[..|ids| - 1], ids[|ids| - 1];
      var some := Elements(rest);
      assert last !in rest;
      elements := some + {last};
      assert ids == rest + [last];
    }
  }

  lemma SubsetSizes(a: set<Uuid>, b: set<Uuid>)
    requires a <= b
    ensures |a| <= |b| && (|a| == |b| <==> b <= a)
  {
    assert b == a + (b - a);
  }

  /** Every accepted event is still queued, or was deleted as delivered. */
  ghost predicate Balanced(w: World) {
    forall id :: id in Accepted(w) ==> id in w.node.queue.rows || id in w.node.log.delivered
  }

  /** Events stored, with the failures reported for rows already gone. */
  function StoredEvents(w: World): nat { |w.node.log.inserted| + w.node.log.phantom }

  /** Events queued or accepted, and those given up and counted, owed to the counter, or lost to it by a crash. */
  function AccountedEvents(w: World): nat {
    |w.node.queue.rows.Keys + Accepted(w)| + w.node.queue.dropped + Owed(w.node.worker) + w.node.log.lost
  }

  lemma KeptBalance(p: Params, w: World)
    requires Kept(p, w)
    ensures StoredEvents(w) <= AccountedEvents(w) && (StoredEvents(w) == AccountedEvents(w) <==> Balanced(w))
  {
    hide Distinct, Books, RowsTimed, NetTimed, RingsRecorded, PushesOnce;
    var n := w.node;
    var delivered := Elements(n.log.delivered);
    var rows := n.queue.rows.Keys;
    assert |rows| == |n.queue.rows|;
    assert |rows + delivered| == |rows| + |delivered|;
    SubsetSizes(rows + delivered, rows + Accepted(w));
  }
}
