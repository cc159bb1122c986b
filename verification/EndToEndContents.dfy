/** What arrives is what was rung, up to what the relay's validators make of message and targets. */
module EndToEndContents {
  import opened Types
  import opened Activity
  import opened Bursts
  import opened Queue
  import opened Daemon
  import opened DaemonLaws
  import opened EndToEnd
  import opened EndToEndLaws
  import Protocol
  import Relay

  ghost predicate RowsRung(n: Node, past: History) {
    forall id :: id in n.queue.rows ==> (id, n.queue.rows[id].message, n.queue.rows[id].targets) in past.contents
  }

  /** An event has one message and one list of targets, and only stored events have any. */
  ghost predicate OneContent(n: Node, past: History) {
    && (forall x :: x in past.contents ==> x.0 in n.log.inserted)
    && (forall x, y :: x in past.contents && y in past.contents && x.0 == y.0 ==> x == y)
  }

  ghost predicate MessagesRung(p: Params, w: World) {
    forall m :: m in w.net ==> m.request.source == p.source && (m.request.event, m.request.message, m.request.tags) in w.past.contents
  }

  ghost predicate RingsRung(p: Params, w: World) {
    forall r :: r in w.tables.rings && r.source == p.source ==> MadeOfSome(p, w.past, r)
  }

  /** The ring is what the relay makes of what was rung. */
  predicate MadeOf(p: Params, r: Relay.Ring, x: (Uuid, Option<string>, seq<string>)) {
    Relay.Normal(Relay.Request(p.source, x.0, x.1, x.2)) == Some(Relay.Request(p.source, r.event, r.message, r.tags))
  }

  ghost predicate MadeOfSome(p: Params, past: History, r: Relay.Ring) {
    exists x :: x in past.contents && MadeOf(p, r, x)
  }

  ghost predicate Faithful(p: Params, w: World) {
    && RowsRung(w.node, w.past) && OneContent(w.node, w.past) && MessagesRung(p, w) && RingsRung(p, w)
  }

  // ----- steps of the node -----

  /** Rows after a step carry the message and targets they had, or those of a ring the step stored. */
  ghost predicate RowsCarry(c: Config, n: Node, s: Step, n': Node) {
    forall id :: id in n'.queue.rows ==>
      || (id in n.queue.rows && n'.queue.rows[id].message == n.queue.rows[id].message
          && n'.queue.rows[id].targets == n.queue.rows[id].targets)
      || (id, n'.queue.rows[id].message, n'.queue.rows[id].targets) in Contents(StoredBy(c, n, s))
  }

  lemma CommitCarries(c: Config, n: Node, s: Step, actions: seq<Action>, now: I64, n': Node)
    requires Counts(n) && QueueAfter(c, n.queue, actions, now, n'.queue) && NewIds(actions, n.log.events)
    requires StoredBy(c, n, s) == actions
    ensures RowsCarry(c, n, s, n')
  {
    hide StoredBy;
    if actions != [] {
      var q := Pruned(n.queue, Cutoff(now, c.maxAge));
      assert FreshFor(q, actions);
      BatchRows(q, actions, now, c.queueLimit, n'.queue);
      hide Commits, Counts;
      forall id | id in n'.queue.rows && id !in q.rows
        ensures (id, n'.queue.rows[id].message, n'.queue.rows[id].targets) in Contents(actions)
      {
        var a :| a in actions && a.eventId == id && n'.queue.rows[id] == NewRow(a, now);
      }
    }
  }

  lemma QuietCarries(c: Config, n: Node, s: Step)
    requires Enabled(c, n, s) && !s.Request? && !s.Timer?
    ensures RowsCarry(c, n, s, Next(c, n, s)) && StoredBy(c, n, s) == []
  {
    hide Apply, Books, QueueAfter, DrawsFresh, Swept, Resumed, Saved, Counts;
  }

  lemma StepCarries(c: Config, n: Node, s: Step)
    requires Books(n) && Counts(n) && Enabled(c, n, s)
    ensures RowsCarry(c, n, s, Next(c, n, s)) && NewIds(StoredBy(c, n, s), n.log.events)
    ensures forall a :: a in StoredBy(c, n, s) ==> a.eventId in Next(c, n, s).log.inserted
    ensures forall id :: id in n.log.inserted ==> id in Next(c, n, s).log.inserted
  {
    hide Apply, Books, QueueAfter, DrawsFresh, Swept, Resumed, Saved, Counts, RowsCarry;
    StepRowsComeFrom(c, n, s);
    var n' := Next(c, n, s);
    match s
    case Request(e, q') =>
      BooksGiveTable(n);
      EngineIdsAreNew(n, e);
      CommitCarries(c, n, s, Apply(n.mem, e).1, WallOf(e), n');
      ActionsInserted(n, Apply(n.mem, e).1, n');
    case Timer(tick, q') =>
      var rings := Apply(n.mem, tick).1;
      BooksGiveTable(n);
      EngineIdsAreNew(n, tick);
      WordingKeepsIds(rings, c.automaticMessage, n.log.events);
      if rings == [] { NothingCommits(c, n.queue, tick.wall, c.automaticMessage); }
      CommitCarries(c, n, s, AllWorded(rings, c.automaticMessage), tick.wall, n');
      ActionsInserted(n, AllWorded(rings, c.automaticMessage), n');
    case _ => QuietCarries(c, n, s);
  }

  lemma ActionsInserted(n: Node, actions: seq<Action>, n': Node)
    requires n'.log.inserted == n.log.inserted + Ids(actions)
    ensures forall a :: a in actions ==> a.eventId in n'.log.inserted
  {
    forall a | a in actions ensures a.eventId in n'.log.inserted {
      var i :| 0 <= i < |actions| && actions[i] == a;
      assert Ids(actions)[i] == a.eventId;
    }
  }

  /** New contents are of new events, one each. */
  lemma ContentsStaySingle(n: Node, n': Node, past: History, actions: seq<Action>)
    requires OneContent(n, past) && Counts(n) && NewIds(actions, n.log.events)
    requires forall a :: a in actions ==> a.eventId in n'.log.inserted
    requires forall id :: id in n.log.inserted ==> id in n'.log.inserted
    ensures OneContent(n', past.(contents := past.contents + Contents(actions)))
  {
    var added := Contents(actions);
    forall x | x in added ensures x.0 !in n.log.inserted {
      var a :| a in actions && x == (a.eventId, a.message, a.targets);
      assert a.eventId !in n.log.events;
    }
    forall x, y | x in added && y in added && x.0 == y.0 ensures x == y {
      var a :| a in actions && x == (a.eventId, a.message, a.targets);
      var b :| b in actions && y == (b.eventId, b.message, b.targets);
      var i :| 0 <= i < |actions| && actions[i] == a;
      var j :| 0 <= j < |actions| && actions[j] == b;
    }
  }

  lemma RowsStayRung(c: Config, n: Node, s: Step, n': Node, past: History, past': History)
    requires RowsRung(n, past) && RowsCarry(c, n, s, n') && past'.contents == past.contents + Contents(StoredBy(c, n, s))
    ensures RowsRung(n', past')
  {
    hide StoredBy, Contents;
  }

  /** More contents, the same messages and rings. */
  lemma TravelStaysRung(p: Params, w: World, w': World)
    requires MessagesRung(p, w) && RingsRung(p, w)
    requires w'.net == w.net && w'.tables == w.tables && w.past.contents <= w'.past.contents
    ensures MessagesRung(p, w') && RingsRung(p, w')
  {
    forall r | r in w'.tables.rings && r.source == p.source ensures MadeOfSome(p, w'.past, r) {
      var x :| x in w.past.contents && MadeOf(p, r, x);
      assert x in w'.past.contents;
    }
  }

  lemma LocalFaithful(p: Params, w: World, s: Step)
    requires Kept(p, w) && Faithful(p, w) && Enabled(p.config, w.node, s)
    ensures Faithful(p, AfterLocal(p, w, s))
  {
    StepCarries(p.config, w.node, s);
    hide Enabled, Next, Books, Counts, RowsTimed, NetTimed, RingsRecorded, PushesOnce, DeliveriesAccepted, StoredBy;
    hide RowsCarry, RowsRung, MessagesRung, RingsRung, OneContent, NewIds, Contents;
    var actions, w' := StoredBy(p.config, w.node, s), AfterLocal(p, w, s);
    ContentsStaySingle(w.node, w'.node, w.past, actions);
    SingleInAnyPast(w'.node, w.past.(contents := w'.past.contents), w'.past);
    RowsStayRung(p.config, w.node, s, w'.node, w.past, w'.past);
    TravelStaysRung(p, w, w');
  }

  lemma SingleInAnyPast(n: Node, past: History, past': History)
    requires OneContent(n, past) && past'.contents == past.contents
    ensures OneContent(n, past')
  {
  }

  // ----- the network and the relay -----

  /** Nothing is added to the queue or the contents. */
  lemma SameFaithful(p: Params, w: World, w': World)
    requires Faithful(p, w) && w'.past.contents == w.past.contents && w'.node.log.inserted == w.node.log.inserted
    requires forall id :: id in w'.node.queue.rows ==> id in w.node.queue.rows && w'.node.queue.rows[id] == w.node.queue.rows[id]
    requires forall m :: m in w'.net ==>
               m.request.source == p.source && (m.request.event, m.request.message, m.request.tags) in w.past.contents
    requires forall r :: r in w'.tables.rings && r.source == p.source ==> MadeOfSome(p, w.past, r)
    ensures Faithful(p, w')
  {
    hide MadeOf;
    assert w'.past == w'.past.(contents := w.past.contents);
  }

  /** What a submission adds is the request's own ring. */
  lemma SubmittedRings(t: Relay.Tables, q: Relay.Request, now: int)
    ensures forall r :: r in Relay.Submitted(t, q, now).rings ==>
              r in t.rings || (r.source == q.source && r.event == q.event && r.message == q.message && r.tags == q.tags)
  {
    hide Relay.Cascaded, Relay.Matched, Relay.MatchedPulls, Relay.QueuedFor, Relay.Holds;
    var ring := Relay.NewRing(t, q, now);
    assert forall r :: r in t.rings + [ring] <==> r in t.rings || r == ring;
  }

  lemma ArriveFaithful(p: Params, w: World, m: nat)
    requires Faithful(p, w) && m < |w.net|
    ensures Faithful(p, AfterArrival(w, m))
  {
    hide Relay.Submitted, Relay.Holds, Relay.Matched, Relay.Normal;
    var sent, w' := w.net[m].request, AfterArrival(w, m);
    assert w.net[m] in w.net;
    if Relay.Normal(sent).Some? {
      NormalKeepsKey(sent);
      var q := Relay.Normal(sent).value;
      SubmittedRings(w.tables, q, w.time);
      forall r | r in w'.tables.rings && r.source == p.source ensures MadeOfSome(p, w.past, r) {
        if r !in w.tables.rings {
          assert MadeOf(p, r, (sent.event, sent.message, sent.tags));
        }
      }
      forall x | x in w'.net
        ensures x.request.source == p.source && (x.request.event, x.request.message, x.request.tags) in w.past.contents
      {
        var i :| 0 <= i < |w'.net| && w'.net[i] == x;
        assert w.net[i] in w.net;
      }
      SameFaithful(p, w, w');
    }
  }

  lemma OtherFaithful(p: Params, w: World, q: Relay.Request)
    requires Faithful(p, w) && q.source != p.source
    ensures Faithful(p, w.(tables := Relay.Handled(w.tables, q, w.time)))
  {
    hide Relay.Submitted, Relay.Normal;
    if Relay.Normal(q).Some? {
      NormalKeepsKey(q);
      SubmittedRings(w.tables, Relay.Normal(q).value, w.time);
    }
    SameFaithful(p, w, w.(tables := Relay.Handled(w.tables, q, w.time)));
  }

  lemma NetworkFaithful(p: Params, w: World, s: WorldStep)
    requires Faithful(p, w) && Possible(p, w, s) && (s.Push? || s.RelayRestart? || s.Configure? || s.Advance?)
    ensures Faithful(p, Progress(p, w, s))
  {
    hide Enabled;
    SameFaithful(p, w, Progress(p, w, s));
  }

  lemma SendFaithful(p: Params, w: World, id: Uuid)
    requires Faithful(p, w) && Enabled(p.config, w.node, Select(id))
    ensures Faithful(p, AfterSend(p, w, id))
  {
    SelectedRows(p.config, w.node, id);
    assert id in w.node.queue.rows;
    hide Enabled, Next;
    SameFaithful(p, w, AfterSend(p, w, id));
  }

  lemma AcceptedRows(c: Config, n: Node)
    requires Enabled(c, n, Accept)
    ensures var n' := Next(c, n, Accept);
            n'.log.inserted == n.log.inserted && n'.queue == Deleted(n.queue, n.worker.id)
  {
  }

  lemma StepFaithful(p: Params, w: World, s: WorldStep)
    requires Kept(p, w) && Faithful(p, w) && Possible(p, w, s)
    ensures Faithful(p, Progress(p, w, s))
  {
    hide Enabled, AfterLocal, AfterSend, AfterArrival, AfterPush, Kept, Faithful, Next;
    match s
    case Local(step) => LocalFaithful(p, w, step);
    case Send(id) => SendFaithful(p, w, id);
    case Acknowledge => AcknowledgeFaithful(p, w);
    case Arrive(m) => ArriveFaithful(p, w, m);
    case Other(q) => OtherFaithful(p, w, q);
    case _ => NetworkFaithful(p, w, s);
  }

  lemma AcknowledgeFaithful(p: Params, w: World)
    requires Faithful(p, w) && Possible(p, w, Acknowledge)
    ensures Faithful(p, Progress(p, w, Acknowledge))
  {
    AcceptedRows(p.config, w.node);
    SameFaithful(p, w, Progress(p, w, Acknowledge));
  }

  lemma {:induction false} FaithfulOverRuns(p: Params, start: World, steps: seq<WorldStep>, w: World)
    requires p.Valid() && Initial(p, start) && Reaches(p, start, steps, w)
    ensures Kept(p, w) && Faithful(p, w)
  {
    if steps == [] {
      InitiallyKept(p, start);
    } else {
      hide Kept, Faithful, Initial, Possible, Progress;
      var rest, last := steps[..|steps| - 1], steps[|steps| - 1];
      var before :| Reaches(p, start, rest, before) && Possible(p, before, last) && w == Progress(p, before, last);
      FaithfulOverRuns(p, start, rest, before);
      StepKept(p, before, last);
      StepFaithful(p, before, last);
    }
  }

  /**
   Over every run of the chain: a ring at the relay belongs to exactly one ring of the engine, and has its message
   trimmed and its targets sorted without repetition (with the configured text in place of the default one).
   */
  lemma WhatArrivesWasRung(p: Params, start: World, steps: seq<WorldStep>, w: World, r: Relay.Ring)
    requires p.Valid() && Initial(p, start) && Reaches(p, start, steps, w)
    requires r in w.tables.rings && r.source == p.source
    ensures exists x :: x in w.past.contents && x.0 == r.event
    ensures forall x, y :: x in w.past.contents && y in w.past.contents && x.0 == y.0 == r.event ==> x == y
    ensures forall x :: x in w.past.contents && x.0 == r.event ==>
              && r.message == (if x.1.Some? then Some(Protocol.Trim(x.1.value)) else None)
              && r.tags == Protocol.SortedTags(x.2)
  {
    hide Kept, Initial, Reaches;
    FaithfulOverRuns(p, start, steps, w);
    var x :| x in w.past.contents && MadeOf(p, r, x);
    MadeOfSays(p, r, x);
  }

  lemma MadeOfSays(p: Params, r: Relay.Ring, x: (Uuid, Option<string>, seq<string>))
    requires MadeOf(p, r, x)
    ensures x.0 == r.event && r.message == (if x.1.Some? then Some(Protocol.Trim(x.1.value)) else None)
    ensures r.tags == Protocol.SortedTags(x.2)
  {
    hide Protocol.Trim, Protocol.SortedTags;
  }

  /**
   So a ring arrives as it was rung exactly if its message has no white space at either end and its targets are in
   strictly ascending order.
   */
  lemma ArrivesUnchangedExactly(p: Params, start: World, steps: seq<WorldStep>, w: World, r: Relay.Ring,
                                x: (Uuid, Option<string>, seq<string>))
    requires p.Valid() && Initial(p, start) && Reaches(p, start, steps, w)
    requires r in w.tables.rings && r.source == p.source && x in w.past.contents && x.0 == r.event
    ensures r.message == x.1 && r.tags == x.2
            <==> (x.1.Some? ==> Protocol.Tight(x.1.value)) && Protocol.Ascending(x.2)
  {
    hide Initial, Reaches, Protocol.Trim, Protocol.SortedTags, Protocol.Tight, Protocol.Ascending;
    WhatArrivesWasRung(p, start, steps, w, r);
    Protocol.SortedTagsAscend(x.2);
    if x.1.Some? {
      var _, _ := Protocol.TrimIsTight(x.1.value);
    }
  }
}
