/** No event disappears silently between the shell and the relay, and when the books are exact. */
module EndToEndLosses {
  import opened Types
  import opened Activity
  import opened Bursts
  import opened Queue
  import opened Daemon
  import opened DaemonLaws
  import opened EndToEnd
  import opened EndToEndLaws
  import Relay

  /** A step takes a row out of the queue: by age, by eviction in a commit, or because it was submitted in vain. */
  predicate Removes(c: Config, n: Node, s: Step, id: Uuid)
    requires id in n.queue.rows
  {
    match s
    case Expire(now, _) => n.queue.rows[id].createdAt < Cutoff(now, c.maxAge)
    case Request(_, q') => id !in q'.rows
    case Timer(_, q') => id !in q'.rows
    case Reject => n.worker.Sent? && n.worker.id == id
    case _ => false
  }

  /**
   The step gives up an event that the relay has accepted, or is the acceptance of an event that was given up. What
   decides is known before the step is taken.
   */
  ghost predicate Wastes(p: Params, w: World, s: WorldStep) {
    match s
    case Local(step) => exists id :: id in Accepted(w) && id in w.node.queue.rows && Removes(p.config, w.node, step, id)
    case Arrive(m) =>
      m < |w.net| &&
      var q := w.net[m].request;
      Relay.Normal(q).Some? && !Relay.Holds(w.tables.rings, q.source, q.event) && q.event !in w.node.queue.rows
    case _ => false
  }

  /** A run without such a step. */
  ghost predicate Clean(p: Params, start: World, steps: seq<WorldStep>, w: World) {
    if steps == [] then w == start else
      var rest, last := steps[..|steps| - 1], steps[|steps| - 1];
      exists before ::
        Clean(p, start, rest, before) && Possible(p, before, last) && w == Progress(p, before, last) && !Wastes(p, before, last)
  }

  lemma QueuedStays(c: Config, n: Node, s: Step, id: Uuid)
    requires Enabled(c, n, s) && !s.Accept? && id in n.queue.rows
    ensures id in Next(c, n, s).queue.rows <==> !Removes(c, n, s, id)
  {
    hide Apply, DrawsFresh, Swept, Resumed, Saved, Commits;
  }

  lemma LocalBalance(p: Params, w: World, s: Step)
    requires Kept(p, w) && Enabled(p.config, w.node, s) && !s.Accept?
    ensures Balanced(AfterLocal(p, w, s)) <==> Balanced(w) && !Wastes(p, w, Local(s))
  {
    hide Enabled, Next, Books, NetTimed, PushesOnce, Removes, StoredBy, NewIds, AcceptedHeld, RingsAccepted, Relay.Tables.Valid;
    var n, n', w' := w.node, Next(p.config, w.node, s), AfterLocal(p, w, s);
    StepRowsComeFrom(p.config, n, s);
    DeliveredOnlyByAccept(p.config, n, s);
    assert Accepted(w') == Accepted(w);
    forall id | id in Accepted(w)
      ensures id in n'.queue.rows <==> id in n.queue.rows && !Removes(p.config, n, s, id)
      ensures id in n.queue.rows ==> id !in n.log.delivered
    {
      AcceptedIsStored(p, w, id);
      if id in n.queue.rows { QueuedStays(p.config, n, s, id); }
    }
    BalanceOf(p, w, s, w');
  }

  lemma AcceptedIsStored(p: Params, w: World, id: Uuid)
    requires Kept(p, w) && id in Accepted(w)
    ensures id in w.node.log.inserted
  {
    hide Books, Counts, NetTimed, PushesOnce;
  }

  lemma BalanceOf(p: Params, w: World, s: Step, w': World)
    requires Accepted(w') == Accepted(w) && w'.node.log.delivered == w.node.log.delivered
    requires forall id :: id in Accepted(w) ==>
               && (id in w'.node.queue.rows <==> id in w.node.queue.rows && !Removes(p.config, w.node, s, id))
               && (id in w.node.queue.rows ==> id !in w.node.log.delivered)
    ensures Balanced(w') <==> Balanced(w) && !Wastes(p, w, Local(s))
  {
    hide Removes, Accepted;
  }

  lemma ArriveBalance(p: Params, w: World, m: nat)
    requires Kept(p, w) && Possible(p, w, Arrive(m))
    ensures Balanced(AfterArrival(w, m)) <==> Balanced(w) && !Wastes(p, w, Arrive(m))
  {
    hide Relay.Normal, Relay.Submitted, Relay.Matched, Books, Enabled, RowsTimed, PushesOnce, Relay.Tables.Valid;
    var sent, w' := w.net[m].request, AfterArrival(w, m);
    assert MessageTimed(p, w, w.net[m]);
    if Relay.Normal(sent).Some? {
      NormalKeepsKey(sent);
      if Relay.Holds(w.tables.rings, sent.source, sent.event) {
        assert Accepted(w') == Accepted(w);
      } else {
        FirstArrival(p, w, m);
        AcceptedGrows(w, w', sent.event);
        assert sent.event !in w.node.log.delivered;
      }
    }
  }

  lemma AcceptedGrows(w: World, w': World, event: Uuid)
    requires w'.past.accepted == w.past.accepted + {(w.tables.lastId + 1, event)}
    ensures Accepted(w') == Accepted(w) + {event}
  {
    assert (w.tables.lastId + 1, event) in w'.past.accepted;
    forall id | id in Accepted(w) ensures id in Accepted(w') {
      var a :| a in w.past.accepted && a.1 == id;
      assert a in w'.past.accepted;
    }
  }

  lemma AcknowledgedNode(c: Config, n: Node)
    requires Enabled(c, n, Accept)
    ensures var n' := Next(c, n, Accept);
            && n'.queue == Deleted(n.queue, n.worker.id)
            && n'.log.delivered == if n.worker.id in n.queue.rows then n.log.delivered + [n.worker.id] else n.log.delivered
  {
  }

  lemma SendBalance(p: Params, w: World, id: Uuid)
    requires Enabled(p.config, w.node, Select(id))
    ensures Balanced(AfterSend(p, w, id)) <==> Balanced(w)
  {
    SelectedRows(p.config, w.node, id);
    hide Enabled, Next;
    assert Accepted(AfterSend(p, w, id)) == Accepted(w);
  }

  lemma AcknowledgeBalance(p: Params, w: World)
    requires Kept(p, w) && Possible(p, w, Acknowledge)
    ensures Balanced(Progress(p, w, Acknowledge)) <==> Balanced(w)
  {
    var w' := Progress(p, w, Acknowledge);
    AcknowledgedNode(p.config, w.node);
    hide Enabled, Next, Books, Counts, RowsTimed, NetTimed, RingsRecorded, PushesOnce;
    assert Accepted(w') == Accepted(w);
  }

  /** A step keeps the books exact unless it wastes an event, and nothing makes them exact again. */
  lemma StepBalance(p: Params, w: World, s: WorldStep)
    requires Kept(p, w) && Possible(p, w, s)
    ensures Balanced(Progress(p, w, s)) <==> Balanced(w) && !Wastes(p, w, s)
  {
    hide Enabled, AfterLocal, AfterSend, AfterArrival, Kept, Next, Balanced, Removes;
    match s
    case Local(step) => LocalBalance(p, w, step);
    case Send(id) => SendBalance(p, w, id);
    case Arrive(m) => ArriveBalance(p, w, m);
    case Acknowledge => AcknowledgeBalance(p, w);
    case _ => SameBalance(w, Progress(p, w, s));
  }

  lemma SameBalance(w: World, w': World)
    requires w'.node == w.node && w'.past.accepted == w.past.accepted
    ensures Balanced(w') <==> Balanced(w)
  {
    assert Accepted(w') == Accepted(w);
  }

  /** A run determines where it ends. */
  lemma {:induction false} Determined(p: Params, start: World, steps: seq<WorldStep>, w: World, w': World)
    requires Reaches(p, start, steps, w) && Reaches(p, start, steps, w')
    ensures w == w'
  {
    if steps == [] {
    } else {
      hide Possible, Progress;
      var rest, last := steps[..|steps| - 1], steps[|steps| - 1];
      var before :| Reaches(p, start, rest, before) && Possible(p, before, last) && w == Progress(p, before, last);
      var before' :| Reaches(p, start, rest, before') && Possible(p, before', last) && w' == Progress(p, before', last);
      Determined(p, start, rest, before, before');
    }
  }

  lemma {:induction false} CleanReaches(p: Params, start: World, steps: seq<WorldStep>, w: World)
    requires Clean(p, start, steps, w)
    ensures Reaches(p, start, steps, w)
  {
    if steps == [] {
    } else {
      hide Possible, Progress, Wastes;
      var rest, last := steps[..|steps| - 1], steps[|steps| - 1];
      var before :| Clean(p, start, rest, before) && Possible(p, before, last) && w == Progress(p, before, last);
      CleanReaches(p, start, rest, before);
    }
  }

  lemma {:induction false} BalancedIfClean(p: Params, start: World, steps: seq<WorldStep>, w: World)
    requires p.Valid() && Initial(p, start) && Reaches(p, start, steps, w)
    ensures Kept(p, w) && (Balanced(w) <==> Clean(p, start, steps, w))
  {
    if steps == [] {
      InitiallyKept(p, start);
      assert Accepted(start) == {};
    } else {
      hide Kept, Initial, Possible, Progress, Balanced, Wastes;
      var rest, last := steps[..|steps| - 1], steps[|steps| - 1];
      var before :| Reaches(p, start, rest, before) && Possible(p, before, last) && w == Progress(p, before, last);
      BalancedIfClean(p, start, rest, before);
      StepKept(p, before, last);
      StepBalance(p, before, last);
      if Clean(p, start, steps, w) {
        var clean :| Clean(p, start, rest, clean) && Possible(p, clean, last) && w == Progress(p, clean, last)
                     && !Wastes(p, clean, last);
        CleanReaches(p, start, rest, clean);
        Determined(p, start, rest, before, clean);
      }
    }
  }

  /**
   No event disappears silently, from the shell to the relay: over every run, a delivered event was accepted by the
   relay, and the events stored are at most those queued or accepted and those counted as given up (or owed to the
   counter, or lost to it by a crash). The two are equal exactly if no step of the run removed from the queue an event
   the relay had accepted, and none was the acceptance of an event no longer queued.
   */
  lemma NothingLostOnTheWay(p: Params, start: World, steps: seq<WorldStep>, w: World)
    requires p.Valid() && Initial(p, start) && Reaches(p, start, steps, w)
    ensures forall id :: id in w.node.log.delivered ==> id in Accepted(w)
    ensures StoredEvents(w) <= AccountedEvents(w)
    ensures StoredEvents(w) == AccountedEvents(w) <==> Clean(p, start, steps, w)
  {
    hide Initial, Reaches, Clean, Balanced, StoredEvents, AccountedEvents;
    BalancedIfClean(p, start, steps, w);
    KeptBalance(p, w);
    hide Books, Counts, RowsTimed, NetTimed, RingsRecorded, PushesOnce;
  }
}
