/**
 The whole chain: the daemon, a network that may lose or delay requests and replies, the relay and its pushes.
 Time is the relay's clock; the daemon's wall clock stays within `skew` of it, and a request is processed within
 `delay` of the moment the delivery loop read the clock, or never.
 */
module EndToEnd {
  import opened Types
  import opened Activity
  import opened Bursts
  import opened Queue
  import opened Daemon
  import opened DaemonLaws
  import Relay

  datatype Params = Params(config: Config, source: Uuid, skew: nat, delay: nat) {
    predicate Valid() { config.Valid() }

    /** How long after its creation an event can still reach the relay. */
    function Horizon(): nat { config.maxAge + delay + 2 * skew }
  }

  datatype Message = Message(request: Relay.Request, since: int, answered: bool)

  /**
   What happened so far: when events were stored, with what message and targets, which rings the relay made of them,
   and which pushes were attempted.
   */
  datatype History = History(
    born: map<Uuid, int>,
    contents: set<(Uuid, Option<string>, seq<string>)>,
    accepted: set<(nat, Uuid)>,
    pushed: seq<(Uuid, Uuid)>)

  /**
   `since` is when the delivery loop last read its clock, `current` the message it waits for, `tasks` the pushes
   the relay has yet to attempt: ring, event and receiver.
   */
  datatype World = World(
    node: Node,
    tables: Relay.Tables,
    time: int,
    since: int,
    net: seq<Message>,
    current: nat,
    tasks: set<(nat, Uuid, Uuid)>,
    past: History)

  datatype WorldStep =
    | Local(step: Step)
    | Send(id: Uuid)
    | Arrive(message: nat)
    | Acknowledge
    | Push(task: (nat, Uuid, Uuid), outcome: Relay.Outcome)
    | RelayRestart
    | Other(request: Relay.Request)
    | Configure(receivers: map<Uuid, Relay.Receiver>, pullTags: seq<seq<string>>, retention: nat)
    | Advance(elapsed: nat)

  /** The wall clock reading a local step stamps on rows, or compares their age with. */
  function Reading(s: Step): Option<I64> {
    match s
    case Request(e, _) => if e.Manual? then Some(e.wall) else None
    case Timer(tick, _) => if tick.Tick? then Some(tick.wall) else None
    case Expire(now, _) => Some(now)
    case _ => None
  }

  predicate Near(now: int, time: int, skew: nat) { time - skew <= now <= time + skew }

  /** The rings a step of the node makes, as they are stored. */
  ghost function StoredBy(c: Config, n: Node, s: Step): seq<Action> {
    match s
    case Request(e, _) => Apply(n.mem, e).1
    case Timer(tick, _) => AllWorded(Apply(n.mem, tick).1, c.automaticMessage)
    case _ => []
  }

  function Contents(actions: seq<Action>): set<(Uuid, Option<string>, seq<string>)> {
    set a | a in actions :: (a.eventId, a.message, a.targets)
  }

  /** A local step of the node, with the birth and the contents of the events it stores. */
  ghost function AfterLocal(p: Params, w: World, s: Step): World
    requires Enabled(p.config, w.node, s)
  {
    var n := Next(p.config, w.node, s);
    w.(node := n,
       since := if s.Expire? then w.time else w.since,
       past := w.past.(born := w.past.born + map id | id in n.log.inserted && id !in w.node.log.inserted :: w.time,
                       contents := w.past.contents + Contents(StoredBy(p.config, w.node, s))))
  }

  /** The delivery loop submits a row and waits for the answer. */
  ghost function AfterSend(p: Params, w: World, id: Uuid): World
    requires Enabled(p.config, w.node, Select(id))
  {
    var row := w.node.queue.rows[id];
    w.(node := Next(p.config, w.node, Select(id)),
       net := w.net + [Message(Relay.Request(p.source, id, row.message, row.targets), w.since, false)],
       current := |w.net|)
  }

  /** The relay handles a request of this source; if it refuses it, nothing changes. */
  function AfterArrival(w: World, m: nat): World
    requires m < |w.net|
  {
    if Relay.Normal(w.net[m].request).None? then w
    else AfterNormal(w, m, Relay.Normal(w.net[m].request).value)
  }

  /** The transaction on the trimmed message and the sorted tags. */
  function AfterNormal(w: World, m: nat, q: Relay.Request): World
    requires m < |w.net|
  {
    var w' := w.(tables := Relay.Submitted(w.tables, q, w.time), net := w.net[m := w.net[m].(answered := true)]);
    if Relay.Holds(w.tables.rings, q.source, q.event) then w' else
      var ring := w.tables.lastId + 1;
      w'.(tasks := w.tasks + set x | x in Relay.Matched(w.tables, q.tags) :: (ring, q.event, x),
          past := w.past.(accepted := w.past.accepted + {(ring, q.event)}))
  }

  /** The relay attempts a push and records what came of it. */
  function AfterPush(w: World, task: (nat, Uuid, Uuid), outcome: Relay.Outcome): World {
    w.(tasks := w.tasks - {task},
       tables := Relay.Marked(w.tables, task.0, task.2, outcome),
       past := w.past.(pushed := w.past.pushed + [(task.1, task.2)]))
  }

  ghost predicate Possible(p: Params, w: World, s: WorldStep) {
    match s
    case Local(step) =>
      && Enabled(p.config, w.node, step) && !step.Select? && !step.Accept?
      && (Reading(step).Some? ==> Near(Reading(step).value, w.time, p.skew))
    case Send(id) => Enabled(p.config, w.node, Select(id))
    case Arrive(m) => m < |w.net| && !w.net[m].answered && w.time <= w.net[m].since + p.delay
    case Acknowledge => w.node.up && w.node.worker.Sent? && w.current < |w.net| && w.net[w.current].answered
                        && w.net[w.current].request.event == w.node.worker.id
    case Push(task, _) => task in w.tasks
    case RelayRestart => true
    case Other(q) => q.source != p.source
    case Configure(_, _, retention) => p.Horizon() <= retention
    case Advance(_) => true
  }

  ghost function Progress(p: Params, w: World, s: WorldStep): World
    requires Possible(p, w, s)
  {
    match s
    case Local(step) => AfterLocal(p, w, step)
    case Send(id) => AfterSend(p, w, id)
    case Arrive(m) => AfterArrival(w, m)
    case Acknowledge => w.(node := Next(p.config, w.node, Accept))
    case Push(task, outcome) => AfterPush(w, task, outcome)
    case RelayRestart => w.(tasks := {})
    case Other(q) => w.(tables := Relay.Handled(w.tables, q, w.time))
    case Configure(receivers, pullTags, retention) =>
      w.(tables := w.tables.(receivers := receivers, pullTags := pullTags, retention := retention))
    case Advance(elapsed) => w.(time := w.time + elapsed)
  }

  ghost predicate Initial(p: Params, w: World) { Begins(p, w) && p.Horizon() <= w.tables.retention }

  /** A new daemon before a relay that has nothing of it, whatever the retention. */
  ghost predicate Begins(p: Params, w: World) {
    && w.node == FIRST && w.tables.Valid()
    && (forall r :: r in w.tables.rings ==> r.source != p.source)
    && w.since <= w.time && w.net == [] && w.tasks == {} && w.past == History(map[], {}, {}, [])
  }

  ghost predicate Reaches(p: Params, start: World, steps: seq<WorldStep>, w: World) {
    if steps == [] then w == start else
      var rest, last := steps[..|steps| - 1], steps[|steps| - 1];
      exists before :: Reaches(p, start, rest, before) && Possible(p, before, last) && w == Progress(p, before, last)
  }
}
