/** Particular runs of the chain: they show that its laws cannot be had with less. */
module EndToEndRuns {
  import opened Types
  import opened Activity
  import opened Bursts
  import opened Queue
  import opened Retry
  import opened Daemon
  import opened DaemonLaws
  import opened EndToEnd
  import opened EndToEndLaws
  import Protocol
  import Relay

  /** Settings under which the clock readings of the runs below are ordinary ones. */
  type Settings = p: Params | p.Valid() && p.config.maxAge + p.skew < MAX_WALL
    witness Params(Config(1, 10_000, "ready"), 0, 0, 0)

  const EVENT: Uuid := 7
  const MESSAGE: Option<string> := Some(" done ")
  const TARGETS: seq<string> := ["phone", "pc"]
  const RING := Action(EVENT, None, MESSAGE, TARGETS, false, None)

  /** The event is rung by a daemon whose clock is ahead as far as it may be. */
  function Rung(p: Settings): Event { Manual(None, EVENT, MESSAGE, TARGETS, 0, p.skew) }

  function FreshRow(p: Settings): Row { NewRow(RING, p.skew) }

  function Full(p: Settings): Queue { Queue(map[EVENT := FreshRow(p)], 0) }

  function Sending(p: Settings): Relay.Request { Relay.Request(p.source, EVENT, MESSAGE, TARGETS) }

  function FirstRing(p: Settings): Relay.Ring { Relay.Ring(1, p.source, EVENT, Some("done"), ["pc", "phone"], 0, 0) }

  function Start(p: Settings, retention: nat): World {
    World(FIRST, Relay.Tables([], 0, map[], map[], [], retention), 0, 0, [], 0, {}, History(map[], {}, {}, []))
  }

  /** The daemon is up and has stored the event. */
  function Stored(p: Settings, retention: nat): World {
    Start(p, retention).(
      node := FIRST.(up := true, queue := Full(p), log := FIRST.log.(inserted := [EVENT], events := {EVENT})),
      past := History(map[EVENT := 0], {(EVENT, MESSAGE, TARGETS)}, {}, []))
  }

  /** The delivery loop has read this time, submitted the row, and waits. */
  function Submitting(p: Settings, w: World, row: Row, now: I64): World {
    w.(node := w.node.(worker := Sent(EVENT, row, now), log := w.node.log.(sends := Bump(w.node.log.sends, EVENT))),
       since := w.time, net := w.net + [Message(Sending(p), w.time, false)], current := |w.net|)
  }

  /** The relay has accepted the event. */
  function Accepting(p: Settings, retention: nat): World {
    Submitting(p, Stored(p, retention), FreshRow(p), p.skew).(
      tables := Relay.Tables([FirstRing(p)], 1, map[], map[], [], retention),
      net := [Message(Sending(p), 0, true)],
      past := Stored(p, retention).past.(accepted := {(1, EVENT)}))
  }

  lemma Extended(p: Params, start: World, steps: seq<WorldStep>, w: World, s: WorldStep, w': World)
    requires Reaches(p, start, steps, w) && Possible(p, w, s) && w' == Progress(p, w, s)
    ensures Reaches(p, start, steps + [s], w')
  {
    hide Possible, Progress;
    assert (steps + [s])[..|steps + [s]| - 1] == steps;
  }

  lemma StartBegins(p: Settings, retention: nat)
    ensures Begins(p, Start(p, retention))
  {
  }

  // ----- the event is stored, submitted and accepted -----

  lemma Commit(p: Settings)
    ensures QueueAfter(p.config, Queue(map[], 0), [RING], p.skew, Full(p))
  {
    var q, limit := Queue(map[], 0), p.config.queueLimit;
    assert Pruned(q, Cutoff(p.skew, p.config.maxAge)) == q;
    assert [RING][..|[RING]| - 1] == [];
    assert MakesRoom(q, limit, q) && Inserted(q, RING, p.skew) == Full(p);
    assert Enqueues(q, RING, p.skew, limit, Full(p));
    assert EnqueuesAll(q, [], p.skew, limit, q);
    assert EnqueuesAll(q, [RING], p.skew, limit, Full(p));
  }

  lemma Restarts(p: Settings, w: World)
    requires !w.node.up && w.node.disk == map[]
    ensures var s := Local(Restart({}, 0));
            Possible(p, w, s) && Progress(p, w, s) == w.(node := w.node.(up := true, mem := map[]))
  {
    assert Resumed(map[], {}, 0) == map[] && Saved(map[]) == map[];
    assert Progress(p, w, Local(Restart({}, 0))).past.born == w.past.born;
  }

  /** What storing the event makes of the node. */
  lemma EngineStores(p: Settings)
    ensures var n := FIRST.(up := true);
            NextEngine(n, Rung(p)) == n.(log := n.log.(inserted := [EVENT], events := {EVENT}))
    ensures Apply(map[], Rung(p)) == (map[], [RING]) && Saved(map[]) == map[]
    ensures DrawsFresh(map[], Rung(p), {}, {})
  {
    assert Apply(map[], Rung(p)) == (map[], [RING]);
    assert RungBy(map[], Rung(p)) == {};
    assert [] + Ids([RING]) == [EVENT];
  }

  lemma Requests(p: Settings, retention: nat)
    ensures var w, s := Start(p, retention).(node := FIRST.(up := true)), Local(Request(Rung(p), Full(p)));
            Possible(p, w, s) && Progress(p, w, s) == Stored(p, retention)
  {
    Commit(p);
    EngineStores(p);
    hide QueueAfter, Apply, NextEngine, DrawsFresh, Saved;
    var s, w := Local(Request(Rung(p), Full(p))), Start(p, retention).(node := FIRST.(up := true));
    assert Progress(p, w, s).past.born == map[EVENT := 0];
  }

  lemma Stores(p: Settings, retention: nat) returns (steps: seq<WorldStep>)
    ensures Reaches(p, Start(p, retention), steps, Stored(p, retention))
  {
    var start, up := Start(p, retention), Start(p, retention).(node := FIRST.(up := true));
    assert Reaches(p, start, [], start);
    hide Possible, Progress, Reaches;
    Restarts(p, start);
    Extended(p, start, [], start, Local(Restart({}, 0)), up);
    Requests(p, retention);
    Extended(p, start, [] + [Local(Restart({}, 0))], up, Local(Request(Rung(p), Full(p))), Stored(p, retention));
    steps := [] + [Local(Restart({}, 0))] + [Local(Request(Rung(p), Full(p)))];
  }

  /** The delivery loop expires nothing, then submits the only row. */
  lemma Submits(p: Settings, start: World, steps: seq<WorldStep>, w: World, row: Row, now: I64) returns (more: seq<WorldStep>)
    requires Reaches(p, start, steps, w) && w.node.up && w.node.worker.Idle?
    requires SaneWall(now) && Near(now, w.time, p.skew) && Due(row, now) && row.createdAt >= now - p.config.maxAge
    requires w.node.queue == Queue(map[EVENT := row], 0) && row.message == MESSAGE && row.targets == TARGETS
    ensures Reaches(p, start, more, Submitting(p, w, row, now))
  {
    hide Possible, Progress, Reaches;
    var expire, count, send := Local(Expire(now, true)), Local(Count), Send(EVENT);
    assert Expired(w.node.queue, Cutoff(now, p.config.maxAge)) == {};
    assert w.node.queue.(rows := w.node.queue.rows - {}) == w.node.queue;
    var w1 := w.(node := w.node.(worker := Counting(now, 0, true)), since := w.time);
    var w2 := w.(node := w.node.(worker := Selecting(now)), since := w.time);
    Expires(p, w, now, true, {});
    Extended(p, start, steps, w, expire, w1);
    Tallies(p, w1);
    Extended(p, start, steps + [expire], w1, count, w2);
    Selects(p, w2, row, now);
    more := steps + [expire] + [count] + [send];
    Extended(p, start, steps + [expire] + [count], w2, send, Submitting(p, w, row, now));
  }

  lemma Selects(p: Settings, w: World, row: Row, now: I64)
    requires w.node.up && w.since == w.time && w.node.worker == Selecting(now)
    requires w.node.queue.rows == map[EVENT := row] && Due(row, now) && row.message == MESSAGE && row.targets == TARGETS
    ensures Possible(p, w, Send(EVENT)) && Progress(p, w, Send(EVENT)) == Submitting(p, w, row, now)
  {
  }

  lemma Expires(p: Settings, w: World, now: I64, selecting: bool, stale: set<Uuid>)
    requires w.node.up && w.node.worker.Idle? && SaneWall(now) && Near(now, w.time, p.skew)
    requires Expired(w.node.queue, Cutoff(now, p.config.maxAge)) == stale
    ensures var s := Local(Expire(now, selecting));
            && Possible(p, w, s)
            && Progress(p, w, s) == w.(node := w.node.(queue := w.node.queue.(rows := w.node.queue.rows - stale),
                                                       worker := Counting(now, |stale|, selecting)), since := w.time)
  {
    var s := Local(Expire(now, selecting));
    assert Progress(p, w, s).past.born == w.past.born;
  }

  lemma Tallies(p: Settings, w: World)
    requires w.node.up && w.node.worker.Counting?
    ensures Possible(p, w, Local(Count))
    ensures Progress(p, w, Local(Count))
            == w.(node := w.node.(queue := w.node.queue.(dropped := w.node.queue.dropped + w.node.worker.removed),
                                  worker := if w.node.worker.selecting then Selecting(w.node.worker.now) else Idle))
  {
    assert Progress(p, w, Local(Count)).past.born == w.past.born;
  }

  /** The relay trims the message and sorts the targets. */
  lemma Rewrites(p: Settings)
    ensures Relay.Normal(Sending(p)) == Some(Relay.Request(p.source, EVENT, Some("done"), ["pc", "phone"]))
  {
    RewritesMessage();
    RewritesTargets();
    hide Protocol.ValidMessage, Protocol.ValidTags;
  }

  lemma RewritesMessage()
    ensures Protocol.ValidMessage(MESSAGE) == Some(Some("done"))
  {
    assert " done "[1..] == "done " && "done "[..4] == "done";
    assert Protocol.TrimStart(" done ") == Protocol.TrimStart("done ") == "done ";
    assert Protocol.TrimEnd("done ") == Protocol.TrimEnd("done") == "done";
  }

  lemma RewritesTargets()
    ensures Protocol.ValidTags(TARGETS) == Some(["pc", "phone"])
  {
    assert TARGETS[..1] == ["phone"] && ["phone"][..0] == [];
    assert Protocol.SortedTags(["phone"]) == ["phone"];
    assert "pc"[0] == "phone"[0] == 'p' && "pc"[1..] == "c" && "phone"[1..] == "hone";
    assert Protocol.Precedes("c", "hone") && Protocol.Precedes("pc", "phone");
    assert Protocol.Insert(["phone"], "pc") == ["pc"] + ["phone"];
    assert "phone" == Protocol.ALLOWED_TAGS[0] && "pc" == Protocol.ALLOWED_TAGS[1];
    assert Protocol.SortedTags(TARGETS) == ["pc", "phone"];
  }

  lemma FirstRetained(p: Settings, retention: nat)
    ensures Relay.Retained([] + [FirstRing(p)], 0 - retention) == [FirstRing(p)]
  {
    assert [] + [FirstRing(p)] == [FirstRing(p)] && [FirstRing(p)][..|[FirstRing(p)]| - 1] == [];
  }

  lemma RingsFirst(p: Settings, retention: nat)
    ensures var t, q := Start(p, retention).tables, Relay.Request(p.source, EVENT, Some("done"), ["pc", "phone"]);
            && Relay.Submitted(t, q, 0) == Accepting(p, retention).tables && Relay.Matched(t, q.tags) == {}
            && !Relay.Holds(t.rings, q.source, q.event)
  {
    FirstRetained(p, retention);
    hide Relay.Retained;
    var t := Start(p, retention).tables;
    assert Relay.Matched(t, ["pc", "phone"]) == {};
    assert Relay.QueuedFor(1, {}) == map[];
    assert Relay.Cascaded(map[] + map[], [FirstRing(p)]) == map[];
  }

  lemma Accepts(p: Settings, retention: nat)
    ensures var w := Submitting(p, Stored(p, retention), FreshRow(p), p.skew);
            Possible(p, w, Arrive(0)) && Progress(p, w, Arrive(0)) == Accepting(p, retention)
  {
    Rewrites(p);
    RingsFirst(p, retention);
    hide Relay.Submitted, Relay.Matched, Relay.Normal, Relay.Holds;
    var w := Submitting(p, Stored(p, retention), FreshRow(p), p.skew);
    assert w.net[0 := w.net[0].(answered := true)] == [Message(Sending(p), 0, true)];
  }

  lemma IsAccepted(p: Settings, retention: nat) returns (steps: seq<WorldStep>)
    ensures Reaches(p, Start(p, retention), steps, Accepting(p, retention))
  {
    hide Possible, Progress, Reaches;
    var start, stored := Start(p, retention), Stored(p, retention);
    var storing := Stores(p, retention);
    var sending := Submits(p, start, storing, stored, FreshRow(p), p.skew);
    Accepts(p, retention);
    steps := sending + [Arrive(0)];
    Extended(p, start, sending, Submitting(p, stored, FreshRow(p), p.skew), Arrive(0), Accepting(p, retention));
  }

  /** An event need not arrive as it was rung: the relay trims its message, and sorts its targets. */
  lemma ArrivesChanged(p: Settings) returns (start: World, steps: seq<WorldStep>, w: World)
    ensures Initial(p, start) && Reaches(p, start, steps, w)
    ensures (EVENT, Some(" done "), ["phone", "pc"]) in w.past.contents
    ensures exists r :: r in w.tables.rings && r.source == p.source && r.event == EVENT
                        && r.message == Some("done") && r.tags == ["pc", "phone"]
  {
    hide Reaches;
    start, w := Start(p, p.Horizon()), Accepting(p, p.Horizon());
    StartBegins(p, p.Horizon());
    steps := IsAccepted(p, p.Horizon());
    assert FirstRing(p) in w.tables.rings;
  }

  // ----- the answer is lost, and the row expires -----

  /** The answer to the accepted request was lost. */
  function Unanswered(p: Settings, retention: nat): World {
    var w := Accepting(p, retention);
    w.(node := w.node.(worker := Idle, queue := Retried(Full(p), EVENT, SatAddI64(p.skew, 5_000), "lost")))
  }

  lemma LosesAnswer(p: Settings, retention: nat)
    ensures var w, s := Accepting(p, retention), Local(Fail(5_000, "lost"));
            Possible(p, w, s) && Progress(p, w, s) == Unanswered(p, retention)
  {
    var w, s := Accepting(p, retention), Local(Fail(5_000, "lost"));
    assert BaseDelay(0) == 5_000;
    assert Progress(p, w, s).past.born == w.past.born;
  }

  lemma Waits(p: Settings, w: World, elapsed: nat)
    ensures Possible(p, w, Advance(elapsed)) && Progress(p, w, Advance(elapsed)) == w.(time := w.time + elapsed)
  {
  }

  /** The row has expired. */
  function Expiring(p: Settings): World {
    var w, later := Unanswered(p, p.Horizon()), p.config.maxAge + 2 * p.skew + 1;
    w.(node := w.node.(queue := Queue(map[], 0), worker := Counting(p.config.maxAge + p.skew + 1, 1, false)),
       time := later, since := later)
  }

  /** It has been counted. */
  function GivenUp(p: Settings): World {
    Expiring(p).(node := Expiring(p).node.(queue := Queue(map[], 1), worker := Idle))
  }

  lemma GivesUp(p: Settings, w: World)
    requires w == Unanswered(p, p.Horizon()).(time := p.config.maxAge + 2 * p.skew + 1)
    ensures var expire := Local(Expire(p.config.maxAge + p.skew + 1, false));
            Possible(p, w, expire) && Progress(p, w, expire) == Expiring(p)
    ensures Possible(p, Expiring(p), Local(Count)) && Progress(p, Expiring(p), Local(Count)) == GivenUp(p)
  {
    hide Possible, Progress;
    var now := p.config.maxAge + p.skew + 1;
    assert Cutoff(now, p.config.maxAge) == p.skew + 1;
    assert Expired(w.node.queue, p.skew + 1) == {EVENT};
    assert w.node.queue.rows - {EVENT} == map[];
    Expires(p, w, now, false, {EVENT});
    Tallies(p, Expiring(p));
  }

  /**
   Whatever the settings, an event can be both accepted by the relay and counted as given up, although it expired with
   no request outstanding: it is enough that the answer to the request was lost.
   */
  lemma AcceptedThenGivenUp(p: Settings) returns (start: World, steps: seq<WorldStep>, w: World)
    ensures Initial(p, start) && Reaches(p, start, steps, w)
    ensures w.node.worker.Idle? && w.node.log.phantom == 0 && w.node.log.lost == 0
    ensures StoredEvents(w) < AccountedEvents(w)
  {
    hide Possible, Progress, Reaches;
    start, w := Start(p, p.Horizon()), GivenUp(p);
    StartBegins(p, p.Horizon());
    var before := IsAccepted(p, p.Horizon());
    var unanswered := Unanswered(p, p.Horizon());
    var fail, wait := Local(Fail(5_000, "lost")), Advance(p.config.maxAge + 2 * p.skew + 1);
    var expire, waiting := Local(Expire(p.config.maxAge + p.skew + 1, false)), unanswered.(time := wait.elapsed);
    LosesAnswer(p, p.Horizon());
    Extended(p, start, before, Accepting(p, p.Horizon()), fail, unanswered);
    Waits(p, unanswered, wait.elapsed);
    Extended(p, start, before + [fail], unanswered, wait, waiting);
    GivesUp(p, waiting);
    Extended(p, start, before + [fail] + [wait], waiting, expire, Expiring(p));
    steps := before + [fail] + [wait] + [expire] + [Local(Count)];
    Extended(p, start, before + [fail] + [wait] + [expire], Expiring(p), Local(Count), w);
    CountedTwice(p);
  }

  lemma CountedTwice(p: Settings)
    ensures StoredEvents(GivenUp(p)) < AccountedEvents(GivenUp(p))
  {
    var w := GivenUp(p);
    assert (1, EVENT) in w.past.accepted && EVENT in Accepted(w);
    assert Accepted(w) == {EVENT} && w.node.queue.rows.Keys + Accepted(w) == {EVENT};
  }

  // ----- the daemon crashes, and the relay forgets -----

  /** Another source's ring comes when the first ring is too old to keep. */
  function Others(p: Settings): Relay.Request { Relay.Request(p.source + 1, EVENT, None, []) }

  function SecondRing(p: Settings): Relay.Ring { Relay.Ring(2, p.source + 1, EVENT, None, [], p.Horizon(), 0) }

  /** The daemon crashed before it saw the answer, and is up again. */
  function Back(p: Settings, retention: nat): World {
    var w := Accepting(p, retention);
    w.(node := w.node.(worker := Idle, log := w.node.log.(unrecorded := map[EVENT := 1])))
  }

  /** The row is submitted again on the last occasion. */
  function Again(p: Settings, retention: nat): World {
    Submitting(p, Back(p, retention).(time := p.config.maxAge + 2 * p.skew), FreshRow(p), p.config.maxAge + p.skew)
  }

  /** The request is under way; the first ring is forgotten. */
  function Forgotten(p: Settings, retention: nat): World {
    var w := Again(p, retention);
    w.(time := p.Horizon(), tables := w.tables.(rings := [SecondRing(p)], lastId := 2))
  }

  lemma Crashes(p: Settings, retention: nat)
    ensures var w := Accepting(p, retention);
            Possible(p, w, Local(Crash)) && Progress(p, w, Local(Crash)) == Back(p, retention).(node := Back(p, retention).node.(up := false))
  {
    var w := Accepting(p, retention);
    assert Progress(p, w, Local(Crash)).past.born == w.past.born;
  }

  lemma GoesBack(p: Settings, retention: nat) returns (steps: seq<WorldStep>)
    ensures Reaches(p, Start(p, retention), steps, Back(p, retention))
  {
    hide Possible, Progress, Reaches;
    var start, back := Start(p, retention), Back(p, retention);
    var down := back.(node := back.node.(up := false));
    var before := IsAccepted(p, retention);
    Crashes(p, retention);
    Extended(p, start, before, Accepting(p, retention), Local(Crash), down);
    Restarts(p, down);
    steps := before + [Local(Crash)] + [Local(Restart({}, 0))];
    Extended(p, start, before + [Local(Crash)], down, Local(Restart({}, 0)), back);
  }

  lemma SendsAgain(p: Settings, retention: nat) returns (steps: seq<WorldStep>)
    ensures Reaches(p, Start(p, retention), steps, Again(p, retention))
  {
    hide Possible, Progress, Reaches;
    var start, back, wait := Start(p, retention), Back(p, retention), Advance(p.config.maxAge + 2 * p.skew);
    var before := GoesBack(p, retention);
    Waits(p, back, wait.elapsed);
    Extended(p, start, before, back, wait, back.(time := wait.elapsed));
    steps := Submits(p, start, before + [wait], back.(time := wait.elapsed), FreshRow(p), p.config.maxAge + p.skew);
  }

  lemma SecondRetained(p: Settings, cutoff: int)
    requires 0 < cutoff <= p.Horizon()
    ensures Relay.Retained([FirstRing(p)] + [SecondRing(p)], cutoff) == [SecondRing(p)]
  {
    var first, second := FirstRing(p), SecondRing(p);
    assert [first] + [second] == [first, second] && [first, second][..1] == [first] && [first][..0] == [];
    assert Relay.Retained([first], cutoff) == [];
  }

  lemma IsSecond(p: Settings, t: Relay.Tables)
    requires t == Relay.Tables([FirstRing(p)], 1, map[], map[], [], t.retention)
    ensures !Relay.Holds(t.rings, p.source + 1, EVENT) && Relay.Matched(t, []) == {}
    ensures Relay.NewRing(t, Others(p), p.Horizon()) == SecondRing(p)
  {
    assert Relay.Matched(t, []) == {};
  }

  lemma OthersAreNormal(p: Settings)
    ensures Relay.Normal(Others(p)) == Some(Others(p))
  {
  }

  lemma RingsSecond(p: Settings, t: Relay.Tables)
    requires t == Relay.Tables([FirstRing(p)], 1, map[], map[], [], t.retention) && t.retention < p.Horizon()
    ensures Relay.Handled(t, Others(p), p.Horizon()) == t.(rings := [SecondRing(p)], lastId := 2)
  {
    SecondRetained(p, p.Horizon() - t.retention);
    OthersAreNormal(p);
    IsSecond(p, t);
    hide Relay.Retained, Relay.Normal, Relay.Holds, Relay.Matched, Relay.NewRing;
    assert Relay.QueuedFor(2, {}) == map[];
    assert Relay.Cascaded(map[] + map[], [SecondRing(p)]) == map[];
  }

  lemma Handles(p: Settings, w: World, q: Relay.Request, t: Relay.Tables)
    requires q.source != p.source && Relay.Handled(w.tables, q, w.time) == t
    ensures Possible(p, w, Other(q)) && Progress(p, w, Other(q)) == w.(tables := t)
  {
    hide Relay.Handled;
  }

  lemma Forgets(p: Settings, retention: nat)
    requires retention < p.Horizon()
    ensures var w := Again(p, retention).(time := p.Horizon());
            Possible(p, w, Other(Others(p))) && Progress(p, w, Other(Others(p))) == Forgotten(p, retention)
  {
    hide Possible, Progress, Relay.Handled;
    var w := Again(p, retention).(time := p.Horizon());
    RingsSecond(p, w.tables);
    Handles(p, w, Others(p), w.tables.(rings := [SecondRing(p)], lastId := 2));
  }

  lemma AcceptsAgain(p: Settings, retention: nat)
    ensures Possible(p, Forgotten(p, retention), Arrive(1))
    ensures Progress(p, Forgotten(p, retention), Arrive(1)).past.accepted == {(1, EVENT), (3, EVENT)}
  {
    var w := Forgotten(p, retention);
    assert w.net[1] == Message(Sending(p), p.config.maxAge + 2 * p.skew, false);
    Rewrites(p);
    hide Relay.Normal, Relay.Submitted;
  }

  /** If retention is shorter than the horizon, one event can get two rings, whatever the other settings. */
  lemma ShortRetentionAcceptsTwice(p: Settings, retention: nat) returns (start: World, steps: seq<WorldStep>, w: World)
    requires retention < p.Horizon()
    ensures Begins(p, start) && start.tables.retention == retention && Reaches(p, start, steps, w)
    ensures w.past.accepted == {(1, EVENT), (3, EVENT)}
  {
    hide Possible, Progress, Reaches;
    start := Start(p, retention);
    StartBegins(p, retention);
    var before := SendsAgain(p, retention);
    var again, travel, other := Again(p, retention), Advance(p.delay), Other(Others(p));
    Waits(p, again, p.delay);
    Extended(p, start, before, again, travel, again.(time := p.Horizon()));
    Forgets(p, retention);
    Extended(p, start, before + [travel], again.(time := p.Horizon()), other, Forgotten(p, retention));
    AcceptsAgain(p, retention);
    w := Progress(p, Forgotten(p, retention), Arrive(1));
    steps := before + [travel] + [other] + [Arrive(1)];
    Extended(p, start, before + [travel] + [other], Forgotten(p, retention), Arrive(1), w);
  }

  ghost predicate AcceptedOnce(w: World) {
    forall a, b :: a in w.past.accepted && b in w.past.accepted && a.1 == b.1 ==> a == b
  }

  /** So the horizon is exactly the retention under which an event has one ring at most, over every run. */
  lemma RetentionIsExact(p: Settings, retention: nat)
    ensures p.Horizon() <= retention
            <==> forall start, steps, w ::
                   Begins(p, start) && start.tables.retention == retention && Reaches(p, start, steps, w) ==> AcceptedOnce(w)
  {
    hide Begins, Reaches;
    if p.Horizon() <= retention {
      forall start, steps, w | Begins(p, start) && start.tables.retention == retention && Reaches(p, start, steps, w)
        ensures AcceptedOnce(w)
      {
        AtMostOncePerBurst(p, start, steps, w);
      }
    } else {
      var start, steps, w := ShortRetentionAcceptsTwice(p, retention);
      assert (1, EVENT) in w.past.accepted && (3, EVENT) in w.past.accepted;
    }
  }
}
