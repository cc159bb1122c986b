/**
 One burst across crashes, orderly stops and restarts of the daemon, while other sessions go on. Rings are committed
 together with the session table, but a tick that only forgets a burst is not written to disk, so the disk may lag
 behind memory until something else is saved.
 */
module Recovery {
  import opened Types
  import opened Activity
  import opened Isolation
  import opened Bursts
  import opened Queue
  import opened Daemon
  import opened DaemonLaws

  /**
   The daemon, and what happened to one session's burst: how often the daemon was restarted, whether a tick found the
   burst due, and the rings made for the session. `origin` is the wall clock reading that belongs to the zero of the
   monotonic clock: the one at the last restart, when the monotonic clock begins. A ring is dated by it: its time is
   `origin` plus the monotonic reading of its tick, not the wall reading of that tick.
   */
  datatype Story = Story(node: Node, origin: int, restarts: nat, lapsed: bool, rings: seq<(Action, int)>)

  /** The step is about other sessions, or about none in particular. */
  predicate LeavesAlone(s: Step, id: Uuid) {
    match s
    case Request(e, _) => Addressee(e) != Some(id)
    case ArmAndStart(arm, _) => Addressee(arm) != Some(id)
    case _ => true
  }

  function MonoOf(s: Step): int {
    match s
    case Request(e, _) => if e.Manual? then e.mono else 0
    case Timer(tick, _) => if tick.Tick? then tick.mono else 0
    case _ => 0
  }

  /** The rings a step makes for one session. */
  ghost function RungFor(n: Node, s: Step, id: Uuid): seq<Action> {
    match s
    case Request(e, _) => RingsOf(Apply(n.mem, e).1, id)
    case Timer(tick, _) => RingsOf(Apply(n.mem, tick).1, id)
    case _ => []
  }

  function Dated(rings: seq<Action>, time: int): seq<(Action, int)> {
    seq(|rings|, i requires 0 <= i < |rings| => (rings[i], time))
  }

  /** A tick finds the session's burst due. */
  predicate FindsDue(n: Node, s: Step, id: Uuid) {
    s.Timer? && s.tick.Tick? && id in n.mem && n.mem[id].DueAt(s.tick.mono)
  }

  ghost function Told(c: Config, id: Uuid, st: Story, s: Step): Story
    requires Enabled(c, st.node, s)
  {
    Story(Next(c, st.node, s),
          if s.Restart? then s.now else st.origin,
          st.restarts + if s.Restart? then 1 else 0,
          st.lapsed || FindsDue(st.node, s, id),
          st.rings + Dated(RungFor(st.node, s, id), st.origin + MonoOf(s)))
  }

  /** Steps of the daemon that leave the session alone. */
  ghost predicate Unfolds(c: Config, id: Uuid, first: Story, steps: seq<Step>, last: Story) {
    if steps == [] then last == first else
      var rest, s := steps[..|steps| - 1], steps[|steps| - 1];
      exists before ::
        Unfolds(c, id, first, rest, before) && Enabled(c, before.node, s) && LeavesAlone(s, id) && last == Told(c, id, before, s)
  }

  // ----- what a session can become while it is left alone -----

  /** Still settling: as it was, with what is left of its wall deadline as its delay. */
  predicate Waiting(s: Session, x: Session, origin: int)
    requires s.deadlineWall.Some?
  {
    && x.deadlineMono.Some? && x.deadlineMono.value == Max(0, s.deadlineWall.value - origin)
    && x.(deadlineMono := s.deadlineMono) == s
  }

  /** The burst is over; a session in once mode that rang is off, any other is armed as before. */
  predicate Rests(s: Session, x: Session, rung: bool) {
    x.(lastSeen := s.lastSeen) == s.(mode := if rung && s.mode == Once then Off else s.mode).ResetAfterBurst()
  }

  predicate Qualifies(s: Session) { s.accumulated >= s.minimumActive && !s.burstNotified }

  /** What is known of one session. */
  datatype Burst = Burst(mem: Option<Session>, disk: Option<Session>, origin: int, lapsed: bool, rings: seq<(Action, int)>)

  function BurstOf(st: Story, id: Uuid): Burst {
    Burst(Lookup(st.node.mem, id), Lookup(st.node.disk, id), st.origin, st.lapsed, st.rings)
  }

  /** What holds of a settling burst `s`, whatever happens around it. */
  ghost predicate Carried(s: Session, b: Burst)
    requires s.deadlineWall.Some?
  {
    && (b.mem.Some? ==> Waiting(s, b.mem.value, b.origin) || Rests(s, b.mem.value, b.rings != []))
    && (b.disk.Some? ==> b.disk.value == s.Persisted() || Rests(s, b.disk.value, b.rings != []))
    && (!b.lapsed ==>
          && (b.mem.Some? ==> Waiting(s, b.mem.value, b.origin))
          && (b.disk.Some? ==> b.disk.value == s.Persisted()))
    && |b.rings| == (if b.lapsed && Qualifies(s) then 1 else 0)
    && (b.rings != [] ==> Fulfilled(s, b))
  }

  /** The burst has rung, no earlier than its wall deadline, and is over in memory and on disk. */
  ghost predicate Fulfilled(s: Session, b: Burst)
    requires s.deadlineWall.Some? && b.rings != []
  {
    var ring := b.rings[0];
    && ring.0.sessionId == Some(s.id) && ring.0.automatic && ring.0.activeDuration == Some(s.accumulated)
    && s.deadlineWall.value <= ring.1
    && (b.mem.Some? ==> Rests(s, b.mem.value, true))
    && (b.disk.Some? ==> Rests(s, b.disk.value, true))
  }

  // ----- one step -----

  lemma WaitingIsSaved(s: Session, x: Session, origin: int)
    requires s.deadlineWall.Some? && Waiting(s, x, origin)
    ensures x.Persisted() == s.Persisted()
  {
  }

  lemma RestsIsSaved(s: Session, x: Session, rung: bool)
    requires Rests(s, x, rung)
    ensures x.Persisted() == x
    ensures forall mono: U64 :: !x.DueAt(mono)
    ensures forall now: I64 :: x.RecoverLiveTiming(0, now) == x
  {
  }

  lemma WaitingRecovers(s: Session, now: I64)
    requires s.Valid() && s.state == Settling && SaneWall(now)
    ensures Waiting(s, s.Persisted().RecoverLiveTiming(0, now), now)
  {
  }

  /** A tick leaves a waiting session alone before its time, and ends its burst after it. */
  lemma WaitingTicks(s: Session, x: Session, origin: int, tick: Event)
    requires s.Valid() && s.state == Settling && Waiting(s, x, origin) && tick.Tick?
    ensures var (x', ring) := React(x, tick);
            && (x.DueAt(tick.mono) <==> Max(0, s.deadlineWall.value - origin) <= tick.mono)
            && (!x.DueAt(tick.mono) ==> x' == x && ring == None)
            && (x.DueAt(tick.mono) ==> Rests(s, x', Qualifies(s)) && (ring.Some? <==> Qualifies(s)))
            && (ring.Some? ==> ring.value.sessionId == Some(s.id) && ring.value.automatic && ring.value.activeDuration == Some(s.accumulated))
  {
    hide React;
    ReactCases(x, tick);
  }

  lemma SavedSession(m: Sessions, id: Uuid)
    ensures id in Saved(m) <==> id in m
    ensures id in m ==> Saved(m)[id] == m[id].Persisted()
  {
  }

  lemma TimerOnNode(c: Config, n: Node, s: Step)
    requires Enabled(c, n, s) && s.Timer?
    ensures s.tick.Tick?
    ensures var n' := Next(c, n, s);
            && n'.mem == Apply(n.mem, s.tick).0
            && n'.disk == if Apply(n.mem, s.tick).1 == [] then n.disk else Saved(n'.mem)
  {
    hide Apply, Saved, QueueAfter, DrawsFresh;
  }

  /** A tick is the session's own tick, and is saved if it rings for anyone. */
  lemma TimerOnSession(c: Config, id: Uuid, n: Node, s: Step)
    requires Books(n) && Enabled(c, n, s) && s.Timer?
    ensures s.tick.Tick?
    ensures var n' := Next(c, n, s);
            && (id in n'.mem <==> id in n.mem)
            && (id in n.mem ==> n'.mem[id] == React(n.mem[id], s.tick).0)
            && RungFor(n, s, id) == (if id in n.mem then AtMostOne(React(n.mem[id], s.tick).1) else [])
            && (n'.disk == Saved(n'.mem) || (n'.disk == n.disk && RungFor(n, s, id) == []))
  {
    TimerOnNode(c, n, s);
    hide Enabled, Next, React, Apply, Saved;
    BooksGiveTable(n);
    TickIsPointwise(n.mem, s.tick, id);
    hide Books;
  }

  lemma RequestOnSession(c: Config, id: Uuid, n: Node, s: Step)
    requires Books(n) && Enabled(c, n, s) && s.Request? && LeavesAlone(s, id)
    ensures var n' := Next(c, n, s);
            && RungFor(n, s, id) == [] && n'.disk == Saved(n'.mem) && Lookup(n'.mem, id) == Lookup(n.mem, id)
  {
    BooksGiveTable(n);
    OthersLeaveAlone(n.mem, s.e, id);
    hide Apply, Saved, QueueAfter, DrawsFresh, Books;
  }

  lemma ArmOnSession(c: Config, id: Uuid, n: Node, s: Step)
    requires Books(n) && Enabled(c, n, s) && s.ArmAndStart? && LeavesAlone(s, id)
    ensures var n' := Next(c, n, s);
            n'.disk == Saved(n'.mem) && Lookup(n'.mem, id) == Lookup(n.mem, id)
  {
    BooksGiveTable(n);
    ApplyKeepsTable(n.mem, s.arm);
    OthersLeaveAlone(n.mem, s.arm, id);
    OthersLeaveAlone(Apply(n.mem, s.arm).0, s.start, id);
    hide Apply, Saved, QueueAfter, DrawsFresh, Books;
  }

  /** Any other step but a restart takes the session along, forgets it, or saves it. */
  lemma QuietOnSession(c: Config, id: Uuid, n: Node, s: Step)
    requires Enabled(c, n, s) && !s.Timer? && !s.Request? && !s.ArmAndStart? && !s.Restart?
    ensures var n' := Next(c, n, s);
            && (id in n'.mem ==> id in n.mem && n'.mem[id] == n.mem[id])
            && (n'.disk == n.disk || (id in n'.disk ==> id in n.mem && n'.disk[id] == n.mem[id].Persisted()))
  {
    hide Apply, QueueAfter, DrawsFresh, Resumed;
  }

  lemma RestartOnSession(c: Config, id: Uuid, n: Node, s: Step)
    requires Enabled(c, n, s) && s.Restart?
    ensures var n' := Next(c, n, s);
            && SaneWall(s.now) && n'.disk == Saved(n'.mem)
            && (id in n'.mem ==> id in n.disk && n'.mem[id] == n.disk[id].RecoverLiveTiming(0, s.now))
  {
    hide Apply, QueueAfter, DrawsFresh, Saved;
  }

  // ----- a settling burst -----

  lemma RestingTicks(s: Session, x: Session, rung: bool, tick: Event)
    requires Rests(s, x, rung) && tick.Tick?
    ensures React(x, tick) == (x, None) && !x.DueAt(tick.mono)
  {
    hide React;
    ReactCases(x, tick);
  }

  /** What a tick makes of the session. */
  ghost predicate Ticks(b: Burst, tick: Event, b': Burst)
    requires tick.Tick?
  {
    && b'.origin == b.origin
    && (b.mem.None? ==>
          b'.mem == None && b'.lapsed == b.lapsed && b'.rings == b.rings && (b'.disk == b.disk || b'.disk == None))
    && (b.mem.Some? ==>
          var (x', ring) := React(b.mem.value, tick);
          && b'.mem == Some(x') && b'.lapsed == (b.lapsed || b.mem.value.DueAt(tick.mono))
          && b'.rings == b.rings + Dated(AtMostOne(ring), b.origin + tick.mono)
          && (b'.disk == Some(x'.Persisted()) || (b'.disk == b.disk && ring == None)))
  }

  lemma TicksKeep(s: Session, b: Burst, tick: Event, b': Burst)
    requires s.Valid() && s.state == Settling && Carried(s, b) && tick.Tick? && Ticks(b, tick, b')
    ensures Carried(s, b')
  {
    hide React, Waiting, Rests;
    if b.mem.Some? {
      var x := b.mem.value;
      if Waiting(s, x, b.origin) {
        WaitingIsSaved(s, x, b.origin);
      }
      if Rests(s, x, b.rings != []) {
        RestingTicks(s, x, b.rings != [], tick);
        RestsIsSaved(s, x, b.rings != []);
      } else {
        WaitingTicks(s, x, b.origin, tick);
        if x.DueAt(tick.mono) {
          RestsIsSaved(s, b'.mem.value, Qualifies(s));
        }
      }
    }
  }

  /** The session is taken along, forgotten or saved. */
  ghost predicate Stays(b: Burst, b': Burst) {
    && b'.origin == b.origin && b'.lapsed == b.lapsed && b'.rings == b.rings
    && (b'.mem == b.mem || b'.mem == None)
    && (b'.disk == b.disk || b'.disk == None || (b.mem.Some? && b'.disk == Some(b.mem.value.Persisted())))
  }

  lemma StaysKeep(s: Session, b: Burst, b': Burst)
    requires s.deadlineWall.Some? && Carried(s, b) && Stays(b, b')
    ensures Carried(s, b')
  {
    hide Waiting, Rests;
    if b.mem.Some? {
      if Waiting(s, b.mem.value, b.origin) {
        WaitingIsSaved(s, b.mem.value, b.origin);
      }
      if Rests(s, b.mem.value, b.rings != []) {
        RestsIsSaved(s, b.mem.value, b.rings != []);
      }
    }
  }

  /** The session is read back from disk, or is not. */
  ghost predicate Reloads(b: Burst, now: I64, b': Burst) {
    && b'.origin == now && b'.lapsed == b.lapsed && b'.rings == b.rings
    && (b'.mem == None || (b.disk.Some? && b'.mem == Some(b.disk.value.RecoverLiveTiming(0, now))))
    && b'.disk == if b'.mem.None? then None else Some(b'.mem.value.Persisted())
  }

  lemma ReloadsKeep(s: Session, b: Burst, now: I64, b': Burst)
    requires s.Valid() && s.state == Settling && Carried(s, b) && SaneWall(now) && Reloads(b, now, b')
    ensures Carried(s, b')
  {
    hide Waiting, Rests;
    if b.disk.Some? && b'.mem.Some? {
      if b.disk.value == s.Persisted() {
        WaitingRecovers(s, now);
        WaitingIsSaved(s, b'.mem.value, now);
      }
      if Rests(s, b.disk.value, b.rings != []) {
        RestsIsSaved(s, b.disk.value, b.rings != []);
      }
    }
  }

  lemma NoneDated(rings: seq<(Action, int)>, time: int)
    ensures rings + Dated([], time) == rings
  {
  }

  lemma TimerOnBurst(c: Config, id: Uuid, st: Story, s: Step)
    requires Books(st.node) && Enabled(c, st.node, s) && s.Timer?
    ensures s.tick.Tick? && Ticks(BurstOf(st, id), s.tick, BurstOf(Told(c, id, st, s), id))
  {
    hide Enabled, Next, Books, React, Saved, RungFor, Session.DueAt, Ticks, Dated;
    TimerOnSession(c, id, st.node, s);
    TickSeen(id, st.node, Next(c, st.node, s), s.tick, RungFor(st.node, s, id), BurstOf(st, id), BurstOf(Told(c, id, st, s), id));
  }

  lemma TickSeen(id: Uuid, n: Node, n': Node, tick: Event, made: seq<Action>, b: Burst, b': Burst)
    requires tick.Tick? && (id in n'.mem <==> id in n.mem) && (id in n.mem ==> n'.mem[id] == React(n.mem[id], tick).0)
    requires made == if id in n.mem then AtMostOne(React(n.mem[id], tick).1) else []
    requires n'.disk == Saved(n'.mem) || (n'.disk == n.disk && made == [])
    requires b.mem == Lookup(n.mem, id) && b.disk == Lookup(n.disk, id)
    requires b'.mem == Lookup(n'.mem, id) && b'.disk == Lookup(n'.disk, id) && b'.origin == b.origin
    requires b'.lapsed == (b.lapsed || (id in n.mem && n.mem[id].DueAt(tick.mono)))
    requires b'.rings == b.rings + Dated(made, b.origin + tick.mono)
    ensures Ticks(b, tick, b')
  {
    hide React, Saved, Session.DueAt, Session.Persisted;
    NoneDated(b.rings, b.origin + tick.mono);
    SavedSession(n'.mem, id);
  }

  lemma RestartOnBurst(c: Config, id: Uuid, st: Story, s: Step)
    requires Enabled(c, st.node, s) && s.Restart?
    ensures SaneWall(s.now) && Reloads(BurstOf(st, id), s.now, BurstOf(Told(c, id, st, s), id))
  {
    RestartOnSession(c, id, st.node, s);
    hide Enabled, Next, Saved, Session.Persisted, Session.RecoverLiveTiming;
    NoneDated(st.rings, st.origin + MonoOf(s));
    SavedSession(Next(c, st.node, s).mem, id);
  }

  lemma OtherOnBurst(c: Config, id: Uuid, st: Story, s: Step)
    requires Books(st.node) && Enabled(c, st.node, s) && LeavesAlone(s, id) && !s.Timer? && !s.Restart?
    ensures Stays(BurstOf(st, id), BurstOf(Told(c, id, st, s), id))
  {
    hide Enabled, Next, Books, Saved, Session.Persisted;
    NoneDated(st.rings, st.origin + MonoOf(s));
    SavedSession(Next(c, st.node, s).mem, id);
    if s.Request? {
      RequestOnSession(c, id, st.node, s);
    } else if s.ArmAndStart? {
      ArmOnSession(c, id, st.node, s);
    } else {
      QuietOnSession(c, id, st.node, s);
    }
  }

  /** A settling session and its saved copy, with the clocks in step. */
  ghost predicate Begins(c: Config, id: Uuid, s: Session, st: Story) {
    && Books(st.node) && s.Valid() && s.state == Settling && s.id == id
    && Lookup(st.node.mem, id) == Some(s) && (id in st.node.disk ==> st.node.disk[id] == s.Persisted())
    && st.origin == s.deadlineWall.value - s.deadlineMono.value && !st.lapsed && st.rings == []
  }

  /**
   Over every run of the daemon that leaves the session alone, through ticks, commits for other sessions, sweeps,
   crashes, orderly stops and restarts: until a tick finds it due, a settling burst keeps its accumulated time, mode and
   notified flag, with what is left to its wall deadline as its delay; it rings exactly if a tick finds it due and it
   qualifies, once, and no earlier than that deadline; and then it is over, in memory and on disk. A burst that does not
   qualify is forgotten in memory, and found again after a restart if nothing was saved in between.
   */
  lemma {:induction false} RestartPreservesTimer(c: Config, id: Uuid, s: Session, first: Story, steps: seq<Step>, last: Story)
    requires Begins(c, id, s, first) && Unfolds(c, id, first, steps, last)
    ensures Books(last.node) && Carried(s, BurstOf(last, id))
  {
    if steps == [] {
    } else {
      hide Books, Carried, Enabled, Next, LeavesAlone, Begins;
      var rest, step := steps[..|steps| - 1], steps[|steps| - 1];
      var before :|
        Unfolds(c, id, first, rest, before) && Enabled(c, before.node, step) && LeavesAlone(step, id)
        && last == Told(c, id, before, step);
      RestartPreservesTimer(c, id, s, first, rest, before);
      BooksKept(c, before.node, step);
      BeginsSettling(c, id, s, first);
      CarriedOn(c, id, s, before, step);
    }
  }

  lemma BeginsSettling(c: Config, id: Uuid, s: Session, first: Story)
    requires Begins(c, id, s, first)
    ensures s.Valid() && s.state == Settling
  {
  }

  lemma CarriedOn(c: Config, id: Uuid, s: Session, st: Story, step: Step)
    requires s.Valid() && s.state == Settling && Carried(s, BurstOf(st, id))
    requires Books(st.node) && Enabled(c, st.node, step) && LeavesAlone(step, id)
    ensures Carried(s, BurstOf(Told(c, id, st, step), id))
  {
    hide Books, Carried, Enabled, Next, LeavesAlone, Ticks, Stays, Reloads, Told;
    var b, b' := BurstOf(st, id), BurstOf(Told(c, id, st, step), id);
    if step.Timer? {
      TimerOnBurst(c, id, st, step);
      TicksKeep(s, b, step.tick, b');
    } else if step.Restart? {
      RestartOnBurst(c, id, st, step);
      ReloadsKeep(s, b, step.now, b');
    } else {
      OtherOnBurst(c, id, st, step);
      StaysKeep(s, b, b');
    }
  }

  // ----- which sessions a restart finds -----

  /**
   A restart resumes exactly the saved sessions whose shell is alive and which were seen within a day, and a settling one
   with what is left to its wall deadline as its delay.
   */
  lemma RestartResumesBurst(c: Config, n: Node, alive: set<Uuid>, now: I64, id: Uuid)
    requires Books(n) && Enabled(c, n, Restart(alive, now))
    ensures var m := Next(c, n, Restart(alive, now)).mem;
            && (id in m <==> id in n.disk && id in alive && now - n.disk[id].lastSeen <= 86_400_000)
            && (id in m && n.disk[id].state == Settling ==>
                  && n.disk[id].deadlineWall.Some? && m[id].deadlineMono == Some(Max(0, n.disk[id].deadlineWall.value - now))
                  && m[id] == n.disk[id].(deadlineMono := m[id].deadlineMono))
  {
    hide Saved;
    SettlingOnDisk(n, id);
    hide Books;
  }

  lemma SettlingOnDisk(n: Node, id: Uuid)
    requires Books(n)
    ensures id in n.disk && n.disk[id].state == Settling ==>
              n.disk[id].deadlineWall.Some? && n.disk[id].commandStarted == None && n.disk[id].deadlineMono == None
  {
  }

  /** Sweeps and restarts find the session's shell alive and the session seen within a day. */
  predicate FindsAlive(s: Step, id: Uuid, seen: I64) {
    match s
    case Sweep(alive, now) => id in alive && now - 86_400_000 <= seen
    case Restart(alive, now) => id in alive && now - seen <= 86_400_000
    case _ => true
  }

  /** The session is on disk, and in memory while the daemon is up, last seen at this time. */
  ghost predicate Present(n: Node, id: Uuid, seen: I64) {
    && id in n.disk && n.disk[id].lastSeen == seen
    && (n.up ==> id in n.mem && n.mem[id].lastSeen == seen)
  }

  lemma OtherStepFinds(c: Config, id: Uuid, n: Node, s: Step, seen: I64)
    requires Enabled(c, n, s) && !s.Timer? && !s.Request? && !s.ArmAndStart? && !s.Restart?
    requires Present(n, id, seen) && FindsAlive(s, id, seen)
    ensures var n' := Next(c, n, s); id in n'.disk && (n'.up ==> id in n'.mem)
  {
    hide Apply, QueueAfter, DrawsFresh, Resumed;
  }

  lemma StepFinds(c: Config, id: Uuid, n: Node, s: Step, seen: I64)
    requires Books(n) && Enabled(c, n, s) && LeavesAlone(s, id) && Present(n, id, seen) && FindsAlive(s, id, seen)
    ensures var n' := Next(c, n, s); id in n'.disk && (n'.up ==> id in n'.mem)
  {
    var n' := Next(c, n, s);
    UpForOthers(c, n, s);
    if s.Timer? {
      TimerOnSession(c, id, n, s);
    } else if s.Request? {
      RequestOnSession(c, id, n, s);
    } else if s.ArmAndStart? {
      ArmOnSession(c, id, n, s);
    } else if s.Restart? {
      RestartResumesBurst(c, n, s.alive, s.now, id);
      RestartOnSession(c, id, n, s);
    } else {
      OtherStepFinds(c, id, n, s, seen);
    }
    hide Enabled, Next, Books, Apply, Saved, QueueAfter, DrawsFresh, Resumed, React;
    SavedSession(n'.mem, id);
  }

  lemma UpForOthers(c: Config, n: Node, s: Step)
    requires Enabled(c, n, s)
    ensures s.Timer? || s.Request? || s.ArmAndStart? ==> n.up
  {
  }

  /**
   If sweeps and restarts find the session's shell alive and the session seen within a day, its settling burst survives:
   until a tick finds it due, it is on disk, and whenever the daemon is up in memory, settling, with what is left to its
   wall deadline as its delay.
   */
  lemma {:induction false} BurstSurvives(c: Config, id: Uuid, s: Session, first: Story, steps: seq<Step>, last: Story)
    requires Begins(c, id, s, first) && id in first.node.disk && Unfolds(c, id, first, steps, last)
    requires forall x :: x in steps ==> FindsAlive(x, id, s.lastSeen)
    ensures !last.lapsed && last.node.up ==>
              && id in last.node.mem && s.deadlineWall.Some?
              && last.node.mem[id].deadlineMono == Some(Max(0, s.deadlineWall.value - last.origin))
              && last.node.mem[id] == s.(deadlineMono := last.node.mem[id].deadlineMono)
    ensures !last.lapsed ==> Present(last.node, id, s.lastSeen)
  {
    RestartPreservesTimer(c, id, s, first, steps, last);
    BeginsInMemory(c, id, s, first);
    hide Books, Enabled, Next, Begins, Carried, LeavesAlone, FindsAlive;
    if steps == [] {
    } else {
      var rest, step := steps[..|steps| - 1], steps[|steps| - 1];
      var before :|
        Unfolds(c, id, first, rest, before) && Enabled(c, before.node, step) && LeavesAlone(step, id)
        && last == Told(c, id, before, step);
      BurstSurvives(c, id, s, first, rest, before);
      RestartPreservesTimer(c, id, s, first, rest, before);
      hide Unfolds, Present;
      if !last.lapsed {
        StepFinds(c, id, before.node, step, s.lastSeen);
      }
    }
    hide *;
    StillWaiting(s, last, id);
  }

  lemma BeginsInMemory(c: Config, id: Uuid, s: Session, first: Story)
    requires Begins(c, id, s, first)
    ensures s.deadlineWall.Some? && id in first.node.mem && first.node.mem[id] == s
  {
    hide Books;
  }

  lemma StillWaiting(s: Session, st: Story, id: Uuid)
    requires s.deadlineWall.Some? && Carried(s, BurstOf(st, id))
    requires !st.lapsed ==> id in st.node.disk && (st.node.up ==> id in st.node.mem)
    ensures !st.lapsed ==> Present(st.node, id, s.lastSeen)
    ensures !st.lapsed && st.node.up ==>
              && st.node.mem[id].deadlineMono == Some(Max(0, s.deadlineWall.value - st.origin))
              && st.node.mem[id] == s.(deadlineMono := st.node.mem[id].deadlineMono)
  {
  }

  /** The return to the prompt that ends a burst's last command starts such a story. */
  lemma PromptBegins(c: Config, n: Node, e: Event, q': Queue)
    requires Books(n) && Enabled(c, n, Request(e, q')) && e.Prompt? && n.mem[e.id].state == Active
    requires SaneWall(e.wall) && n.mem[e.id].idleFor <= 604_800_000 && e.mono + n.mem[e.id].idleFor <= U64_MAX
    ensures var n' := Next(c, n, Request(e, q'));
            && e.id in n'.mem && Begins(c, e.id, n'.mem[e.id], Story(n', e.wall - e.mono, 0, false, []))
            && e.id in n'.disk
  {
    hide QueueAfter, DrawsFresh, Saved, Books, Apply;
    BooksKept(c, n, Request(e, q'));
    BooksGiveTable(n);
    PromptSettles(c, n, e, q');
    hide Enabled, Next;
    var n' := Next(c, n, Request(e, q'));
    BooksGiveTable(n');
    SavedSession(n'.mem, e.id);
  }

  lemma PromptSettles(c: Config, n: Node, e: Event, q': Queue)
    requires ValidTable(n.mem) && Enabled(c, n, Request(e, q')) && e.Prompt? && n.mem[e.id].state == Active
    requires SaneWall(e.wall) && n.mem[e.id].idleFor <= 604_800_000 && e.mono + n.mem[e.id].idleFor <= U64_MAX
    ensures var n' := Next(c, n, Request(e, q'));
            && e.id in n'.mem && n'.disk == Saved(n'.mem)
            && var s := n'.mem[e.id];
            && s.state == Settling && s.deadlineMono.Some? && s.deadlineWall.Some?
            && s.deadlineWall.value - s.deadlineMono.value == e.wall - e.mono
  {
    hide QueueAfter, DrawsFresh, Saved;
  }

  // ----- an active burst -----

  /** What holds of a burst whose command was running, whatever happens around it. */
  ghost predicate Discarded(s: Session, b: Burst, restarted: bool) {
    && b.rings == []
    && (b.mem.Some? ==> (b.mem.value == s && !restarted) || Rests(s, b.mem.value, false))
    && (b.disk.Some? ==> b.disk.value == s.Persisted() || Rests(s, b.disk.value, false))
  }

  lemma ActiveTicks(s: Session, b: Burst, tick: Event, b': Burst, restarted: bool)
    requires s.Valid() && s.state == Active && Discarded(s, b, restarted) && tick.Tick? && Ticks(b, tick, b')
    ensures Discarded(s, b', restarted)
  {
    hide React;
    if b.mem.Some? {
      ReactCases(b.mem.value, tick);
    }
  }

  lemma ActiveStays(s: Session, b: Burst, b': Burst, restarted: bool)
    requires s.state == Active && Discarded(s, b, restarted) && Stays(b, b')
    ensures Discarded(s, b', restarted)
  {
  }

  lemma ActiveReloads(s: Session, b: Burst, now: I64, b': Burst, restarted: bool)
    requires s.Valid() && s.state == Active && Discarded(s, b, restarted) && Reloads(b, now, b')
    ensures Discarded(s, b', true)
  {
  }

  lemma DiscardedOn(c: Config, id: Uuid, s: Session, st: Story, step: Step)
    requires s.Valid() && s.state == Active && Discarded(s, BurstOf(st, id), st.restarts > 0)
    requires Books(st.node) && Enabled(c, st.node, step) && LeavesAlone(step, id)
    ensures Discarded(s, BurstOf(Told(c, id, st, step), id), Told(c, id, st, step).restarts > 0)
  {
    hide Books, Discarded, Enabled, Next, LeavesAlone, Ticks, Stays, Reloads;
    var b, st' := BurstOf(st, id), Told(c, id, st, step);
    if step.Timer? {
      TimerOnBurst(c, id, st, step);
      ActiveTicks(s, b, step.tick, BurstOf(st', id), st.restarts > 0);
    } else if step.Restart? {
      RestartOnBurst(c, id, st, step);
      ActiveReloads(s, b, step.now, BurstOf(st', id), st.restarts > 0);
    } else {
      OtherOnBurst(c, id, st, step);
      ActiveStays(s, b, BurstOf(st', id), st.restarts > 0);
    }
  }

  /**
   Over every such run, a burst whose command is running never rings; and once the daemon has been restarted, a session
   that was resumed has forgotten it and is armed as before.
   */
  lemma {:induction false} RestartDiscardsActiveBurst(c: Config, id: Uuid, s: Session, first: Story, steps: seq<Step>, last: Story)
    requires Books(first.node) && s.Valid() && s.state == Active && first.rings == [] && first.restarts == 0
    requires Lookup(first.node.mem, id) == Some(s) && (id in first.node.disk ==> first.node.disk[id] == s.Persisted())
    requires Unfolds(c, id, first, steps, last)
    ensures Books(last.node) && last.rings == []
    ensures Discarded(s, BurstOf(last, id), last.restarts > 0)
    ensures last.restarts > 0 && id in last.node.mem ==> Rests(s, last.node.mem[id], false)
  {
    if steps == [] {
    } else {
      hide Books, Enabled, Next, LeavesAlone, Session.Valid, Rests, Told;
      var rest, step := steps[..|steps| - 1], steps[|steps| - 1];
      var before :|
        Unfolds(c, id, first, rest, before) && Enabled(c, before.node, step) && LeavesAlone(step, id)
        && last == Told(c, id, before, step);
      RestartDiscardsActiveBurst(c, id, s, first, rest, before);
      TellsNext(c, id, before, step);
      BooksKept(c, before.node, step);
      DiscardedOn(c, id, s, before, step);
    }
  }

  lemma TellsNext(c: Config, id: Uuid, st: Story, s: Step)
    requires Enabled(c, st.node, s)
    ensures Told(c, id, st, s).node == Next(c, st.node, s)
  {
    hide Next;
  }
}
