/**
 The per-shell activity state machine and the engine that holds one machine per session.
 Random identifiers and both clock readings are arguments of the operations.
 */
module Activity {
  import opened Types

  datatype ShellType = Bash | Zsh | Fish

  datatype Mode = Off | Persistent | Once

  datatype SessionState = Disarmed | Armed | Active | Settling | Notified

  datatype Session = Session(
    id: Uuid,
    shellPid: U32,
    shellType: ShellType,
    tty: Option<string>,
    mode: Mode,
    state: SessionState,
    burstId: Option<Uuid>,
    accumulated: U64,
    commandStarted: Option<U64>,
    deadlineMono: Option<U64>,
    deadlineWall: Option<I64>,
    burstNotified: bool,
    title: Option<string>,
    targets: seq<string>,
    minimumActive: U64,
    idleFor: U64,
    lastSeen: I64)
  {
    function DisplayedActive(nowMono: U64): U64 {
      SatAddU64(accumulated, if commandStarted.Some? then SatSubU64(nowMono, commandStarted.value) else 0)
    }

    function ResetBurst(): Session {
      this.(burstId := None, accumulated := 0, commandStarted := None,
            deadlineMono := None, deadlineWall := None, burstNotified := false)
    }

    function ResetAfterBurst(): Session {
      var s := ResetBurst();
      s.(state := if s.mode == Off then Disarmed else Armed)
    }

    /** What a restarted daemon does with a session read back from disk. */
    function RecoverLiveTiming(nowMono: U64, nowWall: I64): Session {
      var s := this.(commandStarted := None, deadlineMono := None);
      match s.state
      case Active => s.ResetAfterBurst()
      case Notified => s.ResetAfterBurst()
      case Settling =>
        if s.deadlineWall.Some? then
          var remaining := SatSubI64(s.deadlineWall.value, nowWall);
          s.(deadlineMono := Some(SatAddU64(nowMono, ToU64(remaining))))
        else
          s.ResetAfterBurst()
      case Disarmed => s
      case Armed => s
    }

    /** What is kept on disk: the fields holding monotonic clock readings are skipped. */
    function Persisted(): Session {
      this.(commandStarted := None, deadlineMono := None)
    }

    predicate DueAt(nowMono: U64) {
      state == Settling && deadlineMono.Some? && deadlineMono.value <= nowMono
    }

    /** A manual ring belongs to the live burst, if there is one. */
    predicate Associated() {
      burstId.Some? && (state == Active || state == Settling)
    }

    /** The shape every session has between two engine operations. */
    ghost predicate Valid() {
      && state != Notified
      && (mode == Off <==> state == Disarmed)
      && (state == Disarmed || state == Armed ==> this == ResetBurst())
      && (state == Active ==> burstId.Some? && commandStarted.Some? && deadlineMono == None && deadlineWall == None)
      && (state == Settling ==> burstId.Some? && commandStarted == None && deadlineMono.Some? && deadlineWall.Some?)
      && (mode == Once ==> !burstNotified)
    }
  }

  function NewSession(id: Uuid, shellPid: U32, shellType: ShellType, tty: Option<string>,
                      minimumActive: U64, idleFor: U64, targets: seq<string>, nowWall: I64): Session {
    Session(id, shellPid, shellType, tty, Off, Disarmed, None, 0, None, None, None, false, None,
            targets, minimumActive, idleFor, nowWall)
  }

  datatype Action = Action(
    eventId: Uuid,
    sessionId: Option<Uuid>,
    message: Option<string>,
    targets: seq<string>,
    automatic: bool,
    activeDuration: Option<U64>)

  type Sessions = map<Uuid, Session>

  /** One call of the engine, with the clock readings and random identifiers it used. */
  datatype Event =
    | Open(id: Uuid, shellPid: U32, shellType: ShellType, tty: Option<string>,
           minimumActive: U64, idleFor: U64, targets: seq<string>, wall: I64)
    | Close(id: Uuid)
    | Arm(id: Uuid, mode: Mode, minimumActive: U64, idleFor: U64, targets: seq<string>, wall: I64)
    | Disarm(id: Uuid, wall: I64)
    | SetLabel(id: Uuid, title: Option<string>, wall: I64)
    | Start(id: Uuid, burst: Uuid, mono: U64, wall: I64)
    | Prompt(id: Uuid, mono: U64, wall: I64)
    | Manual(session: Option<Uuid>, event: Uuid, message: Option<string>, targets: seq<string>, mono: U64, wall: I64)
    | Tick(events: Uuid -> Uuid, mono: U64, wall: I64)
    | Cleanup(cutoff: I64)

  // ----- what one event does to one session -----

  function OnOpen(s: Session, e: Event): Session
    requires e.Open?
  {
    s.(shellPid := e.shellPid, shellType := e.shellType, tty := e.tty, lastSeen := e.wall)
  }

  function OnArm(s: Session, e: Event): Session
    requires e.Arm?
  {
    s.(mode := e.mode, minimumActive := e.minimumActive, idleFor := e.idleFor,
       targets := e.targets, lastSeen := e.wall).ResetBurst().(state := Armed)
  }

  function OnDisarm(s: Session, wall: I64): Session {
    s.(mode := Off, state := Disarmed, lastSeen := wall).ResetBurst()
  }

  function OnStart(s: Session, burst: Uuid, mono: U64, wall: I64): Session {
    var s := s.(lastSeen := wall);
    match s.state
    case Armed =>
      s.(burstId := Some(burst), accumulated := 0, burstNotified := false,
         commandStarted := Some(mono), state := Active)
    case Settling =>
      s.(deadlineMono := None, deadlineWall := None, commandStarted := Some(mono), state := Active)
    case Disarmed => s
    case Active => s
    case Notified => s
  }

  function OnPrompt(s: Session, mono: U64, wall: I64): Session {
    var s := s.(lastSeen := wall);
    if s.state != Active then s else
      s.(accumulated := if s.commandStarted.Some?
                        then SatAddU64(s.accumulated, SatSubU64(mono, s.commandStarted.value))
                        else s.accumulated,
         commandStarted := None,
         state := Settling,
         deadlineMono := Some(SatAddU64(mono, s.idleFor)),
         deadlineWall := Some(SatAddI64(wall, ToI64(s.idleFor))))
  }

  function OnManual(s: Session, e: Event): (Session, Option<Action>)
    requires e.Manual?
  {
    var s := s.(lastSeen := e.wall);
    if s.Associated() && s.burstNotified then (s, None) else
      var action := Action(e.event, Some(s.id), e.message, e.targets, false,
                           if s.Associated() then Some(s.DisplayedActive(e.mono)) else None);
      var s' :=
        if !s.Associated() then s
        else if s.mode == Once then s.(mode := Off, state := Disarmed).ResetBurst()
        else s.(burstNotified := true);
      (s', Some(action))
  }

  function ReadyMessage(title: Option<string>): string {
    if title.Some? && title.value != "" then title.value + " is ready" else "Shell is ready"
  }

  function OnTick(s: Session, event: Uuid, mono: U64, wall: I64): (Session, Option<Action>) {
    if !s.DueAt(mono) then (s, None) else
      var s := s.(lastSeen := wall);
      if s.accumulated >= s.minimumActive && !s.burstNotified then
        var action := Action(event, Some(s.id), Some(ReadyMessage(s.title)), s.targets, true, Some(s.accumulated));
        (s.(burstNotified := true, mode := if s.mode == Once then Off else s.mode).ResetAfterBurst(), Some(action))
      else
        (s.ResetAfterBurst(), None)
  }

  /** The effect of an event on a session that stays registered, and the ring it produces. */
  function React(s: Session, e: Event): (Session, Option<Action>) {
    match e
    case Open(_, _, _, _, _, _, _, _) => (OnOpen(s, e), None)
    case Arm(_, _, _, _, _, _) => (OnArm(s, e), None)
    case Disarm(_, wall) => (OnDisarm(s, wall), None)
    case SetLabel(_, title, wall) => (s.(title := title, lastSeen := wall), None)
    case Start(_, burst, mono, wall) => (OnStart(s, burst, mono, wall), None)
    case Prompt(_, mono, wall) => (OnPrompt(s, mono, wall), None)
    case Manual(_, _, _, _, _, _) => OnManual(s, e)
    case Tick(events, mono, wall) => OnTick(s, events(s.id), mono, wall)
    case Close(_) => (s, None)
    case Cleanup(_) => (s, None)
  }

  lemma ReactCases(s: Session, e: Event)
    ensures e.Open? ==> React(s, e) == (OnOpen(s, e), None)
    ensures e.Arm? ==> React(s, e) == (OnArm(s, e), None)
    ensures e.Disarm? ==> React(s, e) == (OnDisarm(s, e.wall), None)
    ensures e.SetLabel? ==> React(s, e) == (s.(title := e.title, lastSeen := e.wall), None)
    ensures e.Start? ==> React(s, e) == (OnStart(s, e.burst, e.mono, e.wall), None)
    ensures e.Prompt? ==> React(s, e) == (OnPrompt(s, e.mono, e.wall), None)
    ensures e.Manual? ==> React(s, e) == OnManual(s, e)
    ensures e.Tick? ==> React(s, e) == OnTick(s, e.events(s.id), e.mono, e.wall)
    ensures e.Close? || e.Cleanup? ==> React(s, e) == (s, None)
  {
  }

  // ----- what one event does to the whole table -----

  /** The session table is an ordered map: its keys are visited in increasing order. */
  function Least(s: set<Uuid>): (least: Uuid)
    requires s != {}
    ensures least in s && forall x :: x in s ==> least <= x
  {
    var some :| some in s;
    LeastExists(s, some);
    var least :| least in s && forall x :: x in s ==> least <= x;
    least
  }

  lemma {:induction false} LeastExists(s: set<Uuid>, some: Uuid)
    requires some in s
    ensures exists least :: least in s && forall x :: x in s ==> least <= x
    decreases some
  {
    if below :| below in s && below < some {
      LeastExists(s, below);
    }
  }

  function Ascending(s: set<Uuid>): (ids: seq<Uuid>)
    ensures forall x :: x in ids <==> x in s
    ensures forall i, j :: 0 <= i < j < |ids| ==> ids[i] < ids[j]
    decreases |s|
  {
    if s == {} then [] else
      var least := Least(s);
      [least] + Ascending(s - {least})
  }

  /** The sessions whose settling deadline has passed, in table order. */
  function DueIds(m: Sessions, mono: U64): (ids: seq<Uuid>)
    ensures forall id :: id in ids <==> id in m && m[id].DueAt(mono)
    ensures forall i, j :: 0 <= i < j < |ids| ==> ids[i] < ids[j]
  {
    Ascending(set id | id in m && m[id].DueAt(mono))
  }

  /** The rings a tick produces for the listed sessions, in that order. */
  function TickRings(m: Sessions, ids: seq<Uuid>, e: Event): seq<Action>
    requires e.Tick?
    requires forall id :: id in ids ==> id in m
  {
    if ids == [] then [] else
      var last := ids[|ids| - 1];
      var ring := React(m[last], e).1;
      TickRings(m, ids[..|ids| - 1], e) + (if ring.Some? then [ring.value] else [])
  }

  /** The session an event is addressed to; ticks and cleanups are addressed to all of them. */
  function Addressee(e: Event): Option<Uuid> {
    match e
    case Manual(session, _, _, _, _, _) => session
    case Tick(_, _, _) => None
    case Cleanup(_) => None
    case _ => Some(e.id)
  }

  function Apply(m: Sessions, e: Event): (Sessions, seq<Action>) {
    match e
    case Tick(_, mono, _) =>
      (map id | id in m :: React(m[id], e).0, TickRings(m, DueIds(m, mono), e))
    case Cleanup(cutoff) =>
      (map id | id in m && m[id].lastSeen >= cutoff :: m[id], [])
    case Close(id) => (m - {id}, [])
    case Open(id, shellPid, shellType, tty, minimumActive, idleFor, targets, wall) =>
      if id in m then (m[id := React(m[id], e).0], [])
      else (m[id := NewSession(id, shellPid, shellType, tty, minimumActive, idleFor, targets, wall)], [])
    case Manual(session, event, message, targets, _, _) =>
      if session.None? || session.value !in m then
        (m, [Action(event, session, message, targets, false, None)])
      else
        var (s, ring) := React(m[session.value], e);
        (m[session.value := s], if ring.Some? then [ring.value] else [])
    case _ =>
      if e.id in m then (m[e.id := React(m[e.id], e).0], []) else (m, [])
  }

  /** The table after a history of events, and the rings emitted along the way. */
  ghost function After(m: Sessions, h: seq<Event>): Sessions {
    if h == [] then m else Apply(After(m, h[..|h| - 1]), h[|h| - 1]).0
  }

  ghost function Emitted(m: Sessions, h: seq<Event>): seq<Action> {
    if h == [] then [] else
      Emitted(m, h[..|h| - 1]) + Apply(After(m, h[..|h| - 1]), h[|h| - 1]).1
  }

  /** Part way through a tick: the first `n` due sessions have been dealt with, the others not. */
  ghost predicate PartlyTicked(before: Sessions, m: Sessions, rings: seq<Action>, due: seq<Uuid>, n: nat, e: Event)
    requires e.Tick? && n <= |due|
    requires forall id :: id in due ==> id in before
  {
    && m.Keys == before.Keys
    && (forall id :: id in before && id !in due ==> m[id] == before[id])
    && (forall k :: 0 <= k < n ==> m[due[k]] == React(before[due[k]], e).0)
    && (forall k :: n <= k < |due| ==> m[due[k]] == before[due[k]])
    && rings == TickRings(before, due[..n], e)
  }

  lemma NoneTicked(m: Sessions, due: seq<Uuid>, e: Event)
    requires e.Tick? && forall id :: id in due ==> id in m
    ensures PartlyTicked(m, m, [], due, 0, e)
  {
  }

  lemma TickedOne(before: Sessions, m: Sessions, rings: seq<Action>, due: seq<Uuid>, n: nat, e: Event)
    requires e.Tick? && n < |due|
    requires forall id :: id in due ==> id in before
    requires forall i, j :: 0 <= i < j < |due| ==> due[i] < due[j]
    requires PartlyTicked(before, m, rings, due, n, e)
    ensures due[n] in m && m[due[n]] == before[due[n]]
    ensures var (s, ring) := React(before[due[n]], e);
            PartlyTicked(before, m[due[n] := s], if ring.Some? then rings + [ring.value] else rings, due, n + 1, e)
  {
    hide React;
    assert due[..n + 1][..n] == due[..n];
  }

  lemma TickedAll(before: Sessions, m: Sessions, rings: seq<Action>, e: Event)
    requires ValidTable(before) && e.Tick?
    requires PartlyTicked(before, m, rings, DueIds(before, e.mono), |DueIds(before, e.mono)|, e)
    ensures (m, rings) == Apply(before, e)
  {
    hide React;
    var due := DueIds(before, e.mono);
    assert due[..|due|] == due;
    forall id | id in before ensures m[id] == React(before[id], e).0 {
      if id in due {
        var k :| 0 <= k < |due| && due[k] == id;
      } else {
        ReactCases(before[id], e);
      }
    }
    assert m == Apply(before, e).0;
  }

  // ----- the shape of the table is kept -----

  /** `arm` is only called with a mode that can ring. */
  predicate Proper(e: Event) { e.Arm? ==> e.mode != Off }

  ghost predicate ValidTable(m: Sessions) {
    forall id :: id in m ==> m[id].Valid() && m[id].id == id
  }

  lemma ReactKeepsValid(s: Session, e: Event)
    requires s.Valid() && Proper(e)
    ensures React(s, e).0.Valid() && React(s, e).0.id == s.id
  {
    hide React;
    ReactCases(s, e);
  }

  lemma RecoveryRepairs(s: Session, nowMono: U64, nowWall: I64)
    requires s.Valid()
    ensures s.Persisted().RecoverLiveTiming(nowMono, nowWall).Valid()
    ensures s.Persisted().RecoverLiveTiming(nowMono, nowWall).state != Active
  {
  }

  lemma ApplyKeepsTable(m: Sessions, e: Event)
    requires ValidTable(m) && Proper(e)
    ensures ValidTable(Apply(m, e).0)
  {
    forall id | id in m ensures React(m[id], e).0.Valid() && React(m[id], e).0.id == id {
      ReactKeepsValid(m[id], e);
    }
  }

  lemma {:induction false} AfterKeepsTable(m: Sessions, h: seq<Event>)
    requires ValidTable(m) && forall e :: e in h ==> Proper(e)
    ensures ValidTable(After(m, h))
  {
    if h == [] {
    } else {
      AfterKeepsTable(m, h[..|h| - 1]);
      ApplyKeepsTable(After(m, h[..|h| - 1]), h[|h| - 1]);
    }
  }

  lemma AfterStep(m: Sessions, h: seq<Event>, e: Event)
    ensures After(m, h + [e]) == Apply(After(m, h), e).0
    ensures Emitted(m, h + [e]) == Emitted(m, h) + Apply(After(m, h), e).1
  {
    assert (h + [e])[..|h + [e]| - 1] == h;
  }

  // ----- a tick, session by session -----

  /** What a tick makes of one session, and the ring it makes for it. */
  lemma OneTickSays(s: Session, events: Uuid -> Uuid, mono: U64, wall: I64)
    requires s.Valid()
    ensures var due := s.state == Settling && s.deadlineMono.value <= mono;
            var over := s.mode == Once && s.accumulated >= s.minimumActive;
            && React(s, Event.Tick(events, mono, wall)).0 ==
                 (if due then
                    s.(mode := if over then Off else s.mode, state := if over then Disarmed else Armed,
                       burstId := None, accumulated := 0, commandStarted := None,
                       deadlineMono := None, deadlineWall := None, burstNotified := false, lastSeen := wall)
                  else s)
            && React(s, Event.Tick(events, mono, wall)).1 ==
                 (if due && s.accumulated >= s.minimumActive && !s.burstNotified then
                    Some(Action(events(s.id), Some(s.id),
                                Some(if s.title.Some? && s.title.value != "" then s.title.value + " is ready" else "Shell is ready"),
                                s.targets, true, Some(s.accumulated)))
                  else None)
  {
  }

  ghost predicate SomeRings(m: Sessions, ids: seq<Uuid>, e: Event, a: Action)
    requires forall id :: id in ids ==> id in m
  {
    exists id :: id in ids && React(m[id], e).1 == Some(a)
  }

  lemma SomeRingsNext(m: Sessions, rest: seq<Uuid>, last: Uuid, e: Event, a: Action)
    requires last in m && forall id :: id in rest ==> id in m
    ensures SomeRings(m, rest + [last], e, a) <==> SomeRings(m, rest, e, a) || React(m[last], e).1 == Some(a)
  {
    hide React;
    assert forall id :: id in rest + [last] <==> id in rest || id == last;
  }

  lemma {:induction false} TickRingsMembers(m: Sessions, ids: seq<Uuid>, e: Event, a: Action)
    requires e.Tick? && forall id :: id in ids ==> id in m
    ensures a in TickRings(m, ids, e) <==> SomeRings(m, ids, e, a)
  {
    if ids == [] {
    } else {
      hide React, SomeRings;
      var rest, last := ids[..|ids| - 1], ids[|ids| - 1];
      TickRingsMembers(m, rest, e, a);
      assert ids == rest + [last];
      SomeRingsNext(m, rest, last, e, a);
    }
  }

  lemma TickSays(m: Sessions, events: Uuid -> Uuid, mono: U64, wall: I64)
    requires ValidTable(m)
    ensures var (m', rings) := Apply(m, Event.Tick(events, mono, wall));
            && m'.Keys == m.Keys
            && (forall id :: id in m ==>
                  var s := m[id];
                  m'[id] ==
                    if s.state == Settling && s.deadlineMono.value <= mono then
                      var over := s.mode == Once && s.accumulated >= s.minimumActive;
                      s.(mode := if over then Off else s.mode, state := if over then Disarmed else Armed,
                         burstId := None, accumulated := 0, commandStarted := None,
                         deadlineMono := None, deadlineWall := None, burstNotified := false, lastSeen := wall)
                    else s)
            && (forall a :: a in rings <==>
                  exists id :: id in m &&
                    var s := m[id];
                    && s.state == Settling && s.deadlineMono.value <= mono
                    && s.accumulated >= s.minimumActive && !s.burstNotified
                    && a == Action(events(id), Some(id),
                                   Some(if s.title.Some? && s.title.value != "" then s.title.value + " is ready" else "Shell is ready"),
                                   s.targets, true, Some(s.accumulated)))
  {
    hide React;
    var e := Event.Tick(events, mono, wall);
    var ids := DueIds(m, mono);
    forall id | id in m ensures React(m[id], e).1.Some? ==> id in ids {
      ReactCases(m[id], e);
    }
    forall id | id in m {
      OneTickSays(m[id], events, mono, wall);
    }
    forall a ensures a in Apply(m, e).1 <==> exists id :: id in m && React(m[id], e).1 == Some(a) {
      TickRingsMembers(m, ids, e, a);
    }
  }

  lemma ActiveHasStarted(m: Sessions)
    requires ValidTable(m)
    ensures forall id :: id in m && m[id].state == Active ==> m[id].commandStarted.Some?
  {
  }

  /** What a return to the prompt makes of an active session. */
  lemma PromptSays(s: Session, mono: U64, wall: I64)
    requires s.state == Active && s.commandStarted.Some?
    ensures OnPrompt(s, mono, wall) == s.(
              state := Settling, commandStarted := None,
              accumulated := Min(s.accumulated + Max(0, mono - s.commandStarted.value), U64_MAX),
              deadlineMono := Some(Min(mono + s.idleFor, U64_MAX)),
              deadlineWall := Some(Min(wall + Min(s.idleFor, I64_MAX), I64_MAX)),
              lastSeen := wall)
  {
  }

  /** The engine of the daemon: a mutable table, with the history of calls that produced it. */
  class ActivityEngine {
    var sessions: Sessions
    ghost const initial: Sessions
    ghost var history: seq<Event>
    ghost var emitted: seq<Action>

    /** The table is exactly what the history of calls makes of the initial table. */
    ghost predicate Valid()
      reads this
    {
      && ValidTable(initial)
      && (forall e :: e in history ==> Proper(e))
      && ValidTable(sessions)
      && sessions == After(initial, history)
      && emitted == Emitted(initial, history)
    }

    constructor FromSessions(loaded: seq<Session>)
      requires forall s :: s in loaded ==> s.Valid()
      ensures Valid() && fresh(this)
      ensures history == [] && emitted == []
      ensures forall id :: id in sessions <==> exists s :: s in loaded && s.id == id
      ensures forall id :: id in sessions ==> sessions[id] in loaded
    {
      var m: Sessions := map[];
      for i := 0 to |loaded|
        invariant forall id :: id in m <==> exists s :: s in loaded[..i] && s.id == id
        invariant forall id :: id in m ==> m[id] in loaded[..i] && m[id].id == id
      {
        assert loaded[..i + 1] == loaded[..i] + [loaded[i]];
        m := m[loaded[i].id := loaded[i]];
      }
      assert loaded[..|loaded|] == loaded;
      sessions := m;
      initial := m;
      history := [];
      emitted := [];
    }

    ghost method Record(e: Event, rings: seq<Action>, before: Sessions)
      requires ValidTable(initial) && (forall e :: e in history ==> Proper(e)) && ValidTable(before)
      requires before == After(initial, history) && emitted == Emitted(initial, history)
      requires Proper(e) && sessions == Apply(before, e).0 && rings == Apply(before, e).1
      modifies this`history, this`emitted
      ensures Valid()
      ensures history == old(history) + [e] && emitted == old(emitted) + rings
    {
      ApplyKeepsTable(before, e);
      AfterStep(initial, history, e);
      history := history + [e];
      emitted := emitted + rings;
    }

    method SessionOpen(id: Uuid, shellPid: U32, shellType: ShellType, tty: Option<string>,
                       minimumActive: U64, idleFor: U64, targets: seq<string>, nowWall: I64)
      requires Valid()
      modifies this
      ensures Valid()
      ensures history == old(history) + [Open(id, shellPid, shellType, tty, minimumActive, idleFor, targets, nowWall)]
      ensures emitted == old(emitted)
      ensures id in old(sessions) ==>
                sessions == old(sessions)[id := old(sessions)[id].(shellPid := shellPid, shellType := shellType, tty := tty,
                                                                   lastSeen := nowWall)]
      ensures id !in old(sessions) ==>
                sessions == old(sessions)[id := Session(
                  id := id, shellPid := shellPid, shellType := shellType, tty := tty, mode := Off, state := Disarmed,
                  burstId := None, accumulated := 0, commandStarted := None, deadlineMono := None, deadlineWall := None,
                  burstNotified := false, title := None, targets := targets, minimumActive := minimumActive,
                  idleFor := idleFor, lastSeen := nowWall)]
    {
      if id in sessions {
        var s := sessions[id];
        s := s.(shellPid := shellPid);
        s := s.(shellType := shellType);
        s := s.(tty := tty);
        s := s.(lastSeen := nowWall);
        sessions := sessions[id := s];
      } else {
        sessions := sessions[id := NewSession(id, shellPid, shellType, tty, minimumActive, idleFor, targets, nowWall)];
      }
      Record(Open(id, shellPid, shellType, tty, minimumActive, idleFor, targets, nowWall), [], old(sessions));
    }

    method SessionClose(id: Uuid) returns (found: bool)
      requires Valid()
      modifies this
      ensures Valid() && found == (id in old(sessions))
      ensures history == old(history) + [Close(id)] && emitted == old(emitted)
      ensures sessions == old(sessions) - {id}
    {
      found := id in sessions;
      sessions := sessions - {id};
      Record(Close(id), [], old(sessions));
    }

    method Arm(id: Uuid, mode: Mode, minimumActive: U64, idleFor: U64, targets: seq<string>, nowWall: I64)
      returns (found: bool)
      requires Valid() && mode != Off
      modifies this
      ensures Valid() && found == (id in old(sessions))
      ensures found ==> id in sessions
      ensures history == old(history) + [Event.Arm(id, mode, minimumActive, idleFor, targets, nowWall)]
      ensures emitted == old(emitted)
      ensures !found ==> sessions == old(sessions)
      ensures found ==>
                sessions == old(sessions)[id := old(sessions)[id].(
                  mode := mode, state := Armed, burstId := None, accumulated := 0, commandStarted := None,
                  deadlineMono := None, deadlineWall := None, burstNotified := false,
                  minimumActive := minimumActive, idleFor := idleFor, targets := targets, lastSeen := nowWall)]
    {
      found := id in sessions;
      if found {
        var s := sessions[id];
        s := s.(mode := mode);
        s := s.(minimumActive := minimumActive);
        s := s.(idleFor := idleFor);
        s := s.(targets := targets);
        s := s.(lastSeen := nowWall);
        s := s.ResetBurst();
        s := s.(state := Armed);
        sessions := sessions[id := s];
      }
      Record(Event.Arm(id, mode, minimumActive, idleFor, targets, nowWall), [], old(sessions));
    }

    /** `burst` is the identifier drawn if the command opens a burst. */
    method ArmAndStart(id: Uuid, mode: Mode, minimumActive: U64, idleFor: U64, targets: seq<string>,
                       burst: Uuid, nowMono: U64, nowWall: I64)
      returns (found: bool)
      requires Valid() && mode != Off
      modifies this
      ensures Valid() && found == (id in old(sessions))
      ensures history == old(history)
                         + [Event.Arm(id, mode, minimumActive, idleFor, targets, nowWall)]
                         + (if found then [Start(id, burst, nowMono, nowWall)] else [])
      ensures emitted == old(emitted)
      ensures !found ==> sessions == old(sessions)
      ensures found ==>
                sessions == old(sessions)[id := old(sessions)[id].(
                  mode := mode, state := Active, burstId := Some(burst), accumulated := 0, commandStarted := Some(nowMono),
                  deadlineMono := None, deadlineWall := None, burstNotified := false,
                  minimumActive := minimumActive, idleFor := idleFor, targets := targets, lastSeen := nowWall)]
    {
      found := Arm(id, mode, minimumActive, idleFor, targets, nowWall);
      if found {
        found := CommandStart(id, burst, nowMono, nowWall);
      }
    }

    method Disarm(id: Uuid, nowWall: I64) returns (found: bool)
      requires Valid()
      modifies this
      ensures Valid() && found == (id in old(sessions))
      ensures history == old(history) + [Event.Disarm(id, nowWall)] && emitted == old(emitted)
      ensures !found ==> sessions == old(sessions)
      ensures found ==>
                sessions == old(sessions)[id := old(sessions)[id].(
                  mode := Off, state := Disarmed, burstId := None, accumulated := 0, commandStarted := None,
                  deadlineMono := None, deadlineWall := None, burstNotified := false, lastSeen := nowWall)]
    {
      found := id in sessions;
      if found {
        var s := sessions[id];
        s := s.(mode := Off);
        s := s.(state := Disarmed);
        s := s.(lastSeen := nowWall);
        s := s.ResetBurst();
        sessions := sessions[id := s];
      }
      Record(Event.Disarm(id, nowWall), [], old(sessions));
    }

    method SetLabel(id: Uuid, title: Option<string>, nowWall: I64) returns (found: bool)
      requires Valid()
      modifies this
      ensures Valid() && found == (id in old(sessions))
      ensures history == old(history) + [Event.SetLabel(id, title, nowWall)] && emitted == old(emitted)
      ensures !found ==> sessions == old(sessions)
      ensures found ==> sessions == old(sessions)[id := old(sessions)[id].(title := title, lastSeen := nowWall)]
    {
      found := id in sessions;
      if found {
        var s := sessions[id];
        s := s.(title := title);
        s := s.(lastSeen := nowWall);
        sessions := sessions[id := s];
      }
      Record(Event.SetLabel(id, title, nowWall), [], old(sessions));
    }

    method CommandStart(id: Uuid, burst: Uuid, nowMono: U64, nowWall: I64) returns (found: bool)
      requires Valid()
      modifies this
      ensures Valid() && found == (id in old(sessions))
      ensures history == old(history) + [Start(id, burst, nowMono, nowWall)] && emitted == old(emitted)
      ensures !found ==> sessions == old(sessions)
      ensures found && old(sessions)[id].state == Armed ==>
                sessions == old(sessions)[id := old(sessions)[id].(
                  state := Active, burstId := Some(burst), accumulated := 0, burstNotified := false,
                  commandStarted := Some(nowMono), lastSeen := nowWall)]
      ensures found && old(sessions)[id].state == Settling ==>
                sessions == old(sessions)[id := old(sessions)[id].(
                  state := Active, deadlineMono := None, deadlineWall := None, commandStarted := Some(nowMono),
                  lastSeen := nowWall)]
      ensures found && old(sessions)[id].state != Armed && old(sessions)[id].state != Settling ==>
                sessions == old(sessions)[id := old(sessions)[id].(lastSeen := nowWall)]
    {
      found := id in sessions;
      if found {
        var s := sessions[id];
        s := s.(lastSeen := nowWall);
        match s.state {
          case Armed =>
            s := s.(burstId := Some(burst));
            s := s.(accumulated := 0);
            s := s.(burstNotified := false);
            s := s.(commandStarted := Some(nowMono));
            s := s.(state := Active);
          case Settling =>
            s := s.(deadlineMono := None);
            s := s.(deadlineWall := None);
            s := s.(commandStarted := Some(nowMono));
            s := s.(state := Active);
          case Disarmed =>
          case Active =>
          case Notified =>
        }
        sessions := sessions[id := s];
      }
      Record(Start(id, burst, nowMono, nowWall), [], old(sessions));
    }

    /** The command of an active session is over: its time is added and the deadlines are set. */
    static method Settle(session: Session, nowMono: U64, nowWall: I64) returns (s: Session)
      ensures s == OnPrompt(session, nowMono, nowWall)
      ensures session.state != Active ==> s == session.(lastSeen := nowWall)
    {
      s := session.(lastSeen := nowWall);
      if s.state == Active {
        if s.commandStarted.Some? {
          var started := s.commandStarted.value;
          s := s.(commandStarted := None);
          s := s.(accumulated := SatAddU64(s.accumulated, SatSubU64(nowMono, started)));
        }
        s := s.(state := Settling);
        s := s.(deadlineMono := Some(SatAddU64(nowMono, s.idleFor)));
        s := s.(deadlineWall := Some(SatAddI64(nowWall, ToI64(s.idleFor))));
      }
    }

    method PromptReady(id: Uuid, nowMono: U64, nowWall: I64) returns (found: bool)
      requires Valid()
      modifies this
      ensures Valid() && found == (id in old(sessions))
      ensures history == old(history) + [Prompt(id, nowMono, nowWall)] && emitted == old(emitted)
      ensures !found ==> sessions == old(sessions)
      ensures found && old(sessions)[id].state != Active ==>
                sessions == old(sessions)[id := old(sessions)[id].(lastSeen := nowWall)]
      ensures found && old(sessions)[id].state == Active ==>
                var s := old(sessions)[id];
                && s.commandStarted.Some? && id in sessions
                && sessions == old(sessions)[id := s.(state := Settling, commandStarted := None, lastSeen := nowWall,
                                                     accumulated := sessions[id].accumulated,
                                                     deadlineMono := sessions[id].deadlineMono,
                                                     deadlineWall := sessions[id].deadlineWall)]
                && sessions[id].accumulated == Min(s.accumulated + Max(0, nowMono - s.commandStarted.value), U64_MAX)
                && sessions[id].deadlineMono == Some(Min(nowMono + s.idleFor, U64_MAX))
                && sessions[id].deadlineWall == Some(Min(nowWall + Min(s.idleFor, I64_MAX), I64_MAX))
    {
      hide Session.Valid;
      ActiveHasStarted(sessions);
      hide OnPrompt, ToI64, ValidTable, After, Emitted, SatAddU64, SatSubU64, SatAddI64;
      found := id in sessions;
      if found {
        var s := Settle(sessions[id], nowMono, nowWall);
        if sessions[id].state == Active {
          PromptSays(sessions[id], nowMono, nowWall);
        }
        sessions := sessions[id := s];
      }
      Record(Prompt(id, nowMono, nowWall), [], old(sessions));
    }

    /** `event` is the identifier drawn for the ring. */
    method ManualRing(session: Option<Uuid>, event: Uuid, message: Option<string>, targets: seq<string>,
                      nowMono: U64, nowWall: I64)
      returns (ring: Option<Action>)
      requires Valid()
      modifies this
      ensures Valid()
      ensures history == old(history) + [Manual(session, event, message, targets, nowMono, nowWall)]
      ensures emitted == old(emitted) + (if ring.Some? then [ring.value] else [])
      ensures session.None? || session.value !in old(sessions) ==>
                sessions == old(sessions) && ring == Some(Action(event, session, message, targets, false, None))
      ensures session.Some? && session.value in old(sessions) ==>
                var s := old(sessions)[session.value];
                var live := s.state == Active || s.state == Settling;
                var shown := s.accumulated + if s.state == Active then Max(0, nowMono - s.commandStarted.value) else 0;
                && ring == (if live && s.burstNotified then None
                            else Some(Action(event, session, message, targets, false,
                                             if live then Some(Min(shown, U64_MAX)) else None)))
                && sessions == old(sessions)[session.value :=
                     if live && s.mode == Once then
                       s.(mode := Off, state := Disarmed, burstId := None, accumulated := 0, commandStarted := None,
                          deadlineMono := None, deadlineWall := None, burstNotified := false, lastSeen := nowWall)
                     else s.(burstNotified := s.burstNotified || live, lastSeen := nowWall)]
    {
      ghost var e := Manual(session, event, message, targets, nowMono, nowWall);
      if session.None? || session.value !in sessions {
        ring := Some(Action(event, session, message, targets, false, None));
        Record(e, [ring.value], old(sessions));
        return;
      }
      var id := session.value;
      var s := sessions[id];
      s := s.(lastSeen := nowWall);
      var associated := s.burstId.Some? && (s.state == Active || s.state == Settling);
      if associated && s.burstNotified {
        sessions := sessions[id := s];
        ring := None;
        Record(e, [], old(sessions));
        return;
      }
      var duration := if associated then Some(s.DisplayedActive(nowMono)) else None;
      if associated {
        s := s.(burstNotified := true);
        if s.mode == Once {
          s := s.(mode := Off);
          s := s.(state := Disarmed);
          s := s.ResetBurst();
        }
      }
      sessions := sessions[id := s];
      ring := Some(Action(event, Some(id), message, targets, false, duration));
      Record(e, [ring.value], old(sessions));
    }

    /** One round of the loop of `Tick`: ring if the burst qualifies, then forget the burst. */
    static method FireDue(session: Session, events: Uuid -> Uuid, nowMono: U64, nowWall: I64)
      returns (s: Session, ring: Option<Action>)
      requires session.DueAt(nowMono)
      ensures (s, ring) == React(session, Event.Tick(events, nowMono, nowWall))
    {
      s := session;
      ring := None;
      s := s.(lastSeen := nowWall);
      var qualifies := s.accumulated >= s.minimumActive;
      if qualifies && !s.burstNotified {
        ring := Some(Action(events(s.id), Some(s.id), Some(ReadyMessage(s.title)), s.targets, true,
                            Some(s.accumulated)));
        s := s.(burstNotified := true);
        if s.mode == Once {
          s := s.(mode := Off);
        }
      }
      s := s.ResetAfterBurst();
    }

    /** The loop of `Tick` over the due sessions. */
    method FireAll(events: Uuid -> Uuid, nowMono: U64, nowWall: I64) returns (actions: seq<Action>)
      requires ValidTable(sessions)
      modifies this`sessions
      ensures (sessions, actions) == Apply(old(sessions), Event.Tick(events, nowMono, nowWall))
    {
      hide PartlyTicked, React, Apply, ValidTable;
      ghost var e := Event.Tick(events, nowMono, nowWall);
      ghost var before := sessions;
      var due := DueIds(sessions, nowMono);
      actions := [];
      NoneTicked(sessions, due, e);
      for i := 0 to |due|
        invariant PartlyTicked(before, sessions, actions, due, i, e)
      {
        TickedOne(before, sessions, actions, due, i, e);
        assert due[i] in due;
        var s, ring := FireDue(sessions[due[i]], events, nowMono, nowWall);
        if ring.Some? {
          actions := actions + [ring.value];
        }
        sessions := sessions[due[i] := s];
      }
      TickedAll(before, sessions, actions, e);
    }

    /** `events` gives the identifier drawn for the ring of each session. */
    method Tick(events: Uuid -> Uuid, nowMono: U64, nowWall: I64) returns (actions: seq<Action>)
      requires Valid()
      modifies this
      ensures Valid()
      ensures history == old(history) + [Event.Tick(events, nowMono, nowWall)]
      ensures emitted == old(emitted) + actions
      ensures sessions.Keys == old(sessions).Keys
      ensures forall id :: id in sessions ==>
                var s := old(sessions)[id];
                sessions[id] ==
                  if s.state == Settling && s.deadlineMono.value <= nowMono then
                    var over := s.mode == Once && s.accumulated >= s.minimumActive;
                    s.(mode := if over then Off else s.mode, state := if over then Disarmed else Armed,
                       burstId := None, accumulated := 0, commandStarted := None,
                       deadlineMono := None, deadlineWall := None, burstNotified := false, lastSeen := nowWall)
                  else s
      ensures forall a :: a in actions <==>
                exists id :: id in old(sessions) &&
                  var s := old(sessions)[id];
                  && s.state == Settling && s.deadlineMono.value <= nowMono
                  && s.accumulated >= s.minimumActive && !s.burstNotified
                  && a == Action(events(id), Some(id),
                                 Some(if s.title.Some? && s.title.value != "" then s.title.value + " is ready" else "Shell is ready"),
                                 s.targets, true, Some(s.accumulated))
    {
      TickSays(sessions, events, nowMono, nowWall);
      actions := FireAll(events, nowMono, nowWall);
      Record(Event.Tick(events, nowMono, nowWall), actions, old(sessions));
    }

    /** The loop of `CleanupStale` over the stale sessions. */
    method RemoveStale(cutoff: I64) returns (stale: seq<Uuid>)
      modifies this`sessions
      ensures sessions == Apply(old(sessions), Cleanup(cutoff)).0
      ensures forall id :: id in stale <==> id in old(sessions) && old(sessions)[id].lastSeen < cutoff
    {
      ghost var before := sessions;
      ghost var gone: set<Uuid> := {};
      stale := Ascending(set id | id in sessions && sessions[id].lastSeen < cutoff);
      for i := 0 to |stale|
        invariant sessions == before - gone
        invariant forall k :: 0 <= k < i ==> stale[k] in gone
        invariant forall id :: id in gone ==> id in stale
      {
        sessions := sessions - {stale[i]};
        gone := gone + {stale[i]};
      }
      assert forall id :: id in stale ==> id in gone;
      assert sessions == Apply(before, Cleanup(cutoff)).0;
    }

    method CleanupStale(cutoff: I64) returns (stale: seq<Uuid>)
      requires Valid()
      modifies this
      ensures Valid()
      ensures forall id :: id in stale <==> id in old(sessions) && old(sessions)[id].lastSeen < cutoff
      ensures history == old(history) + [Cleanup(cutoff)] && emitted == old(emitted)
      ensures sessions == map id | id in old(sessions) && old(sessions)[id].lastSeen >= cutoff :: old(sessions)[id]
    {
      stale := RemoveStale(cutoff);
      Record(Cleanup(cutoff), [], old(sessions));
    }
  }
}
