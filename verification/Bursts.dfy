/** Bursts and the rings made for them: identifiers are fresh, and a burst that has rung is marked or forgotten. */
module Bursts {
  import opened Types
  import opened Activity
  import opened Isolation

  /** The pairs (burst, event) of the automatic and associated rings of one engine step. */
  ghost function RungBy(m: Sessions, e: Event): set<(Uuid, Uuid)> {
    set a | a in Apply(m, e).1 && CountsForBurst(m, a) :: (m[a.sessionId.value].burstId.value, a.eventId)
  }

  predicate CountsForBurst(m: Sessions, a: Action) {
    && a.activeDuration.Some?
    && a.sessionId.Some? && a.sessionId.value in m && m[a.sessionId.value].burstId.Some?
  }

  /** The burst identifier drawn by an event. */
  function DrawnBurst(e: Event): set<Uuid> { if e.Start? then {e.burst} else {} }

  /** The event identifiers an event draws on a table. */
  ghost function DrawnEvents(m: Sessions, e: Event): set<Uuid> {
    match e
    case Manual(_, event, _, _, _, _) => {event}
    case Tick(events, _, _) => set id | id in m :: events(id)
    case _ => {}
  }

  /** Identifiers drawn at random have not been drawn before, and differ from one another. */
  ghost predicate DrawsFresh(m: Sessions, e: Event, bursts: set<Uuid>, events: set<Uuid>) {
    && DrawnBurst(e) !! bursts
    && DrawnEvents(m, e) !! events
    && (e.Tick? ==> forall x, y :: x in m && y in m && x != y ==> e.events(x) != e.events(y))
  }

  ghost predicate DistinctBursts(m: Sessions) {
    forall x, y :: x in m && y in m && x != y && m[x].burstId.Some? ==> m[x].burstId != m[y].burstId
  }

  /** Bursts have distinct known identifiers, and those that have rung are marked in every session that has them. */
  ghost predicate BurstsMarked(m: Sessions, rung: set<(Uuid, Uuid)>, bursts: set<Uuid>) {
    && (forall id :: id in m && m[id].burstId.Some? ==> m[id].burstId.value in bursts)
    && DistinctBursts(m)
    && (forall r :: r in rung ==> r.0 in bursts)
    && (forall r, id :: r in rung && id in m && m[id].burstId == Some(r.0) ==> m[id].burstNotified)
  }

  /** No burst has two rings. */
  ghost predicate OneRingPerBurst(rung: set<(Uuid, Uuid)>) {
    forall r, r' :: r in rung && r' in rung && r.0 == r'.0 ==> r == r'
  }

  /** How one session's burst can change: kept, forgotten, or drawn by the event. */
  lemma BurstAfterReact(s: Session, e: Event)
    requires s.Valid() && Proper(e)
    ensures var s' := React(s, e).0;
            && (s'.burstId == s.burstId || s'.burstId == None || (e.Start? && s'.burstId == Some(e.burst)))
            && (s'.burstId == s.burstId && s.burstNotified ==> s'.burstNotified || s.burstId == None)
  {
    hide React;
    ReactCases(s, e);
  }

  /** A ring for a burst comes from a session with an unmarked burst, and leaves it marked or forgotten. */
  lemma RingMarksBurst(s: Session, e: Event)
    requires s.Valid() && Proper(e)
    requires React(s, e).1.Some? && React(s, e).1.value.activeDuration.Some?
    ensures s.burstId.Some? && !s.burstNotified
    ensures React(s, e).0.burstId == None || (React(s, e).0.burstId == s.burstId && React(s, e).0.burstNotified)
  {
    hide React;
    ReactCases(s, e);
  }

  /** Every ring is the reaction of the session it is addressed to, or a manual ring addressed to none. */
  lemma {:induction false} TickRingOrigin(m: Sessions, ids: seq<Uuid>, e: Event, a: Action)
    requires ValidTable(m) && e.Tick? && forall id :: id in ids ==> id in m
    requires a in TickRings(m, ids, e)
    ensures a.sessionId.Some? && a.sessionId.value in m && React(m[a.sessionId.value], e).1 == Some(a)
    ensures a.eventId == e.events(a.sessionId.value)
  {
    hide React;
    var rest, last := ids[..|ids| - 1], ids[|ids| - 1];
    ReactCases(m[last], e);
    if a in TickRings(m, rest, e) {
      TickRingOrigin(m, rest, e, a);
    }
  }

  lemma RingOrigin(m: Sessions, e: Event, a: Action)
    requires ValidTable(m) && a in Apply(m, e).1
    ensures a.eventId in DrawnEvents(m, e)
    ensures a.activeDuration.Some? ==>
              a.sessionId.Some? && a.sessionId.value in m && React(m[a.sessionId.value], e).1 == Some(a)
    ensures e.Tick? ==> a.sessionId.Some? && a.eventId == e.events(a.sessionId.value)
    ensures e.Manual? ==> Apply(m, e).1 == [a]
  {
    hide React;
    if e.Tick? {
      TickRingOrigin(m, DueIds(m, e.mono), e, a);
    } else if e.Manual? && e.session.Some? && e.session.value in m {
      ReactCases(m[e.session.value], e);
    }
  }

  lemma RingReaction(m: Sessions, e: Event, a: Action)
    requires ValidTable(m) && Proper(e) && a in Apply(m, e).1 && a.activeDuration.Some?
    ensures a.sessionId.Some? && a.sessionId.value in m && a.sessionId.value in Apply(m, e).0
    ensures Apply(m, e).0[a.sessionId.value] == React(m[a.sessionId.value], e).0
    ensures !e.Start?
  {
    hide React;
    RingOrigin(m, e, a);
    if e.Tick? {
      TickIsPointwise(m, e, a.sessionId.value);
    } else if e.Manual? && e.session.Some? && e.session.value in m {
      ReactCases(m[e.session.value], e);
    }
  }

  /** No automatic or associated ring escapes the record of rung bursts. */
  lemma RungByIsComplete(m: Sessions, e: Event, a: Action)
    requires ValidTable(m) && Proper(e) && a in Apply(m, e).1 && a.activeDuration.Some?
    ensures CountsForBurst(m, a) && !m[a.sessionId.value].burstNotified
    ensures (m[a.sessionId.value].burstId.value, a.eventId) in RungBy(m, e)
  {
    hide React;
    RingOrigin(m, e, a);
    RingMarksBurst(m[a.sessionId.value], e);
  }

  /** Where a session of the next table comes from. */
  lemma NextSession(m: Sessions, e: Event, id: Uuid)
    requires ValidTable(m) && Proper(e) && id in Apply(m, e).0
    ensures var s' := Apply(m, e).0[id];
            || (id in m && (s' == m[id] || s' == React(m[id], e).0))
            || (e.Open? && s'.burstId == None)
    ensures e.Start? && e.id != id && id in m ==> Apply(m, e).0[id] == m[id]
  {
    hide React;
  }

  lemma BurstAfterApply(m: Sessions, e: Event, id: Uuid)
    requires ValidTable(m) && Proper(e) && id in Apply(m, e).0 && Apply(m, e).0[id].burstId.Some?
    ensures id in m
    ensures Apply(m, e).0[id].burstId == m[id].burstId || (e.Start? && e.id == id && Apply(m, e).0[id].burstId == Some(e.burst))
    ensures Apply(m, e).0[id].burstId == m[id].burstId && m[id].burstNotified ==> Apply(m, e).0[id].burstNotified
  {
    hide React, Apply;
    NextSession(m, e, id);
    if id in m {
      BurstAfterReact(m[id], e);
    }
  }

  /** After a ring the burst is marked wherever it still is. */
  lemma RungBurstMarked(m: Sessions, e: Event, r: (Uuid, Uuid), id: Uuid, bursts: set<Uuid>)
    requires ValidTable(m) && Proper(e) && DistinctBursts(m) && DrawnBurst(e) !! bursts
    requires forall id :: id in m && m[id].burstId.Some? ==> m[id].burstId.value in bursts
    requires r in RungBy(m, e) && id in Apply(m, e).0 && Apply(m, e).0[id].burstId == Some(r.0)
    ensures Apply(m, e).0[id].burstNotified
  {
    hide React;
    var a :| a in Apply(m, e).1 && CountsForBurst(m, a) && r == (m[a.sessionId.value].burstId.value, a.eventId);
    var sid := a.sessionId.value;
    RingOrigin(m, e, a);
    RingMarksBurst(m[sid], e);
    BurstAfterApply(m, e, id);
    RingReaction(m, e, a);
  }

  lemma RungByIsFunctional(m: Sessions, e: Event)
    requires ValidTable(m) && Proper(e) && DistinctBursts(m)
    ensures OneRingPerBurst(RungBy(m, e))
  {
    hide React, Apply;
    forall r, r' | r in RungBy(m, e) && r' in RungBy(m, e) && r.0 == r'.0 ensures r == r' {
      var a :| a in Apply(m, e).1 && CountsForBurst(m, a) && r == (m[a.sessionId.value].burstId.value, a.eventId);
      var a' :| a' in Apply(m, e).1 && CountsForBurst(m, a') && r' == (m[a'.sessionId.value].burstId.value, a'.eventId);
      RingOrigin(m, e, a);
      RingOrigin(m, e, a');
    }
  }

  /** One engine step keeps the books: identifiers distinct, rung bursts marked, one ring for each. */
  lemma StepKeepsBooks(m: Sessions, e: Event, rung: set<(Uuid, Uuid)>, bursts: set<Uuid>)
    requires ValidTable(m) && Proper(e) && BurstsMarked(m, rung, bursts) && OneRingPerBurst(rung)
    requires DrawnBurst(e) !! bursts
    ensures BurstsMarked(Apply(m, e).0, rung + RungBy(m, e), bursts + DrawnBurst(e))
    ensures OneRingPerBurst(rung + RungBy(m, e))
  {
    hide React, Apply, RungBy;
    var m' := Apply(m, e).0;
    forall id | id in m' && m'[id].burstId.Some?
      ensures id in m
      ensures m'[id].burstId == m[id].burstId || (e.Start? && e.id == id && m'[id].burstId == Some(e.burst))
    {
      BurstAfterApply(m, e, id);
    }
    forall r | r in RungBy(m, e) ensures r.0 in bursts && forall r' :: r' in rung ==> r'.0 != r.0 {
      RungIsNew(m, e, rung, bursts, r);
    }
    forall r, id | r in rung + RungBy(m, e) && id in m' && m'[id].burstId == Some(r.0) ensures m'[id].burstNotified {
      BurstAfterApply(m, e, id);
      if r !in rung {
        RungBurstMarked(m, e, r, id, bursts);
      }
    }
    RungByIsFunctional(m, e);
  }

  /** A ring is never made for a burst that has rung before. */
  lemma RungIsNew(m: Sessions, e: Event, rung: set<(Uuid, Uuid)>, bursts: set<Uuid>, r: (Uuid, Uuid))
    requires ValidTable(m) && Proper(e) && BurstsMarked(m, rung, bursts) && r in RungBy(m, e)
    ensures r.0 in bursts && forall r' :: r' in rung ==> r'.0 != r.0
  {
    hide React, Apply;
    var a :| a in Apply(m, e).1 && CountsForBurst(m, a) && r == (m[a.sessionId.value].burstId.value, a.eventId);
    RungByIsComplete(m, e, a);
  }

  /** The identifiers of the rings of one step are drawn by it, and distinct. */
  lemma RingsAreFresh(m: Sessions, e: Event, bursts: set<Uuid>, events: set<Uuid>)
    requires ValidTable(m) && DrawsFresh(m, e, bursts, events)
    ensures forall a :: a in Apply(m, e).1 ==> a.eventId in DrawnEvents(m, e) && a.eventId !in events
    ensures forall i, j :: 0 <= i < j < |Apply(m, e).1| ==> Apply(m, e).1[i].eventId != Apply(m, e).1[j].eventId
  {
    hide React;
    var rings := Apply(m, e).1;
    forall a | a in rings ensures a.eventId in DrawnEvents(m, e) && a.eventId !in events {
      RingOrigin(m, e, a);
    }
    if e.Tick? {
      DistinctTickRings(m, DueIds(m, e.mono), e);
    }
  }

  lemma {:induction false} DistinctTickRings(m: Sessions, ids: seq<Uuid>, e: Event)
    requires ValidTable(m) && e.Tick? && forall id :: id in ids ==> id in m
    requires forall i, j :: 0 <= i < j < |ids| ==> ids[i] < ids[j]
    requires forall x, y :: x in m && y in m && x != y ==> e.events(x) != e.events(y)
    ensures var rings := TickRings(m, ids, e);
            && (forall a :: a in rings ==> a.sessionId.Some? && a.sessionId.value in ids && a.eventId == e.events(a.sessionId.value))
            && forall i, j :: 0 <= i < j < |rings| ==> rings[i].eventId != rings[j].eventId
  {
    hide React;
    if ids == [] {
    } else {
      var rest, last := ids[..|ids| - 1], ids[|ids| - 1];
      DistinctTickRings(m, rest, e);
      ReactCases(m[last], e);
      assert last !in rest;
      var before := TickRings(m, rest, e);
      forall a | a in before ensures a.eventId != e.events(last) {
        assert a.sessionId.value in rest;
      }
    }
  }

  /** Forgetting sessions, or the clock readings of all of them, keeps the marks. */
  lemma SubtableKeepsMarks(m: Sessions, m': Sessions, rung: set<(Uuid, Uuid)>, bursts: set<Uuid>)
    requires BurstsMarked(m, rung, bursts)
    requires forall id :: id in m' ==> id in m
    requires forall id :: id in m' ==>
               m'[id].burstId == None || (m'[id].burstId == m[id].burstId && m'[id].burstNotified == m[id].burstNotified)
    ensures BurstsMarked(m', rung, bursts)
  {
  }

  // ----- before the first arm -----

  /** Off, disarmed and without a burst, if it is there at all. */
  ghost predicate Unarmed(m: Sessions, id: Uuid) {
    id in m ==> m[id].mode == Off && m[id].state == Disarmed && m[id].burstId == None
  }

  /** An unarmed session makes no ring but those asked for by hand, outside any burst. */
  lemma UnarmedReacts(s: Session, e: Event)
    requires s.mode == Off && s.state == Disarmed && s.burstId == None && !e.Arm?
    ensures var (s', ring) := React(s, e);
            && s'.mode == Off && s'.state == Disarmed && s'.burstId == None
            && (ring.Some? ==> !ring.value.automatic && ring.value.activeDuration == None)
  {
    hide React;
    ReactCases(s, e);
  }

  lemma UnarmedStep(m: Sessions, e: Event, id: Uuid)
    requires ValidTable(m) && Unarmed(m, id) && !(e.Arm? && e.id == id)
    ensures Unarmed(Apply(m, e).0, id)
    ensures forall a :: a in Apply(m, e).1 && a.sessionId == Some(id) ==> !a.automatic && a.activeDuration == None
  {
    hide React;
    if id in m && !e.Arm? {
      UnarmedReacts(m[id], e);
    }
    forall a | a in Apply(m, e).1 && a.sessionId == Some(id) ensures !a.automatic && a.activeDuration == None {
      RingOrigin(m, e, a);
      if e.Tick? {
        TickRingOrigin(m, DueIds(m, e.mono), e, a);
      } else if e.Manual? && e.session.Some? && e.session.value in m {
        ReactCases(m[e.session.value], e);
      }
    }
  }

  /**
   Over every run of the table from an empty one: until it is armed, a session is off and disarmed, and no ring is made
   for it by a tick or counts for a burst.
   */
  lemma {:induction false} NoRingBeforeArm(h: seq<Event>, id: Uuid)
    requires forall e :: e in h ==> Proper(e) && !(e.Arm? && e.id == id)
    ensures Unarmed(After(map[], h), id)
    ensures forall a :: a in Emitted(map[], h) && a.sessionId == Some(id) ==> !a.automatic && a.activeDuration == None
  {
    if h == [] {
    } else {
      hide Apply, Unarmed, ValidTable;
      var rest := h[..|h| - 1];
      NoRingBeforeArm(rest, id);
      EmptyTable();
      AfterKeepsTable(map[], rest);
      UnarmedStep(After(map[], rest), h[|h| - 1], id);
    }
  }

  lemma EmptyTable()
    ensures ValidTable(map[])
  {
  }
}
