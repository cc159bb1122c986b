/**
 Sessions do not influence one another, and the tick schedule does not influence the rings.
 */
module Isolation {
  import opened Types
  import opened Activity

  /** The rings produced for one session, in order. */
  function RingsOf(rings: seq<Action>, id: Uuid): seq<Action> {
    if rings == [] then [] else
      var last := rings[|rings| - 1];
      RingsOf(rings[..|rings| - 1], id) + (if last.sessionId == Some(id) then [last] else [])
  }

  lemma {:induction false} RingsOfConcat(a: seq<Action>, b: seq<Action>, id: Uuid)
    ensures RingsOf(a + b, id) == RingsOf(a, id) + RingsOf(b, id)
  {
    if b == [] {
      assert a + b == a;
    } else {
      RingsOfConcat(a, b[..|b| - 1], id);
      assert (a + b)[..|a + b| - 1] == a + b[..|b| - 1];
    }
  }

  function AtMostOne(ring: Option<Action>): seq<Action> {
    if ring.Some? then [ring.value] else []
  }

  function Lookup(m: Sessions, id: Uuid): Option<Session> {
    if id in m then Some(m[id]) else None
  }

  // ----- a tick of the table is the tick of each session -----

  lemma {:induction false} TickRingsOf(m: Sessions, ids: seq<Uuid>, e: Event, id: Uuid)
    requires ValidTable(m) && e.Tick?
    requires forall x :: x in ids ==> x in m
    requires forall i, j :: 0 <= i < j < |ids| ==> ids[i] < ids[j]
    ensures RingsOf(TickRings(m, ids, e), id) == if id in ids then AtMostOne(React(m[id], e).1) else []
  {
    hide React;
    if ids == [] {
    } else {
      var rest, last := ids[..|ids| - 1], ids[|ids| - 1];
      TickRingsOf(m, rest, e, id);
      var ring := React(m[last], e).1;
      ReactCases(m[last], e);
      assert ring.Some? ==> ring.value.sessionId == Some(last);
      RingsOfConcat(TickRings(m, rest, e), AtMostOne(ring), id);
      assert RingsOf(AtMostOne(ring), id) == if id == last then AtMostOne(ring) else [];
      assert id in ids <==> id in rest || id == last;
    }
  }

  lemma TickIsPointwise(m: Sessions, e: Event, id: Uuid)
    requires ValidTable(m) && e.Tick?
    ensures Apply(m, e).0.Keys == m.Keys
    ensures id in m ==> Apply(m, e).0[id] == React(m[id], e).0
    ensures RingsOf(Apply(m, e).1, id) == if id in m then AtMostOne(React(m[id], e).1) else []
  {
    TickRingsOf(m, DueIds(m, e.mono), e, id);
  }

  // ----- non-interference -----

  /** An event matters to a session if it is addressed to it or to all sessions. */
  predicate Concerns(e: Event, id: Uuid) {
    Addressee(e) == Some(id) || e.Tick? || e.Cleanup?
  }

  ghost function Project(h: seq<Event>, id: Uuid): seq<Event> {
    if h == [] then [] else
      var last := h[|h| - 1];
      Project(h[..|h| - 1], id) + (if Concerns(last, id) then [last] else [])
  }

  function Only(m: Sessions, id: Uuid): Sessions {
    map x | x in m && x == id :: m[x]
  }

  lemma SingleRing(ring: Option<Action>, id: Uuid)
    requires ring.Some? ==> ring.value.sessionId == Some(id)
    ensures RingsOf(AtMostOne(ring), id) == AtMostOne(ring)
  {
  }

  /** An event acts alike on two tables that agree on a session. */
  lemma ApplyIsLocal(m: Sessions, m': Sessions, e: Event, id: Uuid)
    requires ValidTable(m) && ValidTable(m') && Lookup(m, id) == Lookup(m', id)
    ensures Lookup(Apply(m, e).0, id) == Lookup(Apply(m', e).0, id)
    ensures RingsOf(Apply(m, e).1, id) == RingsOf(Apply(m', e).1, id)
  {
    if e.Tick? {
      TickIsPointwise(m, e, id);
      TickIsPointwise(m', e, id);
    } else if e.Manual? && e.session.Some? && e.session.value != id {
      OthersLeaveAlone(m, e, id);
      OthersLeaveAlone(m', e, id);
    }
  }

  /** An event that does not concern a session neither changes it nor rings for it. */
  lemma OthersLeaveAlone(m: Sessions, e: Event, id: Uuid)
    requires ValidTable(m) && !Concerns(e, id)
    ensures Lookup(Apply(m, e).0, id) == Lookup(m, id)
    ensures RingsOf(Apply(m, e).1, id) == []
  {
    if e.Manual? && e.session.Some? && e.session.value in m {
      var ring := React(m[e.session.value], e).1;
      assert ring.Some? ==> ring.value.sessionId == e.session;
    }
  }

  /**
   Running a history on the whole table gives a session the same state and the same rings as running
   only the events that concern it on a table that holds no other session.
   */
  lemma {:induction false} NonInterference(m: Sessions, h: seq<Event>, id: Uuid)
    requires ValidTable(m) && forall e :: e in h ==> Proper(e)
    ensures Lookup(After(m, h), id) == Lookup(After(Only(m, id), Project(h, id)), id)
    ensures RingsOf(Emitted(m, h), id) == RingsOf(Emitted(Only(m, id), Project(h, id)), id)
    ensures forall e :: e in Project(h, id) ==> e in h
  {
    hide React, Apply;
    if h == [] {
    } else {
      var rest, e := h[..|h| - 1], h[|h| - 1];
      NonInterference(m, rest, id);
      var now, alone := After(m, rest), After(Only(m, id), Project(rest, id));
      AfterKeepsTable(m, rest);
      AfterKeepsTable(Only(m, id), Project(rest, id));
      RingsOfConcat(Emitted(m, rest), Apply(now, e).1, id);
      if Concerns(e, id) {
        AloneStep(Only(m, id), Project(rest, id), e, id);
        ApplyIsLocal(now, alone, e, id);
      } else {
        OthersLeaveAlone(now, e, id);
        assert Project(h, id) == Project(rest, id);
      }
    }
  }

  lemma AloneStep(m: Sessions, h: seq<Event>, e: Event, id: Uuid)
    ensures After(m, h + [e]) == Apply(After(m, h), e).0
    ensures RingsOf(Emitted(m, h + [e]), id) == RingsOf(Emitted(m, h), id) + RingsOf(Apply(After(m, h), e).1, id)
  {
    AfterStep(m, h, e);
    RingsOfConcat(Emitted(m, h), Apply(After(m, h), e).1, id);
  }

  // ----- tick-schedule independence -----

  function Anonymous(a: Action): Action { a.(eventId := 0) }

  /** The rings without their random event identifiers. */
  function Unnamed(rings: seq<Action>): seq<Action> {
    seq(|rings|, i requires 0 <= i < |rings| => Anonymous(rings[i]))
  }

  /** Two sessions that differ at most in when they were last seen. */
  predicate SameButLastSeen(s: Session, s': Session) {
    s.(lastSeen := 0) == s'.(lastSeen := 0)
  }

  lemma {:induction false} TickTwiceOneSession(s: Session, early: Event, late: Event, once: Event)
    requires s.Valid() && early.Tick? && late.Tick? && once.Tick?
    requires early.mono <= late.mono == once.mono
    ensures var (s1, r1) := React(s, early);
            var (s2, r2) := React(s1, late);
            var (s3, r3) := React(s, once);
            && SameButLastSeen(s2, s3)
            && Unnamed(AtMostOne(r1) + AtMostOne(r2)) == Unnamed(AtMostOne(r3))
  {
    var (s1, r1) := React(s, early);
    if s.DueAt(early.mono) {
      assert s1.state != Settling && React(s1, late) == (s1, None);
      assert AtMostOne(r1) + [] == AtMostOne(r1);
    } else {
      assert [] + AtMostOne(React(s1, late).1) == AtMostOne(React(s1, late).1);
    }
  }

  lemma UnnamedConcat(a: seq<Action>, b: seq<Action>)
    ensures Unnamed(a + b) == Unnamed(a) + Unnamed(b)
  {
  }

  /** Rings are determined up to order by the rings of each session. */
  lemma {:induction false} CountBySession(rings: seq<Action>, x: Action)
    requires x.sessionId.Some?
    ensures multiset(Unnamed(rings))[x] == multiset(Unnamed(RingsOf(rings, x.sessionId.value)))[x]
  {
    if rings == [] {
    } else {
      var rest, last := rings[..|rings| - 1], rings[|rings| - 1];
      var id := x.sessionId.value;
      CountBySession(rest, x);
      assert rings == rest + [last];
      UnnamedConcat(rest, [last]);
      assert Unnamed([last]) == [Anonymous(last)];
      if last.sessionId == Some(id) {
        UnnamedConcat(RingsOf(rest, id), [last]);
      } else {
        assert RingsOf(rings, id) == RingsOf(rest, id) + [] == RingsOf(rest, id);
      }
    }
  }

  lemma {:induction false} TickRingsHaveSessions(m: Sessions, ids: seq<Uuid>, e: Event)
    requires e.Tick? && forall x :: x in ids ==> x in m
    ensures forall a :: a in TickRings(m, ids, e) ==> a.sessionId.Some?
  {
    if ids == [] {
    } else {
      TickRingsHaveSessions(m, ids[..|ids| - 1], e);
    }
  }

  lemma {:induction false} UnnamedMembers(rings: seq<Action>)
    requires forall a :: a in rings ==> a.sessionId.Some?
    ensures forall x :: x in Unnamed(rings) ==> x.sessionId.Some?
  {
    forall x | x in Unnamed(rings) ensures x.sessionId.Some? {
      var i :| 0 <= i < |rings| && Unnamed(rings)[i] == x;
      assert rings[i] in rings;
    }
  }

  /** What two ticks do for one session, against what the later one does alone. */
  lemma TickTwiceAt(m: Sessions, early: Event, late: Event, once: Event, id: Uuid)
    requires ValidTable(m) && early.Tick? && late.Tick? && once.Tick?
    requires early.mono <= late.mono == once.mono
    ensures var (m1, a1) := Apply(m, early);
            var (m2, a2) := Apply(m1, late);
            var (m3, a3) := Apply(m, once);
            && m2.Keys == m3.Keys == m.Keys
            && (id in m ==> SameButLastSeen(m2[id], m3[id]))
            && Unnamed(RingsOf(a1 + a2, id)) == Unnamed(RingsOf(a3, id))
  {
    var (m1, a1) := Apply(m, early);
    var (m2, a2) := Apply(m1, late);
    ApplyKeepsTable(m, early);
    RingsOfConcat(a1, a2, id);
    TickIsPointwise(m, early, id);
    TickIsPointwise(m1, late, id);
    TickIsPointwise(m, once, id);
    if id in m {
      TickTwiceOneSession(m[id], early, late, once);
    }
  }

  lemma TickRingsOfAreAddressed(m: Sessions, e: Event)
    requires e.Tick?
    ensures forall a :: a in Apply(m, e).1 ==> a.sessionId.Some?
  {
    TickRingsHaveSessions(m, DueIds(m, e.mono), e);
  }

  /** Ring lists that agree session by session agree as multisets. */
  lemma SameBySession(a: seq<Action>, b: seq<Action>)
    requires forall x :: x in a || x in b ==> x.sessionId.Some?
    requires forall id: Uuid :: Unnamed(RingsOf(a, id)) == Unnamed(RingsOf(b, id))
    ensures multiset(Unnamed(a)) == multiset(Unnamed(b))
  {
    forall x: Action ensures multiset(Unnamed(a))[x] == multiset(Unnamed(b))[x] {
      if x.sessionId.Some? {
        CountBySession(a, x);
        CountBySession(b, x);
      } else {
        UnnamedMembers(a);
        UnnamedMembers(b);
        assert x !in Unnamed(a) && x !in Unnamed(b);
      }
    }
  }

  lemma TickTwiceRings(m: Sessions, early: Event, late: Event, once: Event)
    requires ValidTable(m) && early.Tick? && late.Tick? && once.Tick?
    requires early.mono <= late.mono == once.mono
    ensures multiset(Unnamed(Apply(m, early).1 + Apply(Apply(m, early).0, late).1)) == multiset(Unnamed(Apply(m, once).1))
  {
    var a1 := Apply(m, early).1;
    var a2 := Apply(Apply(m, early).0, late).1;
    var a3 := Apply(m, once).1;
    TickRingsOfAreAddressed(m, early);
    TickRingsOfAreAddressed(Apply(m, early).0, late);
    TickRingsOfAreAddressed(m, once);
    forall id: Uuid ensures Unnamed(RingsOf(a1 + a2, id)) == Unnamed(RingsOf(a3, id)) {
      TickTwiceAt(m, early, late, once, id);
    }
    SameBySession(a1 + a2, a3);
  }

  /**
   With no event in between, ticking at an earlier time and then at a later one produces the same rings,
   up to order and event identifiers, and the same table, up to when sessions were last seen, as the
   later tick alone.
   */
  lemma TickScheduleIndependence(m: Sessions, early: Event, late: Event, once: Event)
    requires ValidTable(m) && early.Tick? && late.Tick? && once.Tick?
    requires early.mono <= late.mono == once.mono
    ensures var (m1, a1) := Apply(m, early);
            var (m2, a2) := Apply(m1, late);
            var (m3, a3) := Apply(m, once);
            && m2.Keys == m3.Keys == m.Keys
            && (forall id :: id in m ==> SameButLastSeen(m2[id], m3[id]))
            && multiset(Unnamed(a1 + a2)) == multiset(Unnamed(a3))
  {
    hide React, RingsOf, Unnamed;
    TickTwiceRings(m, early, late, once);
    forall id: Uuid {
      TickTwiceAt(m, early, late, once, id);
    }
    TickTwiceAt(m, early, late, once, 0);
  }
}
