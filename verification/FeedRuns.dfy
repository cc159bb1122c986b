/** One pull receiver over time: submissions, retention, and a client whose calls and answers may be delayed or lost. */
module FeedRuns {
  import opened Types
  import opened Relay
  import opened Feed
  import Protocol

  /** What the client is shown by one call: the rings in (floor, cursor]. */
  datatype Answer = Answer(floor: int, page: seq<Ring>, cursor: int)

  /**
   `acked` is the receiver's acknowledged cursor; `calls` the floor and limit of every call authenticated so far, and
   `answers` every answer sent. `seen` and `returned` are the ring ids and the cursors the client has received;
   `created` and `expired` are all the rings ever stored and those retention has removed.
   */
  datatype World = World(
    tables: Tables,
    base: int,
    acked: int,
    calls: set<(int, nat)>,
    answers: set<Answer>,
    seen: set<nat>,
    returned: set<int>,
    created: set<Ring>,
    expired: set<Ring>)

  /** A careful client never fetches from beyond the cursors it was given or has acknowledged. */
  datatype Client = Client(tags: seq<string>, careful: bool)

  datatype Step =
    | Submit(q: Request, now: int)
    | Configure(retention: nat)
    | Call(after: Option<I64>, limit: Option<U32>)
    | Respond(size: nat, answer: Answer)
    | Receive(answer: Answer)
    | Ack(cursor: int)

  function Forgotten(t: Tables, q: Request, now: int): set<Ring> {
    set r | r in t.rings && r.createdAt < now - t.retention
  }

  /** Past the acknowledged cursor, and past every cursor the client was given. */
  predicate Beyond(w: World, id: int) { w.acked < id && forall x :: x in w.returned ==> x < id }

  /** Submissions are the transaction's: message trimmed, tags sorted. */
  ghost predicate Possible(c: Client, w: World, s: Step) {
    match s
    case Submit(q, _) => Normal(q) == Some(q)
    case Configure(_) => true
    case Call(after, _) =>
      after.Some? ==> 0 <= after.value && (c.careful ==> !Beyond(w, after.value))
    case Respond(size, a) =>
      && (a.floor, size) in w.calls && 1 <= size <= 100
      && IsPage(w.tables.rings, c.tags, a.floor, size, a.page, a.cursor)
    case Receive(a) => a in w.answers
    case Ack(cursor) => cursor in w.returned
  }

  ghost function Next(w: World, s: Step): World {
    match s
    case Submit(q, now) =>
      var t := w.tables;
      if Holds(t.rings, q.source, q.event) then w else
        w.(tables := Submitted(t, q, now), created := w.created + {NewRing(t, q, now)}, expired := w.expired + Forgotten(t, q, now))
    case Configure(retention) => w.(tables := w.tables.(retention := retention))
    case Call(after, limit) =>
      w.(calls := w.calls + {(Max(if after.Some? then after.value else 0, w.acked), PageLimit(limit))})
    case Respond(_, a) => w.(answers := w.answers + {a})
    case Receive(a) => w.(seen := w.seen + (set r | r in a.page :: r.id), returned := w.returned + {a.cursor})
    case Ack(cursor) => w.(acked := Max(w.acked, cursor))
  }

  /** The receiver has just been registered. */
  ghost predicate Initial(w: World) {
    && w.tables.Valid() && w.base == InitialCursor(w.tables.rings) && w.acked == w.base
    && w.calls == {} && w.answers == {} && w.seen == {} && w.returned == {} && w.expired == {}
    && (forall r :: r in w.created <==> r in w.tables.rings)
  }

  ghost predicate Reaches(c: Client, start: World, steps: seq<Step>, w: World) {
    if steps == [] then w == start else
      var rest, last := steps[..|steps| - 1], steps[|steps| - 1];
      exists before :: Reaches(c, start, rest, before) && Possible(c, before, last) && w == Next(before, last)
  }

  // ----- what holds in every reachable world -----

  /** Nothing the receiver should see lies between its registration and the cursor, except what it has seen. */
  ghost predicate Covered(c: Client, w: World, cursor: int) {
    && cursor <= w.tables.lastId
    && forall r :: r in w.tables.rings && w.base < r.id <= cursor && TagsMatch(c.tags, r.tags) ==> r.id in w.seen
  }

  ghost predicate AnswerCovers(c: Client, w: World, a: Answer) {
    && Covered(c, w, a.floor) && a.cursor <= w.tables.lastId
    && (forall r :: r in w.tables.rings && a.floor < r.id <= a.cursor && TagsMatch(c.tags, r.tags) ==> r in a.page)
    && (forall r :: r in a.page ==> r.id <= a.cursor)
  }

  ghost predicate Kept(c: Client, w: World) {
    && w.tables.Valid()
    && 0 <= w.base <= w.acked && Covered(c, w, w.acked)
    && (forall x :: x in w.returned ==> Covered(c, w, x))
    && (forall x :: x in w.calls ==> Covered(c, w, x.0))
    && (forall a :: a in w.answers ==> AnswerCovers(c, w, a))
    && SeenWithin(w)
    && (forall r :: r in w.created ==> r in w.tables.rings || r in w.expired)
  }

  /** Every ring the client has seen came with a cursor that reaches it. */
  ghost predicate SeenWithin(w: World) {
    forall id: nat :: id in w.seen ==> exists x :: x in w.returned && id <= x
  }

  /** The rings after a step are old ones, or have an id no cursor has reached. */
  lemma CoverageLasts(c: Client, w: World, w': World, cursor: int)
    requires Covered(c, w, cursor) && w.base == w'.base && w.seen <= w'.seen && w.tables.lastId <= w'.tables.lastId
    requires forall r :: r in w'.tables.rings ==> r in w.tables.rings || w.tables.lastId < r.id
    ensures Covered(c, w', cursor)
  {
    hide TagsMatch;
  }

  lemma AnswersLast(c: Client, w: World, w': World, a: Answer)
    requires AnswerCovers(c, w, a) && w.base == w'.base && w.seen <= w'.seen && w.tables.lastId <= w'.tables.lastId
    requires forall r :: r in w'.tables.rings ==> r in w.tables.rings || w.tables.lastId < r.id
    ensures AnswerCovers(c, w', a)
  {
    hide TagsMatch, Covered;
    CoverageLasts(c, w, w', a.floor);
  }

  lemma SubmittedRings(t: Tables, q: Request, now: int)
    requires !Holds(t.rings, q.source, q.event)
    ensures var ring, t' := NewRing(t, q, now), Submitted(t, q, now);
            && t'.lastId == t.lastId + 1 && ring.id == t'.lastId && ring in t'.rings
            && forall r :: r in t'.rings <==> r == ring || (r in t.rings && r !in Forgotten(t, q, now))
  {
    hide Cascaded, Matched, MatchedPulls, QueuedFor, Holds;
    var ring := NewRing(t, q, now);
    assert forall r :: r in t.rings + [ring] <==> r in t.rings || r == ring;
  }

  lemma SubmitKept(c: Client, w: World, q: Request, now: int)
    requires Kept(c, w)
    ensures Kept(c, Next(w, Submit(q, now)))
  {
    hide Covered, AnswerCovers, Submitted, Tables.Valid, Forgotten, Holds;
    var w' := Next(w, Submit(q, now));
    SubmissionKeepsTables(w.tables, q, now);
    if !Holds(w.tables.rings, q.source, q.event) {
      SubmittedRings(w.tables, q, now);
      LastingKept(c, w, w');
    }
  }

  /** The parts of the invariant that last when rings come and go. */
  lemma LastingKept(c: Client, w: World, w': World)
    requires Kept(c, w) && w.base == w'.base && w.seen <= w'.seen && w.tables.lastId <= w'.tables.lastId
    requires forall r :: r in w'.tables.rings ==> r in w.tables.rings || w.tables.lastId < r.id
    ensures Covered(c, w', w.acked)
    ensures forall x :: x in w.returned ==> Covered(c, w', x)
    ensures forall x :: x in w.calls ==> Covered(c, w', x.0)
    ensures forall a :: a in w.answers ==> AnswerCovers(c, w', a)
  {
    hide Covered, AnswerCovers, Tables.Valid;
    CoverageLasts(c, w, w', w.acked);
    forall x | x in w.returned ensures Covered(c, w', x) { CoverageLasts(c, w, w', x); }
    forall x | x in w.calls ensures Covered(c, w', x.0) { CoverageLasts(c, w, w', x.0); }
    forall a | a in w.answers ensures AnswerCovers(c, w', a) { AnswersLast(c, w, w', a); }
  }

  lemma PageCovers(c: Client, w: World, size: nat, a: Answer)
    requires w.tables.Valid() && Covered(c, w, a.floor) && 1 <= size <= 100
    requires IsPage(w.tables.rings, c.tags, a.floor, size, a.page, a.cursor)
    ensures AnswerCovers(c, w, a)
  {
    CursorAdvances(w.tables.rings, c.tags, a.floor, size, a.page, a.cursor);
    PageMatches(w.tables.rings, c.tags, a.floor, size, Reply(a.page, a.cursor));
    hide IsPage, Matching, Above, TagsMatch, Ordered, UniqueKeys, Rooted;
  }

  lemma RespondKept(c: Client, w: World, size: nat, a: Answer)
    requires Kept(c, w) && Possible(c, w, Respond(size, a))
    ensures Kept(c, Next(w, Respond(size, a)))
  {
    hide Covered, AnswerCovers, Tables.Valid, IsPage, SeenWithin;
    var w' := Next(w, Respond(size, a));
    assert (a.floor, size) in w.calls;
    PageCovers(c, w, size, a);
    LastingKept(c, w, w');
    AnswersLast(c, w, w', a);
    SameSeen(w, w');
  }

  lemma ReceiveKept(c: Client, w: World, a: Answer)
    requires Kept(c, w) && a in w.answers
    ensures Kept(c, Next(w, Receive(a)))
  {
    hide TagsMatch, Tables.Valid;
    var w' := Next(w, Receive(a));
    assert AnswerCovers(c, w, a);
    assert Covered(c, w', a.cursor);
    forall id: nat | id in w'.seen ensures exists x :: x in w'.returned && id <= x {
      if id in w.seen {
        var x :| x in w.returned && id <= x;
        assert x in w'.returned;
      } else {
        assert a.cursor in w'.returned;
      }
    }
    hide Covered, AnswerCovers, SeenWithin;
    LastingKept(c, w, w');
  }

  /** A call is covered exactly if nothing unseen lies below it. */
  lemma CallKept(c: Client, w: World, after: Option<I64>, limit: Option<U32>)
    requires Kept(c, w) && (after.Some? ==> Covered(c, w, after.value))
    ensures Kept(c, Next(w, Call(after, limit)))
  {
    hide Covered, AnswerCovers, Tables.Valid, SeenWithin;
    var w' := Next(w, Call(after, limit));
    LastingKept(c, w, w');
    SameSeen(w, w');
    if after.Some? { CoverageLasts(c, w, w', after.value); }
  }

  lemma SameSeen(w: World, w': World)
    requires SeenWithin(w) && w'.seen == w.seen && w'.returned == w.returned
    ensures SeenWithin(w')
  {
  }

  lemma CoveredUpTo(c: Client, w: World, cursor: int)
    requires Kept(c, w) && !Beyond(w, cursor)
    ensures Covered(c, w, cursor)
  {
    if cursor <= w.acked {
      assert Covered(c, w, w.acked);
    } else {
      var x :| x in w.returned && cursor <= x;
      assert Covered(c, w, x);
    }
  }

  lemma StepKept(c: Client, w: World, s: Step)
    requires c.careful && Kept(c, w) && Possible(c, w, s)
    ensures Kept(c, Next(w, s))
  {
    hide Kept, Beyond;
    match s
    case Submit(q, now) => SubmitKept(c, w, q, now);
    case Respond(limit, a) => RespondKept(c, w, limit, a);
    case Receive(a) => ReceiveKept(c, w, a);
    case Call(after, limit) =>
      if after.Some? { CoveredUpTo(c, w, after.value); }
      CallKept(c, w, after, limit);
    case _ => QuietKept(c, w, s);
  }

  lemma QuietKept(c: Client, w: World, s: Step)
    requires Kept(c, w) && Possible(c, w, s) && (s.Configure? || s.Ack?)
    ensures Kept(c, Next(w, s))
  {
    var w' := Next(w, s);
    assert w'.tables.Valid();
    hide Covered, AnswerCovers, Tables.Valid, SeenWithin;
    LastingKept(c, w, w');
    SameSeen(w, w');
  }

  lemma InitiallyKept(c: Client, w: World)
    requires Initial(w)
    ensures Kept(c, w)
  {
    if w.tables.rings != [] {
      assert Last(w.tables.rings) in w.tables.rings;
    }
  }

  lemma {:induction false} KeptFrom(c: Client, start: World, steps: seq<Step>, w: World)
    requires c.careful && Kept(c, start) && Reaches(c, start, steps, w)
    ensures Kept(c, w) && w.base == start.base
  {
    if steps == [] {
    } else {
      hide Kept, Possible;
      var rest, last := steps[..|steps| - 1], steps[|steps| - 1];
      var before :| Reaches(c, start, rest, before) && Possible(c, before, last) && w == Next(before, last);
      KeptFrom(c, start, rest, before);
      StepKept(c, before, last);
    }
  }

  /**
   Over every run of a client that fetches from no cursor beyond those it was given or has acknowledged, and
   acknowledges only cursors it was given: every ring ever stored that the receiver should see and that came after its
   registration has been seen, or is still above the acknowledged cursor and will be, or was removed by retention.
   */
  lemma NothingSkipped(c: Client, start: World, steps: seq<Step>, w: World, r: Ring)
    requires c.careful && Initial(start) && Reaches(c, start, steps, w)
    requires r in w.created && start.base < r.id && TagsMatch(c.tags, r.tags)
    ensures r.id in w.seen || (r in w.tables.rings && w.acked < r.id) || r in w.expired
  {
    InitiallyKept(c, start);
    hide TagsMatch, Reaches, Initial;
    KeptFrom(c, start, steps, w);
  }

  /** What a step can do to the acknowledged cursor, the calls and the answers. */
  ghost predicate Follows(w: World, w': World) {
    && w.acked <= w'.acked
    && (forall x :: x in w'.calls ==> x in w.calls || w.acked <= x.0)
    && (forall a :: a in w'.answers ==> a in w.answers || (exists x :: x in w'.calls && x.0 == a.floor))
    && (forall a :: a in w'.answers && a !in w.answers ==> forall r :: r in a.page ==> a.floor < r.id)
  }

  lemma StepFollows(c: Client, w: World, s: Step)
    requires Possible(c, w, s)
    ensures Follows(w, Next(w, s)) && w.calls <= Next(w, s).calls
  {
    hide Submitted, NewRing, Holds;
    if s.Respond? {
      assert (s.answer.floor, s.size) in w.calls;
    }
  }

  lemma FollowsChain(a: World, b: World, c: World)
    requires Follows(a, b) && Follows(b, c) && b.calls <= c.calls
    ensures Follows(a, c)
  {
  }

  lemma {:induction false} RunFollows(c: Client, w: World, steps: seq<Step>, w': World)
    requires Reaches(c, w, steps, w')
    ensures Follows(w, w') && w.calls <= w'.calls
  {
    if steps == [] {
    } else {
      hide Possible, Follows;
      var rest, last := steps[..|steps| - 1], steps[|steps| - 1];
      var before :| Reaches(c, w, rest, before) && Possible(c, before, last) && w' == Next(before, last);
      RunFollows(c, w, rest, before);
      StepFollows(c, before, last);
      FollowsChain(w, before, w');
    }
  }

  /**
   From any point of any run on, the acknowledged cursor never decreases, and an answer to a call authenticated
   after that point has no ring at or below the cursor acknowledged then.
   */
  lemma AcknowledgedForGood(c: Client, w: World, steps: seq<Step>, w': World)
    requires Reaches(c, w, steps, w')
    ensures w.acked <= w'.acked
    ensures forall a, r :: a in w'.answers && a !in w.answers && r in a.page && (forall x :: x in w.calls ==> x.0 != a.floor)
              ==> w.acked < r.id
  {
    hide Reaches;
    RunFollows(c, w, steps, w');
  }

  /** A ring is removed only when it is older than the retention. */
  lemma RemovedByRetention(w: World, s: Step, r: Ring)
    requires r in w.tables.rings && r !in Next(w, s).tables.rings
    ensures s.Submit? && r.createdAt < s.now - w.tables.retention && r in Next(w, s).expired
  {
    hide Cascaded, Matched, MatchedPulls, QueuedFor, Holds;
    if s.Submit? && !Holds(w.tables.rings, s.q.source, s.q.event) {
      SubmittedRings(w.tables, s.q, s.now);
    }
  }

  // ----- a call beyond the client's cursors -----

  /** A stored ring that the receiver should have seen was acknowledged unseen. */
  ghost predicate Lost(c: Client, w: World, r: Ring) {
    r in w.tables.rings && TagsMatch(c.tags, r.tags) && w.base < r.id <= w.acked && r.id !in w.seen
  }

  /** After this one call, a client that is careful from then on can still come to acknowledge an unseen ring. */
  ghost predicate CanSkip(c: Client, w: World, after: I64, limit: Option<U32>) {
    exists more, w', r :: Reaches(Client(c.tags, true), Next(w, Call(Some(after), limit)), more, w') && Lost(c, w', r)
  }

  /** The call reaches past every id given out, or past a stored ring that lies beyond the client's cursors. */
  ghost predicate Overtakes(c: Client, w: World, after: int) {
    w.tables.lastId < after || exists r :: r in w.tables.rings && TagsMatch(c.tags, r.tags) && Beyond(w, r.id) && r.id <= after
  }

  lemma NotOvertaken(c: Client, w: World, after: int)
    requires Kept(c, w) && !Overtakes(c, w, after)
    ensures Covered(c, w, after)
  {
    forall r | r in w.tables.rings && w.base < r.id <= after && TagsMatch(c.tags, r.tags) ensures r.id in w.seen {
      assert !Beyond(w, r.id);
      CoveredUpTo(c, w, r.id);
    }
  }

  /** A call that overtakes nothing loses nothing. */
  lemma SafeCall(c: Client, w: World, after: I64, limit: Option<U32>)
    requires Kept(c, w) && !Overtakes(c, w, after)
    ensures !CanSkip(c, w, after, limit)
  {
    var careful, called := Client(c.tags, true), Next(w, Call(Some(after), limit));
    NotOvertaken(c, w, after);
    CallKept(c, w, Some(after), limit);
    SameTags(c, careful, called);
    forall more, w', r | Reaches(careful, called, more, w') ensures !Lost(c, w', r) {
      KeptFrom(careful, called, more, w');
    }
  }

  lemma SameTags(c: Client, c': Client, w: World)
    requires Kept(c, w) && c'.tags == c.tags
    ensures Kept(c', w)
  {
    forall a | a in w.answers ensures AnswerCovers(c', w, a) { assert AnswerCovers(c, w, a); }
    forall x | x in w.returned ensures Covered(c', w, x) { assert Covered(c, w, x); }
    forall x | x in w.calls ensures Covered(c', w, x.0) { assert Covered(c, w, x.0); }
    assert Covered(c, w, w.acked) ==> Covered(c', w, w.acked);
  }

  lemma StartReached(c: Client, w: World)
    ensures Reaches(c, w, [], w)
  {
  }

  lemma Extended(c: Client, start: World, steps: seq<Step>, w: World, s: Step)
    requires Reaches(c, start, steps, w) && Possible(c, w, s)
    ensures Reaches(c, start, steps + [s], Next(w, s))
  {
    hide Possible, Next;
    assert (steps + [s])[..|steps + [s]| - 1] == steps;
  }

  /** The call is answered, the answer received and its cursor acknowledged. */
  lemma AnsweredAndAcked(c: Client, w: World, floor: int, size: nat) returns (steps: seq<Step>, w': World)
    requires c.careful && w.tables.Valid() && (floor, size) in w.calls && 1 <= size <= 100 && w.acked <= floor
    ensures Reaches(c, w, steps, w') && w'.tables == w.tables && w'.base == w.base && floor <= w'.acked
    ensures forall id: nat :: id in w'.seen && id !in w.seen ==> floor < id
    ensures w.tables.lastId <= floor ==> w'.seen == w.seen
  {
    hide Reaches, IsPage, Matching, Above;
    var page, cursor := PageExists(w.tables.rings, c.tags, floor, size);
    CursorAdvances(w.tables.rings, c.tags, floor, size, page, cursor);
    PageMatches(w.tables.rings, c.tags, floor, size, Reply(page, cursor));
    var a := Answer(floor, page, cursor);
    var w1 := Next(w, Respond(size, a));
    var w2 := Next(w1, Receive(a));
    StartReached(c, w);
    Extended(c, w, [], w, Respond(size, a));
    Extended(c, w, [] + [Respond(size, a)], w1, Receive(a));
    Extended(c, w, [] + [Respond(size, a)] + [Receive(a)], w2, Ack(cursor));
    steps := [] + [Respond(size, a)] + [Receive(a)] + [Ack(cursor)];
    w' := Next(w2, Ack(cursor));
    assert forall r :: r in page ==> floor < r.id <= w.tables.lastId;
  }

  /** A source no stored ring comes from. */
  lemma {:induction false} NewSource(rings: seq<Ring>) returns (source: Uuid)
    ensures forall r :: r in rings ==> r.source < source
  {
    if rings == [] {
      source := 0;
    } else {
      var below := NewSource(rings[..|rings| - 1]);
      source := Max(below, Last(rings).source + 1);
      assert rings == rings[..|rings| - 1] + [Last(rings)];
    }
  }

  /** A ring for everyone comes when its id has been acknowledged already. */
  lemma LostOnArrival(c: Client, w: World) returns (s: Step, r: Ring)
    requires w.base <= w.tables.lastId < w.acked && forall id: nat :: id in w.seen ==> id <= w.tables.lastId
    ensures Possible(c, w, s) && Lost(c, Next(w, s), r)
  {
    var source := NewSource(w.tables.rings);
    var q := Request(source, 0, None, []);
    s := Submit(q, 0);
    r := NewRing(w.tables, q, 0);
    assert !Holds(w.tables.rings, source, 0);
    SubmittedRings(w.tables, q, 0);
  }

  /** A call that overtakes something can lose a ring: the client need only acknowledge what it is given. */
  lemma UnsafeCall(c: Client, w: World, after: I64, limit: Option<U32>)
    requires Kept(c, w) && 0 <= after && Overtakes(c, w, after)
    ensures CanSkip(c, w, after, limit)
  {
    var careful, called := Client(c.tags, true), Next(w, Call(Some(after), limit));
    var floor, size := Max(after, w.acked), PageLimit(limit);
    assert (floor, size) in called.calls;
    BelowLast(c, w);
    var steps, acked := AnsweredAndAcked(careful, called, floor, size);
    if w.tables.lastId < after {
      var s, r := LostOnArrival(careful, acked);
      Extended(careful, called, steps, acked, s);
      assert Lost(c, Next(acked, s), r);
    } else {
      var r :| r in w.tables.rings && TagsMatch(c.tags, r.tags) && Beyond(w, r.id) && r.id <= after;
      assert r.id !in w.seen;
      assert Lost(c, acked, r);
    }
  }

  /** Cursors and seen rings stay within the ids given out. */
  lemma BelowLast(c: Client, w: World)
    requires Kept(c, w)
    ensures w.base <= w.acked <= w.tables.lastId && forall id: nat :: id in w.seen ==> id <= w.tables.lastId
    ensures forall id: nat :: id in w.seen ==> !Beyond(w, id)
  {
    hide Tables.Valid, TagsMatch;
    forall id: nat | id in w.seen ensures id <= w.tables.lastId && !Beyond(w, id) {
      var x :| x in w.returned && id <= x;
      assert Covered(c, w, x);
    }
  }

  /**
   The condition on fetches is exact, from every reachable world: one call from `after` can lead to a ring being skipped
   if and only if it overtakes something. A call no further than the client's cursors overtakes nothing.
   */
  lemma CallSkipsExactly(c: Client, start: World, steps: seq<Step>, w: World, after: I64, limit: Option<U32>)
    requires c.careful && Initial(start) && Reaches(c, start, steps, w) && 0 <= after
    ensures CanSkip(c, w, after, limit) <==> Overtakes(c, w, after)
    ensures !Beyond(w, after) ==> !Overtakes(c, w, after)
  {
    InitiallyKept(c, start);
    KeptFrom(c, start, steps, w);
    hide Kept, Reaches, Initial, CanSkip, TagsMatch;
    BelowLast(c, w);
    if Overtakes(c, w, after) {
      UnsafeCall(c, w, after, limit);
    } else {
      SafeCall(c, w, after, limit);
    }
    BeyondGrows(c, w, after);
  }

  lemma BeyondGrows(c: Client, w: World, after: int)
    requires Kept(c, w)
    ensures !Beyond(w, after) ==> !Overtakes(c, w, after)
  {
    BelowLast(c, w);
    hide TagsMatch;
  }

  // ----- from a registration on -----

  const EMPTY := Tables([], 0, map[], map[], [], 1_000)
  const FOR_ALL := Request(0, 10, None, [])
  const FOR_PHONES := Request(0, 11, None, ["phone"])

  /** A receiver registered before any ring came. */
  function Registered(): World { World(EMPTY, 0, 0, {}, {}, {}, {}, {}, {}) }

  lemma Registers()
    ensures Initial(Registered())
  {
  }

  lemma SubmitStep(c: Client, w: World, q: Request)
    requires Normal(q) == Some(q) && !Holds(w.tables.rings, q.source, q.event)
    ensures Possible(c, w, Submit(q, 0))
    ensures Next(w, Submit(q, 0)) == w.(tables := Submitted(w.tables, q, 0),
                                        created := w.created + {NewRing(w.tables, q, 0)},
                                        expired := w.expired + Forgotten(w.tables, q, 0))
  {
    hide Normal, Submitted, Holds, Forgotten, NewRing;
  }

  /** The rings two submissions make. */
  lemma TwoSubmissions(c: Client, q: Request, q': Request) returns (steps: seq<Step>, w: World)
    requires Normal(q) == Some(q) && Normal(q') == Some(q') && q.event != q'.event
    ensures Reaches(c, Registered(), steps, w) && w.acked == 0 && w.returned == {} && w.seen == {} && w.tables.lastId == 2
    ensures forall r :: r in w.tables.rings <==> r == NewRing(EMPTY, q, 0) || r == NewRing(Submitted(EMPTY, q, 0), q', 0)
  {
    hide Reaches, Normal, Possible, Next, Submitted;
    var w0, s, s' := Registered(), Submit(q, 0), Submit(q', 0);
    StartReached(c, w0);
    SubmitStep(c, w0, q);
    Extended(c, w0, [], w0, s);
    SubmittedRings(EMPTY, q, 0);
    var w1 := Next(w0, s);
    forall i | 0 <= i < |w1.tables.rings| ensures w1.tables.rings[i].event == q.event {
      assert w1.tables.rings[i] in w1.tables.rings;
    }
    assert !Holds(w1.tables.rings, q'.source, q'.event);
    SubmittedRings(w1.tables, q', 0);
    SubmitStep(c, w1, q');
    Extended(c, w0, [] + [s], w1, s');
    steps, w := [] + [s] + [s'], Next(w1, s');
    assert NewRing(EMPTY, q, 0) !in Forgotten(w1.tables, q', 0);
  }

  lemma TagsAsSent()
    ensures Normal(FOR_ALL) == Some(FOR_ALL) && Normal(FOR_PHONES) == Some(FOR_PHONES)
  {
    Protocol.SortedTagsAscend([]);
    Protocol.SortedTagsAscend(["phone"]);
  }

  /**
   A receiver is registered and two rings come. A client that first fetches from beyond the first of them can come to
   acknowledge a ring it was never shown.
   */
  lemma MadeUpCursorsSkip() returns (c: Client, steps: seq<Step>, w: World)
    ensures c.careful && Initial(Registered()) && Reaches(c, Registered(), steps, w)
    ensures Beyond(w, 1) && CanSkip(c, w, 1, None)
  {
    c := Client([], true);
    TagsAsSent();
    Registers();
    steps, w := TwoSubmissions(c, FOR_ALL, FOR_PHONES);
    hide Reaches, Initial, CanSkip, Normal, TagsMatch;
    CallSkipsExactly(c, Registered(), steps, w, 1, None);
    ForEveryone();
    assert NewRing(EMPTY, FOR_ALL, 0) in w.tables.rings;
  }

  lemma ForEveryone()
    ensures NewRing(EMPTY, FOR_ALL, 0).id == 1 && forall tags :: TagsMatch(tags, NewRing(EMPTY, FOR_ALL, 0).tags)
  {
  }

  /** A call beyond the client's cursors is harmless if all it passes is meant for others. */
  lemma PassingOthersIsSafe() returns (c: Client, steps: seq<Step>, w: World)
    ensures c.careful && Initial(Registered()) && Reaches(c, Registered(), steps, w)
    ensures Beyond(w, 1) && !CanSkip(c, w, 1, None)
  {
    c := Client(["pc"], true);
    TagsAsSent();
    Registers();
    steps, w := TwoSubmissions(c, FOR_PHONES, FOR_ALL);
    hide Reaches, Initial, CanSkip, Normal;
    CallSkipsExactly(c, Registered(), steps, w, 1, None);
    assert NewRing(EMPTY, FOR_PHONES, 0).id == 1 && NewRing(Submitted(EMPTY, FOR_PHONES, 0), FOR_ALL, 0).id == 2;
  }
}
