/** The relay's idempotent ring submission: one transaction, then one push attempt for each matched receiver. */
module Relay {
  import opened Types
  import Protocol

  datatype Ring = Ring(
    id: nat,
    source: Uuid,
    event: Uuid,
    message: Option<string>,
    tags: seq<string>,
    createdAt: int,
    matched: nat)

  datatype Receiver = Receiver(tags: seq<string>, enabled: bool, revoked: bool)

  datatype DeliveryStatus = Queued | Delivered | TransientFailure | PermanentFailure

  /** `rings` in id order; `lastId` is the greatest id ever given; `pullTags` the tags of live pull receivers. */
  datatype Tables = Tables(
    rings: seq<Ring>,
    lastId: nat,
    deliveries: map<(nat, Uuid), DeliveryStatus>,
    receivers: map<Uuid, Receiver>,
    pullTags: seq<seq<string>>,
    retention: nat)
  {
    ghost predicate Valid() {
      && Bounded(rings, lastId) && Ordered(rings) && UniqueKeys(rings) && Rooted(deliveries, rings)
    }
  }

  ghost predicate Bounded(rings: seq<Ring>, lastId: nat) {
    forall r :: r in rings ==> 1 <= r.id <= lastId
  }

  /** Every delivery belongs to a ring. */
  ghost predicate Rooted(deliveries: map<(nat, Uuid), DeliveryStatus>, rings: seq<Ring>) {
    forall k :: k in deliveries ==> exists r :: r in rings && r.id == k.0
  }

  ghost predicate Ordered(rings: seq<Ring>) {
    forall i, j :: 0 <= i < j < |rings| ==> rings[i].id < rings[j].id
  }

  /** No two rings have the same source and event. */
  ghost predicate UniqueKeys(rings: seq<Ring>) {
    forall i, j :: 0 <= i < j < |rings| ==> rings[i].source != rings[j].source || rings[i].event != rings[j].event
  }

  datatype Request = Request(source: Uuid, event: Uuid, message: Option<string>, tags: seq<string>)

  /** A request as the transaction sees it, message trimmed and tags sorted, unless it is refused. */
  function Normal(q: Request): Option<Request> {
    var message, tags := Protocol.ValidMessage(q.message), Protocol.ValidTags(q.tags);
    if message.None? || tags.None? then None else Some(q.(message := message.value, tags := tags.value))
  }

  datatype Response = Response(event: Uuid, acceptedAt: int, duplicate: bool, matched: nat)

  /** The HTTP status of an answer: OK for a ring the relay already had, Accepted for a new one. */
  function StatusCode(r: Response): nat { if r.duplicate then 200 else 202 }

  /** An empty target list addresses everyone; otherwise one common tag is enough. */
  predicate TagsMatch(receiverTags: seq<string>, targetTags: seq<string>) {
    targetTags == [] || exists tag :: tag in targetTags && tag in receiverTags
  }

  predicate Holds(rings: seq<Ring>, source: Uuid, event: Uuid) {
    exists i :: 0 <= i < |rings| && rings[i].source == source && rings[i].event == event
  }

  function Matched(t: Tables, tags: seq<string>): set<Uuid> {
    set id | id in t.receivers && t.receivers[id].enabled && !t.receivers[id].revoked && TagsMatch(t.receivers[id].tags, tags)
  }

  function MatchedPulls(pullTags: seq<seq<string>>, tags: seq<string>): nat {
    if pullTags == [] then 0
    else MatchedPulls(pullTags[..|pullTags| - 1], tags) + (if TagsMatch(pullTags[|pullTags| - 1], tags) then 1 else 0)
  }

  /** What retention leaves of the history. */
  function Retained(rings: seq<Ring>, cutoff: int): (kept: seq<Ring>)
    ensures forall r :: r in kept <==> r in rings && r.createdAt >= cutoff
  {
    if rings == [] then [] else
      var last := rings[|rings| - 1];
      Retained(rings[..|rings| - 1], cutoff) + (if last.createdAt >= cutoff then [last] else [])
  }

  /** Deliveries are deleted with their ring. */
  function Cascaded(deliveries: map<(nat, Uuid), DeliveryStatus>, rings: seq<Ring>): map<(nat, Uuid), DeliveryStatus> {
    map k | k in deliveries && (exists r :: r in rings && r.id == k.0) :: deliveries[k]
  }

  /** One queued delivery for each matched receiver. */
  function QueuedFor(ring: nat, matched: set<Uuid>): map<(nat, Uuid), DeliveryStatus> {
    map id | id in matched :: (ring, id) := Queued
  }

  function NewRing(t: Tables, q: Request, now: int): Ring {
    Ring(t.lastId + 1, q.source, q.event, q.message, q.tags, now, |Matched(t, q.tags)| + MatchedPulls(t.pullTags, q.tags))
  }

  /** The tables after the transaction of a submission. */
  function Submitted(t: Tables, q: Request, now: int): Tables {
    if Holds(t.rings, q.source, q.event) then t else
      var ring := NewRing(t, q, now);
      var rings := Retained(t.rings + [ring], now - t.retention);
      t.(rings := rings, lastId := ring.id, deliveries := Cascaded(t.deliveries + QueuedFor(ring.id, Matched(t, q.tags)), rings))
  }

  /** The tables after a request: a refused one changes nothing. */
  function Handled(t: Tables, q: Request, now: int): Tables {
    if Normal(q).None? then t else Submitted(t, Normal(q).value, now)
  }

  /** Sorting the tags of a request does not change which receivers it is for. */
  lemma NormalMatchesAlike(q: Request, receiverTags: seq<string>)
    requires Normal(q).Some?
    ensures TagsMatch(receiverTags, Normal(q).value.tags) <==> TagsMatch(receiverTags, q.tags)
  {
    Protocol.SortedTagsAscend(q.tags);
    var tags := Normal(q).value.tags;
    assert forall tag :: tag in tags <==> tag in q.tags;
    if q.tags != [] { assert q.tags[0] in tags; }
    if tags != [] { assert tags[0] in q.tags; }
  }

  /** What the relay stores is what was sent exactly if the message is tight and the tags are in order. */
  lemma NormalExactly(q: Request)
    requires Normal(q).Some?
    ensures Normal(q) == Some(q) <==> (q.message.Some? ==> Protocol.Tight(q.message.value)) && Protocol.Ascending(q.tags)
    ensures Normal(Normal(q).value) == Normal(q)
  {
    hide Protocol.Trim, Protocol.SortedTags, Protocol.Tight, Protocol.Ascending;
    Protocol.SortedTagsAscend(q.tags);
    Protocol.SortedTagsAscend(Protocol.SortedTags(q.tags));
    if q.message.Some? {
      var _, _ := Protocol.TrimIsTight(q.message.value);
      var _, _ := Protocol.TrimIsTight(Protocol.Trim(q.message.value));
    }
  }

  lemma OrderedSnoc(rings: seq<Ring>, last: Ring)
    requires Ordered(rings) && UniqueKeys(rings)
    requires forall r :: r in rings ==> r.id < last.id && (r.source != last.source || r.event != last.event)
    ensures Ordered(rings + [last]) && UniqueKeys(rings + [last])
  {
    var all := rings + [last];
    forall i, j | 0 <= i < j < |all|
      ensures all[i].id < all[j].id && (all[i].source != all[j].source || all[i].event != all[j].event)
    {
      assert all[i] in rings;
    }
  }

  lemma OrderedPrefix(rings: seq<Ring>)
    requires rings != [] && Ordered(rings) && UniqueKeys(rings)
    ensures var rest, last := rings[..|rings| - 1], rings[|rings| - 1];
            && Ordered(rest) && UniqueKeys(rest)
            && forall r :: r in rest ==> r.id < last.id && (r.source != last.source || r.event != last.event)
  {
  }

  lemma {:induction false} RetainedIsOrdered(rings: seq<Ring>, cutoff: int)
    requires Ordered(rings) && UniqueKeys(rings)
    ensures Ordered(Retained(rings, cutoff)) && UniqueKeys(Retained(rings, cutoff))
  {
    if rings == [] {
    } else {
      hide Ordered, UniqueKeys;
      var rest, last := rings[..|rings| - 1], rings[|rings| - 1];
      OrderedPrefix(rings);
      RetainedIsOrdered(rest, cutoff);
      OrderedSnoc(Retained(rest, cutoff), last);
      assert Retained(rest, cutoff) + [] == Retained(rest, cutoff);
    }
  }

  lemma NotHeld(rings: seq<Ring>, source: Uuid, event: Uuid)
    requires !Holds(rings, source, event)
    ensures forall r :: r in rings ==> r.source != source || r.event != event
  {
  }

  lemma HeldBy(rings: seq<Ring>, r: Ring)
    requires r in rings
    ensures Holds(rings, r.source, r.event)
  {
  }

  lemma CascadedIsRooted(deliveries: map<(nat, Uuid), DeliveryStatus>, rings: seq<Ring>)
    ensures Rooted(Cascaded(deliveries, rings), rings)
  {
  }

  lemma RetainedIsBounded(rings: seq<Ring>, ring: Ring, cutoff: int)
    requires forall r :: r in rings ==> 1 <= r.id < ring.id
    requires 1 <= ring.id
    ensures Bounded(Retained(rings + [ring], cutoff), ring.id)
    ensures ring.createdAt >= cutoff ==> ring in Retained(rings + [ring], cutoff)
  {
    assert forall r :: r in rings + [ring] <==> r in rings || r == ring;
  }

  /** Appending a ring with a new id and key, and applying retention, keeps the history in order. */
  lemma RingsStayInOrder(rings: seq<Ring>, lastId: nat, ring: Ring, cutoff: int)
    requires Bounded(rings, lastId) && Ordered(rings) && UniqueKeys(rings)
    requires ring.id == lastId + 1 && cutoff <= ring.createdAt && !Holds(rings, ring.source, ring.event)
    ensures var kept := Retained(rings + [ring], cutoff);
            && Bounded(kept, ring.id) && Ordered(kept) && UniqueKeys(kept)
            && Holds(kept, ring.source, ring.event)
  {
    NotHeld(rings, ring.source, ring.event);
    OrderedSnoc(rings, ring);
    RetainedIsOrdered(rings + [ring], cutoff);
    RetainedIsBounded(rings, ring, cutoff);
    HeldBy(Retained(rings + [ring], cutoff), ring);
  }

  /** A submission keeps ids increasing and the pair (source, event) unique. */
  lemma SubmissionKeepsTables(t: Tables, q: Request, now: int)
    requires t.Valid()
    ensures Submitted(t, q, now).Valid()
    ensures Holds(Submitted(t, q, now).rings, q.source, q.event)
  {
    hide Ordered, UniqueKeys, Bounded, Rooted, Retained, Cascaded, Matched, MatchedPulls, Holds, QueuedFor, TagsMatch;
    if !Holds(t.rings, q.source, q.event) {
      var ring := NewRing(t, q, now);
      RingsStayInOrder(t.rings, t.lastId, ring, now - t.retention);
      CascadedIsRooted(t.deliveries + QueuedFor(ring.id, Matched(t, q.tags)), Retained(t.rings + [ring], now - t.retention));
    }
  }

  /** Submitting again changes nothing, as long as retention has not removed the ring. */
  lemma SubmissionIsIdempotent(t: Tables, q: Request, now: int, later: int)
    requires t.Valid()
    ensures Submitted(Submitted(t, q, now), q, later) == Submitted(t, q, now)
  {
    hide Tables.Valid;
    SubmissionKeepsTables(t, q, now);
  }

  /** Another request removes a ring from the history exactly if it is a new one and the ring is older than the retention. */
  lemma ForgottenByRetention(t: Tables, r: Ring, q: Request, now: int)
    requires t.Valid() && r in t.rings
    ensures Holds(Submitted(t, q, now).rings, r.source, r.event)
            <==> Holds(t.rings, q.source, q.event) || r.createdAt >= now - t.retention
  {
    hide Cascaded, Matched, MatchedPulls, QueuedFor, Bounded, Rooted, Ordered;
    HeldBy(t.rings, r);
    if !Holds(t.rings, q.source, q.event) {
      var ring := NewRing(t, q, now);
      var kept := Submitted(t, q, now).rings;
      assert forall x :: x in t.rings + [ring] <==> x in t.rings || x == ring;
      NotHeld(t.rings, q.source, q.event);
      if r in kept {
        HeldBy(kept, r);
      } else {
        forall x | x in kept ensures x.source != r.source || x.event != r.event {
          SameKeySameRing(t.rings, x, r);
        }
      }
    }
  }

  lemma SameKeySameRing(rings: seq<Ring>, r: Ring, r': Ring)
    requires UniqueKeys(rings) && r' in rings
    ensures r in rings && r.source == r'.source && r.event == r'.event ==> r == r'
  {
  }

  datatype Outcome = WasDelivered | FailedForNow | FailedForGood

  function StatusOf(o: Outcome): DeliveryStatus {
    match o
    case WasDelivered => Delivered
    case FailedForNow => TransientFailure
    case FailedForGood => PermanentFailure
  }

  /** What the push attempts for `done` make of the tables. */
  ghost predicate Pushed(t: Tables, t': Tables, ring: nat, done: set<Uuid>, outcomes: Uuid -> Outcome) {
    && t'.(deliveries := t.deliveries, receivers := t.receivers) == t
    && t'.deliveries.Keys == t.deliveries.Keys && t'.receivers.Keys == t.receivers.Keys
    && (forall k :: k in t.deliveries ==>
          t'.deliveries[k] == if k.0 == ring && k.1 in done then StatusOf(outcomes(k.1)) else t.deliveries[k])
    && (forall id :: id in t.receivers ==>
          t'.receivers[id] == if id in done && outcomes(id) == FailedForGood then t.receivers[id].(enabled := false)
                              else t.receivers[id])
  }

  /** The tables after one push attempt has been recorded. */
  function Marked(t: Tables, ring: nat, receiver: Uuid, outcome: Outcome): Tables {
    t.(deliveries := if (ring, receiver) in t.deliveries then t.deliveries[(ring, receiver) := StatusOf(outcome)] else t.deliveries,
       receivers := if outcome == FailedForGood && receiver in t.receivers
                    then t.receivers[receiver := t.receivers[receiver].(enabled := false)] else t.receivers)
  }

  lemma PushedOne(t: Tables, mid: Tables, ring: nat, done: set<Uuid>, receiver: Uuid, outcomes: Uuid -> Outcome)
    requires Pushed(t, mid, ring, done, outcomes) && receiver !in done
    ensures Pushed(t, Marked(mid, ring, receiver, outcomes(receiver)), ring, done + {receiver}, outcomes)
  {
  }

  /** The answer to a request and what it made of the tables. */
  ghost predicate Answers(t: Tables, t': Tables, q: Request, now: int, outcomes: Uuid -> Outcome, response: Response) {
    && response.event == q.event && response.duplicate == Holds(t.rings, q.source, q.event)
    && (response.duplicate ==>
          && t' == t
          && exists r :: r in t.rings && r.source == q.source && r.event == q.event
                         && response.acceptedAt == r.createdAt && response.matched == r.matched)
    && (!response.duplicate ==>
          && response.acceptedAt == now && response.matched == NewRing(t, q, now).matched
          && Pushed(Submitted(t, q, now), t', NewRing(t, q, now).id, Matched(t, q.tags), outcomes))
  }

  // ----- what an answer means -----

  /** No target tags, or one in common. */
  ghost predicate Shares(receiverTags: seq<string>, tags: seq<string>) {
    tags == [] || exists i, j :: 0 <= i < |tags| && 0 <= j < |receiverTags| && tags[i] == receiverTags[j]
  }

  /** A ring reaches a receiver if it has no target tags, or one of them is a tag of the receiver. */
  lemma MatchesMeans(receiverTags: seq<string>, tags: seq<string>)
    ensures TagsMatch(receiverTags, tags) <==> Shares(receiverTags, tags)
  {
    if tags != [] && TagsMatch(receiverTags, tags) {
      var tag :| tag in tags && tag in receiverTags;
      var i :| 0 <= i < |tags| && tags[i] == tag;
      var j :| 0 <= j < |receiverTags| && receiverTags[j] == tag;
    }
    if i, j :| 0 <= i < |tags| && 0 <= j < |receiverTags| && tags[i] == receiverTags[j] {
      assert tags[i] in tags && tags[i] in receiverTags;
    }
  }

  lemma {:induction false} PullsCounted(pullTags: seq<seq<string>>, tags: seq<string>)
    ensures MatchedPulls(pullTags, tags) == |set k | 0 <= k < |pullTags| && TagsMatch(pullTags[k], tags)|
  {
    var all := set k | 0 <= k < |pullTags| && TagsMatch(pullTags[k], tags);
    if pullTags == [] {
      assert all == {};
    } else {
      hide TagsMatch;
      var rest, n := pullTags[..|pullTags| - 1], |pullTags| - 1;
      PullsCounted(rest, tags);
      var some := set k | 0 <= k < |rest| && TagsMatch(rest[k], tags);
      assert all == some + if TagsMatch(pullTags[n], tags) then {n} else {};
    }
  }

  /** The rings after a new submission: the new one, and those of the old ones that are not too old. */
  lemma StoredRings(t: Tables, q: Request, now: int)
    requires !Holds(t.rings, q.source, q.event)
    ensures forall r :: r in Submitted(t, q, now).rings <==>
              || r == Ring(t.lastId + 1, q.source, q.event, q.message, q.tags, now, NewRing(t, q, now).matched)
              || (r in t.rings && r.createdAt >= now - t.retention)
  {
    hide Cascaded, Matched, MatchedPulls, QueuedFor, Holds;
    var ring := NewRing(t, q, now);
    assert forall r :: r in t.rings + [ring] <==> r in t.rings || r == ring;
  }

  /** The deliveries after a new submission: one for each matched receiver, and those of the rings that are left. */
  lemma StoredDeliveries(t: Tables, q: Request, now: int)
    requires t.Valid() && !Holds(t.rings, q.source, q.event)
    ensures var t' := Submitted(t, q, now);
            && t'.receivers == t.receivers
            && (forall id :: id in Matched(t, q.tags) <==> (t.lastId + 1, id) in t'.deliveries)
            && (forall k :: k in t'.deliveries && k.0 != t.lastId + 1 ==> k in t.deliveries && t'.deliveries[k] == t.deliveries[k])
  {
    StoredRings(t, q, now);
    hide Matched, MatchedPulls, Holds, Ordered, UniqueKeys, Retained;
    var t', queued := Submitted(t, q, now), QueuedFor(t.lastId + 1, Matched(t, q.tags));
    assert forall k :: k in t.deliveries ==> k.0 != t.lastId + 1 by { NoDeliveryYet(t); }
    assert NewRing(t, q, now) in t'.rings;
    hide Tables.Valid, NewRing;
    forall id ensures id in Matched(t, q.tags) <==> (t.lastId + 1, id) in t'.deliveries {
      assert (t.lastId + 1, id) in queued <==> id in Matched(t, q.tags);
    }
  }

  lemma NoDeliveryYet(t: Tables)
    requires t.Valid()
    ensures forall k :: k in t.deliveries ==> k.0 != t.lastId + 1
  {
    hide Ordered, UniqueKeys;
  }

  /** The request makes a new ring that is pushed to this receiver. */
  predicate Pushes(t: Tables, q: Request, p: (nat, Uuid)) {
    !Holds(t.rings, q.source, q.event) && p.0 == t.lastId + 1 && p.1 in Matched(t, q.tags)
  }

  /** A push goes to the receivers that can be pushed to and share a tag. */
  predicate Reached(r: Receiver, tags: seq<string>) {
    && r.enabled && !r.revoked
    && (tags == [] || exists i, j :: 0 <= i < |tags| && 0 <= j < |r.tags| && tags[i] == r.tags[j])
  }

  /** The new ring is stored, the rings past the retention are gone, and the receivers it is for are counted. */
  ghost predicate StoresRing(t: Tables, t': Tables, q: Request, now: int, matched: nat)
    requires Normal(q).Some?
  {
    && (forall r :: r in t'.rings <==>
          || r == Ring(t.lastId + 1, q.source, q.event, Normal(q).value.message, Normal(q).value.tags, now, matched)
          || (r in t.rings && r.createdAt >= now - t.retention))
    && matched == |set id | id in t.receivers && Reached(t.receivers[id], q.tags)|
                  + |set k | 0 <= k < |t.pullTags| && Shares(t.pullTags[k], q.tags)|
  }

  /** What a submission makes of one receiver and of its delivery. */
  predicate RecordsPush(t: Tables, t': Tables, q: Request, id: Uuid, outcome: Outcome)
    requires id in t.receivers && id in t'.receivers
  {
    if Reached(t.receivers[id], q.tags) then
      && (t.lastId + 1, id) in t'.deliveries
      && match outcome
         case WasDelivered => t'.deliveries[(t.lastId + 1, id)] == Delivered && t'.receivers[id] == t.receivers[id]
         case FailedForNow => t'.deliveries[(t.lastId + 1, id)] == TransientFailure && t'.receivers[id] == t.receivers[id]
         case FailedForGood =>
           t'.deliveries[(t.lastId + 1, id)] == PermanentFailure && t'.receivers[id] == t.receivers[id].(enabled := false)
    else (t.lastId + 1, id) !in t'.deliveries && t'.receivers[id] == t.receivers[id]
  }

  /** Every push is recorded, and a receiver that failed for good is disabled; nothing else happens to receivers. */
  ghost predicate RecordsPushes(t: Tables, t': Tables, q: Request, outcomes: Uuid -> Outcome) {
    t'.receivers.Keys == t.receivers.Keys && forall id :: id in t.receivers ==> RecordsPush(t, t', q, id, outcomes(id))
  }

  lemma ReachedAreMatched(t: Tables, q: Request)
    requires Normal(q).Some?
    ensures forall id :: id in Matched(t, Normal(q).value.tags) <==> id in t.receivers && Reached(t.receivers[id], q.tags)
    ensures forall tags :: TagsMatch(tags, Normal(q).value.tags) <==> Shares(tags, q.tags)
  {
    hide Normal;
    forall tags ensures TagsMatch(tags, Normal(q).value.tags) <==> Shares(tags, q.tags) {
      NormalMatchesAlike(q, tags);
      MatchesMeans(tags, q.tags);
    }
    hide TagsMatch;
    assert forall r: Receiver :: Reached(r, q.tags) <==> r.enabled && !r.revoked && Shares(r.tags, q.tags);
  }

  lemma MatchedAreCounted(t: Tables, q: Request, now: int)
    requires Normal(q).Some?
    ensures NewRing(t, Normal(q).value, now).matched ==
            |set id | id in t.receivers && Reached(t.receivers[id], q.tags)|
            + |set k | 0 <= k < |t.pullTags| && Shares(t.pullTags[k], q.tags)|
  {
    hide Normal, Reached, Shares, TagsMatch, MatchedPulls;
    var tags := Normal(q).value.tags;
    ReachedAreMatched(t, q);
    PullsCounted(t.pullTags, tags);
    assert Matched(t, tags) == set id | id in t.receivers && Reached(t.receivers[id], q.tags);
    assert (set k | 0 <= k < |t.pullTags| && TagsMatch(t.pullTags[k], tags))
        == set k | 0 <= k < |t.pullTags| && Shares(t.pullTags[k], q.tags);
  }

  lemma RingIsStored(t: Tables, t': Tables, q: Request, now: int)
    requires Normal(q).Some? && !Holds(t.rings, q.source, q.event) && t'.rings == Submitted(t, Normal(q).value, now).rings
    ensures StoresRing(t, t', q, now, NewRing(t, Normal(q).value, now).matched)
  {
    MatchedAreCounted(t, q, now);
    StoredRings(t, Normal(q).value, now);
    NormalKeepsEvent(q);
    hide Normal, Reached, Shares, Holds, Matched, NewRing, Submitted;
  }

  lemma NormalKeepsEvent(q: Request)
    requires Normal(q).Some?
    ensures Normal(q).value.source == q.source && Normal(q).value.event == q.event
  {
  }

  lemma PushIsRecorded(t: Tables, mid: Tables, t': Tables, q: Request, matched: set<Uuid>, outcomes: Uuid -> Outcome, id: Uuid)
    requires Pushed(mid, t', t.lastId + 1, matched, outcomes) && mid.receivers == t.receivers && id in t.receivers
    requires (id in matched <==> Reached(t.receivers[id], q.tags)) && (id in matched <==> (t.lastId + 1, id) in mid.deliveries)
    ensures id in t'.receivers && RecordsPush(t, t', q, id, outcomes(id))
  {
    hide Reached;
  }

  lemma PushesAreRecorded(t: Tables, t': Tables, q: Request, now: int, outcomes: Uuid -> Outcome)
    requires t.Valid() && Normal(q).Some? && !Holds(t.rings, q.source, q.event)
    requires Pushed(Submitted(t, Normal(q).value, now), t', t.lastId + 1, Matched(t, Normal(q).value.tags), outcomes)
    ensures RecordsPushes(t, t', q, outcomes)
  {
    var mid, matched := Submitted(t, Normal(q).value, now), Matched(t, Normal(q).value.tags);
    NormalKeepsEvent(q);
    StoredDeliveries(t, Normal(q).value, now);
    ReachedAreMatched(t, q);
    assert t'.receivers.Keys == t.receivers.Keys;
    hide Normal, Reached, Shares, Holds, Matched, Submitted, Tables.Valid, Pushed, RecordsPush, TagsMatch;
    forall id | id in t.receivers ensures RecordsPush(t, t', q, id, outcomes(id)) {
      PushIsRecorded(t, mid, t', q, matched, outcomes, id);
    }
  }

  lemma PushesMean(t: Tables, q: Request)
    ensures forall p: (nat, Uuid) :: Pushes(t, q, p) <==>
              && p.0 == t.lastId + 1 && !Holds(t.rings, q.source, q.event)
              && p.1 in t.receivers && Reached(t.receivers[p.1], q.tags)
  {
    hide Holds;
    forall tags ensures TagsMatch(tags, q.tags) <==> Shares(tags, q.tags) {
      MatchesMeans(tags, q.tags);
    }
    hide TagsMatch;
    assert forall r: Receiver :: Reached(r, q.tags) <==> r.enabled && !r.revoked && Shares(r.tags, q.tags);
  }

  lemma AttemptsMean(t: Tables, q: Request, before: multiset<(nat, Uuid)>, after: multiset<(nat, Uuid)>)
    requires Normal(q).Some?
    requires forall p: (nat, Uuid) :: after[p] == before[p] + (if Pushes(t, Normal(q).value, p) then 1 else 0)
    ensures forall p: (nat, Uuid) ::
              after[p] == before[p] +
                if && p.0 == t.lastId + 1 && !Holds(t.rings, q.source, q.event)
                   && p.1 in t.receivers && Reached(t.receivers[p.1], q.tags)
                then 1 else 0
  {
    NormalKeepsEvent(q);
    ReachedAreMatched(t, q);
    hide Reached, Matched, Holds, Normal, TagsMatch, Shares;
  }

  lemma AnswerNames(t: Tables, t': Tables, q: Request, now: int, outcomes: Uuid -> Outcome, response: Response)
    requires Normal(q).Some? && Answers(t, t', Normal(q).value, now, outcomes, response)
    ensures response.event == q.event && response.duplicate == Holds(t.rings, q.source, q.event)
  {
    NormalKeepsEvent(q);
  }

  lemma AnswerSays(t: Tables, t': Tables, q: Request, now: int, outcomes: Uuid -> Outcome, response: Response)
    requires t.Valid() && Normal(q).Some? && !response.duplicate
    requires Answers(t, t', Normal(q).value, now, outcomes, response)
    ensures StoresRing(t, t', q, now, response.matched)
    ensures RecordsPushes(t, t', q, outcomes)
  {
    NormalKeepsEvent(q);
    hide Normal, Holds, Matched, MatchedPulls, Submitted, Tables.Valid, StoresRing, RecordsPushes;
    RingIsStored(t, t', q, now);
    PushesAreRecorded(t, t', q, now, outcomes);
  }

  class RelayServer {
    var tables: Tables
    /** Every push attempt made so far: ring and receiver. */
    ghost var attempts: multiset<(nat, Uuid)>

    ghost predicate Valid()
      reads this
    {
      && tables.Valid()
      && (forall p: (nat, Uuid) :: p in attempts ==> attempts[p] == 1 && p.0 <= tables.lastId)
    }

    constructor (retention: nat)
      ensures Valid()
    {
      tables := Tables([], 0, map[], map[], [], retention);
      attempts := multiset{};
    }

    /**
     `now` is the clock reading inside the transaction and `outcomes` what the push service answers. A request that
     does not validate is refused and changes nothing; of any other the trimmed message and the sorted tags are used.
     */
    method SubmitRing(q: Request, now: int, outcomes: Uuid -> Outcome) returns (reply: Option<Response>)
      requires Valid()
      modifies this
      ensures Valid()
      ensures reply == None <==> Normal(q) == None
      ensures reply == None ==> tables == old(tables) && attempts == old(attempts)
      ensures reply.Some? ==> Answers(old(tables), tables, Normal(q).value, now, outcomes, reply.value)
      ensures reply.Some? ==> forall p: (nat, Uuid) ::
                attempts[p] == old(attempts)[p] + (if Pushes(old(tables), Normal(q).value, p) then 1 else 0)
      ensures reply.Some? ==>
                && (reply.value.duplicate <==> exists i :: 0 <= i < |old(tables).rings| && old(tables).rings[i].source == q.source
                                                           && old(tables).rings[i].event == q.event)
                && reply.value.event == q.event && StatusCode(reply.value) == if reply.value.duplicate then 200 else 202
      ensures reply.Some? ==> forall p: (nat, Uuid) ::
                attempts[p] == old(attempts)[p] +
                  if && p.0 == old(tables).lastId + 1 && !reply.value.duplicate && p.1 in old(tables).receivers
                     && old(tables).receivers[p.1].enabled && !old(tables).receivers[p.1].revoked
                     && (q.tags == [] || exists i, j :: 0 <= i < |q.tags| && 0 <= j < |old(tables).receivers[p.1].tags|
                                                        && q.tags[i] == old(tables).receivers[p.1].tags[j])
                  then 1 else 0
      ensures reply.Some? && !reply.value.duplicate ==>
                && StoresRing(old(tables), tables, q, now, reply.value.matched)
                && RecordsPushes(old(tables), tables, q, outcomes)
    {
      hide Protocol.ValidMessage, Protocol.ValidTags, Answers, Pushes, StoresRing, RecordsPushes, Tables.Valid;
      var message := Protocol.ValidateMessage(q.message);
      if message.None? {
        return None;
      }
      var tags := Protocol.ValidateTags(q.tags);
      if tags.None? {
        return None;
      }
      ghost var t, pushed := tables, attempts;
      var response := Submit(q.(message := message.value, tags := tags.value), now, outcomes);
      if !response.duplicate {
        AnswerSays(t, tables, q, now, outcomes, response);
      }
      NormalKeepsEvent(q);
      hide Normal;
      AnswerNames(t, tables, q, now, outcomes, response);
      AttemptsMean(t, q, pushed, attempts);
      return Some(response);
    }

    /**
     The transaction and the pushes. A duplicate changes nothing and pushes nothing; a new ring is stored and pushed
     to each matched receiver exactly once.
     */
    method Submit(q: Request, now: int, outcomes: Uuid -> Outcome) returns (response: Response)
      requires Valid()
      modifies this
      ensures Valid() && Answers(old(tables), tables, q, now, outcomes, response)
      ensures forall p: (nat, Uuid) :: attempts[p] == old(attempts)[p] + (if Pushes(old(tables), q, p) then 1 else 0)
      ensures response.duplicate <==> exists i :: 0 <= i < |old(tables).rings| && old(tables).rings[i].source == q.source
                                                  && old(tables).rings[i].event == q.event
      ensures forall p: (nat, Uuid) ::
                attempts[p] == old(attempts)[p] +
                  if && p.0 == old(tables).lastId + 1 && !response.duplicate
                     && p.1 in old(tables).receivers && Reached(old(tables).receivers[p.1], q.tags)
                  then 1 else 0
    {
      PushesMean(tables, q);
      hide Reached;
      SubmissionKeepsTables(tables, q, now);
      if i :| 0 <= i < |tables.rings| && tables.rings[i].source == q.source && tables.rings[i].event == q.event {
        return Response(q.event, tables.rings[i].createdAt, true, tables.rings[i].matched);
      }
      var ring, matched := NewRing(tables, q, now), Matched(tables, q.tags);
      tables := Submitted(tables, q, now);
      assert ring.id == old(tables).lastId + 1;
      PushAll(ring.id, matched, outcomes);
      response := Response(q.event, now, false, ring.matched);
    }

    /** Record the outcome; a permanent failure disables the receiver. */
    method Mark(ring: nat, receiver: Uuid, outcome: Outcome)
      modifies this`tables
      ensures tables == Marked(old(tables), ring, receiver, outcome)
    {
      if (ring, receiver) in tables.deliveries {
        tables := tables.(deliveries := tables.deliveries[(ring, receiver) := StatusOf(outcome)]);
      }
      if outcome == FailedForGood && receiver in tables.receivers {
        tables := tables.(receivers := tables.receivers[receiver := tables.receivers[receiver].(enabled := false)]);
      }
    }

    /** The push loop, one receiver at a time, after the transaction has been committed. */
    method PushAll(ring: nat, matched: set<Uuid>, outcomes: Uuid -> Outcome)
      requires Valid() && ring <= tables.lastId
      requires forall p: (nat, Uuid) :: p in attempts ==> p.0 != ring
      modifies this
      ensures Valid()
      ensures Pushed(old(tables), tables, ring, matched, outcomes)
      ensures forall id :: id in matched && (ring, id) in old(tables).deliveries ==>
                && (ring, id) in tables.deliveries
                && match outcomes(id)
                   case WasDelivered => tables.deliveries[(ring, id)] == Delivered
                   case FailedForNow => tables.deliveries[(ring, id)] == TransientFailure
                   case FailedForGood => tables.deliveries[(ring, id)] == PermanentFailure
      ensures forall p: (nat, Uuid) :: attempts[p] == old(attempts)[p] + (if p.0 == ring && p.1 in matched then 1 else 0)
    {
      ghost var before := tables;
      ghost var done: set<Uuid> := {};
      var todo := matched;
      while todo != {}
        invariant todo !! done && todo + done == matched
        invariant Pushed(before, tables, ring, done, outcomes)
        invariant forall p: (nat, Uuid) :: attempts[p] == old(attempts)[p] + (if p.0 == ring && p.1 in done then 1 else 0)
      {
        var receiver :| receiver in todo;
        var outcome := outcomes(receiver);
        PushedOne(before, tables, ring, done, receiver, outcomes);
        Mark(ring, receiver, outcome);
        attempts := attempts + multiset{(ring, receiver)};
        todo, done := todo - {receiver}, done + {receiver};
      }
      assert done == matched;
    }
  }
}
