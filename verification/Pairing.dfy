/** Pairing a source with the owner's account: each SQL statement or transaction is one atomic step. */
module Pairing {
  import opened Types

  datatype Status = Pending | Approved | Rejected | Expired

  datatype Pairing = Pairing(name: string, status: Status, expires: int, source: Option<Uuid>, decidedAt: Option<int>)

  /** A stored hash names the one token it was made from. */
  datatype Hash = Hashed(token: nat)

  datatype Source = Source(name: string, tokenHash: Option<Hash>, revoked: bool)

  datatype Tables = Tables(pairings: map<Uuid, Pairing>, sources: map<Uuid, Source>)

  predicate IsPending(t: Tables, id: Uuid) { id in t.pairings && t.pairings[id].status == Pending }

  // ----- the statements -----

  function Created(t: Tables, id: Uuid, name: string, expires: int): Tables {
    t.(pairings := t.pairings[id := Pairing(name, Pending, expires, None, None)])
  }

  function Decide(p: Pairing, status: Status, at: int): Pairing {
    p.(status := status, decidedAt := Some(at))
  }

  /** One request expires, if it is still pending. */
  function ExpiredOne(t: Tables, id: Uuid, at: int): Tables {
    if IsPending(t, id) then t.(pairings := t.pairings[id := Decide(t.pairings[id], Expired, at)]) else t
  }

  /** Every pending request expires that is due by now. */
  function ExpiredDue(t: Tables, now: int, at: int): Tables {
    t.(pairings := map id | id in t.pairings ::
         if IsPending(t, id) && t.pairings[id].expires <= now then Decide(t.pairings[id], Expired, at) else t.pairings[id])
  }

  predicate CanApprove(t: Tables, id: Uuid, now: int) { IsPending(t, id) && now < t.pairings[id].expires }

  /** The approving transaction: it is rolled back unless the request is pending and in time. */
  function AfterApproval(t: Tables, id: Uuid, source: Uuid, now: int): Tables {
    if !CanApprove(t, id, now) then t else
      Tables(t.pairings[id := Decide(t.pairings[id], Approved, now).(source := Some(source))],
             t.sources[source := Source(t.pairings[id].name, None, false)])
  }

  function AfterRejection(t: Tables, id: Uuid, now: int, at: int): Tables {
    if !IsPending(t, id) then t else
      var status := if t.pairings[id].expires <= now then Expired else Rejected;
      t.(pairings := t.pairings[id := Decide(t.pairings[id], status, at)])
  }

  predicate NeedsToken(t: Tables, source: Uuid) { source in t.sources && t.sources[source].tokenHash == None }

  /** A source gets a token hash, if it has none. */
  function WithToken(t: Tables, source: Uuid, token: nat): Tables {
    if NeedsToken(t, source) then t.(sources := t.sources[source := t.sources[source].(tokenHash := Some(Hashed(token)))]) else t
  }

  predicate Live(t: Tables, source: Uuid) { source in t.sources && !t.sources[source].revoked }

  function AfterRevocation(t: Tables, source: Uuid): Tables {
    if Live(t, source) then t.(sources := t.sources[source := t.sources[source].(revoked := true, tokenHash := None)]) else t
  }

  /** A token is accepted for a source that holds its hash and has not been revoked. */
  predicate Authenticates(t: Tables, token: nat, source: Uuid) {
    Live(t, source) && t.sources[source].tokenHash == Some(Hashed(token))
  }

  // ----- runs -----

  /** What a poll has read before its updates. */
  datatype Reading = Reading(status: Status, expires: int, source: Option<Uuid>)

  function Read(p: Pairing): Reading { Reading(p.status, p.expires, p.source) }

  /**
   `readings` is what polls have read so far, and may still act on; `issued` the tokens handed out for each source, those
   in `live` before the source was revoked; `decisions` the ids of pairings in the order they left pending.
   */
  datatype World = World(
    tables: Tables,
    readings: set<(Uuid, Reading)>,
    issued: set<(Uuid, nat)>,
    live: set<(Uuid, nat)>,
    decisions: seq<Uuid>)

  datatype Step =
    | Create(id: Uuid, name: string, expires: int)
    | PollRead(id: Uuid)
    | PollExpire(id: Uuid, reading: Reading, now: int, at: int)
    | PollToken(id: Uuid, reading: Reading, token: nat)
    | List(now: int, at: int)
    | Approve(id: Uuid, source: Uuid, now: int)
    | ExpireAfterConflict(id: Uuid, now: int)
    | Reject(id: Uuid, now: int, at: int)
    | Revoke(source: Uuid)

  ghost predicate Possible(w: World, s: Step) {
    match s
    case Create(id, _, _) => id !in w.tables.pairings
    case PollRead(id) => id in w.tables.pairings
    case PollExpire(id, r, now, _) => (id, r) in w.readings && r.status == Pending && r.expires <= now
    case PollToken(id, r, token) =>
      (id, r) in w.readings && r.status == Approved && r.source.Some? && forall i :: i in w.issued ==> i.1 != token
    case List(_, _) => true
    case Approve(id, source, _) => id in w.tables.pairings && source !in w.tables.sources
    case ExpireAfterConflict(_, _) => true
    case Reject(_, _, _) => true
    case Revoke(_) => true
  }

  function AfterStatement(t: Tables, s: Step): Tables {
    match s
    case Create(id, name, expires) => Created(t, id, name, expires)
    case PollRead(_) => t
    case PollExpire(id, _, _, at) => ExpiredOne(t, id, at)
    case PollToken(_, r, token) => if r.source.Some? then WithToken(t, r.source.value, token) else t
    case List(now, at) => ExpiredDue(t, now, at)
    case Approve(id, source, now) => AfterApproval(t, id, source, now)
    case ExpireAfterConflict(id, now) => if id in t.pairings && t.pairings[id].expires <= now then ExpiredOne(t, id, now) else t
    case Reject(id, now, at) => AfterRejection(t, id, now, at)
    case Revoke(source) => AfterRevocation(t, source)
  }

  /** The requests that leave pending between two states of the tables. */
  function Decided(t: Tables, t': Tables): set<Uuid> {
    set id | id in t.pairings && IsPending(t, id) && !IsPending(t', id)
  }

  function ReadingsAfter(w: World, s: Step): set<(Uuid, Reading)> {
    if s.PollRead? && s.id in w.tables.pairings then w.readings + {(s.id, Read(w.tables.pairings[s.id]))} else w.readings
  }

  ghost predicate Progress(w: World, s: Step, w': World) {
    var t' := AfterStatement(w.tables, s);
    var issues := s.PollToken? && s.reading.source.Some? && NeedsToken(w.tables, s.reading.source.value);
    && w'.tables == t'
    && w'.readings == ReadingsAfter(w, s)
    && w'.issued == (if issues then w.issued + {(s.reading.source.value, s.token)} else w.issued)
    && w'.live == (if issues && Live(w.tables, s.reading.source.value) then w.live + {(s.reading.source.value, s.token)} else w.live)
    && exists now :: w'.decisions == w.decisions + now && Enumerates(now, Decided(w.tables, t'))
  }

  ghost predicate Enumerates(ids: seq<Uuid>, s: set<Uuid>) {
    && (forall id :: id in ids <==> id in s)
    && forall i, j :: 0 <= i < j < |ids| ==> ids[i] != ids[j]
  }

  ghost predicate Reaches(steps: seq<Step>, w: World) {
    if steps == [] then w == World(Tables(map[], map[]), {}, {}, {}, []) else
      var rest, last := steps[..|steps| - 1], steps[|steps| - 1];
      exists before :: Reaches(rest, before) && Possible(before, last) && Progress(before, last, w)
  }

  // ----- what every statement keeps -----

  /** Approved requests and sources are in one-to-one correspondence. */
  ghost predicate Paired(t: Tables) {
    && (forall id :: id in t.pairings ==> (t.pairings[id].status == Approved <==> t.pairings[id].source.Some?))
    && (forall id :: id in t.pairings && t.pairings[id].source.Some? ==> t.pairings[id].source.value in t.sources)
    && (forall x, y ::
          x in t.pairings && y in t.pairings && t.pairings[x].source.Some? && t.pairings[x].source == t.pairings[y].source
          ==> x == y)
    && SourcesApproved(t)
  }

  ghost predicate SourcesApproved(t: Tables) {
    forall s :: s in t.sources ==> exists id :: id in t.pairings && t.pairings[id].source == Some(s)
  }

  /** Requests are never deleted, and a decision is final. */
  ghost predicate Final(t: Tables, t': Tables) {
    && (forall id :: id in t.pairings ==> id in t'.pairings && (!IsPending(t, id) ==> t'.pairings[id] == t.pairings[id])
                                          && t'.pairings[id].expires == t.pairings[id].expires)
    && (forall s :: s in t.sources ==> s in t'.sources && (t.sources[s].revoked ==> t'.sources[s].revoked))
  }

  lemma StatementIsFinal(t: Tables, s: Step)
    requires s.Create? ==> s.id !in t.pairings
    requires s.Approve? ==> s.source !in t.sources
    ensures Final(t, AfterStatement(t, s))
  {
  }

  lemma ApprovalKeepsPaired(t: Tables, id: Uuid, source: Uuid, now: int)
    requires Paired(t) && source !in t.sources
    ensures Paired(AfterApproval(t, id, source, now))
  {
    if CanApprove(t, id, now) {
      SourcesStayPaired(t, AfterApproval(t, id, source, now), id, source);
    }
  }

  lemma SourcesStayPaired(t: Tables, t': Tables, id: Uuid, source: Uuid)
    requires Paired(t) && source !in t.sources && t'.sources.Keys == t.sources.Keys + {source}
    requires id in t.pairings && t.pairings[id].status != Approved && t'.pairings.Keys == t.pairings.Keys
    requires t'.pairings[id].status == Approved && t'.pairings[id].source == Some(source)
    requires forall x :: x in t.pairings && x != id ==> t'.pairings[x] == t.pairings[x]
    ensures Paired(t')
  {
    SourcesStayApproved(t, t', id, source);
    hide SourcesApproved;
    forall x | x in t.pairings && x != id ensures t'.pairings[x].source != Some(source) {
    }
  }

  lemma SourcesStayApproved(t: Tables, t': Tables, id: Uuid, source: Uuid)
    requires SourcesApproved(t) && t'.sources.Keys == t.sources.Keys + {source}
    requires id in t.pairings && t.pairings[id].source == None && t'.pairings.Keys == t.pairings.Keys
    requires t'.pairings[id].source == Some(source)
    requires forall x :: x in t.pairings && x != id ==> t'.pairings[x] == t.pairings[x]
    ensures SourcesApproved(t')
  {
    forall s | s in t.sources ensures exists x :: x in t'.pairings && t'.pairings[x].source == Some(s) {
      var x :| x in t.pairings && t.pairings[x].source == Some(s);
      assert t'.pairings[x].source == Some(s);
    }
  }

  /** No request is approved, and no source added. */
  ghost predicate SameApprovals(t: Tables, t': Tables) {
    && t'.sources.Keys == t.sources.Keys
    && (forall id :: id in t.pairings ==> id in t'.pairings && t'.pairings[id].source == t.pairings[id].source)
    && (forall id :: id in t'.pairings ==>
          if id in t.pairings then t'.pairings[id].status == Approved <==> t.pairings[id].status == Approved
          else t'.pairings[id].source == None && t'.pairings[id].status != Approved)
  }

  lemma SameApprovalsKeepPaired(t: Tables, t': Tables)
    requires Paired(t) && SameApprovals(t, t')
    ensures Paired(t')
  {
    forall s | s in t'.sources ensures exists id :: id in t'.pairings && t'.pairings[id].source == Some(s) {
      var x :| x in t.pairings && t.pairings[x].source == Some(s);
      assert t'.pairings[x].source == Some(s);
    }
  }

  lemma OtherStatementsApproveNone(t: Tables, s: Step)
    requires !s.Approve? && (s.Create? ==> s.id !in t.pairings)
    ensures SameApprovals(t, AfterStatement(t, s))
  {
  }

  lemma StatementKeepsPaired(t: Tables, s: Step)
    requires Paired(t)
    requires s.Create? ==> s.id !in t.pairings
    requires s.Approve? ==> s.source !in t.sources
    ensures Paired(AfterStatement(t, s))
  {
    hide Paired, SameApprovals, AfterApproval;
    if s.Approve? {
      ApprovalKeepsPaired(t, s.id, s.source, s.now);
    } else {
      OtherStatementsApproveNone(t, s);
      SameApprovalsKeepPaired(t, AfterStatement(t, s));
    }
  }

  // ----- tokens -----

  /** The tokens that authenticate are those issued before the revocation of a source that is not revoked. */
  ghost predicate TokensRight(w: World) {
    && w.live <= w.issued
    && (forall i :: i in w.live ==> i.0 in w.tables.sources)
    && (forall i :: i in w.issued ==> i in w.live || (i.0 in w.tables.sources && w.tables.sources[i.0].revoked))
    && (forall i, j :: i in w.live && j in w.live && i.0 == j.0 ==> i == j)
    && (forall i, j :: i in w.issued && j in w.issued && i.1 == j.1 ==> i == j)
    && (forall source: Uuid, token: nat :: Authenticates(w.tables, token, source) <==> (source, token) in w.live && Live(w.tables, source))
  }

  lemma IssueKeepsTokens(w: World, source: Uuid, token: nat, w': World)
    requires TokensRight(w) && NeedsToken(w.tables, source) && forall i :: i in w.issued ==> i.1 != token
    requires w'.tables == WithToken(w.tables, source, token) && w'.issued == w.issued + {(source, token)}
    requires w'.live == if Live(w.tables, source) then w.live + {(source, token)} else w.live
    ensures TokensRight(w')
  {
    if Live(w.tables, source) {
      forall i | i in w.live ensures i.0 != source {
        assert i == (i.0, i.1);
        assert i.0 == source ==> Authenticates(w.tables, i.1, source);
      }
    }
    forall s: Uuid, t: nat ensures Authenticates(w'.tables, t, s) <==> (s, t) in w'.live && Live(w'.tables, s) {
      assert Authenticates(w.tables, t, s) <==> (s, t) in w.live && Live(w.tables, s);
    }
  }

  /** A statement that adds sources without tokens, or revokes them. */
  lemma QuietKeepsTokens(w: World, w': World)
    requires TokensRight(w) && w'.live == w.live && w'.issued == w.issued
    requires forall s :: s in w.tables.sources ==> s in w'.tables.sources
    requires forall s :: s in w'.tables.sources ==>
               || (s in w.tables.sources && w'.tables.sources[s] == w.tables.sources[s])
               || (s in w.tables.sources && w'.tables.sources[s].revoked)
               || (s !in w.tables.sources && w'.tables.sources[s].tokenHash == None)
    ensures TokensRight(w')
  {
    forall s: Uuid, t: nat ensures Authenticates(w'.tables, t, s) <==> (s, t) in w'.live && Live(w'.tables, s) {
      assert Authenticates(w.tables, t, s) <==> (s, t) in w.live && Live(w.tables, s);
    }
  }

  lemma StepKeepsTokens(w: World, s: Step, w': World)
    requires TokensRight(w) && Possible(w, s) && Progress(w, s, w')
    ensures TokensRight(w')
  {
    hide TokensRight, Enumerates, Decided;
    if s.PollToken? && NeedsToken(w.tables, s.reading.source.value) {
      IssueKeepsTokens(w, s.reading.source.value, s.token, w');
    } else {
      QuietKeepsTokens(w, w');
    }
  }

  // ----- decisions -----

  /** What a poll has read of a decided request is still so. */
  ghost predicate ReadingsLast(w: World) {
    forall x :: x in w.readings ==>
      && x.0 in w.tables.pairings && x.1.expires == w.tables.pairings[x.0].expires
      && (x.1.status != Pending ==> x.1 == Read(w.tables.pairings[x.0]))
  }

  function DecidedIds(t: Tables): set<Uuid> { set id | id in t.pairings && !IsPending(t, id) }

  lemma StepKeepsReadings(w: World, s: Step, w': World)
    requires ReadingsLast(w) && Possible(w, s) && Progress(w, s, w')
    ensures ReadingsLast(w')
  {
    hide Enumerates, Decided, AfterStatement;
    StatementIsFinal(w.tables, s);
  }

  lemma DecisionsAddUp(t: Tables, s: Step)
    requires (s.Create? ==> s.id !in t.pairings) && (s.Approve? ==> s.source !in t.sources)
    ensures var t' := AfterStatement(t, s);
            DecidedIds(t') == DecidedIds(t) + Decided(t, t') && DecidedIds(t) !! Decided(t, t')
  {
    StatementIsFinal(t, s);
    var t' := AfterStatement(t, s);
    assert forall id :: id in t'.pairings && id !in t.pairings ==> IsPending(t', id);
  }

  lemma EnumeratesSum(a: seq<Uuid>, b: seq<Uuid>, s: set<Uuid>, t: set<Uuid>)
    requires Enumerates(a, s) && Enumerates(b, t) && s !! t
    ensures Enumerates(a + b, s + t)
  {
    forall i, j | 0 <= i < j < |a + b| ensures (a + b)[i] != (a + b)[j] {
      if i < |a| <= j {
        assert a[i] in a && b[j - |a|] in b;
      }
    }
  }

  ghost predicate Kept(w: World) {
    Paired(w.tables) && TokensRight(w) && ReadingsLast(w) && Enumerates(w.decisions, DecidedIds(w.tables))
  }

  lemma StepKept(w: World, s: Step, w': World)
    requires Kept(w) && Possible(w, s) && Progress(w, s, w')
    ensures Kept(w')
  {
    StepKeepsTokens(w, s, w');
    StepKeepsReadings(w, s, w');
    hide Paired, TokensRight, ReadingsLast, AfterStatement, Enumerates, Decided, DecidedIds;
    StatementKeepsPaired(w.tables, s);
    DecisionsAddUp(w.tables, s);
    var now :| w'.decisions == w.decisions + now && Enumerates(now, Decided(w.tables, w'.tables));
    EnumeratesSum(w.decisions, now, DecidedIds(w.tables), Decided(w.tables, w'.tables));
  }

  lemma {:induction false} KeptOverRuns(steps: seq<Step>, w: World)
    requires Reaches(steps, w)
    ensures Kept(w)
  {
    hide Possible, Progress;
    if steps == [] {
    } else {
      hide Kept;
      var rest, last := steps[..|steps| - 1], steps[|steps| - 1];
      var before :| Reaches(rest, before) && Possible(before, last) && Progress(before, last, w);
      KeptOverRuns(rest, before);
      StepKept(before, last, w);
    }
  }

  predicate SameSource(p: Pairing, p': Pairing) { p.source.Some? && p.source == p'.source }

  /**
   Under every interleaving of the statements of polls, listings, approvals, rejections and revocations, a request
   leaves pending at most once, and the decided requests are exactly those that did; and the approved requests and
   the sources are in one-to-one correspondence.
   */
  lemma DecidedOnce(steps: seq<Step>, w: World)
    requires Reaches(steps, w)
    ensures forall i, j :: 0 <= i < j < |w.decisions| ==> w.decisions[i] != w.decisions[j]
    ensures forall id :: id in w.decisions <==> id in w.tables.pairings && w.tables.pairings[id].status != Pending
    ensures forall source :: source in w.tables.sources <==>
              exists id :: id in w.tables.pairings && w.tables.pairings[id].source == Some(source)
    ensures forall id :: id in w.tables.pairings ==>
              (w.tables.pairings[id].status == Approved <==> w.tables.pairings[id].source.Some?)
    ensures forall x, y ::
              x in w.tables.pairings && y in w.tables.pairings && SameSource(w.tables.pairings[x], w.tables.pairings[y]) ==> x == y
  {
    KeptOverRuns(steps, w);
    hide Reaches;
  }

  /** A decision is final: whatever happens later, the request stays as it was decided. */
  lemma {:induction false} DecisionsAreFinal(w: World, steps: seq<Step>, trace: seq<World>, id: Uuid)
    requires |trace| == |steps| + 1 && trace[0] == w
    requires forall i :: 0 <= i < |steps| ==> Possible(trace[i], steps[i]) && Progress(trace[i], steps[i], trace[i + 1])
    requires id in w.tables.pairings && w.tables.pairings[id].status != Pending
    ensures var t := trace[|steps|].tables; id in t.pairings && t.pairings[id] == w.tables.pairings[id]
  {
    hide AfterStatement, Enumerates, Decided;
    if steps == [] {
    } else {
      var n := |steps| - 1;
      DecisionsAreFinal(w, steps[..n], trace[..n + 1], id);
      StatementIsFinal(trace[n].tables, steps[n]);
    }
  }

  /**
   A token authenticates for a source exactly if it was issued before the source was revoked, and the source has not
   been revoked since; at most one was. So once a source is revoked, no token authenticates for it, not even one
   issued afterwards.
   */
  lemma TokensAuthenticateUntilRevocation(steps: seq<Step>, w: World, source: Uuid)
    requires Reaches(steps, w)
    ensures forall token: nat :: Authenticates(w.tables, token, source) <==>
              (source, token) in w.live && source in w.tables.sources && !w.tables.sources[source].revoked
    ensures forall i, j :: i in w.live && j in w.live && i.0 == source && j.0 == source ==> i == j
    ensures forall i :: i in w.live ==> i in w.issued
    ensures source in w.tables.sources && !w.tables.sources[source].revoked ==>
              forall i :: i in w.issued && i.0 == source ==> i in w.live
  {
    KeptOverRuns(steps, w);
    hide Reaches;
  }

  // ----- in time -----

  /** A decision in a statement that read the clock at `now`, by the request's deadline. */
  predicate RightlyDecided(p: Pairing, s: Step, p': Pairing) {
    match p'.status
    case Pending => true
    case Approved => s.Approve? && s.now < p.expires && p' == p.(status := Approved, decidedAt := Some(s.now), source := Some(s.source))
    case Rejected => s.Reject? && s.now < p.expires && p' == p.(status := Rejected, decidedAt := Some(s.at))
    case Expired =>
      && (s.PollExpire? || s.List? || s.ExpireAfterConflict? || s.Reject?) && p.expires <= s.now
      && p' == p.(status := Expired, decidedAt := p'.decidedAt) && p'.decidedAt.Some?
  }

  /**
   Over every run: a request that a statement finds pending is approved or rejected by it only before its deadline, and
   expires only at or after it.
   */
  lemma DecidedInTime(steps: seq<Step>, w: World, s: Step, w': World, id: Uuid)
    requires Reaches(steps, w) && Possible(w, s) && Progress(w, s, w')
    requires id in w.tables.pairings && w.tables.pairings[id].status == Pending
    ensures id in w'.tables.pairings && RightlyDecided(w.tables.pairings[id], s, w'.tables.pairings[id])
    ensures w'.tables.pairings[id].status == Pending ==> w'.tables.pairings[id] == w.tables.pairings[id]
  {
    KeptOverRuns(steps, w);
    PollsKnowDeadline(w, s);
    hide *;
    StatementDecides(w.tables, s, id);
    StatementOfStep(w, s, w');
  }

  lemma StatementOfStep(w: World, s: Step, w': World)
    requires Possible(w, s) && Progress(w, s, w')
    ensures w'.tables == AfterStatement(w.tables, s)
  {
    hide AfterStatement, Possible, Enumerates, Decided;
  }

  lemma PollsKnowDeadline(w: World, s: Step)
    requires Kept(w) && Possible(w, s)
    ensures s.PollExpire? ==> s.id in w.tables.pairings && w.tables.pairings[s.id].expires <= s.now
    ensures s.Create? ==> s.id !in w.tables.pairings
  {
    hide Paired, TokensRight, Enumerates, DecidedIds;
  }

  lemma StatementDecides(t: Tables, s: Step, id: Uuid)
    requires id in t.pairings && t.pairings[id].status == Pending
    requires s.Create? ==> s.id != id
    requires s.PollExpire? && s.id == id ==> t.pairings[id].expires <= s.now
    ensures var t' := AfterStatement(t, s);
            && id in t'.pairings && RightlyDecided(t.pairings[id], s, t'.pairings[id])
            && (t'.pairings[id].status == Pending ==> t'.pairings[id] == t.pairings[id])
  {
  }

  /** What is known of the time of a decision. */
  ghost predicate ApprovedInTime(t: Tables) {
    forall id :: id in t.pairings ==>
      && (t.pairings[id].status == Pending <==> t.pairings[id].decidedAt == None)
      && (t.pairings[id].status == Approved ==> t.pairings[id].decidedAt.value < t.pairings[id].expires)
  }

  lemma StatementKeepsTime(t: Tables, s: Step)
    requires ApprovedInTime(t)
    ensures ApprovedInTime(AfterStatement(t, s))
  {
  }

  /** Over every run: an approved request was approved before its deadline. */
  lemma {:induction false} ApprovalsAreInTime(steps: seq<Step>, w: World)
    requires Reaches(steps, w)
    ensures forall id :: id in w.tables.pairings && w.tables.pairings[id].status == Approved ==>
              w.tables.pairings[id].decidedAt.Some? && w.tables.pairings[id].decidedAt.value < w.tables.pairings[id].expires
    ensures ApprovedInTime(w.tables)
  {
    if steps == [] {
    } else {
      hide ApprovedInTime, Possible, AfterStatement, Enumerates, Decided;
      var rest, last := steps[..|steps| - 1], steps[|steps| - 1];
      var before :| Reaches(rest, before) && Possible(before, last) && Progress(before, last, w);
      ApprovalsAreInTime(rest, before);
      StatementKeepsTime(before.tables, last);
    }
    TimesSay(w.tables);
  }

  lemma TimesSay(t: Tables)
    requires ApprovedInTime(t)
    ensures forall id :: id in t.pairings && t.pairings[id].status == Approved ==>
              t.pairings[id].decidedAt.Some? && t.pairings[id].decidedAt.value < t.pairings[id].expires
  {
  }

  // ----- after a revocation -----

  function Named(n: nat): Reading { Reading(Approved, 100, Some(n)) }

  function AtRevocation(tokens: set<(Uuid, nat)>, hash: Option<Hash>): World {
    var request := Pairing("laptop", Approved, 100, Some(7), Some(2));
    World(Tables(map[1 := request], map[7 := Source("laptop", hash, true)]), {(1, Named(7))}, tokens, {(7, 10)}, [1])
  }

  /** The world before the revocation, with or without the first token. */
  function BeforeRevocation(tokens: set<(Uuid, nat)>, hash: Option<Hash>): World {
    var w := AtRevocation(tokens, hash);
    w.(tables := w.tables.(sources := map[7 := Source("laptop", hash, false)]), live := tokens)
  }

  lemma Extended(steps: seq<Step>, w: World, s: Step, w': World)
    requires Reaches(steps, w) && Possible(w, s) && Progress(w, s, w')
    ensures Reaches(steps + [s], w')
  {
    hide Possible, Progress;
    assert (steps + [s])[..|steps + [s]| - 1] == steps;
  }

  lemma QuietProgress(w: World, s: Step, w': World)
    requires w'.tables == AfterStatement(w.tables, s) && Decided(w.tables, w'.tables) == {} && w'.decisions == w.decisions
    requires w'.readings == ReadingsAfter(w, s)
    requires !s.PollToken? && w'.issued == w.issued && w'.live == w.live
    ensures Progress(w, s, w')
  {
    assert w'.decisions == w.decisions + [] && Enumerates([], {});
  }

  const EMPTY := World(Tables(map[], map[]), {}, {}, {}, [])
  const REQUESTED := EMPTY.(tables := Tables(map[1 := Pairing("laptop", Pending, 100, None, None)], map[]))

  lemma Creates()
    ensures Possible(EMPTY, Create(1, "laptop", 100)) && Progress(EMPTY, Create(1, "laptop", 100), REQUESTED)
  {
    QuietProgress(EMPTY, Create(1, "laptop", 100), REQUESTED);
  }

  lemma IsApproved()
    ensures var w := BeforeRevocation({}, None).(readings := {});
            Possible(REQUESTED, Approve(1, 7, 2)) && Progress(REQUESTED, Approve(1, 7, 2), w)
  {
    var w := BeforeRevocation({}, None).(readings := {});
    assert Decided(REQUESTED.tables, w.tables) == {1} && Enumerates([1], {1}) && w.decisions == REQUESTED.decisions + [1];
  }

  lemma IsRead()
    ensures var w := BeforeRevocation({}, None).(readings := {});
            Possible(w, PollRead(1)) && Progress(w, PollRead(1), BeforeRevocation({}, None))
  {
    var w, w' := BeforeRevocation({}, None).(readings := {}), BeforeRevocation({}, None);
    assert Decided(w.tables, w'.tables) == {};
    QuietProgress(w, PollRead(1), w');
  }

  lemma Approves() returns (steps: seq<Step>)
    ensures Reaches(steps, BeforeRevocation({}, None))
  {
    assert Reaches([], EMPTY);
    hide Possible, Progress, Reaches;
    var w := BeforeRevocation({}, None);
    var create, approve, read := Create(1, "laptop", 100), Approve(1, 7, 2), PollRead(1);
    Creates();
    Extended([], EMPTY, create, REQUESTED);
    IsApproved();
    Extended([] + [create], REQUESTED, approve, w.(readings := {}));
    IsRead();
    steps := [] + [create] + [approve] + [read];
    Extended([] + [create] + [approve], w.(readings := {}), read, w);
  }

  lemma Issues(w: World, token: nat, w': World)
    requires w'.tables == WithToken(w.tables, 7, token) && NeedsToken(w.tables, 7)
    requires w'.readings == w.readings && w'.decisions == w.decisions && w'.issued == w.issued + {(7, token)}
    requires w'.live == if Live(w.tables, 7) then w.live + {(7, token)} else w.live
    ensures Progress(w, PollToken(1, Named(7), token), w')
  {
    assert Decided(w.tables, w'.tables) == {};
    assert w'.decisions == w.decisions + [] && Enumerates([], {});
  }

  lemma Revokes()
    ensures Progress(BeforeRevocation({(7, 10)}, Some(Hashed(10))), Revoke(7), AtRevocation({(7, 10)}, None))
  {
    var w, w' := BeforeRevocation({(7, 10)}, Some(Hashed(10))), AtRevocation({(7, 10)}, None);
    assert Decided(w.tables, w'.tables) == {};
    QuietProgress(w, Revoke(7), w');
  }

  /**
   Until revocation one token is issued for a source; afterwards another poll is answered with another token, which
   authenticates for nothing.
   */
  lemma RevokedSourceGetsAnotherToken() returns (steps: seq<Step>, w: World)
    ensures Reaches(steps, w)
    ensures (7, 10) in w.issued && (7, 11) in w.issued && !Live(w.tables, 7)
    ensures forall source: Uuid :: !Authenticates(w.tables, 11, source)
  {
    hide Reaches, Progress, Decided;
    var w1, w2 := BeforeRevocation({}, None), BeforeRevocation({(7, 10)}, Some(Hashed(10)));
    var w3, w4 := AtRevocation({(7, 10)}, None), AtRevocation({(7, 10), (7, 11)}, Some(Hashed(11)));
    var first, revoke, second := PollToken(1, Named(7), 10), Revoke(7), PollToken(1, Named(7), 11);
    var approved := Approves();
    Issues(w1, 10, w2);
    Extended(approved, w1, first, w2);
    Revokes();
    Extended(approved + [first], w2, revoke, w3);
    Issues(w3, 11, w4);
    steps := approved + [first] + [revoke] + [second];
    Extended(approved + [first] + [revoke], w3, second, w4);
    w := w4;
  }

  // ----- the server, one request at a time -----

  datatype Failure = NotFound | Conflict

  datatype Result<+T> = Ok(value: T) | Err(error: Failure)

  class PairingServer {
    var tables: Tables

    ghost predicate Valid()
      reads this
    {
      Paired(tables)
    }

    constructor ()
      ensures Valid() && tables == Tables(map[], map[])
    {
      tables := Tables(map[], map[]);
    }

    /** `id` is fresh. */
    method CreatePairing(id: Uuid, name: string, now: int, ttl: nat)
      requires Valid() && id !in tables.pairings
      modifies this
      ensures Valid() && tables.sources == old(tables).sources
      ensures tables.pairings == old(tables).pairings[id := Pairing(name, Pending, now + ttl, None, None)]
    {
      hide Paired;
      StatementKeepsPaired(tables, Create(id, name, now + ttl));
      tables := tables.(pairings := tables.pairings[id := Pairing(name, Pending, now + ttl, None, None)]);
    }

    /** `token` is fresh. A token is returned to the first poll that finds the request approved, and to no other. */
    method PollPairing(id: Uuid, now: int, token: nat) returns (r: Result<(Status, Option<Uuid>, Option<nat>)>)
      requires Valid()
      modifies this
      ensures Valid()
      ensures r.Err? <==> id !in old(tables).pairings
      ensures r.Err? ==> r.error == NotFound && tables == old(tables)
      ensures r.Ok? ==>
                var p := old(tables).pairings[id];
                var late := p.status == Pending && p.expires <= now;
                && r.value.0 == (if late then Expired else p.status) && r.value.1 == p.source
                && tables.pairings == (if late then old(tables).pairings[id := p.(status := Expired, decidedAt := Some(now))]
                                       else old(tables).pairings)
      ensures r.Ok? ==> (r.value.2.Some? <==> r.value.0 == Approved && old(tables).sources[r.value.1.value].tokenHash == None)
      ensures r.Ok? && r.value.2.Some? ==>
                && r.value.2.value == token && r.value.1.value in old(tables).sources
                && tables.sources == old(tables).sources[r.value.1.value :=
                     old(tables).sources[r.value.1.value].(tokenHash := Some(Hashed(token)))]
      ensures r.Ok? && r.value.2.None? ==> tables.sources == old(tables).sources
    {
      if id !in tables.pairings {
        return Err(NotFound);
      }
      var reading := Read(tables.pairings[id]);
      var status := reading.status;
      if status == Pending && reading.expires <= now {
        status := Expired;
        StatementKeepsPaired(tables, PollExpire(id, reading, now, now));
        if IsPending(tables, id) {
          tables := tables.(pairings := tables.pairings[id := tables.pairings[id].(status := Expired, decidedAt := Some(now))]);
        }
      }
      var issued := None;
      if status == Approved {
        var source := reading.source.value;
        StatementKeepsPaired(tables, PollToken(id, reading, token));
        if NeedsToken(tables, source) {
          tables := tables.(sources := tables.sources[source := tables.sources[source].(tokenHash := Some(Hashed(token)))]);
          issued := Some(token);
        }
      }
      return Ok((status, reading.source, issued));
    }

    method ListPairings(now: int) returns (pending: set<Uuid>)
      requires Valid()
      modifies this
      ensures Valid() && tables.sources == old(tables).sources && tables.pairings.Keys == old(tables).pairings.Keys
      ensures forall id :: id in tables.pairings ==>
                var p := old(tables).pairings[id];
                tables.pairings[id] == if p.status == Pending && p.expires <= now
                                       then p.(status := Expired, decidedAt := Some(now)) else p
      ensures forall id :: id in pending <==>
                id in old(tables).pairings && old(tables).pairings[id].status == Pending && now < old(tables).pairings[id].expires
    {
      hide Paired;
      StatementKeepsPaired(tables, List(now, now));
      tables := ExpiredDue(tables, now, now);
      pending := set id | id in tables.pairings && tables.pairings[id].status == Pending;
    }

    /** `source` is the fresh identifier of the source. */
    method ApprovePairing(id: Uuid, source: Uuid, now: int) returns (r: Result<Uuid>)
      requires Valid() && source !in tables.sources
      modifies this
      ensures Valid()
      ensures r.Ok? <==> id in old(tables).pairings && old(tables).pairings[id].status == Pending
                         && now < old(tables).pairings[id].expires
      ensures r.Ok? ==>
                var p := old(tables).pairings[id];
                && r.value == source
                && tables.pairings == old(tables).pairings[id := p.(status := Approved, decidedAt := Some(now), source := Some(source))]
                && tables.sources == old(tables).sources[source := Source(p.name, None, false)]
      ensures r == Err(NotFound) <==> id !in old(tables).pairings
      ensures r.Err? ==> tables.sources == old(tables).sources
      ensures r.Err? ==>
                tables.pairings == if id in old(tables).pairings && old(tables).pairings[id].status == Pending
                                   then old(tables).pairings[id := old(tables).pairings[id].(status := Expired, decidedAt := Some(now))]
                                   else old(tables).pairings
    {
      hide Paired;
      if id !in tables.pairings {
        return Err(NotFound);
      }
      var name, before := tables.pairings[id].name, tables;
      StatementKeepsPaired(tables, Approve(id, source, now));
      tables := tables.(sources := tables.sources[source := Source(name, None, false)]);
      if IsPending(tables, id) && now < tables.pairings[id].expires {
        tables := tables.(pairings := tables.pairings[id :=
          tables.pairings[id].(status := Approved, decidedAt := Some(now), source := Some(source))]);
        return Ok(source);
      }
      tables := before;
      StatementKeepsPaired(tables, ExpireAfterConflict(id, now));
      if IsPending(tables, id) && tables.pairings[id].expires <= now {
        tables := tables.(pairings := tables.pairings[id := tables.pairings[id].(status := Expired, decidedAt := Some(now))]);
      }
      return Err(Conflict);
    }

    method RejectPairing(id: Uuid, now: int) returns (r: Result<()>)
      requires Valid()
      modifies this
      ensures Valid() && tables.sources == old(tables).sources
      ensures r == if id in old(tables).pairings && old(tables).pairings[id].status == Pending then Ok(()) else Err(Conflict)
      ensures r.Err? ==> tables == old(tables)
      ensures r.Ok? ==>
                var p := old(tables).pairings[id];
                tables.pairings == old(tables).pairings[id :=
                  p.(status := if p.expires <= now then Expired else Rejected, decidedAt := Some(now))]
    {
      hide Paired;
      StatementKeepsPaired(tables, Reject(id, now, now));
      if !IsPending(tables, id) {
        return Err(Conflict);
      }
      var status := if tables.pairings[id].expires <= now then Expired else Rejected;
      tables := tables.(pairings := tables.pairings[id := tables.pairings[id].(status := status, decidedAt := Some(now))]);
      return Ok(());
    }

    method RevokeSource(source: Uuid) returns (r: Result<()>)
      requires Valid()
      modifies this
      ensures Valid() && tables.pairings == old(tables).pairings
      ensures r == if source in old(tables).sources && !old(tables).sources[source].revoked then Ok(()) else Err(NotFound)
      ensures tables.sources == if r.Err? then old(tables).sources
                                else old(tables).sources[source := old(tables).sources[source].(revoked := true, tokenHash := None)]
      ensures forall token: nat :: !Authenticates(tables, token, source)
    {
      hide Paired;
      StatementKeepsPaired(tables, Revoke(source));
      if !Live(tables, source) {
        return Err(NotFound);
      }
      tables := tables.(sources := tables.sources[source := tables.sources[source].(revoked := true, tokenHash := None)]);
      return Ok(());
    }

    /** The first source whose stored hash matches. */
    method SourceAuth(token: nat) returns (source: Option<Uuid>)
      ensures source.Some? ==>
                && source.value in tables.sources && !tables.sources[source.value].revoked
                && tables.sources[source.value].tokenHash == Some(Hashed(token))
      ensures source.None? ==> forall s :: s in tables.sources && tables.sources[s].tokenHash == Some(Hashed(token)) ==> tables.sources[s].revoked
    {
      var matching := set s | s in tables.sources && Authenticates(tables, token, s);
      if matching == {} {
        assert forall s :: s in tables.sources && Authenticates(tables, token, s) ==> s in matching;
        return None;
      }
      var s :| s in matching;
      return Some(s);
    }
  }
}
