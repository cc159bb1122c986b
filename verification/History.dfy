/**
 What the activity engine computes, read off the history of events alone: which milliseconds were spent
 in the foreground, when a burst lapses, and which events ring. The definitions of `Life` look only at
 event kinds, positions and clock readings; the lemmas relate the state machine to them.
 */
module History {
  import opened Types
  import opened Activity
  import opened Isolation

  /** The longest duration accepted for `minimum_active` and `idle_for`: seven days. */
  const MAX_DURATION: nat := 604_800_000

  predicate Timed(e: Event) { e.Start? || e.Prompt? || e.Manual? || e.Tick? }

  predicate Resets(e: Event) { e.Arm? || e.Disarm? }

  /**
   The events that concern one session while it stays registered within one daemon lifetime. `first` is the
   session as it was opened or recovered; a recovered session may already be settling.
   */
  datatype Life = Life(first: Session, events: seq<Event>) {

    ghost predicate Valid() {
      && first.Valid() && first.state != Active
      && first.idleFor <= MAX_DURATION
      && (forall e :: e in events ==> Proper(e) && (e.Arm? ==> e.idleFor <= MAX_DURATION))
      && (forall i :: 0 <= i < |events| && Timed(events[i]) ==> first.accumulated + events[i].mono <= U64_MAX - MAX_DURATION)
      && (forall i, j :: 0 <= i < j < |events| && Timed(events[i]) && Timed(events[j]) ==> events[i].mono <= events[j].mono)
    }

    /** The state machine after the first `n` events. */
    ghost function State(n: nat): Session
      requires n <= |events|
    {
      if n == 0 then first else React(State(n - 1), events[n - 1]).0
    }

    /** The ring produced by event `n`. */
    ghost function Ring(n: nat): Option<Action>
      requires n < |events|
    {
      React(State(n), events[n]).1
    }

    // ----- the reference reading of the history -----

    /** A command is in the foreground: the last boundary was a start. */
    ghost predicate Foreground(n: nat)
      requires n <= |events|
    {
      n > 0 && (events[n - 1].Start? || (!events[n - 1].Prompt? && !Resets(events[n - 1]) && Foreground(n - 1)))
    }

    /** Event `p` hands control back to the prompt. */
    ghost predicate Returns(p: nat)
      requires p < |events|
    {
      events[p].Prompt? && Foreground(p)
    }

    /** The return the session is settling from; -1 is the one before a recovered session was saved. */
    ghost function Settled(n: nat): Option<int>
      requires n <= |events|
    {
      if n == 0 then (if first.state == Settling then Some(-1) else None)
      else if Returns(n - 1) then Some(n - 1)
      else if events[n - 1].Start? || Resets(events[n - 1]) then None
      else Settled(n - 1)
    }

    ghost function IdleFor(n: nat): nat
      requires n <= |events|
    {
      if n == 0 then first.idleFor
      else if events[n - 1].Arm? then events[n - 1].idleFor
      else IdleFor(n - 1)
    }

    ghost function MinimumActive(n: nat): nat
      requires n <= |events|
    {
      if n == 0 then first.minimumActive
      else if events[n - 1].Arm? then events[n - 1].minimumActive
      else MinimumActive(n - 1)
    }

    ghost function Deadline(p: int): int
      requires -1 <= p < |events|
    {
      if p == -1 then (if first.deadlineMono.Some? then first.deadlineMono.value else 0)
      else if Timed(events[p]) then events[p].mono + IdleFor(p)
      else 0
    }

    /** Event `n` is a tick at or past the deadline of the return the session is settling from. */
    ghost predicate Lapses(n: nat)
      requires n < |events|
    {
      events[n].Tick? && Settled(n).Some? && -1 <= Settled(n).value < |events| && Deadline(Settled(n).value) <= events[n].mono
    }

    /** Where the current burst can have begun: after the last event that forgets bursts. */
    ghost function Origin(n: nat): int
      requires n <= |events|
    {
      if n == 0 then -1
      else if Resets(events[n - 1]) || Lapses(n - 1) then n
      else Origin(n - 1)
    }

    /** Millisecond `x` is covered by a command of the current burst. */
    ghost predicate Covers(n: nat, x: int)
      requires n <= |events|
    {
      exists i :: 0 <= i < n && Origin(n) <= i && events[i].Start? && events[i].mono <= x
                  && forall j :: i < j < n && events[j].Prompt? ==> x < events[j].mono
    }

    /** How many milliseconds before `now` are covered. */
    ghost function Covered(n: nat, now: nat): nat
      requires n <= |events|
      decreases now
    {
      if now == 0 then 0 else Covered(n, now - 1) + (if Covers(n, now - 1) then 1 else 0)
    }

    /** The foreground time of the current burst, including what a recovered session had accumulated. */
    ghost function ForegroundTime(n: nat, now: nat): nat
      requires n <= |events|
    {
      (if Origin(n) == -1 then first.accumulated else 0) + Covered(n, now)
    }

    ghost predicate InBurst(n: nat)
      requires n <= |events|
    {
      || (Origin(n) == -1 && first.state == Settling)
      || exists i :: 0 <= i < n && Origin(n) <= i && events[i].Start?
    }

    /** A manual ring was made during the current burst. */
    ghost predicate RungByHand(n: nat)
      requires n <= |events|
    {
      || (Origin(n) == -1 && first.burstNotified)
      || exists i :: 0 <= i < n && Origin(n) <= i && events[i].Manual? && InBurst(i)
    }

    /** Event `n` would ring for its burst, if the session is armed. */
    ghost predicate WouldRing(n: nat)
      requires n < |events|
    {
      !RungByHand(n) &&
      if events[n].Manual? then InBurst(n)
      else Lapses(n) && Origin(n) <= Settled(n).value && ForegroundTime(n, events[n].mono) >= MinimumActive(n)
    }

    /** The mode last asked for, and where. */
    ghost function AskedMode(n: nat): Mode
      requires n <= |events|
    {
      if n == 0 then first.mode
      else match events[n - 1]
        case Arm(_, mode, _, _, _, _) => mode
        case Disarm(_, _) => Off
        case _ => AskedMode(n - 1)
    }

    ghost function AskedAt(n: nat): nat
      requires n <= |events|
    {
      if n == 0 then 0 else if Resets(events[n - 1]) then n else AskedAt(n - 1)
    }

    /** Once mode has been used up since it was asked for. */
    ghost predicate Spent(n: nat)
      requires n <= |events|
    {
      AskedMode(n) == Once && exists i :: AskedAt(n) <= i < n && WouldRing(i)
    }

    ghost predicate IsArmed(n: nat)
      requires n <= |events|
    {
      AskedMode(n) != Off && !Spent(n)
    }

    /** The largest clock reading among the first `n` events. */
    ghost function Clock(n: nat): nat
      requires n <= |events|
    {
      if n == 0 then 0 else if Timed(events[n - 1]) then events[n - 1].mono else Clock(n - 1)
    }

    // ----- how coverage grows -----

    lemma {:induction false} ClockBounds(n: nat)
      requires Valid() && n <= |events|
      ensures forall i :: 0 <= i < n && Timed(events[i]) ==> events[i].mono <= Clock(n)
      ensures forall i :: n <= i < |events| && Timed(events[i]) ==> Clock(n) <= events[i].mono
      ensures n > 0 && Clock(n) > 0 ==> first.accumulated + Clock(n) <= U64_MAX - MAX_DURATION
    {
      if n == 0 {
      } else {
        ClockBounds(n - 1);
      }
    }

    lemma {:induction false} OriginBounds(n: nat)
      requires n <= |events|
      ensures -1 <= Origin(n) <= n
      ensures Settled(n).Some? ==> -1 <= Settled(n).value < n
      ensures AskedAt(n) <= n
    {
      if n == 0 {
      } else {
        OriginBounds(n - 1);
      }
    }

    lemma {:induction false} SameCoverage(n: nat, m: nat, now: nat)
      requires n <= |events| && m <= |events|
      requires forall x :: 0 <= x < now ==> (Covers(n, x) <==> Covers(m, x))
      ensures Covered(n, now) == Covered(m, now)
      decreases now
    {
      if now == 0 {
      } else {
        SameCoverage(n, m, now - 1);
      }
    }

    lemma {:induction false} FullCoverage(n: nat, from: nat, now: nat)
      requires n <= |events| && from <= now
      requires forall x :: from <= x < now ==> Covers(n, x)
      ensures Covered(n, now) == Covered(n, from) + (now - from)
      decreases now
    {
      if from < now {
        FullCoverage(n, from, now - 1);
      }
    }

    lemma {:induction false} NoCoverage(n: nat, from: nat, now: nat)
      requires n <= |events| && from <= now
      requires forall x :: from <= x < now ==> !Covers(n, x)
      ensures Covered(n, now) == Covered(n, from)
      decreases now
    {
      if from < now {
        NoCoverage(n, from, now - 1);
      }
    }

    lemma {:induction false} CoverageBound(n: nat, now: nat)
      requires n <= |events|
      ensures Covered(n, now) <= now
      decreases now
    {
      if now == 0 {
      } else {
        CoverageBound(n, now - 1);
      }
    }

    /** A start covers every millisecond from its own on; a prompt uncovers every one from its own on. */
    lemma CoverageGrows(n: nat, x: int)
      requires n < |events| && Origin(n + 1) == Origin(n) && Origin(n) <= n
      ensures events[n].Start? ==> (Covers(n + 1, x) <==> Covers(n, x) || events[n].mono <= x)
      ensures events[n].Prompt? ==> (Covers(n + 1, x) <==> Covers(n, x) && x < events[n].mono)
      ensures !events[n].Start? && !events[n].Prompt? ==> (Covers(n + 1, x) <==> Covers(n, x))
    {
      if Covers(n, x) {
        var i :| 0 <= i < n && Origin(n) <= i && events[i].Start? && events[i].mono <= x
                 && forall j :: i < j < n && events[j].Prompt? ==> x < events[j].mono;
        assert events[i].Start?;
      }
      if Covers(n + 1, x) {
        var i :| 0 <= i < n + 1 && Origin(n + 1) <= i && events[i].Start? && events[i].mono <= x
                 && forall j :: i < j < n + 1 && events[j].Prompt? ==> x < events[j].mono;
        assert events[i].Start?;
        assert events[n].Prompt? ==> i < n;
      }
      if events[n].Start? && events[n].mono <= x {
        assert events[n].Start?;
      }
    }

    // ----- what the burst's time looks like from inside a command, and between commands -----

    /** A command has covered everything since `started`; before that the burst had `time`. */
    ghost predicate Running(n: nat, started: nat, time: nat)
      requires n <= |events|
    {
      && started <= Clock(n)
      && (forall x :: started <= x ==> Covers(n, x))
      && time == ForegroundTime(n, started)
    }

    /** Nothing covers the present, and the burst has had `time`. */
    ghost predicate Standing(n: nat, time: nat)
      requires n <= |events|
    {
      && (forall x :: Clock(n) <= x ==> !Covers(n, x))
      && time == ForegroundTime(n, Clock(n))
    }

    lemma RunningTime(n: nat, started: nat, time: nat, now: nat)
      requires n <= |events| && Running(n, started, time) && started <= now
      ensures ForegroundTime(n, now) == time + (now - started)
    {
      FullCoverage(n, started, now);
    }

    lemma StandingTime(n: nat, time: nat, now: nat)
      requires n <= |events| && Standing(n, time) && Clock(n) <= now
      ensures ForegroundTime(n, now) == time
    {
      NoCoverage(n, Clock(n), now);
    }

    lemma SameForegroundTime(n: nat, now: nat)
      requires n < |events| && Origin(n + 1) == Origin(n)
      requires forall x :: 0 <= x < now ==> (Covers(n + 1, x) <==> Covers(n, x))
      ensures ForegroundTime(n + 1, now) == ForegroundTime(n, now)
    {
      SameCoverage(n + 1, n, now);
    }

    /** An event that neither starts, returns nor forgets leaves the reference as it is. */
    lemma NothingNew(n: nat)
      requires n < |events| && !Resets(events[n]) && !events[n].Start? && !events[n].Prompt? && !Lapses(n)
      ensures Origin(n + 1) == Origin(n) && Settled(n + 1) == Settled(n) && (Foreground(n + 1) <==> Foreground(n))
      ensures IdleFor(n + 1) == IdleFor(n) && MinimumActive(n + 1) == MinimumActive(n)
      ensures InBurst(n + 1) <==> InBurst(n)
      ensures RungByHand(n + 1) <==> RungByHand(n) || (events[n].Manual? && InBurst(n))
    {
      OriginBounds(n);
    }

    lemma CoveredOnlyInBurst(n: nat, x: int)
      requires n <= |events| && Covers(n, x)
      ensures InBurst(n)
    {
    }

    lemma BoundaryKeepsBurst(n: nat)
      requires n < |events| && (events[n].Start? || events[n].Prompt?)
      ensures Origin(n + 1) == Origin(n)
      ensures IdleFor(n + 1) == IdleFor(n) && MinimumActive(n + 1) == MinimumActive(n)
      ensures InBurst(n + 1) <==> InBurst(n) || events[n].Start?
      ensures RungByHand(n + 1) <==> RungByHand(n)
      ensures !InBurst(n) && Origin(n) == -1 ==> first.state != Settling
    {
      OriginBounds(n);
      if events[n].Start? {
        assert InBurst(n + 1);
      }
    }

    lemma ForgettingEndsBurst(n: nat)
      requires n < |events| && (Resets(events[n]) || Lapses(n))
      ensures Origin(n + 1) == n + 1 && !InBurst(n + 1) && !RungByHand(n + 1)
    {
    }

    lemma TimeAfterNothing(n: nat, started: nat, time: nat)
      requires Valid() && n < |events|
      requires !Resets(events[n]) && !events[n].Start? && !events[n].Prompt? && !Lapses(n)
      ensures Running(n, started, time) ==> Running(n + 1, started, time)
      ensures Standing(n, time) ==> Standing(n + 1, time)
    {
      var m := n + 1;
      ClockBounds(n);
      OriginBounds(n);
      forall x ensures Covers(m, x) <==> Covers(n, x) {
        CoverageGrows(n, x);
      }
      if Running(n, started, time) {
        SameForegroundTime(n, started);
        assert Running(m, started, time);
      }
      if Standing(n, time) {
        StandingTime(n, time, Clock(m));
        SameForegroundTime(n, Clock(m));
        assert Standing(m, time);
      }
    }

    lemma TimeAfterStart(n: nat, started: nat, time: nat)
      requires Valid() && n < |events| && events[n].Start?
      ensures Running(n, started, time) ==> Running(n + 1, started, time)
      ensures Standing(n, time) ==> Running(n + 1, events[n].mono, time)
      ensures !InBurst(n) ==> Running(n + 1, events[n].mono, if Origin(n) == -1 then first.accumulated else 0)
    {
      var m, t := n + 1, events[n].mono;
      ClockBounds(n);
      OriginBounds(n);
      forall x ensures Covers(m, x) <==> Covers(n, x) || t <= x {
        CoverageGrows(n, x);
      }
      SameForegroundTime(n, t);
      if Running(n, started, time) {
        SameForegroundTime(n, started);
        assert Running(m, started, time);
      }
      if Standing(n, time) {
        StandingTime(n, time, t);
        assert Running(m, t, time);
      }
      if !InBurst(n) {
        forall x ensures !Covers(n, x) {
          if Covers(n, x) {
            CoveredOnlyInBurst(n, x);
          }
        }
        NoCoverage(n, 0, t);
        assert Running(m, t, if Origin(n) == -1 then first.accumulated else 0);
      }
    }

    lemma TimeAfterPrompt(n: nat, started: nat, time: nat)
      requires Valid() && n < |events| && events[n].Prompt?
      ensures Running(n, started, time) ==>
              started <= events[n].mono && time <= first.accumulated + started
              && Standing(n + 1, time + (events[n].mono - started))
      ensures Standing(n, time) ==> Standing(n + 1, time)
    {
      var m, t := n + 1, events[n].mono;
      ClockBounds(n);
      OriginBounds(n);
      forall x ensures Covers(m, x) <==> Covers(n, x) && x < t {
        CoverageGrows(n, x);
      }
      SameForegroundTime(n, t);
      if Running(n, started, time) {
        CoverageBound(n, started);
        RunningTime(n, started, time, t);
        assert Standing(m, time + (t - started));
      }
      if Standing(n, time) {
        StandingTime(n, time, t);
        assert Standing(m, time);
      }
    }

    // ----- the state machine agrees with the reference -----

    /** What an armed session's fields say about the history. */
    ghost predicate FieldsAgree(n: nat, s: Session)
      requires n <= |events|
    {
      && (s.state == Active <==> Foreground(n))
      && (s.state == Settling <==> Settled(n).Some? && Origin(n) <= Settled(n).value)
      && (s.state == Active || s.state == Settling <==> InBurst(n))
      && (s.burstNotified <==> RungByHand(n))
      && (s.state == Active ==> s.commandStarted.Some? && Running(n, s.commandStarted.value, s.accumulated))
      && (s.state == Settling ==>
            && s.deadlineMono.Some? && -1 <= Settled(n).value < |events|
            && s.deadlineMono.value == Deadline(Settled(n).value)
            && Standing(n, s.accumulated))
    }

    ghost predicate Agrees(n: nat, s: Session)
      requires n <= |events|
    {
      && s.Valid()
      && s.idleFor == IdleFor(n) <= MAX_DURATION
      && s.minimumActive == MinimumActive(n)
      && s.mode == (if IsArmed(n) then AskedMode(n) else Off)
      && (IsArmed(n) ==> FieldsAgree(n, s))
    }

    lemma AgreesAtFirst()
      requires Valid()
      ensures Agrees(0, first)
    {
    }

    /** An event that is no reset keeps the request, and spends it if it rings in once mode. */
    lemma SpentGrows(n: nat)
      requires n < |events| && !Resets(events[n])
      ensures AskedMode(n + 1) == AskedMode(n) && AskedAt(n + 1) == AskedAt(n)
      ensures Spent(n + 1) <==> Spent(n) || (AskedMode(n) == Once && WouldRing(n))
    {
      OriginBounds(n);
    }

    lemma AgreesAfterReset(n: nat, s: Session)
      requires Valid() && n < |events| && Agrees(n, s) && Resets(events[n])
      ensures Agrees(n + 1, React(s, events[n]).0) && React(s, events[n]).1 == None
    {
      hide React, Running, Standing, InBurst, RungByHand;
      ReactCases(s, events[n]);
      OriginBounds(n + 1);
      ForgettingEndsBurst(n);
      assert Proper(events[n]) && (events[n].Arm? ==> events[n].idleFor <= MAX_DURATION) by { assert events[n] in events; }
    }

    lemma {:induction false} ForegroundIsNotSettled(n: nat)
      requires n <= |events| && Foreground(n)
      ensures Settled(n) == None
    {
      if !events[n - 1].Start? {
        ForegroundIsNotSettled(n - 1);
      }
    }

    lemma AgreesAfterNothing(n: nat, s: Session)
      requires Valid() && n < |events| && Agrees(n, s)
      requires !Resets(events[n]) && !events[n].Start? && !events[n].Prompt? && !events[n].Manual? && !Lapses(n)
      ensures Agrees(n + 1, React(s, events[n]).0) && React(s, events[n]).1 == None && !WouldRing(n)
    {
      hide React, Running, Standing, InBurst, RungByHand;
      ReactCases(s, events[n]);
      OriginBounds(n);
      NothingNew(n);
      SpentGrows(n);
      TimeAfterNothing(n, if s.commandStarted.Some? then s.commandStarted.value else 0, s.accumulated);
    }

    lemma AgreesAfterLapse(n: nat, s: Session)
      requires Valid() && n < |events| && Agrees(n, s) && Lapses(n)
      ensures Agrees(n + 1, React(s, events[n]).0)
      ensures var ring := React(s, events[n]).1;
              && (ring.Some? <==> IsArmed(n) && WouldRing(n))
              && (ring.Some? ==> ring.value.activeDuration == Some(ForegroundTime(n, events[n].mono)))
    {
      hide React, Running, Standing, InBurst, RungByHand;
      ReactCases(s, events[n]);
      ClockBounds(n);
      OriginBounds(n);
      SpentGrows(n);
      ForgettingEndsBurst(n);
      if Foreground(n) {
        ForegroundIsNotSettled(n);
      }
      if IsArmed(n) && s.state == Settling {
        StandingTime(n, s.accumulated, events[n].mono);
      }
    }

    lemma AgreesAfterStart(n: nat, s: Session)
      requires Valid() && n < |events| && Agrees(n, s) && events[n].Start?
      ensures Agrees(n + 1, React(s, events[n]).0) && React(s, events[n]).1 == None && !WouldRing(n)
    {
      hide React, Running, Standing, InBurst, RungByHand;
      ReactCases(s, events[n]);
      OriginBounds(n);
      SpentGrows(n);
      assert Origin(n) == -1 && first.state != Settling ==> first.accumulated == 0;
      TimeAfterStart(n, if s.commandStarted.Some? then s.commandStarted.value else 0, s.accumulated);
      BoundaryKeepsBurst(n);
    }

    lemma AgreesAfterPrompt(n: nat, s: Session)
      requires Valid() && n < |events| && Agrees(n, s) && events[n].Prompt?
      ensures Agrees(n + 1, React(s, events[n]).0) && React(s, events[n]).1 == None && !WouldRing(n)
    {
      hide React, Running, Standing, InBurst, RungByHand;
      ReactCases(s, events[n]);
      var started := if s.commandStarted.Some? then s.commandStarted.value else 0;
      OriginBounds(n);
      SpentGrows(n);
      TimeAfterPrompt(n, started, s.accumulated);
      BoundaryKeepsBurst(n);
    }

    lemma AgreesAfterManual(n: nat, s: Session)
      requires Valid() && n < |events| && Agrees(n, s) && events[n].Manual?
      ensures Agrees(n + 1, React(s, events[n]).0)
      ensures var ring := React(s, events[n]).1;
              && (ring.Some? && ring.value.activeDuration.Some? <==> IsArmed(n) && WouldRing(n))
              && (ring.None? ==> IsArmed(n) && RungByHand(n))
    {
      hide React, Running, Standing, InBurst, RungByHand;
      ReactCases(s, events[n]);
      OriginBounds(n);
      NothingNew(n);
      SpentGrows(n);
      TimeAfterNothing(n, if s.commandStarted.Some? then s.commandStarted.value else 0, s.accumulated);
    }

    lemma AgreesStep(n: nat, s: Session)
      requires Valid() && n < |events| && Agrees(n, s)
      ensures Agrees(n + 1, React(s, events[n]).0)
    {
      hide React, Agrees;
      match events[n]
      case Start(_, _, _, _) => AgreesAfterStart(n, s);
      case Prompt(_, _, _) => AgreesAfterPrompt(n, s);
      case Manual(_, _, _, _, _, _) => AgreesAfterManual(n, s);
      case Arm(_, _, _, _, _, _) => AgreesAfterReset(n, s);
      case Disarm(_, _) => AgreesAfterReset(n, s);
      case Tick(_, _, _) =>
        if Lapses(n) { AgreesAfterLapse(n, s); } else { AgreesAfterNothing(n, s); }
      case _ => AgreesAfterNothing(n, s);
    }

    lemma {:induction false} MachineAgrees(n: nat)
      requires Valid() && n <= |events|
      ensures Agrees(n, State(n))
    {
      hide React, Agrees;
      if n == 0 {
        AgreesAtFirst();
      } else {
        MachineAgrees(n - 1);
        AgreesStep(n - 1, State(n - 1));
      }
    }

    /**
     The displayed activity is exactly the number of milliseconds the current burst spent in the foreground,
     and nothing when no burst can ring; no addition saturates.
     */
    lemma BurstAccounting(n: nat, now: U64)
      requires Valid() && n <= |events|
      requires Clock(n) <= now && first.accumulated + now <= U64_MAX
      ensures State(n).DisplayedActive(now) == if IsArmed(n) then ForegroundTime(n, now) else 0
    {
      var s := State(n);
      MachineAgrees(n);
      CoverageBound(n, now);
      if IsArmed(n) {
        if s.state == Active {
          RunningTime(n, s.commandStarted.value, s.accumulated, now);
        } else if s.state == Settling {
          StandingTime(n, s.accumulated, now);
        } else {
          forall x ensures !Covers(n, x) {
            if Covers(n, x) {
              CoveredOnlyInBurst(n, x);
            }
          }
          NoCoverage(n, 0, now);
          assert Origin(n) == -1 ==> first.accumulated == 0;
        }
      }
    }

    /** A start while a command runs, or a prompt while none does, adds nothing. */
    lemma DuplicateBoundary(n: nat, now: nat)
      requires Valid() && n < |events| && IsArmed(n) && Clock(n + 1) <= now
      requires (events[n].Start? && Foreground(n)) || (events[n].Prompt? && !Foreground(n))
      ensures ForegroundTime(n + 1, now) == ForegroundTime(n, now)
    {
      var s, m := State(n), n + 1;
      MachineAgrees(n);
      ClockBounds(n);
      OriginBounds(n);
      if events[n].Start? {
        TimeAfterStart(n, s.commandStarted.value, s.accumulated);
        RunningTime(n, s.commandStarted.value, s.accumulated, now);
        RunningTime(m, s.commandStarted.value, s.accumulated, now);
      } else if s.state == Settling {
        TimeAfterPrompt(n, 0, s.accumulated);
        StandingTime(n, s.accumulated, now);
        StandingTime(m, s.accumulated, now);
      } else {
        forall x ensures !Covers(n, x) && !Covers(m, x) {
          CoverageGrows(n, x);
          if Covers(n, x) {
            CoveredOnlyInBurst(n, x);
          }
        }
        SameForegroundTime(n, now);
      }
    }

    /** Event `n` produced a ring that counts for its burst: an automatic or an associated one. */
    ghost predicate RingsBurst(n: nat)
      requires n < |events|
    {
      Ring(n).Some? && Ring(n).value.activeDuration.Some?
    }

    /** A manual ring for a burst carries the time displayed when it was asked for. */
    lemma ManualCarriesTime(n: nat)
      requires Valid() && n < |events| && events[n].Manual? && RingsBurst(n)
      ensures Ring(n).value.activeDuration == Some(ForegroundTime(n, events[n].mono))
    {
      ClockBounds(n);
      MachineAgrees(n);
      BurstAccounting(n, events[n].mono);
    }

    /** The events that ring for a burst are exactly those the history says should. */
    lemma RingsExactlyWhenDue(n: nat)
      requires Valid() && n < |events|
      ensures RingsBurst(n) <==> IsArmed(n) && WouldRing(n)
      ensures RingsBurst(n) && events[n].Tick? ==> Ring(n).value.activeDuration == Some(ForegroundTime(n, events[n].mono))
      ensures RingsBurst(n) && events[n].Manual? ==> Ring(n).value.activeDuration == Some(ForegroundTime(n, events[n].mono))
      ensures !events[n].Manual? ==> (Ring(n).Some? <==> RingsBurst(n))
    {
      var s := State(n);
      if events[n].Manual? && RingsBurst(n) { ManualCarriesTime(n); }
      MachineAgrees(n);
      match events[n]
      case Start(_, _, _, _) => AgreesAfterStart(n, s);
      case Prompt(_, _, _) => AgreesAfterPrompt(n, s);
      case Manual(_, _, _, _, _, _) => AgreesAfterManual(n, s);
      case Arm(_, _, _, _, _, _) => OriginBounds(n);
      case Disarm(_, _) => OriginBounds(n);
      case Tick(_, _, _) =>
        if Lapses(n) { AgreesAfterLapse(n, s); } else { AgreesAfterNothing(n, s); }
      case _ => AgreesAfterNothing(n, s);
    }

    /** Event `p` is the last return of a burst that is still settling when event `n` happens. */
    ghost predicate LastReturn(n: nat, p: int)
      requires n <= |events|
    {
      && -1 <= p < n
      && (if p == -1 then first.state == Settling else Returns(p))
      && forall j :: p < j < n ==> 0 <= j && !events[j].Start? && !Resets(events[j]) && !(events[j].Tick? && Deadline(p) <= events[j].mono)
    }

    lemma {:induction false} SettledIsLastReturn(n: nat, p: int)
      requires n <= |events|
      ensures Settled(n) == Some(p) && Origin(n) <= p <==> LastReturn(n, p)
    {
      OriginBounds(n);
      if n == 0 {
      } else {
        var e := events[n - 1];
        OriginBounds(n - 1);
        SettledIsLastReturn(n - 1, p);
        if LastReturn(n, p) && p < n - 1 {
          assert LastReturn(n - 1, p);
          assert !e.Start? && !Resets(e) && !(e.Tick? && Deadline(p) <= e.mono);
          if Returns(n - 1) {
            ForegroundIsNotSettled(n - 1);
          }
        }
        if Settled(n) == Some(p) && Origin(n) <= p && p < n - 1 {
          assert LastReturn(n - 1, p) && !(e.Tick? && Deadline(p) <= e.mono);
        }
      }
    }

    /**
     A tick rings exactly when the burst's last return plus `idle_for` has passed, with no start, arm, disarm or
     earlier tick at or past that deadline after it, the burst was not rung by hand, and it was in the foreground
     for at least `minimum_active`.
     */
    lemma AutomaticRingsAreSoundAndComplete(n: nat)
      requires Valid() && n < |events| && events[n].Tick?
      ensures Ring(n).Some? <==>
              && IsArmed(n) && !RungByHand(n)
              && ForegroundTime(n, events[n].mono) >= MinimumActive(n)
              && exists p :: LastReturn(n, p) && Deadline(p) <= events[n].mono
    {
      RingsExactlyWhenDue(n);
      OriginBounds(n);
      if Settled(n).Some? {
        SettledIsLastReturn(n, Settled(n).value);
      }
      forall p | LastReturn(n, p) ensures Settled(n) == Some(p) && Origin(n) <= p {
        SettledIsLastReturn(n, p);
      }
    }

    // ----- what a ring says -----

    /** The targets given with the last arm. */
    ghost function Targets(n: nat): seq<string>
      requires n <= |events|
    {
      if n == 0 then first.targets else if events[n - 1].Arm? then events[n - 1].targets else Targets(n - 1)
    }

    /** The title given last. */
    ghost function Title(n: nat): Option<string>
      requires n <= |events|
    {
      if n == 0 then first.title else if events[n - 1].SetLabel? then events[n - 1].title else Title(n - 1)
    }

    lemma {:induction false} LabelsAgree(n: nat)
      requires n <= |events|
      ensures State(n).id == first.id && State(n).targets == Targets(n) && State(n).title == Title(n)
    {
      hide React;
      if n == 0 {
      } else {
        LabelsAgree(n - 1);
        ReactCases(State(n - 1), events[n - 1]);
      }
    }

    /** A ring names its session; an automatic one has the targets last armed with and the title last set. */
    lemma RingSays(n: nat)
      requires n < |events| && Ring(n).Some?
      ensures var ring := Ring(n).value;
              && ring.sessionId == Some(first.id)
              && (ring.automatic <==> events[n].Tick?)
              && (events[n].Tick? ==>
                    && ring.eventId == events[n].events(first.id) && ring.targets == Targets(n)
                    && ring.message == Some(if Title(n).Some? && Title(n).value != "" then Title(n).value + " is ready"
                                            else "Shell is ready"))
              && (!events[n].Tick? ==>
                    && events[n].Manual? && ring.eventId == events[n].event
                    && ring.message == events[n].message && ring.targets == events[n].targets)
    {
      hide React;
      LabelsAgree(n);
      ReactCases(State(n), events[n]);
    }


    // ----- once mode -----

    ghost predicate ProperLife() { first.Valid() && forall e :: e in events ==> Proper(e) }

    lemma {:induction false} StateValid(n: nat)
      requires ProperLife() && n <= |events|
      ensures State(n).Valid()
    {
      if n == 0 {
      } else {
        StateValid(n - 1);
        assert events[n - 1] in events;
        ReactKeepsValid(State(n - 1), events[n - 1]);
      }
    }

    /** A session that is off stays off, and rings for no burst, until it is armed. */
    lemma {:induction false} OffUntilArmed(from: nat, to: nat)
      requires ProperLife() && from <= to <= |events|
      requires State(from).mode == Off
      requires forall k :: from <= k < to ==> !events[k].Arm?
      ensures State(to).mode == Off && State(to).state == Disarmed
      ensures to < |events| ==> !RingsBurst(to)
    {
      hide React;
      StateValid(to);
      if to < |events| {
        ReactCases(State(to), events[to]);
      }
      if from < to {
        ReactCases(State(to - 1), events[to - 1]);
        OffUntilArmed(from, to - 1);
      }
    }

    lemma {:induction false} OnceUntilUsed(from: nat, to: nat)
      requires ProperLife() && from <= to <= |events|
      requires State(from).mode == Once
      requires forall k :: from <= k < to ==> !Resets(events[k]) && !RingsBurst(k)
      ensures State(to).mode == Once
    {
      hide React;
      if from < to {
        ReactCases(State(to - 1), events[to - 1]);
        StateValid(to - 1);
        OnceUntilUsed(from, to - 1);
        assert !Resets(events[to - 1]) && !RingsBurst(to - 1);
      }
    }

    lemma OnceRingSwitchesOff(n: nat)
      requires ProperLife() && n < |events|
      requires State(n).mode == Once && RingsBurst(n)
      ensures State(n + 1).mode == Off
    {
      StateValid(n);
    }

    /**
     Between two arms, once mode rings for at most one burst; from then on the session is off. Until then short
     bursts and standalone manual rings leave it in once mode.
     */
    lemma OnceModeOverRuns(a: nat, b: nat)
      requires ProperLife() && a < b <= |events|
      requires events[a].Arm? && events[a].mode == Once
      requires forall k :: a < k < b ==> !events[k].Arm?
      ensures forall i, j :: a < i < j < b && RingsBurst(i) ==> !RingsBurst(j)
      ensures forall i, k :: a < i < k <= b && RingsBurst(i) ==> State(k).mode == Off && State(k).state == Disarmed
      ensures (forall k :: a < k < b ==> !events[k].Disarm? && !RingsBurst(k)) ==> State(b).mode == Once
    {
      forall i | a < i < b && RingsBurst(i) ensures State(i + 1).mode == Off {
        RingNeedsMode(a, i);
        OnceRingSwitchesOff(i);
      }
      forall i, k | a < i < k <= b && RingsBurst(i)
        ensures State(k).mode == Off && State(k).state == Disarmed
      {
        OffUntilArmed(i + 1, k);
      }
      forall i, j | a < i < j < b && RingsBurst(i) ensures !RingsBurst(j) {
        OffUntilArmed(i + 1, j);
      }
      if forall k :: a < k < b ==> !events[k].Disarm? && !RingsBurst(k) {
        OnceUntilUsed(a + 1, b);
      }
    }

    /** After an arm in once mode and before the next arm the mode is once or off. */
    lemma {:induction false} OnceOrOff(a: nat, n: nat)
      requires ProperLife() && a < n <= |events|
      requires events[a].Arm? && events[a].mode == Once
      requires forall k :: a < k < n ==> !events[k].Arm?
      ensures State(n).mode == Once || State(n).mode == Off
    {
      if a + 1 < n {
        StateValid(n - 1);
        OnceOrOff(a, n - 1);
      }
    }

    lemma RingNeedsMode(a: nat, i: nat)
      requires ProperLife() && a < i < |events|
      requires events[a].Arm? && events[a].mode == Once
      requires forall k :: a < k < i ==> !events[k].Arm?
      requires RingsBurst(i)
      ensures State(i).mode == Once
    {
      OnceOrOff(a, i);
      if State(i).mode == Off {
        OffUntilArmed(i, i);
      }
    }

    // ----- growing a life -----

    lemma {:induction false} StateOfPrefix(e: Event, n: nat)
      requires n <= |events|
      ensures Life(first, events + [e]).State(n) == State(n)
    {
      if n == 0 {
      } else {
        StateOfPrefix(e, n - 1);
      }
    }

    ghost function Rings(n: nat): seq<Action>
      requires n <= |events|
    {
      if n == 0 then [] else Rings(n - 1) + AtMostOne(Ring(n - 1))
    }

    lemma {:induction false} RingsOfPrefix(e: Event, n: nat)
      requires n <= |events|
      ensures Life(first, events + [e]).Rings(n) == Rings(n)
    {
      if n == 0 {
      } else {
        StateOfPrefix(e, n - 1);
        RingsOfPrefix(e, n - 1);
      }
    }

    lemma Grow(e: Event)
      ensures var n, longer := |events|, Life(first, events + [e]);
              && longer.State(n + 1) == React(State(n), e).0
              && longer.Rings(n + 1) == Rings(n) + AtMostOne(React(State(n), e).1)
    {
      StateOfPrefix(e, |events|);
      RingsOfPrefix(e, |events|);
    }
  }

  /** The session stays in the table throughout a history. */
  ghost predicate StaysRegistered(m: Sessions, h: seq<Event>, id: Uuid) {
    id in After(m, h) && (h != [] ==> StaysRegistered(m, h[..|h| - 1], id))
  }

  /**
   In any run of the engine over many sessions, a session that stays registered lives the life made of the
   events that concern it: same state, same rings.
   */
  lemma {:induction false} LifeOfSession(m: Sessions, h: seq<Event>, id: Uuid)
    requires ValidTable(m) && (forall e :: e in h ==> Proper(e)) && StaysRegistered(m, h, id)
    ensures id in m
    ensures var life := Life(m[id], Project(h, id));
            && After(m, h)[id] == life.State(|life.events|)
            && RingsOf(Emitted(m, h), id) == life.Rings(|life.events|)
  {
    hide React, Apply;
    if h == [] {
    } else {
      var rest, e := h[..|h| - 1], h[|h| - 1];
      LifeOfSession(m, rest, id);
      AfterKeepsTable(m, rest);
      RingsOfConcat(Emitted(m, rest), Apply(After(m, rest), e).1, id);
      var life := Life(m[id], Project(rest, id));
      if Concerns(e, id) {
        life.Grow(e);
        ApplyIsReaction(After(m, rest), e, id);
      } else {
        OthersLeaveAlone(After(m, rest), e, id);
        assert Project(h, id) == Project(rest, id);
      }
    }
  }

  /** On a session that stays, the table's step is the session's own. */
  lemma ApplyIsReaction(m: Sessions, e: Event, id: Uuid)
    requires ValidTable(m) && Concerns(e, id) && id in m && id in Apply(m, e).0
    ensures Apply(m, e).0[id] == React(m[id], e).0
    ensures RingsOf(Apply(m, e).1, id) == AtMostOne(React(m[id], e).1)
  {
    if e.Tick? {
      TickIsPointwise(m, e, id);
    } else {
      SingleRing(React(m[id], e).1, id);
    }
  }
}
