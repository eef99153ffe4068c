/** The reveal animation's clock: it waits short of the reveal until the server's result is
    there, and never runs backwards. Times and progress are reals. */
module Timeline {
  import opened Basics

  const DURATION: real := 3900.0
  const HOLD: real := 0.44
  const REVEAL_START: real := 0.46

  datatype Phase = Waiting | Gather | Charge | Reveal | Result
  datatype Sample = Sample(progress: real, phase: Phase, animate: bool)

  datatype Clock = Clock(start: real, shortenedAt: Option<real>, readyAt: Option<real>, reduced: bool)

  function Max(a: real, b: real): real { if a >= b then a else b }
  function Min(a: real, b: real): real { if a <= b then a else b }
  function Clamp(x: real): real { Max(0.0, Min(1.0, x)) }

  /** `sample` when motion is not reduced. */
  function Moving(c: Clock, now: real): real {
    var elapsed := Max(0.0, now - c.start);
    match c.readyAt
    case None => if c.shortenedAt.Some? then HOLD else Min(HOLD, elapsed / DURATION)
    case Some(ready) =>
      if c.shortenedAt.Some?
      then Clamp(REVEAL_START + Max(0.0, now - Max(c.shortenedAt.value, ready)) / DURATION)
      else Clamp((elapsed - Max(0.0, ready - c.start - DURATION * HOLD)) / DURATION)
  }

  function Progress(c: Clock, now: real): real {
    if c.reduced then if c.readyAt.Some? then 1.0 else HOLD else Moving(c, now)
  }

  function PhaseAt(c: Clock, now: real): Phase {
    var progress := Progress(c, now);
    if c.reduced then if c.readyAt.Some? then Result else Waiting
    else if progress >= 1.0 then Result
    else if c.readyAt.None? && progress >= HOLD then Waiting
    else if c.shortenedAt.Some? then Reveal
    else if progress < 0.29 then Gather
    else if progress < 0.54 then Charge
    else Reveal
  }

  class Timeline {
    var start: real
    var shortenedAt: Option<real>
    var readyAt: Option<real>
    var reduced: bool

    constructor (now: real, reduced: bool)
      ensures State() == Clock(now, None, None, reduced)
    {
      this.start, this.shortenedAt, this.readyAt, this.reduced := now, None, None, reduced;
    }

    function State(): Clock
      reads this
    {
      Clock(start, shortenedAt, readyAt, reduced)
    }

    method Receive(now: real)
      modifies this
      ensures State() == Step(old(State()), Received(now))
    {
      if readyAt == None { readyAt := Some(now); }
    }

    method SkipCharge(now: real)
      modifies this
      ensures State() == Step(old(State()), Skipped(now))
    {
      if shortenedAt == None {
        var s := Take(now);
        if s.progress < REVEAL_START { shortenedAt := Some(now); }
      }
    }

    method Finish()
      modifies this
      ensures forall now :: State() == Step(old(State()), Finished(now))
    {
      reduced := true;
    }

    method Take(now: real) returns (s: Sample)
      ensures s.progress == Progress(State(), now) && s.phase == PhaseAt(State(), now)
      ensures s.animate <==> s.phase != Result && !reduced
    {
      var ready := readyAt != None;
      if reduced {
        return Sample(if ready then 1.0 else HOLD, if ready then Result else Waiting, false);
      }
      var elapsed := Max(0.0, now - start);
      var wait := if ready then Max(0.0, readyAt.value - start - DURATION * HOLD) else 0.0;
      var shortened := shortenedAt != None;
      var progress :=
        if shortened
        then if ready then Clamp(REVEAL_START + Max(0.0, now - Max(shortenedAt.value, readyAt.value)) / DURATION)
                else HOLD
        else if ready then Clamp((elapsed - wait) / DURATION) else Min(HOLD, elapsed / DURATION);
      var phase :=
        if progress >= 1.0 then Result
        else if !ready && progress >= HOLD then Waiting
        else if shortened then Reveal
        else if progress < 0.29 then Gather
        else if progress < 0.54 then Charge
        else Reveal;
      s := Sample(progress, phase, phase != Result);
    }
  }

  // ---- runs -----------------------------------------------------------------------------------

  datatype Event = Received(now: real) | Skipped(now: real) | Finished(now: real)

  function Step(c: Clock, e: Event): Clock {
    match e
    case Received(now) => if c.readyAt.None? then c.(readyAt := Some(now)) else c
    case Skipped(now) =>
      if c.shortenedAt.None? && Progress(c, now) < REVEAL_START then c.(shortenedAt := Some(now)) else c
    case Finished(_) => c.(reduced := true)
  }

  /** The events come at times that do not decrease, from `t` on up to `end`. */
  predicate Timely(es: seq<Event>, t: real, end: real) {
    if es == [] then t <= end else t <= es[0].now && Timely(es[1..], es[0].now, end)
  }

  function After(c: Clock, es: seq<Event>): Clock
    decreases |es|
  {
    if es == [] then c else After(Step(c, es[0]), es[1..])
  }

  /** The time at which an uninterrupted reveal is over. */
  function Deadline(start: real, ready: real): real { Max(start + DURATION, ready + 2184.0) }

  ghost predicate Inv(c: Clock, t: real) {
    && c.start <= t
    && (c.readyAt.Some? ==> c.start <= c.readyAt.value <= t)
    && (c.shortenedAt.Some? ==> c.start <= c.shortenedAt.value <= t)
    && (c.readyAt.Some? && c.shortenedAt.Some? && !c.reduced ==>
          Max(c.shortenedAt.value, c.readyAt.value) + 2106.0 <= Deadline(c.start, c.readyAt.value))
  }

  /** An event keeps the invariant and does not move the hand back. */
  lemma StepForward(c: Clock, e: Event, t: real)
    requires Inv(c, t) && t <= e.now
    ensures Inv(Step(c, e), e.now)
    ensures Progress(c, t) <= Progress(Step(c, e), e.now)
  {
    TimeForward(c, t, e.now);
    if e.Skipped? && c.readyAt.Some? && Step(c, e) != c && !c.reduced { SkipInTime(c, e.now); }
  }

  /** Time alone does not either. */
  lemma TimeForward(c: Clock, t: real, now: real)
    requires Inv(c, t) && t <= now
    ensures Progress(c, t) <= Progress(c, now)
  {
  }

  /** A charge still short of the reveal when it is skipped ends no later for it. */
  lemma SkipInTime(c: Clock, now: real)
    requires Inv(c, now) && c.readyAt.Some? && c.shortenedAt.None? && !c.reduced
    requires Progress(c, now) < REVEAL_START
    ensures now + 2106.0 <= Deadline(c.start, c.readyAt.value)
  {
    var wait := Max(0.0, c.readyAt.value - c.start - 1716.0);
    assert DURATION * HOLD == 1716.0;
    assert now - c.start - wait < 1794.0;
  }

  lemma {:induction false} RunForward(c: Clock, es: seq<Event>, t: real, end: real)
    requires Inv(c, t) && Timely(es, t, end)
    ensures Inv(After(c, es), end) && Progress(c, t) <= Progress(After(c, es), end)
    ensures c.readyAt.Some? ==> After(c, es).readyAt == c.readyAt
    ensures After(c, es).start == c.start
    decreases |es|
  {
    if es == [] {
      TimeForward(c, t, end);
    } else {
      StepForward(c, es[0], t);
      RunForward(Step(c, es[0]), es[1..], es[0].now, end);
    }
  }

  function Fresh(start: real, reduced: bool): Clock { Clock(start, None, None, reduced) }

  /** Between any two moments of any run the progress shown does not decrease. */
  lemma NeverRewinds(start: real, reduced: bool, before: seq<Event>, t: real, between: seq<Event>, end: real)
    requires Timely(before, start, t) && Timely(between, t, end)
    ensures var c := After(Fresh(start, reduced), before);
            0.0 <= Progress(c, t) <= Progress(After(c, between), end) <= 1.0
  {
    RunForward(Fresh(start, reduced), before, start, t);
    RunForward(After(Fresh(start, reduced), before), between, t, end);
  }

  /** A result is among the events of the run. */
  predicate ResultCame(es: seq<Event>) { exists e | e in es :: e.Received? }

  lemma {:induction false} ReadyMeansCame(c: Clock, es: seq<Event>)
    requires c.readyAt.None?
    ensures After(c, es).readyAt.Some? <==> ResultCame(es)
    decreases |es|
  {
    if es != [] {
      assert es == [es[0]] + es[1..];
      if es[0].Received? { assert es[0] in es; StaysReady(Step(c, es[0]), es[1..]); }
      else { ReadyMeansCame(Step(c, es[0]), es[1..]); }
    }
  }

  lemma {:induction false} StaysReady(c: Clock, es: seq<Event>)
    requires c.readyAt.Some?
    ensures After(c, es).readyAt == c.readyAt
    decreases |es|
  {
    if es != [] { StaysReady(Step(c, es[0]), es[1..]); }
  }

  /** Until a result is received nothing is revealed: progress holds at or below 0.44. */
  lemma NothingRevealedEarly(start: real, reduced: bool, es: seq<Event>, now: real)
    requires Timely(es, start, now) && !ResultCame(es)
    ensures var c := After(Fresh(start, reduced), es);
            Progress(c, now) <= 0.44 && PhaseAt(c, now) !in {Reveal, Result}
  {
    ReadyMeansCame(Fresh(start, reduced), es);
  }

  /** Once it is received at `ready`, whatever is skipped and whenever, the result is shown
      from the deadline on. */
  lemma ResultIsShown(start: real, reduced: bool, before: seq<Event>, ready: real, after: seq<Event>, now: real)
    requires Timely(before, start, ready) && !ResultCame(before)
    requires Timely(after, ready, now) && now >= start + 3900.0 && now >= ready + 2184.0
    ensures var c := After(Step(After(Fresh(start, reduced), before), Received(ready)), after);
            Progress(c, now) == 1.0 && PhaseAt(c, now) == Result
  {
    var c0 := Fresh(start, reduced);
    ReadyMeansCame(c0, before);
    RunForward(c0, before, start, ready);
    var c1 := Step(After(c0, before), Received(ready));
    StepForward(After(c0, before), Received(ready), ready);
    RunForward(c1, after, ready, now);
    Over(After(c1, after), now);
  }

  /** Uninterrupted, it is shown no sooner: the deadline is exact. */
  lemma NotBefore(start: real, ready: real, now: real)
    requires start <= ready <= now && (now < start + 3900.0 || now < ready + 2184.0)
    ensures Progress(Clock(start, None, Some(ready), false), now) < 1.0
  {
    assert DURATION * HOLD == 1716.0;
  }

  lemma Over(c: Clock, now: real)
    requires Inv(c, now) && c.readyAt.Some? && now >= Deadline(c.start, c.readyAt.value)
    ensures Progress(c, now) == 1.0
  {
    assert DURATION * HOLD == 1716.0;
  }

  // ---- the phases by the clock -----------------------------------------------------------------

  /** Without a result: gathering for 1131, charging up to 1716, then waiting at 0.44. */
  lemma WithoutResult(start: real, now: real)
    requires start <= now
    ensures var c, t := Clock(start, None, None, false), now - start;
            && Progress(c, now) == (if t < 1716.0 then t / 3900.0 else 0.44)
            && PhaseAt(c, now) == if t < 1131.0 then Gather else if t < 1716.0 then Charge else Waiting
  {
  }

  /** With a result in time: charging goes on up to 2106, the reveal up to 3900, then the result;
      with a later one all of it is as much later as the wait was. */
  lemma WithResult(start: real, ready: real, now: real)
    requires start <= ready <= now
    ensures var c := Clock(start, None, Some(ready), false);
            var t := now - start - (if ready - start > 1716.0 then ready - start - 1716.0 else 0.0);
            && Progress(c, now) == (if t < 3900.0 then t / 3900.0 else 1.0)
            && PhaseAt(c, now) == if t < 1131.0 then Gather else if t < 2106.0 then Charge
                                  else if t < 3900.0 then Reveal else Result
  {
    assert DURATION * HOLD == 1716.0;
  }

  /** A charge that was skipped waits for the result at 0.44 and then reveals it from 0.46 in 2106. */
  lemma AfterSkip(start: real, skip: real, ready: real, now: real)
    requires start <= skip <= now && start <= ready
    ensures var waiting, shown := Clock(start, Some(skip), None, false), Clock(start, Some(skip), Some(ready), false);
            var t := now - (if ready > skip then ready else skip);
            && Progress(waiting, now) == 0.44 && PhaseAt(waiting, now) == Waiting
            && (t >= 0.0 ==>
                  && Progress(shown, now) == (if t < 2106.0 then 0.46 + t / 3900.0 else 1.0)
                  && PhaseAt(shown, now) == if t < 2106.0 then Reveal else Result)
  {
  }

  /** A skip counts once, and only while the progress is below 0.46. */
  lemma SkipCounts(c: Clock, now: real)
    ensures Step(c, Skipped(now)) ==
            if c.shortenedAt == None && Progress(c, now) < 0.46 then c.(shortenedAt := Some(now)) else c
  {
  }

  /** Reduced motion shows a result at once, and waits at 0.44 without one. */
  lemma WithReducedMotion(start: real, skip: Option<real>, ready: real, now: real)
    ensures var waiting, shown := Clock(start, skip, None, true), Clock(start, skip, Some(ready), true);
            && Progress(waiting, now) == 0.44 && PhaseAt(waiting, now) == Waiting
            && Progress(shown, now) == 1.0 && PhaseAt(shown, now) == Result
  {
  }
}
