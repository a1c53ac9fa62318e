/** What the viewport controller decides in each situation, and what its phase tells about it
    (viewport-controller.js:73-218), written on the fields themselves. */
module ViewportDecisions {
  import opened Prelude
  import opened ViewportController

  // --- When two viewports count as one ---

  predicate Within(d: int, limit: real) {
    -limit < d as real < limit
  }

  /** The difference is below the absolute threshold or below a share of either span. */
  predicate CloseBy(c: Settings, d: int, l: Viewport, r: Viewport, ratio: real) {
    Within(d, c.absoluteHz) || Within(d, l.span as real * ratio) || Within(d, r.span as real * ratio)
  }

  predicate Close(c: Settings, l: Viewport, r: Viewport) {
    CloseBy(c, l.center - r.center, l, r, c.centerRatio) && CloseBy(c, l.span - r.span, l, r, c.spanRatio)
  }

  lemma CloseByIff(c: Settings, d: int, l: Viewport, r: Viewport, ratio: real)
    requires ratio > 0.0
    ensures CloseBy(c, d, l, r, ratio) <==> Abs(d as real) < Tolerance(c.absoluteHz, Max(l.span, r.span), ratio)
  {
    LargerShare(l.span, r.span, ratio);
    WithinEither(d, c.absoluteHz, l.span as real * ratio, r.span as real * ratio);
  }

  lemma LargerShare(x: int, y: int, ratio: real)
    requires ratio > 0.0
    ensures Max(x, y) as real * ratio == MaxReal(x as real * ratio, y as real * ratio)
  {
    if x <= y {
      Scale(x as real, y as real, ratio);
    } else {
      Scale(y as real, x as real, ratio);
    }
  }

  lemma WithinEither(d: int, absoluteHz: real, a: real, b: real)
    ensures Abs(d as real) < MaxReal(absoluteHz, MaxReal(a, b)) <==>
              Within(d, absoluteHz) || Within(d, a) || Within(d, b)
  {
  }

  lemma Scale(x: real, y: real, ratio: real)
    requires ratio > 0.0 && x <= y
    ensures x * ratio <= y * ratio
  {
  }

  lemma CloseIff(c: Settings, l: Viewport, r: Viewport)
    requires ProperSettings(c)
    ensures Equivalent(c, l, r) <==> Close(c, l, r)
  {
    CloseByIff(c, l.center - r.center, l, r, c.centerRatio);
    CloseByIff(c, l.span - r.span, l, r, c.spanRatio);
  }

  // --- schedule ---

  /** The source can be retuned and says how many points it has. */
  predicate Offers(capabilities: Option<Capabilities>) {
    && capabilities.Some? && capabilities.value.viewportControl
    && capabilities.value.maximumPoints.Finite? && capabilities.value.maximumPoints.value > 0.0
  }

  /** The page shows something close to v already, or has asked for it last. */
  ghost predicate AskedLast(c: Settings, s: State, v: Viewport) {
    s.trace.sent != [] && Close(c, v, s.trace.sent[|s.trace.sent| - 1].viewport)
  }

  ghost predicate Waits(s: State) {
    s.trace.outstanding != {}
  }

  /** A viewport is armed exactly if the source can be retuned, no drag and no request is under way and it
      is not close to the one asked for last. It then is the only one, with a new timeout. Behind a request
      it is queued. In any case it is remembered as pending, and nothing else changes. */
  lemma ScheduleDecides(c: Settings, s: State, i: Input)
    requires ProperSettings(c) && Reachable(c, s) && Normalize(i).Some?
    ensures var t, v := Step(c, s, Schedule(i)), Normalize(i).value;
            var ready := Offers(s.capabilities) && !s.interacting;
            var arms := ready && !Waits(s) && !AskedLast(c, s, v);
            && t.pending == Some(v)
            && t == s.(pending := t.pending, queued := t.queued, timer := t.timer, host := t.host, phase := t.phase,
                       trace := s.trace.(newest := Some(v)))
            && t.queued == (if ready && Waits(s) then Some(v) else s.queued)
            && t.phase == (if arms then Pending else s.phase)
            && (!arms ==> t.timer == s.timer && t.host == s.host)
            && (arms ==>
                  && t.timer.Some? && t.host.live == map[t.timer.value := v]
                  && t.timer.value !in s.host.live && t.timer.value < t.host.nextHandle)
  {
    ReachableInv(c, s);
    var v := Normalize(i).value;
    if s.lastRequested.Some? {
      CloseIff(c, v, s.lastRequested.value);
    }
  }

  /** An invalid viewport throws before anything is changed. */
  lemma InvalidIsRefused(c: Settings, s: State, i: Input)
    requires Normalize(i).None?
    ensures Step(c, s, Schedule(i)) == s
  {
  }

  // --- What the phase tells ---

  ghost predicate PhaseInv(s: State) {
    && (s.phase == Idle ==> s.inFlight.None? && s.waiting.None? && s.timer.None?)
    && (s.inFlight.Some? ==> s.phase == Retuning || s.phase == Streaming)
    && (s.timer.Some? ==> s.phase == Pending || s.phase == Streaming)
    && (s.phase == WaitingForMatchingFrame ==> s.waiting.Some?)
  }

  /** A timeout is held only while no request is in flight. */
  ghost predicate OneOrTheOther(s: State) {
    s.timer.Some? ==> s.inFlight.None?
  }

  lemma ScheduleKeepsPhase(c: Settings, s: State, i: Input)
    requires PhaseInv(s) && OneOrTheOther(s)
    ensures PhaseInv(ScheduleInput(c, s, i))
  {
  }

  lemma CancelKeepsPhase(s: State)
    requires PhaseInv(s)
    ensures PhaseInv(CancelPending(s))
  {
  }

  lemma EndKeepsPhase(c: Settings, s: State, i: Option<Input>)
    requires PhaseInv(s) && OneOrTheOther(s)
    ensures PhaseInv(EndInteraction(c, s, i))
  {
    var t := s.(interacting := false);
    if i.None? {
      if s.pending.Some? {
        ScheduleKeepsPhase(c, t, AsInput(s.pending.value));
      }
    } else if Normalize(i.value).Some? {
      ScheduleKeepsPhase(c, t.(pending := Normalize(i.value)), AsInput(Normalize(i.value).value));
    }
  }

  lemma FireKeepsPhase(c: Settings, s: State, h: nat, now: int)
    requires PhaseInv(s) && h in s.host.live
    ensures PhaseInv(Fired(c, s, h, now))
  {
  }

  lemma SettleKeepsPhase(c: Settings, s: State, x: Context, ok: bool)
    requires PhaseInv(s) && OneOrTheOther(s)
    ensures PhaseInv(Settled(c, s, x, ok))
  {
    if s.inFlight == Some(x) && Superseded(c, s) {
      var rest := s.trace.outstanding - {x.generation};
      var r := s.(trace := s.trace.(outstanding := rest, settled := s.trace.settled + 1));
      ScheduleKeepsPhase(c, r.(inFlight := None, queued := None), AsInput(s.queued.value));
    }
  }

  lemma StepKeepsPhase(c: Settings, s: State, e: Event)
    requires OneOrTheOther(s) && PhaseInv(s) && Enabled(s, e)
    ensures PhaseInv(Step(c, s, e))
  {
    match e
    case SetCaps(capabilities) => CancelKeepsPhase(s.(capabilities := capabilities));
    case SetWidth(_) =>
    case Begin =>
    case End(v) => EndKeepsPhase(c, if v.Some? then HandedIn(s, v.value) else s, v);
    case Schedule(i) => ScheduleKeepsPhase(c, HandedIn(s, i), i);
    case Cancel => CancelKeepsPhase(s);
    case Fire(h, now) => FireKeepsPhase(c, s, h, now);
    case Settle(g, ok) => SettleKeepsPhase(c, s, s.trace.sent[g - 1], ok);
    case Observe(_, _) =>
  }

  lemma {:induction false} RunKeepsPhase(c: Settings, s: State, es: seq<Event>)
    requires Inv(c, s) && PhaseInv(s) && Possible(c, s, es)
    ensures PhaseInv(Run(c, s, es))
    decreases |es|
  {
    if es != [] {
      StepKeepsInv(c, s, es[0]);
      StepKeepsPhase(c, s, es[0]);
      RunKeepsPhase(c, Step(c, s, es[0]), es[1..]);
    }
  }

  /** An idle page has nothing under way, a request under way shows as retuning unless an earlier one was
      just answered by a frame, and so does a timeout as pending. */
  lemma PhaseTells(c: Settings, s: State)
    requires Reachable(c, s)
    ensures PhaseInv(s)
  {
    var es :| Possible(c, Init(), es) && s == Run(c, Init(), es);
    RunKeepsPhase(c, Init(), es);
  }

  /** Cancelling leaves no timeout, no pending and no queued viewport, and an idle page exactly if no
      request and no wait is under way; these it does not touch. */
  lemma CancelClears(c: Settings, s: State)
    requires Reachable(c, s)
    ensures var t := Step(c, s, Cancel);
            && t.host.live == map[] && t.timer.None? && t.pending.None? && t.queued.None?
            && (t.phase == Idle <==> s.trace.outstanding == {} && s.waiting.None?)
            && (t.phase != Idle ==> t.phase == s.phase)
            && t == s.(host := t.host, timer := None, pending := None, queued := None, phase := t.phase,
                       trace := s.trace.(newest := None))
  {
    ReachableInv(c, s);
    PhaseTells(c, s);
    assert Step(c, s, Cancel).host.live.Keys == {};
  }

  /** Losing the ability to retune cancels whatever was pending. */
  lemma LosingControlCancels(c: Settings, s: State, capabilities: Option<Capabilities>)
    ensures var u := s.(capabilities := capabilities);
            Step(c, s, SetCaps(capabilities)) == if Offers(capabilities) then u else Step(c, u, Cancel)
  {
  }

  /** A canvas width counts exactly if it is finite and positive. */
  lemma WidthIsStored(c: Settings, s: State, w: Number)
    ensures var t := Step(c, s, SetWidth(w));
            && t == s.(canvasWidth := t.canvasWidth)
            && t.canvasWidth == if w.Finite? && w.value > 0.0 then w else s.canvasWidth
  {
  }
}
