/** Does the page come to rest on the newest viewport?  The exact condition for one call, what a run of
    such calls guarantees, and what happens without it (viewport-controller.js). */
module ViewportConvergence {
  import opened Prelude
  import opened ViewportController

  /** Survives being normalized again. */
  predicate Usable(v: Viewport) {
    v.center > 0 && v.span > 0
  }

  lemma UsableSurvivesNormalize(v: Viewport)
    ensures Normalize(AsInput(v)) == if Usable(v) then Some(v) else None
  {
    assert (v.center as real + 0.5).Floor == v.center && (v.span as real + 0.5).Floor == v.span;
  }

  lemma EquivalentIsSymmetric(c: Settings, l: Viewport, r: Viewport)
    ensures Equivalent(c, l, r) == Equivalent(c, r, l)
  {
    var reference := Max(l.span, r.span);
    assert Max(r.span, l.span) == reference;
    SymmetricTest(l.center, r.center, Tolerance(c.absoluteHz, reference, c.centerRatio));
    SymmetricTest(l.span, r.span, Tolerance(c.absoluteHz, reference, c.spanRatio));
  }

  lemma SymmetricTest(a: int, b: int, tolerance: real)
    ensures Abs((a - b) as real) < tolerance <==> Abs((b - a) as real) < tolerance
  {
    assert (a - b) as real == -((b - a) as real);
  }

  function ArmedViewport(s: State): Option<Viewport> {
    if s.timer.Some? && s.timer.value in s.host.live then Some(s.host.live[s.timer.value]) else None
  }

  // --- Where a state comes to rest when nothing more is handed in ---

  predicate Quiet(s: State) {
    s.timer.None? && s.inFlight.None? && !s.interacting
  }

  function LastSent(s: State): Option<Viewport> {
    if s.trace.sent == [] then None else Some(s.trace.sent[|s.trace.sent| - 1].viewport)
  }

  /** What is requested last once `v` is scheduled from scratch. */
  function Target(c: Settings, s: State, v: Viewport): Option<Viewport> {
    if Supports(s.capabilities) && Usable(v) && !EquivalentToLast(c, v, s.lastRequested) then Some(v)
    else s.lastRequested
  }

  /** The viewport that an undragged page requests last. */
  function Destination(c: Settings, s: State): Option<Viewport> {
    if s.timer.Some? then ArmedViewport(s)
    else if s.inFlight.Some? && Superseded(c, s) then Target(c, s, s.queued.value)
    else s.lastRequested
  }

  /** The timeout, the response, frames, and the end of a drag that hands nothing in. */
  predicate Continues(s: State, e: Event) {
    e.Fire? || e.Settle? || e.Observe? || (e == End(None) && s.interacting)
  }

  ghost predicate Continuation(c: Settings, s: State, es: seq<Event>, onlySuccess: bool)
    requires Possible(c, s, es)
    decreases |es|
  {
    es == [] ||
    (Continues(s, es[0]) && (onlySuccess && es[0].Settle? ==> es[0].ok)
     && Continuation(c, Step(c, s, es[0]), es[1..], onlySuccess))
  }

  /** The promise: however the run goes on without another call, once it is quiet the last request shows
      `n`, as far as the equivalence test can tell. */
  ghost predicate ComesToShow(c: Settings, s: State, n: Viewport, onlySuccess: bool) {
    forall es :: Possible(c, s, es) && Continuation(c, s, es, onlySuccess) && Quiet(Run(c, s, es)) ==>
      EquivalentToLast(c, n, LastSent(Run(c, s, es)))
  }

  /** The state after the response in flight arrives first and the drag ends afterwards. */
  function SettledThenEnded(c: Settings, s: State): State
    requires s.inFlight.Some?
  {
    EndInteraction(c, Settled(c, s, s.inFlight.value, true), None)
  }

  /** Every destination shows `n`; during a drag the response and the end of the drag may come in
      either order. */
  predicate Lands(c: Settings, s: State, n: Viewport) {
    && EquivalentToLast(c, n, Destination(c, if s.interacting then EndInteraction(c, s, None) else s))
    && (s.interacting && s.inFlight.Some? ==> EquivalentToLast(c, n, Destination(c, SettledThenEnded(c, s))))
  }

  lemma FireKeepsDestination(c: Settings, s: State, h: nat, now: int)
    requires Inv(c, s) && h in s.host.live
    ensures var t := Fired(c, s, h, now);
            && !t.interacting && Destination(c, t) == Destination(c, s)
            && t.queued.None? && t.inFlight.Some? && t.timer.None?
  {
    assert h == s.timer.value;
    assert s.queued.None?;
  }

  lemma SettleKeepsDestination(c: Settings, s: State, g: nat, ok: bool)
    requires Inv(c, s) && Enabled(s, Settle(g, ok)) && !s.interacting
    ensures var t := Step(c, s, Settle(g, ok));
            !t.interacting && Destination(c, t) == Destination(c, s) && t.inFlight.None? && t.queued.None?
  {
    assert s.inFlight == Some(s.trace.sent[g - 1]);
    if Superseded(c, s) {
      UsableSurvivesNormalize(s.queued.value);
    }
  }

  /** Without a drag nothing that happens changes the destination. */
  lemma DestinationKept(c: Settings, s: State, e: Event)
    requires Inv(c, s) && !s.interacting && Enabled(s, e) && Continues(s, e)
    ensures !Step(c, s, e).interacting && Destination(c, Step(c, s, e)) == Destination(c, s)
  {
    match e
    case Fire(h, now) => FireKeepsDestination(c, s, h, now);
    case Settle(g, ok) => SettleKeepsDestination(c, s, g, ok);
    case Observe(_, _) =>
  }

  /** States that hold the same viewports. */
  predicate SameViewports(s: State, t: State) {
    && s.capabilities == t.capabilities && s.pending == t.pending && s.queued == t.queued
    && s.inFlight.Some? == t.inFlight.Some? && s.lastRequested == t.lastRequested
    && s.timer == t.timer && s.host == t.host
  }

  /** What the end of a drag leads to depends only on the viewports. */
  lemma EndDependsOn(c: Settings, s: State, t: State)
    requires SameViewports(s, t)
    ensures Destination(c, EndInteraction(c, s, None)) == Destination(c, EndInteraction(c, t, None))
  {
    if s.pending.Some? && Normalize(AsInput(s.pending.value)).Some? {
      AcceptDependsOn(c, s.(interacting := false), t.(interacting := false), Normalize(AsInput(s.pending.value)).value);
    } else {
      assert EndInteraction(c, s, None) == s.(interacting := false);
      assert EndInteraction(c, t, None) == t.(interacting := false);
    }
  }

  lemma AcceptDependsOn(c: Settings, s: State, t: State, v: Viewport)
    requires SameViewports(s, t) && !s.interacting && !t.interacting
    ensures Destination(c, Accept(c, s, v)) == Destination(c, Accept(c, t, v))
  {
  }

  lemma RequestInFlightSettles(c: Settings, s: State, g: nat)
    requires Inv(c, s) && g in s.trace.outstanding && 1 <= g <= |s.trace.sent|
    ensures s.inFlight == Some(s.trace.sent[g - 1])
  {
  }

  lemma SettledLands(c: Settings, s: State, x: Context, ok: bool, n: Viewport)
    requires s.interacting && s.inFlight == Some(x)
    requires EquivalentToLast(c, n, Destination(c, SettledThenEnded(c, s)))
    ensures Lands(c, Settled(c, s, x, ok), n)
  {
    ResultDecidesNothing(c, s, x, ok);
    EndDependsOn(c, Settled(c, s, x, true), Settled(c, s, x, ok));
  }

  /** During a drag a failed response leaves the same viewports behind as a successful one. */
  lemma ResultDecidesNothing(c: Settings, s: State, x: Context, ok: bool)
    requires s.interacting && s.inFlight == Some(x)
    ensures var t, u := Settled(c, s, x, true), Settled(c, s, x, ok);
            SameViewports(t, u) && t.inFlight == u.inFlight == None && t.interacting && u.interacting
  {
  }

  lemma SettledDependsOn(c: Settings, s: State, t: State, x: Context)
    requires SameViewports(s, t) && s.inFlight == t.inFlight == Some(x) && s.interacting && t.interacting
    ensures Destination(c, SettledThenEnded(c, s)) == Destination(c, SettledThenEnded(c, t))
  {
    EndDependsOn(c, Settled(c, s, x, true), Settled(c, t, x, true));
  }

  lemma ObserveKeepsDragLanding(c: Settings, s: State, f: Option<Frame>, a: Option<string>, n: Viewport)
    requires s.interacting && Lands(c, s, n)
    ensures Lands(c, ObserveFrame(c, s, f, a), n)
  {
    var t := ObserveFrame(c, s, f, a);
    EndDependsOn(c, s, t);
    if s.inFlight.Some? {
      SettledDependsOn(c, s, t, s.inFlight.value);
    }
  }

  lemma DragKeepsLanding(c: Settings, s: State, e: Event, n: Viewport)
    requires Inv(c, s) && s.interacting && Lands(c, s, n) && Enabled(s, e) && Continues(s, e) && !e.Fire?
    ensures Lands(c, Step(c, s, e), n)
  {
    match e
    case Settle(g, ok) =>
      RequestInFlightSettles(c, s, g);
      SettledLands(c, s, s.trace.sent[g - 1], ok, n);
    case Observe(f, a) => ObserveKeepsDragLanding(c, s, f, a, n);
    case End(_) => assert !EndInteraction(c, s, None).interacting;
  }

  lemma LandingKept(c: Settings, s: State, e: Event, n: Viewport)
    requires Inv(c, s) && Lands(c, s, n) && Enabled(s, e) && Continues(s, e)
    ensures Lands(c, Step(c, s, e), n)
  {
    if s.interacting {
      assert s.host.live.Keys == {};
      DragKeepsLanding(c, s, e, n);
    } else {
      DestinationKept(c, s, e);
    }
  }

  /** If every destination shows `n`, that stays so, and once the page is quiet the last request shows it. */
  lemma {:induction false} LandingIsReached(c: Settings, s: State, es: seq<Event>, n: Viewport, onlySuccess: bool)
    requires Inv(c, s) && Lands(c, s, n) && Possible(c, s, es) && Continuation(c, s, es, onlySuccess)
    ensures Inv(c, Run(c, s, es)) && Lands(c, Run(c, s, es), n)
    ensures Quiet(Run(c, s, es)) ==> EquivalentToLast(c, n, LastSent(Run(c, s, es)))
    decreases |es|
  {
    if es != [] {
      StepKeepsInv(c, s, es[0]);
      LandingKept(c, s, es[0], n);
      LandingIsReached(c, Step(c, s, es[0]), es[1..], n, onlySuccess);
    }
  }

  /** How many steps an undragged page is from rest, at most. */
  function Unrest(c: Settings, s: State): nat {
    if s.inFlight.Some? then (if Superseded(c, s) then 3 else 1) else if s.timer.Some? then 2 else 0
  }

  /** An undragged page can always come to rest with its requests succeeding, and only there. */
  lemma {:induction false} CanComeToRest(c: Settings, s: State) returns (es: seq<Event>)
    requires Inv(c, s) && !s.interacting
    ensures Possible(c, s, es) && Continuation(c, s, es, true)
    ensures Quiet(Run(c, s, es)) && LastSent(Run(c, s, es)) == Destination(c, s)
    decreases Unrest(c, s)
  {
    if s.timer.None? && s.inFlight.None? {
      es := [];
    } else {
      var e := if s.timer.Some? then Fire(s.timer.value, 0) else Settle(|s.trace.sent|, true);
      if s.timer.Some? {
        assert s.timer.value in s.host.live.Keys;
        FireKeepsDestination(c, s, s.timer.value, 0);
      } else {
        SettleKeepsDestination(c, s, |s.trace.sent|, true);
      }
      StepKeepsInv(c, s, e);
      var rest := CanComeToRest(c, Step(c, s, e));
      es := [e] + rest;
      assert es[0] == e && es[1..] == rest;
    }
  }

  /** A run may start with these events and then come to rest. */
  lemma RestAfter(c: Settings, s: State, e: Event) returns (es: seq<Event>)
    requires Inv(c, s) && Enabled(s, e) && Continues(s, e) && (e.Settle? ==> e.ok) && !Step(c, s, e).interacting
    ensures Possible(c, s, es) && Continuation(c, s, es, true)
    ensures Quiet(Run(c, s, es)) && LastSent(Run(c, s, es)) == Destination(c, Step(c, s, e))
  {
    StepKeepsInv(c, s, e);
    var rest := CanComeToRest(c, Step(c, s, e));
    es := [e] + rest;
    assert es[0] == e && es[1..] == rest;
  }

  lemma RestAfterDrag(c: Settings, s: State) returns (es: seq<Event>)
    requires Inv(c, s) && s.interacting && s.inFlight.Some?
    ensures Possible(c, s, es) && Continuation(c, s, es, true)
    ensures Quiet(Run(c, s, es)) && LastSent(Run(c, s, es)) == Destination(c, SettledThenEnded(c, s))
  {
    var e := Settle(|s.trace.sent|, true);
    StepKeepsInv(c, s, e);
    var t := Step(c, s, e);
    assert t == Settled(c, s, s.inFlight.value, true) && t.interacting;
    var rest := RestAfter(c, t, End(None));
    es := [e] + rest;
    assert es[0] == e && es[1..] == rest;
  }

  /** The promise holds exactly if every destination shows the viewport, whether or not failing requests
      are counted. */
  lemma ComesToShowIff(c: Settings, s: State, n: Viewport, onlySuccess: bool)
    requires Inv(c, s)
    ensures ComesToShow(c, s, n, onlySuccess) <==> Lands(c, s, n)
  {
    if Lands(c, s, n) {
      forall es | Possible(c, s, es) && Continuation(c, s, es, onlySuccess) && Quiet(Run(c, s, es))
        ensures EquivalentToLast(c, n, LastSent(Run(c, s, es)))
      {
        LandingIsReached(c, s, es, n, onlySuccess);
      }
    } else {
      var es := DetourFrom(c, s, n);
      SuccessCounts(c, s, es, onlySuccess);
    }
  }

  lemma DetourFrom(c: Settings, s: State, n: Viewport) returns (es: seq<Event>)
    requires Inv(c, s) && !Lands(c, s, n)
    ensures Possible(c, s, es) && Continuation(c, s, es, true) && Quiet(Run(c, s, es))
    ensures !EquivalentToLast(c, n, LastSent(Run(c, s, es)))
  {
    if !s.interacting {
      es := CanComeToRest(c, s);
    } else if !EquivalentToLast(c, n, Destination(c, EndInteraction(c, s, None))) {
      es := RestAfter(c, s, End(None));
    } else {
      es := RestAfterDrag(c, s);
    }
  }

  lemma {:induction false} SuccessCounts(c: Settings, s: State, es: seq<Event>, onlySuccess: bool)
    requires Possible(c, s, es) && Continuation(c, s, es, true)
    ensures Continuation(c, s, es, onlySuccess)
    decreases |es|
  {
    if es != [] {
      SuccessCounts(c, Step(c, s, es[0]), es[1..], onlySuccess);
    }
  }

  // --- The exact condition for one call ---

  /** What a caller can check before schedule. During a drag, a different viewport queued behind the
      request in flight decides; otherwise the viewport must be shown already or survive being scheduled
      again; and one that is shown must not leave a different one's timeout running. */
  predicate SafeToSchedule(c: Settings, s: State, v: Viewport) {
    var supported := Supports(s.capabilities);
    var shown := EquivalentToLast(c, v, s.lastRequested);
    if s.interacting && s.inFlight.Some? && supported && Superseded(c, s) && Usable(s.queued.value) then
      Equivalent(c, v, s.queued.value)
    else if s.interacting || s.inFlight.Some? then shown || (supported && Usable(v))
    else if !supported then shown
    else shown && s.timer.Some? ==> EquivalentToLast(c, v, ArmedViewport(s))
  }

  lemma AcceptLandsIff(c: Settings, s: State, v: Viewport)
    requires ProperSettings(c) && Inv(c, s)
    ensures Lands(c, Accept(c, s, v), v) <==> SafeToSchedule(c, s, v)
  {
    EquivalentIsReflexive(c, v);
    UsableSurvivesNormalize(v);
    if s.queued.Some? {
      UsableSurvivesNormalize(s.queued.value);
    }
    if s.interacting {
      DragAcceptLandsIff(c, s, v);
    }
  }

  lemma DragAcceptLandsIff(c: Settings, s: State, v: Viewport)
    requires ProperSettings(c) && Inv(c, s) && s.interacting
    requires Normalize(AsInput(v)) == if Usable(v) then Some(v) else None
    requires s.queued.Some? ==>
               Normalize(AsInput(s.queued.value)) == if Usable(s.queued.value) then Some(s.queued.value) else None
    ensures Lands(c, Accept(c, s, v), v) <==> SafeToSchedule(c, s, v)
  {
    EquivalentIsReflexive(c, v);
  }

  /** Handing a viewport to schedule leads to it, in every continuation that comes to rest, exactly under
      that condition. */
  lemma ScheduleOutcomeIff(c: Settings, s: State, i: Input, onlySuccess: bool)
    requires ProperSettings(c) && Reachable(c, s) && Normalize(i).Some?
    ensures var v := Normalize(i).value;
            ComesToShow(c, Step(c, s, Schedule(i)), v, onlySuccess) <==> SafeToSchedule(c, s, v)
  {
    ReachableInv(c, s);
    StepKeepsInv(c, s, Schedule(i));
    var v, t := Normalize(i).value, HandedIn(s, i);
    HandedInKeepsInv(c, s, i);
    AcceptLandsIff(c, t, v);
    ComesToShowIff(c, Step(c, s, Schedule(i)), v, onlySuccess);
    assert SafeToSchedule(c, t, v) == SafeToSchedule(c, s, v);
  }

  /** The same for a drag that ends with a viewport; one that has rounded to zero throws and changes
      nothing else. */
  predicate SafeToEnd(c: Settings, s: State, v: Viewport) {
    var t := s.(interacting := false);
    if Usable(v) then SafeToSchedule(c, t, v) else EquivalentToLast(c, v, Destination(c, t))
  }

  lemma EndOutcomeIff(c: Settings, s: State, i: Input, onlySuccess: bool)
    requires ProperSettings(c) && Reachable(c, s) && Normalize(i).Some?
    ensures var v := Normalize(i).value;
            ComesToShow(c, Step(c, s, End(Some(i))), v, onlySuccess) <==> SafeToEnd(c, s, v)
  {
    ReachableInv(c, s);
    StepKeepsInv(c, s, End(Some(i)));
    ComesToShowIff(c, Step(c, s, End(Some(i))), Normalize(i).value, onlySuccess);
    EndLandsIff(c, s, i);
  }

  lemma EndLandsIff(c: Settings, s: State, i: Input)
    requires ProperSettings(c) && Inv(c, s) && Normalize(i).Some?
    ensures Lands(c, Step(c, s, End(Some(i))), Normalize(i).value) <==> SafeToEnd(c, s, Normalize(i).value)
  {
    var v := Normalize(i).value;
    var t := HandedIn(s, i).(interacting := false, pending := Some(v));
    UsableSurvivesNormalize(v);
    if Usable(v) {
      AcceptLandsIff(c, t, v);
      assert SafeToSchedule(c, t, v) == SafeToSchedule(c, s.(interacting := false), v);
    }
  }

  /** A drag that ends with an invalid viewport throws before anything is scheduled: what is under way has to
      keep the promise. */
  predicate SafeToAbort(c: Settings, s: State, n: Viewport) {
    EquivalentToLast(c, n, Destination(c, s.(interacting := false)))
  }

  lemma AbortOutcomeIff(c: Settings, s: State, i: Input, n: Viewport, onlySuccess: bool)
    requires Reachable(c, s) && Normalize(i).None?
    ensures ComesToShow(c, Step(c, s, End(Some(i))), n, onlySuccess) <==> SafeToAbort(c, s, n)
  {
    ReachableInv(c, s);
    StepKeepsInv(c, s, End(Some(i)));
    ComesToShowIff(c, Step(c, s, End(Some(i))), n, onlySuccess);
  }

  /** The promise after the beginning of a drag, in terms of the state before: it must be kept by what the
      end of the drag schedules again, and, if the response in flight comes first, by what that leaves
      behind. */
  predicate SafeToBegin(c: Settings, s: State, n: Viewport) {
    var ready := s.pending.Some? && Supports(s.capabilities) && Usable(s.pending.value);
    && Shows(c, s, n, if ready then s.pending else s.queued)
    && (s.inFlight.Some? ==> Shows(c, s, n, if Returning(c, s) then s.queued else s.pending))
  }

  /** Scheduling this viewport, if any, from scratch leads to `n`. */
  predicate Shows(c: Settings, s: State, n: Viewport, v: Option<Viewport>) {
    EquivalentToLast(c, n, if v.Some? then Target(c, s, v.value) else s.lastRequested)
  }

  /** A queued viewport that will be sent. */
  predicate Returning(c: Settings, s: State) {
    Superseded(c, s) && Usable(s.queued.value)
  }

  /** Beginning a drag leads to a viewport, in every continuation that comes to rest, exactly under that
      condition. */
  lemma BeginOutcomeIff(c: Settings, s: State, n: Viewport, onlySuccess: bool)
    requires Reachable(c, s)
    ensures ComesToShow(c, Step(c, s, Begin), n, onlySuccess) <==> SafeToBegin(c, s, n)
  {
    ReachableInv(c, s);
    StepKeepsInv(c, s, Begin);
    ComesToShowIff(c, Step(c, s, Begin), n, onlySuccess);
    BeginLandsIff(c, s, n);
  }

  lemma BeginLandsIff(c: Settings, s: State, n: Viewport)
    requires Inv(c, s)
    ensures Lands(c, BeginInteraction(s), n) <==> SafeToBegin(c, s, n)
  {
    BeginThenEnd(c, s);
    if s.inFlight.Some? {
      BeginThenSettle(c, s);
    }
  }

  lemma BeginThenEnd(c: Settings, s: State)
    requires Inv(c, s)
    ensures var ready := s.pending.Some? && Supports(s.capabilities) && Usable(s.pending.value);
            var kept := if ready then s.pending else s.queued;
            Destination(c, EndInteraction(c, BeginInteraction(s), None)) ==
            if kept.Some? then Target(c, s, kept.value) else s.lastRequested
  {
    if s.pending.Some? {
      UsableSurvivesNormalize(s.pending.value);
    }
  }

  lemma BeginThenSettle(c: Settings, s: State)
    requires Inv(c, s) && s.inFlight.Some?
    ensures var kept := if Returning(c, s) then s.queued else s.pending;
            Destination(c, SettledThenEnded(c, BeginInteraction(s))) ==
            if kept.Some? then Target(c, s, kept.value) else s.lastRequested
  {
    if s.pending.Some? {
      UsableSurvivesNormalize(s.pending.value);
    }
    if s.queued.Some? {
      UsableSurvivesNormalize(s.queued.value);
    }
  }

  // --- Runs ---

  /** The viewport last handed in by schedule or at the end of a drag, unless cancelled since, read off
      the calls. */
  function LastHandedIn(es: seq<Event>): Option<Viewport> {
    if es == [] then None
    else
      var before, e := es[..|es| - 1], es[|es| - 1];
      match e
      case Schedule(i) => if Normalize(i).Some? then Normalize(i) else LastHandedIn(before)
      case End(Some(i)) => if Normalize(i).Some? then Normalize(i) else LastHandedIn(before)
      case Cancel => None
      case SetCaps(capabilities) => if Supports(capabilities) then LastHandedIn(before) else None
      case _ => LastHandedIn(before)
  }

  /** Whatever comes next, the page is heading for `n`. */
  ghost predicate Heading(c: Settings, s: State, n: Viewport) {
    var shown := EquivalentToLast(c, n, s.lastRequested);
    && s.pending.Some? && Equivalent(c, n, s.pending.value)
    && (EquivalentToLast(c, s.pending.value, s.lastRequested) ==> shown)
    && (s.timer.None? && !(Supports(s.capabilities) && Usable(s.pending.value)) && !Returning(c, s) ==> shown)
    && (s.timer.Some? ==> EquivalentToLast(c, n, ArmedViewport(s)))
    && (Returning(c, s) ==> Equivalent(c, n, s.queued.value))
    && (!s.interacting && s.timer.None? && !Returning(c, s) ==> shown)
  }

  ghost predicate OnCourse(c: Settings, s: State) {
    && (s.queued.Some? ==> Supports(s.capabilities))
    && (s.trace.newest.Some? ==> Heading(c, s, s.trace.newest.value))
  }

  /** The calls that keep the newest viewport in sight, each under its exact condition. */
  ghost predicate Safe(c: Settings, s: State, e: Event) {
    match e
    case Schedule(i) => Normalize(i).Some? ==> SafeToSchedule(c, s, Normalize(i).value)
    case End(Some(i)) =>
      if Normalize(i).Some? then SafeToEnd(c, s, Normalize(i).value)
      else s.trace.newest.Some? ==> SafeToAbort(c, s, s.trace.newest.value)
    case Begin => s.trace.newest.Some? ==> SafeToBegin(c, s, s.trace.newest.value)
    case _ => true
  }

  ghost predicate AllSafe(c: Settings, s: State, es: seq<Event>)
    requires Possible(c, s, es)
    decreases |es|
  {
    es == [] || (Safe(c, s, es[0]) && AllSafe(c, Step(c, s, es[0]), es[1..]))
  }

  lemma AcceptHeadsIff(c: Settings, s: State, v: Viewport)
    requires ProperSettings(c) && Inv(c, s) && (s.queued.Some? ==> Supports(s.capabilities))
    ensures Heading(c, Accept(c, s, v), v) <==> SafeToSchedule(c, s, v)
    ensures Accept(c, s, v).queued.Some? ==> Supports(s.capabilities)
  {
    EquivalentIsReflexive(c, v);
  }

  lemma ScheduleStaysOnCourse(c: Settings, s: State, i: Input)
    requires ProperSettings(c) && Inv(c, s) && OnCourse(c, s) && Safe(c, s, Schedule(i))
    ensures OnCourse(c, Step(c, s, Schedule(i)))
  {
    if Normalize(i).Some? {
      HandedInKeepsInv(c, s, i);
      AcceptHeadsIff(c, HandedIn(s, i), Normalize(i).value);
    }
  }

  lemma EndStaysOnCourse(c: Settings, s: State, i: Input)
    requires ProperSettings(c) && Inv(c, s) && OnCourse(c, s) && Safe(c, s, End(Some(i))) && Normalize(i).Some?
    ensures OnCourse(c, Step(c, s, End(Some(i))))
  {
    var v := Normalize(i).value;
    var t := HandedIn(s, i).(interacting := false, pending := Some(v));
    UsableSurvivesNormalize(v);
    EquivalentIsReflexive(c, v);
    assert Inv(c, t);
    if Usable(v) {
      AcceptHeadsIff(c, t, v);
      assert SafeToSchedule(c, t, v) == SafeToSchedule(c, s.(interacting := false), v);
    }
  }

  lemma AbortStaysOnCourse(c: Settings, s: State, i: Input)
    requires OnCourse(c, s) && Safe(c, s, End(Some(i))) && Normalize(i).None?
    ensures OnCourse(c, Step(c, s, End(Some(i))))
  {
  }

  /** A drag that ends without a viewport schedules the pending one again. */
  lemma ReleaseStaysOnCourse(c: Settings, s: State)
    requires ProperSettings(c) && Inv(c, s) && OnCourse(c, s)
    ensures OnCourse(c, EndInteraction(c, s, None))
  {
    if s.pending.Some? {
      UsableSurvivesNormalize(s.pending.value);
    }
  }

  lemma SettleStaysOnCourse(c: Settings, s: State, g: nat, ok: bool)
    requires ProperSettings(c) && Inv(c, s) && OnCourse(c, s) && Enabled(s, Settle(g, ok))
    ensures OnCourse(c, Step(c, s, Settle(g, ok)))
  {
    assert s.inFlight == Some(s.trace.sent[g - 1]);
    if Superseded(c, s) {
      UsableSurvivesNormalize(s.queued.value);
    }
  }

  lemma FireStaysOnCourse(c: Settings, s: State, h: nat, now: int)
    requires Inv(c, s) && OnCourse(c, s) && h in s.host.live
    ensures OnCourse(c, Fired(c, s, h, now))
  {
    assert h == s.timer.value;
  }

  lemma StepStaysOnCourse(c: Settings, s: State, e: Event)
    requires ProperSettings(c) && Inv(c, s) && OnCourse(c, s) && Enabled(s, e) && Safe(c, s, e)
    ensures OnCourse(c, Step(c, s, e))
  {
    match e
    case End(Some(i)) =>
      if Normalize(i).Some? {
        EndStaysOnCourse(c, s, i);
      } else {
        AbortStaysOnCourse(c, s, i);
      }
    case End(None) => ReleaseStaysOnCourse(c, s);
    case Schedule(i) => ScheduleStaysOnCourse(c, s, i);
    case Fire(h, now) => FireStaysOnCourse(c, s, h, now);
    case Settle(g, ok) => SettleStaysOnCourse(c, s, g, ok);
    case Begin => BeginStaysOnCourse(c, s);
    case _ => OtherStepsStayOnCourse(c, s, e);
  }

  lemma BeginStaysOnCourse(c: Settings, s: State)
    requires Inv(c, s) && OnCourse(c, s) && Safe(c, s, Begin)
    ensures OnCourse(c, BeginInteraction(s))
  {
  }

  lemma OtherStepsStayOnCourse(c: Settings, s: State, e: Event)
    requires OnCourse(c, s) && (e.SetCaps? || e.SetWidth? || e.Cancel? || e.Observe?)
    ensures OnCourse(c, Step(c, s, e))
  {
  }

  lemma {:induction false} RunStaysOnCourse(c: Settings, s: State, es: seq<Event>)
    requires ProperSettings(c) && Inv(c, s) && OnCourse(c, s) && Possible(c, s, es) && AllSafe(c, s, es)
    ensures Inv(c, Run(c, s, es)) && OnCourse(c, Run(c, s, es))
    decreases |es|
  {
    if es != [] {
      StepKeepsInv(c, s, es[0]);
      StepStaysOnCourse(c, s, es[0]);
      RunStaysOnCourse(c, Step(c, s, es[0]), es[1..]);
    }
  }

  lemma StepHandsIn(c: Settings, s: State, e: Event)
    requires Enabled(s, e)
    ensures Step(c, s, e).trace.newest ==
            match e {
              case Schedule(i) => if Normalize(i).Some? then Normalize(i) else s.trace.newest
              case End(Some(i)) => if Normalize(i).Some? then Normalize(i) else s.trace.newest
              case Cancel => None
              case SetCaps(capabilities) => if Supports(capabilities) then s.trace.newest else None
              case _ => s.trace.newest
            }
  {
  }

  /** Running a prefix first. */
  lemma {:induction false} LastStep(c: Settings, s: State, es: seq<Event>)
    requires Possible(c, s, es) && es != []
    ensures var before, e := es[..|es| - 1], es[|es| - 1];
            && Possible(c, s, before) && Enabled(Run(c, s, before), e)
            && Run(c, s, es) == Step(c, Run(c, s, before), e)
    decreases |es|
  {
    if |es| == 1 {
      assert es[1..] == [] && es[..0] == [];
    } else {
      LastStep(c, Step(c, s, es[0]), es[1..]);
      assert es[..|es| - 1][1..] == es[1..][..|es| - 2] && es[..|es| - 1][0] == es[0];
    }
  }

  /** The controller's trace and the calls agree on which viewport is the newest, although the pending
      viewport need not be. */
  lemma {:induction false} NewestIsLastHandedIn(c: Settings, es: seq<Event>)
    requires Possible(c, Init(), es)
    ensures Run(c, Init(), es).trace.newest == LastHandedIn(es)
    decreases |es|
  {
    if es != [] {
      var before := es[..|es| - 1];
      LastStep(c, Init(), es);
      NewestIsLastHandedIn(c, before);
      StepHandsIn(c, Run(c, Init(), before), es[|es| - 1]);
    }
  }

  /** Convergence over whole runs: if every call was safe when it was made, the quiet page has last
      requested a viewport equivalent to the newest one handed in. */
  lemma NewestViewportWins(c: Settings, es: seq<Event>)
    requires ProperSettings(c) && Possible(c, Init(), es) && AllSafe(c, Init(), es)
    requires Quiet(Run(c, Init(), es)) && LastHandedIn(es).Some?
    ensures EquivalentToLast(c, LastHandedIn(es).value, LastSent(Run(c, Init(), es)))
  {
    RunStaysOnCourse(c, Init(), es);
    NewestIsLastHandedIn(c, es);
  }

  // --- What the unsafe calls do ---

  /** Scheduling the viewport that was requested last leaves another one's timeout running: that one
      is sent, and the page comes to rest on a viewport other than the newest. */
  lemma StaleTimeoutWins(c: Settings, s: State, i: Input, now: int)
    requires ProperSettings(c) && Inv(c, s) && s.timer.Some? && Normalize(i).Some? && s.lastRequested == Normalize(i)
    ensures var v, h := Normalize(i).value, s.timer.value;
            var s1 := Step(c, s, Schedule(i));
            && h in s1.host.live && s1.trace.newest == Some(v)
            && var s2 := Fired(c, s1, h, now);
               && s2.inFlight.Some?
               && var s3 := Settled(c, s2, s2.inFlight.value, true);
                  && Quiet(s3) && s3.trace.newest == Some(v)
                  && s3.trace.sent == s.trace.sent + [NewContext(c, s, s.host.live[h], now)]
                  && !EquivalentToLast(c, v, LastSent(s3))
  {
    var v := Normalize(i).value;
    EquivalentIsReflexive(c, v);
    EquivalentIsSymmetric(c, v, s.host.live[s.timer.value]);
  }

  lemma {:induction false} OneMoreStep(c: Settings, s: State, es: seq<Event>, e: Event)
    requires Possible(c, s, es) && Enabled(Run(c, s, es), e)
    ensures Possible(c, s, es + [e]) && Run(c, s, es + [e]) == Step(c, Run(c, s, es), e)
    decreases |es|
  {
    if es == [] {
      assert [e][1..] == [];
      assert es + [e] == [e];
    } else {
      assert (es + [e])[0] == es[0] && (es + [e])[1..] == es[1..] + [e];
      OneMoreStep(c, Step(c, s, es[0]), es[1..], e);
    }
  }

  lemma StepIsReachable(c: Settings, s: State, e: Event)
    requires Reachable(c, s) && Enabled(s, e)
    ensures Reachable(c, Step(c, s, e))
  {
    var es :| Possible(c, Init(), es) && s == Run(c, Init(), es);
    OneMoreStep(c, Init(), es, e);
  }

  lemma InitIsReachable(c: Settings)
    ensures Reachable(c, Init())
  {
    assert Possible(c, Init(), []) && Run(c, Init(), []) == Init();
  }

  /** With the default settings the page can show 100 MHz while 200 MHz is armed. */
  lemma ArmedWhileShown() returns (s: State, v: Viewport)
    ensures Reachable(DEFAULT_SETTINGS, s) && s.timer.Some? && s.lastRequested == Some(v)
    ensures v == Viewport(100_000_000, 10_000_000, false)
  {
    var c := DEFAULT_SETTINGS;
    v := Viewport(100_000_000, 10_000_000, false);
    var w := Viewport(200_000_000, 10_000_000, false);
    UsableSurvivesNormalize(v);
    UsableSurvivesNormalize(w);
    InitIsReachable(c);
    var capabilities := Some(Capabilities(true, Finite(65536.0)));
    StepIsReachable(c, Init(), SetCaps(capabilities));
    s := Step(c, Init(), SetCaps(capabilities));
    StepIsReachable(c, s, Schedule(AsInput(v)));
    s := Step(c, s, Schedule(AsInput(v)));
    StepIsReachable(c, s, Fire(0, 0));
    s := Step(c, s, Fire(0, 0));
    StepIsReachable(c, s, Settle(1, true));
    s := Step(c, s, Settle(1, true));
    StepIsReachable(c, s, Schedule(AsInput(w)));
    s := Step(c, s, Schedule(AsInput(w)));
  }

  /** From any such state the page can come to rest on the wrong viewport. */
  lemma StaleTimeoutIsReachable(c: Settings, s: State, v: Viewport) returns (t: State)
    requires ProperSettings(c) && Reachable(c, s) && s.timer.Some? && s.lastRequested == Some(v) && Usable(v)
    ensures Reachable(c, t) && Quiet(t) && t.trace.newest == Some(v) && !EquivalentToLast(c, v, LastSent(t))
  {
    ReachableInv(c, s);
    UsableSurvivesNormalize(v);
    StaleTimeoutWins(c, s, AsInput(v), 0);
    var n := |s.trace.sent|;
    StepIsReachable(c, s, Schedule(AsInput(v)));
    var s1 := Step(c, s, Schedule(AsInput(v)));
    StepIsReachable(c, s1, Fire(s.timer.value, 0));
    var s2 := Step(c, s1, Fire(s.timer.value, 0));
    StepIsReachable(c, s2, Settle(n + 1, true));
    t := Step(c, s2, Settle(n + 1, true));
  }

  /** The stale timeout on a concrete run: 100 MHz is shown, 200 MHz is asked for, then 100 MHz again
      before the debounce has elapsed; the page comes to rest on 200 MHz. */
  lemma NewestViewportCanLose()
    ensures exists s :: Reachable(DEFAULT_SETTINGS, s) && Quiet(s) && s.trace.newest.Some?
              && !EquivalentToLast(DEFAULT_SETTINGS, s.trace.newest.value, LastSent(s))
  {
    var s, v := ArmedWhileShown();
    var t := StaleTimeoutIsReachable(DEFAULT_SETTINGS, s, v);
  }

  /** A viewport scheduled during a drag is overwritten when the request in flight settles with an
      older viewport queued behind it. */
  lemma QueuedViewportReturnsDuringDrag(c: Settings, s: State, i: Input, ok: bool)
    requires s.inFlight.Some? && s.interacting && Superseded(c, s) && Usable(s.queued.value) && Normalize(i).Some?
    ensures var s1 := Step(c, s, Schedule(i));
            var s2 := Settled(c, s1, s.inFlight.value, ok);
            && s1.pending == Normalize(i) == s1.trace.newest
            && s2.pending == s.queued && s2.queued.None? && s2.timer == s.timer && s2.trace.newest == Normalize(i)
  {
    UsableSurvivesNormalize(s.queued.value);
  }

  /** A queued viewport whose centre or span rounded to zero throws when it is scheduled again: it is
      dropped, nothing is armed, and the phase stays as it was. */
  lemma RoundedToZeroIsDropped(c: Settings, s: State, ok: bool)
    requires s.inFlight.Some? && Superseded(c, s)
    requires s.queued.value.center <= 0 || s.queued.value.span <= 0
    ensures var t := Settled(c, s, s.inFlight.value, ok);
            && t.queued.None? && t.inFlight.None? && t.timer == s.timer && t.phase == s.phase
            && t.pending == s.pending && t.waiting == s.waiting
  {
  }

  /** After a failed request, asking for the same viewport again does nothing: only a viewport that
      the equivalence test can tell from the failed one is ever sent. */
  lemma FailedViewportIsNotRetried(c: Settings, s: State, v: Viewport, g: nat)
    requires Inv(c, s) && Enabled(s, Settle(g, false)) && !Superseded(c, s)
    requires Supports(s.capabilities) && !s.interacting
    ensures var t := Step(c, s, Settle(g, false));
            && t.phase == Error
            && (Accept(c, t, v).timer.Some? <==> !Equivalent(c, v, s.trace.sent[g - 1].viewport))
  {
  }
}
