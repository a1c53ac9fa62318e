/** The browser's viewport controller (viewport-controller.js): debounced retune requests, at most
    one in flight, a one-slot queue behind it, and a wait for the first frame that shows the new
    range.  Numbers are JavaScript numbers read as reals; `NonFinite` stands for NaN and infinities. */
module ViewportController {
  import opened Prelude

  datatype Number = Finite(value: real) | NonFinite

  predicate FinitePositive(n: Number) {
    n.Finite? && n.value > 0.0
  }

  /** Math.round. */
  function Round(r: real): int {
    (r + 0.5).Floor
  }

  function Abs(r: real): real {
    if r < 0.0 then -r else r
  }

  function MaxReal(a: real, b: real): real {
    if a >= b then a else b
  }

  /** A viewport as callers pass it, and as `normalizeViewport` returns it. */
  datatype Input = Input(center: Number, span: Number, fixedMode: bool)
  datatype Viewport = Viewport(center: int, span: int, fixedMode: bool)

  /** None stands for the TypeError. */
  function Normalize(i: Input): Option<Viewport> {
    if FinitePositive(i.center) && FinitePositive(i.span) then
      Some(Viewport(Round(i.center.value), Round(i.span.value), i.fixedMode))
    else None
  }

  /** Exactly viewports with a finite, positive centre and span are accepted; both become the nearest whole
      number, the greater one of two, and the mode is kept. */
  lemma NormalizeRounds(i: Input)
    ensures Normalize(i).Some? <==>
              i.center.Finite? && i.center.value > 0.0 && i.span.Finite? && i.span.value > 0.0
    ensures Normalize(i).Some? ==>
              var v := Normalize(i).value;
              && v.center as real - 0.5 <= i.center.value < v.center as real + 0.5
              && v.span as real - 0.5 <= i.span.value < v.span as real + 0.5
              && v.fixedMode == i.fixedMode
  {
  }

  function AsInput(v: Viewport): Input {
    Input(Finite(v.center as real), Finite(v.span as real), v.fixedMode)
  }

  /** Normalizing twice throws exactly for viewports whose centre or span rounds to zero. */
  lemma NormalizeTwice(i: Input)
    requires Normalize(i).Some?
    ensures var v := Normalize(i).value;
            && v.center >= 0 && v.span >= 0
            && (Normalize(AsInput(v)) == if v.center > 0 && v.span > 0 then Some(v) else None)
            && (v.center > 0 && v.span > 0 <==> i.center.value >= 0.5 && i.span.value >= 0.5)
  {
  }

  datatype Capabilities = Capabilities(viewportControl: bool, maximumPoints: Number)

  datatype Settings = Settings(
    minimumPoints: int,
    pointsPerPixel: real,
    centerRatio: real,
    spanRatio: real,
    absoluteHz: real,
    frameRatio: real)

  /** What the constructor guarantees of the options it keeps. */
  ghost predicate ProperSettings(c: Settings) {
    && c.minimumPoints >= 2 && 1.0 <= c.pointsPerPixel <= 8.0
    && c.centerRatio > 0.0 && c.spanRatio > 0.0 && c.absoluteHz > 0.0 && c.frameRatio > 0.0
  }

  const DEFAULT_SETTINGS := Settings(2048, 4.0, 0.0005, 0.001, 1.0, 0.01)

  datatype Phase = Idle | Pending | Retuning | WaitingForMatchingFrame | Streaming | Error

  /** What observeFrame reads of a frame; None stands for null, missing or unreadable, and for an empty
      source type. */
  datatype Frame = Frame(
    sourceType: Option<string>,
    sessionId: Option<string>,
    sequence: Option<nat>,
    timestampMs: Option<int>,
    start: Number,
    stop: Number)

  /** A request and the circumstances it was sent in. */
  datatype Context = Context(
    generation: nat,
    requestedAtMs: int,
    viewport: Viewport,
    points: int,
    sourceType: Option<string>,
    previousSessionId: Option<string>,
    previousSequence: Option<nat>)

  /** The page's timeouts: the viewport each callback has captured. */
  datatype Host = Host(live: map<nat, Viewport>, nextHandle: nat)

  /** The end of a wait: the request's generation, the frame, and the source that was active. */
  datatype Match = Match(generation: nat, frame: Frame, activeSource: Option<string>)

  /** Requests handed to sendRequest, promises not settled yet, the accepted requests by generation, the
      waits that ended, and the newest viewport that a caller has handed in and not cancelled since. */
  datatype Trace = Trace(
    sent: seq<Context>,
    outstanding: set<nat>,
    settled: nat,
    accepted: seq<nat>,
    matched: seq<Match>,
    newest: Option<Viewport>)

  datatype State = State(
    phase: Phase,
    capabilities: Option<Capabilities>,
    canvasWidth: Number,
    interacting: bool,
    timer: Option<nat>,
    pending: Option<Viewport>,
    queued: Option<Viewport>,
    inFlight: Option<Context>,
    waiting: Option<Context>,
    lastRequested: Option<Viewport>,
    lastFrame: Option<Frame>,
    generation: nat,
    host: Host,
    trace: Trace)

  function Init(): State {
    State(Idle, None, Finite(0.0), false, None, None, None, None, None, None, None, 0,
          Host(map[], 0), Trace([], {}, 0, [], [], None))
  }

  predicate Supports(capabilities: Option<Capabilities>) {
    capabilities.Some? && capabilities.value.viewportControl && FinitePositive(capabilities.value.maximumPoints)
  }

  predicate Equivalent(c: Settings, l: Viewport, r: Viewport) {
    var reference := Max(l.span, r.span);
    && Abs((l.center - r.center) as real) < Tolerance(c.absoluteHz, reference, c.centerRatio)
    && Abs((l.span - r.span) as real) < Tolerance(c.absoluteHz, reference, c.spanRatio)
  }

  function Tolerance(absoluteHz: real, reference: int, ratio: real): real {
    MaxReal(absoluteHz, reference as real * ratio)
  }

  predicate EquivalentToLast(c: Settings, v: Viewport, last: Option<Viewport>) {
    last.Some? && Equivalent(c, v, last.value)
  }

  /** What the source offers, at least 2. */
  function MaximumPoints(capabilities: Option<Capabilities>): int {
    if capabilities.Some? && capabilities.value.maximumPoints.Finite?
    then Max(2, Round(capabilities.value.maximumPoints.value)) else 2
  }

  /** targetPoints: the canvas resolution, at least the minimum, within what the source offers. */
  function TargetPoints(c: Settings, capabilities: Option<Capabilities>, width: Number): (points: int)
    ensures 2 <= points
    ensures points <= MaximumPoints(capabilities)
    ensures points == MaximumPoints(capabilities)
            || (c.minimumPoints <= points && (width.Finite? ==> width.value * c.pointsPerPixel <= points as real))
    ensures points > Max(2, c.minimumPoints) ==>
              width.Finite? && (points - 1) as real < width.value * c.pointsPerPixel
  {
    var maximum := MaximumPoints(capabilities);
    var visual := if width.Finite? then -((-(width.value * c.pointsPerPixel)).Floor) else 0;
    Max(2, Min(maximum, Max(c.minimumPoints, visual)))
  }

  // --- The methods, as functions of the state ---

  function Cleared(s: State): Host {
    if s.timer.Some? then s.host.(live := s.host.live - {s.timer.value}) else s.host
  }

  function Armed(s: State, v: Viewport): State {
    var host := Cleared(s);
    s.(phase := Pending,
       timer := Some(host.nextHandle),
       host := Host(host.live[host.nextHandle := v], host.nextHandle + 1))
  }

  /** schedule, once its argument has been normalized. */
  function Accept(c: Settings, s: State, v: Viewport): State {
    var t := s.(pending := Some(v));
    if !Supports(s.capabilities) || s.interacting then t
    else if s.inFlight.Some? then t.(queued := Some(v))
    else if EquivalentToLast(c, v, s.lastRequested) then t
    else Armed(t, v)
  }

  function ScheduleInput(c: Settings, s: State, i: Input): State {
    match Normalize(i)
    case None => s
    case Some(v) => Accept(c, s, v)
  }

  function CancelPending(s: State): State {
    s.(timer := None, host := Cleared(s), pending := None, queued := None,
       phase := if s.inFlight.None? && s.waiting.None? then Idle else s.phase,
       trace := s.trace.(newest := None))
  }

  /** A caller hands in a viewport; an invalid one throws before anything is noted. */
  function HandedIn(s: State, i: Input): State {
    if Normalize(i).Some? then s.(trace := s.trace.(newest := Normalize(i))) else s
  }

  function SetCapabilities(s: State, capabilities: Option<Capabilities>): State {
    var t := s.(capabilities := capabilities);
    if Supports(capabilities) then t else CancelPending(t)
  }

  function BeginInteraction(s: State): State {
    s.(interacting := true, timer := None, host := Cleared(s))
  }

  function EndInteraction(c: Settings, s: State, i: Option<Input>): State {
    var t := s.(interacting := false);
    match i
    case None => if s.pending.Some? then ScheduleInput(c, t, AsInput(s.pending.value)) else t
    case Some(input) =>
      match Normalize(input)
      case None => t
      case Some(v) => ScheduleInput(c, t.(pending := Some(v)), AsInput(v))
  }

  function NewContext(c: Settings, s: State, v: Viewport, now: int): Context {
    var f := s.lastFrame;
    Context(s.generation + 1, now, v, TargetPoints(c, s.capabilities, s.canvasWidth),
            if f.Some? then f.value.sourceType else None,
            if f.Some? then f.value.sessionId else None,
            if f.Some? then f.value.sequence else None)
  }

  function Dispatch(c: Settings, s: State, v: Viewport, now: int): State {
    if !Supports(s.capabilities) || s.interacting || s.inFlight.Some? || EquivalentToLast(c, v, s.lastRequested) then s
    else
      var context := NewContext(c, s, v, now);
      s.(generation := context.generation, lastRequested := Some(v), inFlight := Some(context), phase := Retuning,
         trace := s.trace.(sent := s.trace.sent + [context],
                           outstanding := s.trace.outstanding + {context.generation}))
  }

  /** A timeout runs: it forgets the remembered handle and dispatches the viewport it captured. */
  function Fired(c: Settings, s: State, handle: nat, now: int): State
    requires handle in s.host.live
  {
    Dispatch(c, s.(timer := None, host := s.host.(live := s.host.live - {handle})), s.host.live[handle], now)
  }

  predicate Superseded(c: Settings, s: State) {
    s.queued.Some? && !EquivalentToLast(c, s.queued.value, s.lastRequested)
  }

  function Settled(c: Settings, s: State, context: Context, ok: bool): State {
    var trace := s.trace.(outstanding := s.trace.outstanding - {context.generation}, settled := s.trace.settled + 1);
    var r := s.(trace := trace);
    if s.inFlight != Some(context) then r
    else
      var t := r.(inFlight := None, queued := None);
      if Superseded(c, s) then ScheduleInput(c, t, AsInput(s.queued.value))
      else if !ok then t.(phase := Error)
      else t.(waiting := Some(context), phase := WaitingForMatchingFrame,
              trace := trace.(accepted := trace.accepted + [context.generation]))
  }

  /** The range test of observeFrame: the frame covers the requested range up to a tolerance. */
  predicate Covers(c: Settings, center: int, span: int, start: real, stop: real) {
    var tolerance := Tolerance(c.absoluteHz, span, c.frameRatio);
    && start <= center as real - span as real / 2.0 + tolerance
    && stop >= center as real + span as real / 2.0 - tolerance
  }

  predicate Matches(c: Settings, request: Context, f: Frame, activeSource: Option<string>) {
    && (activeSource.Some? ==> f.sourceType == activeSource)
    && (request.sourceType.Some? ==> f.sourceType == request.sourceType)
    && f.timestampMs.Some? && f.timestampMs.value > request.requestedAtMs
    && !(f.sessionId == request.previousSessionId && f.sequence == request.previousSequence)
    && f.start.Finite? && f.stop.Finite?
    && Covers(c, request.viewport.center, request.viewport.span, f.start.value, f.stop.value)
  }

  function ObserveFrame(c: Settings, s: State, f: Option<Frame>, activeSource: Option<string>): State {
    if f.None? then s
    else
      var t := s.(lastFrame := f);
      if s.waiting.None? || !Matches(c, s.waiting.value, f.value, activeSource) then t
      else t.(waiting := None, phase := Streaming,
              trace := t.trace.(matched := t.trace.matched
                                           + [Match(s.waiting.value.generation, f.value, activeSource)]))
  }

  // --- Runs ---

  datatype Event =
    | SetCaps(capabilities: Option<Capabilities>)
    | SetWidth(width: Number)
    | Begin
    | End(viewport: Option<Input>)
    | Schedule(input: Input)
    | Cancel
    | Fire(handle: nat, now: int)
    | Settle(request: nat, ok: bool)
    | Observe(frame: Option<Frame>, activeSource: Option<string>)

  /** Timeouts fire while the page holds them; each promise settles at most once. */
  predicate Enabled(s: State, e: Event) {
    match e
    case Fire(h, _) => h in s.host.live
    case Settle(g, _) => g in s.trace.outstanding && 1 <= g <= |s.trace.sent|
    case _ => true
  }

  function Step(c: Settings, s: State, e: Event): State
    requires Enabled(s, e)
  {
    match e
    case SetCaps(capabilities) => SetCapabilities(s, capabilities)
    case SetWidth(w) => if FinitePositive(w) then s.(canvasWidth := w) else s
    case Begin => BeginInteraction(s)
    case End(v) => EndInteraction(c, if v.Some? then HandedIn(s, v.value) else s, v)
    case Schedule(i) => ScheduleInput(c, HandedIn(s, i), i)
    case Cancel => CancelPending(s)
    case Fire(h, now) => Fired(c, s, h, now)
    case Settle(g, ok) => Settled(c, s, s.trace.sent[g - 1], ok)
    case Observe(f, a) => ObserveFrame(c, s, f, a)
  }

  ghost predicate Possible(c: Settings, s: State, es: seq<Event>)
    decreases |es|
  {
    es == [] || (Enabled(s, es[0]) && Possible(c, Step(c, s, es[0]), es[1..]))
  }

  ghost function Run(c: Settings, s: State, es: seq<Event>): State
    requires Possible(c, s, es)
    decreases |es|
  {
    if es == [] then s else Run(c, Step(c, s, es[0]), es[1..])
  }

  ghost predicate Reachable(c: Settings, s: State) {
    exists es :: Possible(c, Init(), es) && s == Run(c, Init(), es)
  }

  // --- Invariants of every run ---

  /** At most one timeout is held, and when it fires nothing stands in the way of its request. */
  ghost predicate TimerInv(c: Settings, s: State) {
    && s.host.live.Keys == (if s.timer.Some? then {s.timer.value} else {})
    && (s.timer.Some? ==>
          && s.timer.value < s.host.nextHandle
          && Supports(s.capabilities) && !s.interacting && s.inFlight.None?
          && !EquivalentToLast(c, s.host.live[s.timer.value], s.lastRequested))
  }

  /** Sends minus settlements is one while a request is in flight and zero otherwise; the slot
      behind it is used only then; and the waited-for request is older than the one in flight. */
  ghost predicate RequestInv(s: State) {
    var n := |s.trace.sent|;
    && s.generation == n
    && (forall i :: 0 <= i < n ==> s.trace.sent[i].generation == i + 1)
    && s.trace.outstanding == (if s.inFlight.Some? then {n} else {})
    && n - s.trace.settled == (if s.inFlight.Some? then 1 else 0)
    && (s.inFlight.Some? ==> n > 0 && s.inFlight.value == s.trace.sent[n - 1])
    && (s.queued.Some? ==> s.inFlight.Some?)
    && (s.waiting.Some? ==>
          && 1 <= s.waiting.value.generation <= n
          && s.waiting.value == s.trace.sent[s.waiting.value.generation - 1]
          && s.trace.accepted != [] && s.trace.accepted[|s.trace.accepted| - 1] == s.waiting.value.generation)
    && (s.lastRequested == if n == 0 then None else Some(s.trace.sent[n - 1].viewport))
  }

  /** Requests are told apart by the equivalence test, and responses are accepted in the order of
      their requests. */
  ghost predicate HistoryInv(c: Settings, s: State) {
    && (forall i :: 0 < i < |s.trace.sent| ==>
          !Equivalent(c, s.trace.sent[i].viewport, s.trace.sent[i - 1].viewport))
    && (forall i, j :: 0 <= i < j < |s.trace.accepted| ==> s.trace.accepted[i] < s.trace.accepted[j])
    && (forall g :: g in s.trace.accepted ==>
          1 <= g <= |s.trace.sent| && (s.inFlight.Some? ==> g < |s.trace.sent|))
  }

  ghost predicate Inv(c: Settings, s: State) {
    TimerInv(c, s) && RequestInv(s) && HistoryInv(c, s)
  }

  lemma EquivalentIsReflexive(c: Settings, v: Viewport)
    requires ProperSettings(c)
    ensures Equivalent(c, v, v)
  {
  }

  lemma AcceptKeepsInv(c: Settings, s: State, v: Viewport)
    requires Inv(c, s)
    ensures Inv(c, Accept(c, s, v))
  {
    var t := Accept(c, s, v);
    if t.timer != s.timer {
      assert t.host.live.Keys == {t.timer.value};
    }
  }

  lemma ScheduleKeepsInv(c: Settings, s: State, i: Input)
    requires Inv(c, s)
    ensures Inv(c, ScheduleInput(c, s, i))
  {
    if Normalize(i).Some? {
      AcceptKeepsInv(c, s, Normalize(i).value);
    }
  }

  lemma FireKeepsInv(c: Settings, s: State, h: nat, now: int)
    requires Inv(c, s) && h in s.host.live
    ensures Inv(c, Fired(c, s, h, now))
  {
    var t := Fired(c, s, h, now);
    assert h == s.timer.value;
    assert t.host.live.Keys == {};
    var n := |s.trace.sent|;
    assert t.trace.sent[..n] == s.trace.sent;
    assert t.trace.outstanding == {n + 1};
    assert HistoryInv(c, t);
  }

  /** The state once the promise in flight has settled, before deciding what follows. */
  function Released(s: State, g: nat): State {
    s.(inFlight := None, queued := None,
       trace := s.trace.(outstanding := s.trace.outstanding - {g}, settled := s.trace.settled + 1))
  }

  lemma ReleasedKeepsInv(c: Settings, s: State, g: nat)
    requires Inv(c, s) && g in s.trace.outstanding
    ensures g == |s.trace.sent| && s.inFlight == Some(s.trace.sent[g - 1])
    ensures Inv(c, Released(s, g))
  {
    assert Released(s, g).trace.outstanding == {};
  }

  lemma AwaitKeepsInv(c: Settings, s: State, r: State, phase: Phase)
    requires Inv(c, r) && r.inFlight.None? && |r.trace.sent| > 0
    requires forall g :: g in r.trace.accepted ==> g < |r.trace.sent|
    requires var n := |r.trace.sent|;
             s == r.(waiting := Some(r.trace.sent[n - 1]), phase := phase,
                     trace := r.trace.(accepted := r.trace.accepted + [n]))
    ensures Inv(c, s)
  {
    var n := |r.trace.sent|;
    assert forall i :: 0 <= i < |r.trace.accepted| ==> r.trace.accepted[i] in r.trace.accepted;
    assert s.trace.accepted == r.trace.accepted + [n];
  }

  lemma SettleKeepsInv(c: Settings, s: State, g: nat, ok: bool)
    requires Inv(c, s) && Enabled(s, Settle(g, ok))
    ensures Inv(c, Step(c, s, Settle(g, ok)))
  {
    ReleasedKeepsInv(c, s, g);
    var r := Released(s, g);
    var t := Step(c, s, Settle(g, ok));
    if Superseded(c, s) {
      ScheduleKeepsInv(c, r, AsInput(s.queued.value));
      assert t == ScheduleInput(c, r, AsInput(s.queued.value));
    } else if ok {
      AwaitKeepsInv(c, t, r, WaitingForMatchingFrame);
    } else {
      assert t == r.(phase := Error);
    }
  }

  lemma CancelKeepsInv(c: Settings, s: State)
    requires HistoryInv(c, s) && RequestInv(s)
    requires s.host.live.Keys == (if s.timer.Some? then {s.timer.value} else {})
    ensures Inv(c, CancelPending(s)) && Inv(c, BeginInteraction(s))
  {
    assert Cleared(s).live.Keys == {};
  }

  lemma EndKeepsInv(c: Settings, s: State, v: Option<Input>)
    requires Inv(c, s)
    ensures Inv(c, EndInteraction(c, s, v))
  {
    var t := s.(interacting := false);
    assert Inv(c, t);
    if v.Some? && Normalize(v.value).Some? {
      var w := Normalize(v.value).value;
      assert Inv(c, t.(pending := Some(w)));
      ScheduleKeepsInv(c, t.(pending := Some(w)), AsInput(w));
    } else if v.None? && s.pending.Some? {
      ScheduleKeepsInv(c, t, AsInput(s.pending.value));
    }
  }

  lemma HandedInKeepsInv(c: Settings, s: State, i: Input)
    requires Inv(c, s)
    ensures Inv(c, HandedIn(s, i))
  {
  }

  lemma EndCallKeepsInv(c: Settings, s: State, v: Option<Input>)
    requires Inv(c, s)
    ensures Inv(c, Step(c, s, End(v)))
  {
    if v.Some? {
      HandedInKeepsInv(c, s, v.value);
      EndKeepsInv(c, HandedIn(s, v.value), v);
    } else {
      EndKeepsInv(c, s, v);
    }
  }

  lemma FrameKeepsInv(c: Settings, s: State, f: Option<Frame>, m: Match)
    requires Inv(c, s)
    ensures Inv(c, s.(lastFrame := f))
    ensures Inv(c, s.(lastFrame := f, waiting := None, phase := Streaming,
                      trace := s.trace.(matched := s.trace.matched + [m])))
  {
  }

  lemma ObserveKeepsInv(c: Settings, s: State, f: Option<Frame>, a: Option<string>)
    requires Inv(c, s)
    ensures Inv(c, ObserveFrame(c, s, f, a))
  {
    if f.Some? {
      FrameKeepsInv(c, s, f, Match(if s.waiting.Some? then s.waiting.value.generation else 0, f.value, a));
    }
  }

  lemma StepKeepsInv(c: Settings, s: State, e: Event)
    requires Inv(c, s) && Enabled(s, e)
    ensures Inv(c, Step(c, s, e))
  {
    match e
    case SetCaps(capabilities) =>
      if !Supports(capabilities) {
        CancelKeepsInv(c, s.(capabilities := capabilities));
      }
    case SetWidth(_) =>
    case Begin => CancelKeepsInv(c, s);
    case End(v) => EndCallKeepsInv(c, s, v);
    case Schedule(i) =>
      HandedInKeepsInv(c, s, i);
      ScheduleKeepsInv(c, HandedIn(s, i), i);
    case Cancel => CancelKeepsInv(c, s);
    case Fire(h, now) => FireKeepsInv(c, s, h, now);
    case Settle(g, ok) => SettleKeepsInv(c, s, g, ok);
    case Observe(f, a) => ObserveKeepsInv(c, s, f, a);
  }

  lemma {:induction false} RunKeepsInv(c: Settings, s: State, es: seq<Event>)
    requires Inv(c, s) && Possible(c, s, es)
    ensures Inv(c, Run(c, s, es))
    decreases |es|
  {
    if es == [] {
    } else {
      StepKeepsInv(c, s, es[0]);
      RunKeepsInv(c, Step(c, s, es[0]), es[1..]);
    }
  }

  lemma ReachableInv(c: Settings, s: State)
    requires Reachable(c, s)
    ensures Inv(c, s)
  {
    var es :| Possible(c, Init(), es) && s == Run(c, Init(), es);
    RunKeepsInv(c, Init(), es);
  }

  // --- Consequences ---

  /** Every timeout that fires sends exactly one request, for the viewport it was armed with. */
  lemma EveryTimeoutSendsOneRequest(c: Settings, s: State, h: nat, now: int)
    requires Reachable(c, s) && h in s.host.live
    ensures var t, n := Fired(c, s, h, now), |s.trace.sent|;
            && |t.trace.sent| == n + 1 && t.trace.sent[..n] == s.trace.sent
            && SentNow(c, s, t.trace.sent[n], s.host.live[h], now)
            && t.inFlight == Some(t.trace.sent[n]) && t.lastRequested == Some(s.host.live[h]) && t.phase == Retuning
            && t.host.live == map[] && t.timer.None? && t.waiting == s.waiting && t.pending == s.pending
  {
    ReachableInv(c, s);
    assert h == s.timer.value;
    assert Fired(c, s, h, now).host.live.Keys == {};
  }

  /** The request asks for the viewport at the canvas resolution, carries the next number and the time,
      and remembers the frame that is shown. */
  ghost predicate SentNow(c: Settings, s: State, x: Context, v: Viewport, now: int) {
    && x.viewport == v && x.generation == |s.trace.sent| + 1 && x.requestedAtMs == now
    && x.points == TargetPoints(c, s.capabilities, s.canvasWidth)
    && (s.lastFrame.None? ==> x.sourceType == None && x.previousSessionId == None && x.previousSequence == None)
    && (s.lastFrame.Some? ==>
          && x.sourceType == s.lastFrame.value.sourceType
          && x.previousSessionId == s.lastFrame.value.sessionId
          && x.previousSequence == s.lastFrame.value.sequence)
  }

  /** The identity check in _settleRequest never fails: the promise that settles is always the one
      in flight. */
  lemma OnlyTheRequestInFlightSettles(c: Settings, s: State, g: nat, ok: bool)
    requires Reachable(c, s) && Enabled(s, Settle(g, ok))
    ensures s.inFlight == Some(s.trace.sent[g - 1]) && g == |s.trace.sent|
    ensures Step(c, s, Settle(g, ok)).inFlight.None?
  {
    ReachableInv(c, s);
  }

  /** A response becomes the waited-for one exactly when the request succeeded and no different
      viewport has been queued behind it; a superseded response is never waited for. */
  lemma SupersededResponseIsNeverAwaited(c: Settings, s: State, g: nat, ok: bool)
    requires Reachable(c, s) && Enabled(s, Settle(g, ok))
    ensures var t := Step(c, s, Settle(g, ok));
            && (t.waiting == if ok && !Superseded(c, s) then Some(s.trace.sent[g - 1]) else s.waiting)
            && (Superseded(c, s) ==> t.waiting == s.waiting && t.trace.accepted == s.trace.accepted)
  {
    ReachableInv(c, s);
  }

  /** What the phase may hide: an older request can still be waiting while a newer is in flight,
      but never the other way round. */
  lemma OverlapIsOrdered(c: Settings, s: State)
    requires Reachable(c, s) && s.waiting.Some? && s.inFlight.Some?
    ensures s.waiting.value.generation < s.inFlight.value.generation
    ensures s.trace.outstanding == {s.inFlight.value.generation}
    ensures |s.trace.sent| - s.trace.settled == 1
  {
    ReachableInv(c, s);
    assert s.waiting.value.generation in s.trace.accepted;
  }

  /** No two consecutive requests ask for equivalent viewports. */
  lemma ConsecutiveRequestsDiffer(c: Settings, s: State, i: nat)
    requires Reachable(c, s) && 0 < i < |s.trace.sent|
    ensures !Equivalent(c, s.trace.sent[i].viewport, s.trace.sent[i - 1].viewport)
  {
    ReachableInv(c, s);
  }

  // --- Waits that end ---

  /** Only accepted requests are matched, each at most once and in order; the one waited for is newer. */
  ghost predicate MatchInv(s: State) {
    && (forall i :: 0 <= i < |s.trace.matched| ==> s.trace.matched[i].generation in s.trace.accepted)
    && (forall i, j :: 0 <= i < j < |s.trace.matched| ==> s.trace.matched[i].generation < s.trace.matched[j].generation)
    && (s.waiting.Some? ==>
          forall i :: 0 <= i < |s.trace.matched| ==> s.trace.matched[i].generation < s.waiting.value.generation)
  }

  /** A response changes the wait only when it is accepted, and then carries the newest number. */
  lemma SettledWait(c: Settings, s: State, g: nat, ok: bool)
    requires Inv(c, s) && Enabled(s, Settle(g, ok))
    ensures var t := Step(c, s, Settle(g, ok));
            && t.trace.matched == s.trace.matched
            && ((t.trace.accepted == s.trace.accepted && t.waiting == s.waiting)
                || (t.trace.accepted == s.trace.accepted + [g] && t.waiting == Some(s.trace.sent[g - 1])))
    ensures s.trace.sent[g - 1].generation == g && forall x :: x in s.trace.accepted ==> x < g
  {
    assert s.inFlight == Some(s.trace.sent[g - 1]) && g == |s.trace.sent|;
  }

  lemma SettleKeepsMatchInv(c: Settings, s: State, g: nat, ok: bool)
    requires Inv(c, s) && MatchInv(s) && Enabled(s, Settle(g, ok))
    ensures MatchInv(Step(c, s, Settle(g, ok)))
  {
    SettledWait(c, s, g, ok);
  }

  lemma StepKeepsMatchInv(c: Settings, s: State, e: Event)
    requires Inv(c, s) && MatchInv(s) && Enabled(s, e)
    ensures MatchInv(Step(c, s, e))
  {
    match e
    case Settle(g, ok) => SettleKeepsMatchInv(c, s, g, ok);
    case Observe(f, activeSource) => ObserveKeepsMatchInv(c, s, f, activeSource);
    case _ => OtherStepsKeepTheWait(c, s, e);
  }

  lemma ObserveKeepsMatchInv(c: Settings, s: State, f: Option<Frame>, activeSource: Option<string>)
    requires RequestInv(s) && MatchInv(s)
    ensures MatchInv(ObserveFrame(c, s, f, activeSource))
  {
    if s.waiting.Some? {
      assert s.trace.accepted[|s.trace.accepted| - 1] in s.trace.accepted;
    }
  }

  lemma OtherStepsKeepTheWait(c: Settings, s: State, e: Event)
    requires Enabled(s, e) && !e.Settle? && !e.Observe?
    ensures var t := Step(c, s, e);
            t.trace.matched == s.trace.matched && t.trace.accepted == s.trace.accepted && t.waiting == s.waiting
  {
  }

  lemma {:induction false} RunKeepsMatchInv(c: Settings, s: State, es: seq<Event>)
    requires Inv(c, s) && MatchInv(s) && Possible(c, s, es)
    ensures MatchInv(Run(c, s, es))
    decreases |es|
  {
    if es != [] {
      StepKeepsInv(c, s, es[0]);
      StepKeepsMatchInv(c, s, es[0]);
      RunKeepsMatchInv(c, Step(c, s, es[0]), es[1..]);
    }
  }

  /** Over every run: a wait that ends is that of an accepted request, it ends once, and in the order of
      the requests; a request that a newer one has replaced is never matched afterwards. */
  lemma MatchesAreOrdered(c: Settings, s: State)
    requires Reachable(c, s)
    ensures MatchInv(s)
  {
    var es :| Possible(c, Init(), es) && s == Run(c, Init(), es);
    RunKeepsMatchInv(c, Init(), es);
  }

  /** The frame is new: measured after the request, by the source that is active and the one known then,
      and not the one that was shown when the request was sent. */
  ghost predicate IsNewFor(request: Context, f: Frame, activeSource: Option<string>) {
    && f.timestampMs.Some? && request.requestedAtMs < f.timestampMs.value
    && (activeSource == None || f.sourceType == activeSource)
    && (request.sourceType == None || f.sourceType == request.sourceType)
    && (f.sessionId != request.previousSessionId || f.sequence != request.previousSequence)
  }

  /** Each end of the frame misses the requested range by no more than the absolute tolerance, or by no
      more than the relative one. */
  ghost predicate ReachesAcross(c: Settings, request: Context, f: Frame) {
    f.start.Finite? && f.stop.Finite? &&
    var center, span := request.viewport.center as real, request.viewport.span as real;
    var low, high := f.start.value - (center - span / 2.0), (center + span / 2.0) - f.stop.value;
    && (low <= c.absoluteHz || low <= span * c.frameRatio)
    && (high <= c.absoluteHz || high <= span * c.frameRatio)
  }

  /** A frame ends the wait exactly if it is new and reaches across the requested range; no other frame
      has any effect but to be remembered. */
  lemma WaitEndsIff(c: Settings, s: State, f: Frame, activeSource: Option<string>)
    ensures var t := ObserveFrame(c, s, Some(f), activeSource);
            if s.waiting.Some? && IsNewFor(s.waiting.value, f, activeSource) && ReachesAcross(c, s.waiting.value, f)
            then t.waiting == None && t.phase == Streaming && t.lastFrame == Some(f)
                 && t.trace.matched == s.trace.matched + [Match(s.waiting.value.generation, f, activeSource)]
            else t == s.(lastFrame := Some(f))
  {
  }

  ghost predicate IsNewMatch(c: Settings, sent: seq<Context>, m: Match) {
    && 1 <= m.generation <= |sent|
    && IsNewFor(sent[m.generation - 1], m.frame, m.activeSource)
    && ReachesAcross(c, sent[m.generation - 1], m.frame)
  }

  /** Every wait that ended was ended by a new frame of its request. */
  ghost predicate MatchedByNew(c: Settings, s: State) {
    forall i :: 0 <= i < |s.trace.matched| ==> IsNewMatch(c, s.trace.sent, s.trace.matched[i])
  }

  lemma OtherStepsOnlySend(c: Settings, s: State, e: Event)
    requires Enabled(s, e) && !e.Observe?
    ensures var t := Step(c, s, e).trace;
            && t.matched == s.trace.matched
            && |s.trace.sent| <= |t.sent| && t.sent[..|s.trace.sent|] == s.trace.sent
  {
  }

  lemma StepKeepsMatchedByNew(c: Settings, s: State, e: Event)
    requires RequestInv(s) && MatchedByNew(c, s) && Enabled(s, e)
    ensures MatchedByNew(c, Step(c, s, e))
  {
    if e.Observe? {
      if e.frame.Some? {
        WaitEndsIff(c, s, e.frame.value, e.activeSource);
      }
    } else {
      OtherStepsOnlySend(c, s, e);
      SentGrows(c, s.trace.sent, Step(c, s, e).trace.sent, s.trace.matched);
    }
  }

  lemma SentGrows(c: Settings, sent: seq<Context>, later: seq<Context>, matched: seq<Match>)
    requires |sent| <= |later| && later[..|sent|] == sent
    requires forall i :: 0 <= i < |matched| ==> IsNewMatch(c, sent, matched[i])
    ensures forall i :: 0 <= i < |matched| ==> IsNewMatch(c, later, matched[i])
  {
    forall i | 0 <= i < |matched|
      ensures IsNewMatch(c, later, matched[i])
    {
      assert IsNewMatch(c, sent, matched[i]);
      assert later[..|sent|][matched[i].generation - 1] == later[matched[i].generation - 1];
    }
  }

  lemma {:induction false} RunKeepsMatchedByNew(c: Settings, s: State, es: seq<Event>)
    requires Inv(c, s) && MatchedByNew(c, s) && Possible(c, s, es)
    ensures MatchedByNew(c, Run(c, s, es))
    decreases |es|
  {
    if es != [] {
      StepKeepsInv(c, s, es[0]);
      StepKeepsMatchedByNew(c, s, es[0]);
      RunKeepsMatchedByNew(c, Step(c, s, es[0]), es[1..]);
    }
  }

  /** Over every run: each wait that ended was ended by a frame measured after its request, of the active
      source, other than the one shown when the request was sent, that reaches across the range. */
  lemma MatchedFramesAreNew(c: Settings, s: State)
    requires Reachable(c, s)
    ensures MatchedByNew(c, s)
  {
    var es :| Possible(c, Init(), es) && s == Run(c, Init(), es);
    RunKeepsMatchedByNew(c, Init(), es);
  }

  /** The frame shown when a request was sent never ends the wait for it, whenever it is seen again. */
  lemma EarlierFrameNeverMatches(c: Settings, s: State, v: Viewport, now: int, activeSource: Option<string>)
    requires s.lastFrame.Some?
    ensures !Matches(c, NewContext(c, s, v, now), s.lastFrame.value, activeSource)
  {
  }

  // --- The controller object ---

  datatype Outcome = Throws | Returns(value: bool)

  class Controller {
    const settings: Settings
    var phase: Phase
    var capabilities: Option<Capabilities>
    var canvasPhysicalWidth: Number
    var interacting: bool
    var timer: Option<nat>
    var pendingViewport: Option<Viewport>
    var queuedViewport: Option<Viewport>
    var inFlight: Option<Context>
    var waiting: Option<Context>
    var lastRequested: Option<Viewport>
    var lastFrame: Option<Frame>
    var generation: nat
    var host: Host
    ghost var trace: Trace

    ghost function View(): State
      reads this
    {
      State(phase, capabilities, canvasPhysicalWidth, interacting, timer, pendingViewport, queuedViewport,
            inFlight, waiting, lastRequested, lastFrame, generation, host, trace)
    }

    constructor (settings: Settings)
      ensures View() == Init() && this.settings == settings
    {
      this.settings := settings;
      phase, capabilities, canvasPhysicalWidth, interacting := Idle, None, Finite(0.0), false;
      timer, pendingViewport, queuedViewport, inFlight, waiting := None, None, None, None, None;
      lastRequested, lastFrame, generation := None, None, 0;
      host := Host(map[], 0);
      trace := Init().trace;
    }

    method ClearTimer()
      modifies this`host
      ensures host == Cleared(old(View()))
    {
      if timer.Some? {
        host := host.(live := host.live - {timer.value});
      }
    }

    method SetCapabilities(value: Option<Capabilities>)
      modifies this
      ensures View() == Step(settings, old(View()), SetCaps(value))
    {
      capabilities := value;
      if !Supports(capabilities) {
        CancelPending();
      }
    }

    method SetCanvasPhysicalWidth(width: Number)
      modifies this
      ensures View() == Step(settings, old(View()), SetWidth(width))
    {
      if FinitePositive(width) {
        canvasPhysicalWidth := width;
      }
    }

    method BeginInteraction()
      modifies this
      ensures View() == Step(settings, old(View()), Begin)
    {
      interacting := true;
      ClearTimer();
      timer := None;
    }

    /** Throws on an invalid viewport, and on one that has rounded to zero. */
    method EndInteraction(viewport: Option<Input>) returns (outcome: Outcome)
      modifies this
      ensures View() == Step(settings, old(View()), End(viewport))
      ensures outcome == Throws <==>
                var ended := if viewport.Some? then Normalize(viewport.value) else old(pendingViewport);
                if ended.Some? then Normalize(AsInput(ended.value)).None? else viewport.Some?
      ensures outcome == Returns(true) ==> phase == Pending && timer == Some(old(host).nextHandle)
      ensures outcome == Returns(false) ==> timer == old(timer)
    {
      outcome := Returns(false);
      interacting := false;
      if viewport.Some? {
        var normalized := Normalize(viewport.value);
        if normalized.None? {
          return Throws;
        }
        trace := trace.(newest := normalized);
        pendingViewport := normalized;
      }
      if pendingViewport.Some? {
        outcome := ScheduleAgain(AsInput(pendingViewport.value));
      }
    }

    /** schedule as callers use it. */
    method Schedule(viewport: Input) returns (outcome: Outcome)
      modifies this
      ensures View() == Step(settings, old(View()), Event.Schedule(viewport))
      ensures outcome == Throws <==> Normalize(viewport).None?
      ensures outcome == Returns(true) ==> phase == Pending && timer == Some(old(host).nextHandle)
      ensures outcome == Returns(false) ==> timer == old(timer)
    {
      if Normalize(viewport).Some? {
        trace := trace.(newest := Normalize(viewport));
      }
      outcome := ScheduleAgain(viewport);
    }

    /** schedule as the controller itself uses it, on a viewport handed in before. */
    method ScheduleAgain(viewport: Input) returns (outcome: Outcome)
      modifies this
      ensures View() == ScheduleInput(settings, old(View()), viewport)
      ensures outcome == Throws <==> Normalize(viewport).None?
      ensures outcome == Returns(true) ==> phase == Pending && timer == Some(old(host).nextHandle)
      ensures outcome == Returns(false) ==> timer == old(timer)
    {
      var normalized := Normalize(viewport);
      if normalized.None? {
        return Throws;
      }
      pendingViewport := normalized;
      if !Supports(capabilities) {
        return Returns(false);
      }
      if interacting {
        return Returns(false);
      }
      if inFlight.Some? {
        queuedViewport := normalized;
        return Returns(false);
      }
      if EquivalentToLast(settings, normalized.value, lastRequested) {
        return Returns(false);
      }
      ClearTimer();
      phase := Pending;
      timer := Some(host.nextHandle);
      host := Host(host.live[host.nextHandle := normalized.value], host.nextHandle + 1);
      return Returns(true);
    }

    method CancelPending()
      modifies this
      ensures View() == Step(settings, old(View()), Cancel)
    {
      ClearTimer();
      timer := None;
      pendingViewport := None;
      queuedViewport := None;
      if inFlight.None? && waiting.None? {
        phase := Idle;
      }
      trace := trace.(newest := None);
    }

    /** The page runs a timeout; the result is the request handed to sendRequest. */
    method Fire(handle: nat, now: int) returns (request: Option<Context>)
      requires handle in host.live
      modifies this
      ensures View() == Step(settings, old(View()), Event.Fire(handle, now))
      ensures trace.sent == old(trace).sent + (if request.Some? then [request.value] else [])
    {
      var captured := host.live[handle];
      host := host.(live := host.live - {handle});
      timer := None;
      request := DispatchViewport(captured, now);
    }

    method DispatchViewport(viewport: Viewport, now: int) returns (request: Option<Context>)
      modifies this
      ensures View() == Dispatch(settings, old(View()), viewport, now)
      ensures trace.sent == old(trace).sent + (if request.Some? then [request.value] else [])
    {
      if !Supports(capabilities) || interacting || inFlight.Some?
         || EquivalentToLast(settings, viewport, lastRequested)
      {
        return None;
      }
      var maximumPoints := TargetPoints(settings, capabilities, canvasPhysicalWidth);
      generation := generation + 1;
      var context := Context(generation, now, viewport, maximumPoints,
                             if lastFrame.Some? then lastFrame.value.sourceType else None,
                             if lastFrame.Some? then lastFrame.value.sessionId else None,
                             if lastFrame.Some? then lastFrame.value.sequence else None);
      lastRequested := Some(viewport);
      inFlight := Some(context);
      phase := Retuning;
      trace := trace.(sent := trace.sent + [context], outstanding := trace.outstanding + {generation});
      return Some(context);
    }

    method SettleRequest(context: Context, ok: bool)
      modifies this
      ensures View() == Settled(settings, old(View()), context, ok)
    {
      trace := trace.(outstanding := trace.outstanding - {context.generation}, settled := trace.settled + 1);
      if inFlight != Some(context) {
        return;
      }
      inFlight := None;
      var superseded := queuedViewport.Some? && !EquivalentToLast(settings, queuedViewport.value, lastRequested);
      if superseded {
        var queued := queuedViewport.value;
        queuedViewport := None;
        var _ := ScheduleAgain(AsInput(queued));
        return;
      }
      queuedViewport := None;
      if !ok {
        phase := Error;
        return;
      }
      waiting := Some(context);
      phase := WaitingForMatchingFrame;
      trace := trace.(accepted := trace.accepted + [context.generation]);
    }

    method ObserveFrame(frame: Option<Frame>, activeSource: Option<string>) returns (matched: bool)
      modifies this
      ensures View() == Step(settings, old(View()), Observe(frame, activeSource))
      ensures matched <==>
                && frame.Some? && old(waiting).Some?
                && IsNewFor(old(waiting).value, frame.value, activeSource)
                && ReachesAcross(settings, old(waiting).value, frame.value)
    {
      if frame.Some? {
        lastFrame := frame;
      }
      if waiting.None? || frame.None? {
        return false;
      }
      var request := waiting.value;
      if !Matches(settings, request, frame.value, activeSource) {
        return false;
      }
      waiting := None;
      phase := Streaming;
      trace := trace.(matched := trace.matched + [Match(request.generation, frame.value, activeSource)]);
      return true;
    }
  }
}
