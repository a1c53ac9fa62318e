/** Retuning the mock source end to end: the viewport route announces an axis (http_server.cpp),
    the source manager drives the setters (agent.cpp), the source emits frames on its own axis
    (mock_rf_source.cpp), and the browser decides whether a frame shows what it asked for. */
module MockRetune {
  import opened Prelude
  import opened Division
  import opened FrequencyAxis
  import VC = ViewportController

  /** The part of MockRfConfig that retuning touches. */
  datatype Config = Config(start: int, stop: int, points: int, sampleRate: int)

  predicate MachineConfig(g: Config) {
    IsU64(g.start) && IsU64(g.stop) && IsU64(g.points) && IsU64(g.sampleRate)
  }

  /** What initialize accepts, as far as the axis is concerned. */
  predicate Initialized(g: Config) {
    && MachineConfig(g) && g.start < g.stop && 2 <= g.points <= MAX_SPECTRUM_POINTS && g.sampleRate > 0
  }

  function Span(g: Config): int {
    Wrap(g.stop - g.start)
  }

  function Center(g: Config): int {
    Wrap(g.start + Span(g) / 2)
  }

  // --- The setters; None is the result false, which leaves the configuration alone ---

  function SetCenter(g: Config, frequency: int): Option<Config>
    requires MachineConfig(g) && IsU64(frequency)
  {
    var half := Span(g) / 2;
    if frequency <= half || frequency > MAX64 - half then None
    else Some(g.(start := frequency - half, stop := Wrap(frequency - half + Span(g))))
  }

  function SetSpan(g: Config, span: int): Option<Config>
    requires MachineConfig(g) && IsU64(span)
  {
    var left := span / 2;
    if span == 0 || span >= TOP_HZ then None
    else if Center(g) <= left || Center(g) > TOP_HZ - (span - left) then None
    else Some(g.(start := Center(g) - left, stop := Wrap(Center(g) - left + span), sampleRate := span))
  }

  function SetPoints(g: Config, points: int): Option<Config> {
    if points < 2 || points > MAX_SPECTRUM_POINTS then None else Some(g.(points := points))
  }

  /** setCenterFrequency keeps the span exactly and moves the centre exactly. */
  lemma SetCenterKeepsSpan(g: Config, frequency: int)
    requires MachineConfig(g) && IsU64(frequency) && SetCenter(g, frequency).Some?
    ensures var h := SetCenter(g, frequency).value;
            MachineConfig(h) && Span(h) == Span(g) && Center(h) == frequency
  {
    var h := SetCenter(g, frequency).value;
    var s, a := Span(g), frequency - Span(g) / 2;
    WrapDifference(a, s);
    assert h.start == a && h.stop == Wrap(a + s);
  }

  lemma WrapDifference(a: int, s: int)
    requires IsU64(a) && IsU64(s)
    ensures Wrap(Wrap(a + s) - a) == s
  {
    if a + s < TWO64 {
      assert Wrap(a + s) == a + s;
    } else {
      assert Wrap(a + s) == a + s - TWO64;
      assert (s - TWO64) % TWO64 == s;
    }
  }

  /** setSpan keeps the centre exactly, and its result does not wrap. */
  lemma SetSpanKeepsCenter(g: Config, span: int)
    requires MachineConfig(g) && IsU64(span) && SetSpan(g, span).Some?
    ensures var h := SetSpan(g, span).value;
            && MachineConfig(h) && Span(h) == span == h.sampleRate && Center(h) == Center(g)
            && h.stop == h.start + span && 0 < h.start && h.stop <= TOP_HZ
  {
  }

  /** The only way a setter can spoil the axis: a centre so high that the stop wraps around. */
  lemma SetCenterStaysInitializedIff(g: Config, frequency: int)
    requires Initialized(g) && IsU64(frequency) && SetCenter(g, frequency).Some?
    ensures Initialized(SetCenter(g, frequency).value) <==>
              frequency + (g.stop - g.start - (g.stop - g.start) / 2) < TWO64
  {
  }

  datatype Setting = CenterHz(frequency: int) | SpanHz(span: int) | PointCount(points: int)

  /** One call of a setter, whether it accepts or not. */
  function Apply(g: Config, s: Setting): Config
    requires Initialized(g)
  {
    match s
    case CenterHz(f) => if IsU64(f) && SetCenter(g, f).Some? then SetCenter(g, f).value else g
    case SpanHz(w) => if IsU64(w) && SetSpan(g, w).Some? then SetSpan(g, w).value else g
    case PointCount(n) => if SetPoints(g, n).Some? then SetPoints(g, n).value else g
  }

  /** Each setter accepts exactly the values that leave room for the band on both sides (the centre's upper
      bound is that of 64 bits), and then changes what it is called after and nothing else. */
  lemma SettingTakesEffect(g: Config, x: int)
    requires Initialized(g) && IsU64(x)
    ensures var h, half := Apply(g, CenterHz(x)), (g.stop - g.start) / 2;
            if half < x && x + half <= MAX64 then Center(h) == x && Span(h) == Span(g) && h.points == g.points
            else h == g
    ensures var h := Apply(g, SpanHz(x));
            if 0 < x < TOP_HZ && x / 2 < Center(g) && Center(g) + (x - x / 2) <= TOP_HZ
            then Center(h) == Center(g) && Span(h) == x == h.sampleRate && h.points == g.points
            else h == g
    ensures var h := Apply(g, PointCount(x));
            h == g.(points := if 2 <= x <= MAX_SPECTRUM_POINTS then x else g.points)
  {
    assert Span(g) == g.stop - g.start;
    if SetCenter(g, x).Some? {
      SetCenterKeepsSpan(g, x);
    }
    if SetSpan(g, x).Some? {
      SetSpanKeepsCenter(g, x);
    }
  }

  ghost predicate Within24GHz(ss: seq<Setting>) {
    forall i :: 0 <= i < |ss| && ss[i].CenterHz? ==> ss[i].frequency <= TOP_HZ
  }

  ghost function ApplyAll(g: Config, ss: seq<Setting>): Option<Config>
    decreases |ss|
  {
    if !Initialized(g) then None
    else if ss == [] then Some(g)
    else ApplyAll(Apply(g, ss[0]), ss[1..])
  }

  /** After any calls of the setters with centres up to 24 GHz the configuration is sound, and the
      frames it produces are valid exactly when there is a hertz for every interval. */
  lemma {:induction false} SettersKeepAxisSound(g: Config, ss: seq<Setting>)
    requires Initialized(g) && Within24GHz(ss)
    ensures var h := ApplyAll(g, ss);
            && h.Some? && Initialized(h.value)
            && (AxisValid(FrameAxis(h.value)) <==> h.value.stop - h.value.start >= h.value.points - 1)
    decreases |ss|
  {
    if ss == [] {
      FrameValidIff(g);
    } else {
      match ss[0] {
        case CenterHz(f) =>
          if IsU64(f) && SetCenter(g, f).Some? {
            SetCenterKeepsSpan(g, f);
            SetCenterStaysInitializedIff(g, f);
          }
        case SpanHz(w) =>
          if IsU64(w) && SetSpan(g, w).Some? {
            SetSpanKeepsCenter(g, w);
          }
        case PointCount(n) =>
      }
      SettersKeepAxisSound(Apply(g, ss[0]), ss[1..]);
    }
  }

  // --- SourceManager::configureViewport on a mock source ---

  datatype Retune = Retune(accepted: bool, config: Config)

  /** The three setters in order; a setter that refuses leaves the earlier ones in force. */
  function Configure(g: Config, center: int, span: int, points: int): (r: Retune)
    requires MachineConfig(g) && IsU64(center) && IsU64(span) && IsU64(points)
  {
    if center == 0 || span == 0 || points < 2 || points > MAX_SPECTRUM_POINTS then Retune(false, g)
    else
      match SetCenter(g, center)
      case None => Retune(false, g)
      case Some(g1) =>
        match SetSpan(g1, span)
        case None => Retune(false, g1)
        case Some(g2) =>
          match SetPoints(g2, points)
          case None => Retune(false, g2)
          case Some(g3) => Retune(true, g3)
  }

  /** The ranges a request must lie in, which include the span the source had before. */
  predicate Acceptable(g: Config, center: int, span: int, points: int)
    requires MachineConfig(g)
  {
    && Span(g) / 2 < center <= MAX64 - Span(g) / 2
    && 0 < span < TOP_HZ && span / 2 < center <= TOP_HZ - (span - span / 2)
    && 2 <= points <= MAX_SPECTRUM_POINTS
  }

  /** A request is accepted exactly in those ranges; then the new axis has the requested centre and
      span exactly.  A refused request has changed the configuration exactly when its centre was
      accepted and its span was not, unless the source was already centred there. */
  lemma ConfigureExactly(g: Config, center: int, span: int, points: int)
    requires Initialized(g) && IsU64(center) && IsU64(span) && IsU64(points)
    ensures var r := Configure(g, center, span, points);
            && (r.accepted <==> Acceptable(g, center, span, points))
            && MachineConfig(r.config)
            && (r.accepted ==> r.config == Config(center - span / 2, center - span / 2 + span, points, span))
            && (!r.accepted ==>
                  (r.config != g <==>
                     && span != 0 && 2 <= points <= MAX_SPECTRUM_POINTS
                     && Span(g) / 2 < center <= MAX64 - Span(g) / 2 && center != Center(g)))
  {
    assert Span(g) == g.stop - g.start;
    if SetCenter(g, center).Some? {
      SetCenterKeepsSpan(g, center);
      var g1 := SetCenter(g, center).value;
      assert g1 == g <==> center == Center(g);
      if SetSpan(g1, span).Some? {
        SetSpanKeepsCenter(g1, span);
      }
    }
  }

  /** A request whose own range is fine can be refused because of the span in force before it. */
  lemma OldSpanRefusesLowBand()
    ensures var g := Config(1_000_000_000, 5_000_000_000, 1024, 4_000_000_000);
            Initialized(g) && !Configure(g, 100_000_000, 1_000_000, 1024).accepted
  {
  }

  /** A refused request can move the source all the same. */
  lemma RefusedRequestMovesSource()
    ensures var g := Config(2_400_000_000, 2_500_000_000, 1024, 100_000_000);
            var r := Configure(g, 900_000_000, 2_000_000_000, 1024);
            Initialized(g) && !r.accepted && r.config != g && Center(r.config) == 900_000_000
  {
  }

  // --- Frames ---

  datatype Axis = Axis(start: int, stop: int, step: int, center: int, points: int)

  /** The axis part of readSpectrumFrame. */
  function FrameAxis(g: Config): Axis
    requires Initialized(g)
  {
    var step := Wrap(g.stop - g.start) / (g.points - 1);
    Axis(g.start, Wrap(g.start + Wrap(step * (g.points - 1))), step, Center(g), g.points)
  }

  /** The validator's verdict on the axis, in unbounded arithmetic. */
  predicate AxisValid(a: Axis) {
    && a.step > 0 && a.points >= 2 && a.stop == a.start + a.step * (a.points - 1)
    && a.start <= a.center <= a.stop
  }

  /** It is the frame validator's. */
  lemma AxisValidIff(f: SpectrumFrame)
    ensures AxisValid(Axis(f.start, f.stop, f.step, f.center, f.numPoints)) <==> AxisWellFormed(f)
  {
  }

  /** The truncated axis stops short of the configured stop by the remainder of the division. */
  lemma AxisArithmetic(g: Config)
    requires Initialized(g)
    ensures var a, span := FrameAxis(g), g.stop - g.start;
            && a.step == span / (g.points - 1)
            && a.stop == a.start + a.step * (g.points - 1) == g.stop - span % (g.points - 1)
            && a.center == g.start + span / 2
  {
    var span, n := g.stop - g.start, g.points - 1;
    DivisionAlgorithm(span, n);
    assert Span(g) == span;
    assert Wrap(span / n * n) == span / n * n;
  }

  /** A remainder is small: below half the dividend, so the centre stays inside the axis. */
  lemma RemainderBelowHalf(a: nat, d: nat)
    requires 0 < d <= a
    ensures 2 * (a % d) < a
  {
    DivisionAlgorithm(a, d);
    var q := a / d;
    ProductBounds(d, 1, q);
    assert d * q == q * d >= d;
  }

  /** The mock's frame passes its own validation exactly when there is at least 1 Hz per interval. */
  lemma FrameValidIff(g: Config)
    requires Initialized(g)
    ensures AxisValid(FrameAxis(g)) <==> g.stop - g.start >= g.points - 1
  {
    var a, span, n := FrameAxis(g), g.stop - g.start, g.points - 1;
    AxisArithmetic(g);
    DivisionAlgorithm(span, n);
    if span >= n {
      RemainderBelowHalf(span, n);
      assert a.center <= a.stop;
    }
  }

  // --- The route's announcement ---

  datatype Reply = Reply(accepted: bool, announced: Axis, constrained: bool)

  /** Lines 180-194 of the viewport route, for a request that passed the field checks. */
  function Route(g: Config, center: int, span: int, maximumPoints: int): (Reply, Config)
    requires Initialized(g) && IsU64(center) && IsU64(span) && IsU64(maximumPoints)
  {
    var points := Min(maximumPoints, MAX_SPECTRUM_POINTS);
    var r := Configure(g, center, span, points);
    if !r.accepted || points < 2 then (Reply(false, Axis(0, 0, 0, 0, 0), false), r.config)
    else
      var step := span / (points - 1);
      var start := Wrap(center - span / 2);
      (Reply(true, Axis(start, Wrap(start + Wrap(step * (points - 1))), step, center, points), points != maximumPoints),
       r.config)
  }

  /** An accepted request is answered with exactly the axis of the frames that follow. */
  lemma AnnouncedAxisIsEmitted(g: Config, center: int, span: int, maximumPoints: int)
    requires Initialized(g) && IsU64(center) && IsU64(span) && IsU64(maximumPoints)
    requires Route(g, center, span, maximumPoints).0.accepted
    ensures var (reply, h) := Route(g, center, span, maximumPoints);
            && Initialized(h) && FrameAxis(h) == reply.announced
            && reply.announced.center == center && h.stop - h.start == span
            && reply.announced.points == Min(maximumPoints, MAX_SPECTRUM_POINTS)
  {
    ConfigureExactly(g, center, span, Min(maximumPoints, MAX_SPECTRUM_POINTS));
  }

  /** The route accepts exactly what the source does at no more than the greatest number of points, and says
      whether it gave fewer than asked for; a refusal announces nothing. */
  lemma RouteAcceptsIff(g: Config, center: int, span: int, maximumPoints: int)
    requires Initialized(g) && IsU64(center) && IsU64(span) && IsU64(maximumPoints)
    ensures var reply, half := Route(g, center, span, maximumPoints).0, (g.stop - g.start) / 2;
            && (reply.accepted <==>
                  && maximumPoints >= 2 && 0 < span < TOP_HZ
                  && half < center && center + half <= MAX64
                  && span / 2 < center && center + (span - span / 2) <= TOP_HZ)
            && (reply.accepted ==> (reply.constrained <==> maximumPoints > MAX_SPECTRUM_POINTS))
  {
    ConfigureExactly(g, center, span, Min(maximumPoints, MAX_SPECTRUM_POINTS));
  }

  // --- The source as an object ---

  datatype SourceState = NotInitialized | Ready | Running | Stopped | Error

  datatype Source = Source(state: SourceState, config: Config, sequence: nat, produced: nat)

  /** readSpectrumFrame: an invalid frame puts the source into its error state. */
  function Read(s: Source): (Source, Option<(Axis, nat)>)
    requires Initialized(s.config)
  {
    if s.state != Running then (s, None)
    else if !AxisValid(FrameAxis(s.config)) then (s.(state := Error), None)
    else (s.(sequence := s.sequence + 1, produced := s.produced + 1), Some((FrameAxis(s.config), s.sequence)))
  }

  /** A frame is counted and takes a number; a read without one takes none, and stops the source exactly if
      it was running. */
  lemma ReadCounts(s: Source)
    requires Initialized(s.config)
    ensures var (t, r) := Read(s);
            if r.Some? then t == s.(sequence := s.sequence + 1, produced := s.produced + 1)
            else t == s.(state := if s.state == Running then Error else s.state)
  {
  }

  /** The results of `n` reads in a row. */
  function Reads(s: Source, n: nat): seq<Option<(Axis, nat)>>
    requires Initialized(s.config)
    decreases n
  {
    if n == 0 then [] else
      var (t, r) := Read(s);
      [r] + Reads(t, n - 1)
  }

  lemma {:induction false} ReadsOf(s: Source, n: nat, i: nat)
    requires Initialized(s.config) && i < n
    ensures |Reads(s, n)| == n
    ensures Reads(s, n)[i] ==
              if s.state == Running && AxisValid(FrameAxis(s.config))
              then Some((FrameAxis(s.config), s.sequence + i)) else None
    decreases n
  {
    var t := Read(s).0;
    if n > 1 {
      ReadsOf(t, n - 1, if i > 0 then i - 1 else 0);
    }
  }

  /** After an accepted request on a running source, either every later frame has the announced
      axis, with consecutive sequence numbers, or no frame ever follows; which one is decided by
      whether the span covers one hertz per interval. */
  lemma AcceptedRetuneIsServedIff(s: Source, center: int, span: int, maximumPoints: int, n: nat, i: nat)
    requires Initialized(s.config) && s.state == Running && i < n
    requires IsU64(center) && IsU64(span) && IsU64(maximumPoints)
    requires Route(s.config, center, span, maximumPoints).0.accepted
    ensures var (reply, h) := Route(s.config, center, span, maximumPoints);
            && |Reads(s.(config := h), n)| == n
            && Reads(s.(config := h), n)[i] ==
                 (if span >= reply.announced.points - 1 then Some((reply.announced, s.sequence + i)) else None)
  {
    AnnouncedAxisIsEmitted(s.config, center, span, maximumPoints);
    var h := Route(s.config, center, span, maximumPoints).1;
    FrameValidIff(h);
    ReadsOf(s.(config := h), n, i);
  }

  /** Such a fatal request exists and is within every range that is checked. */
  lemma AcceptedRequestCanStopSource()
    ensures var g := Config(2_400_000_000, 2_500_000_000, 1024, 100_000_000);
            var (reply, h) := Route(g, 2_450_000_000, 4000, 8192);
            && Initialized(g) && reply.accepted && Initialized(h)
            && Read(Source(Running, h, 0, 0)) == (Source(Error, h, 0, 0), None)
  {
    var g := Config(2_400_000_000, 2_500_000_000, 1024, 100_000_000);
    AnnouncedAxisIsEmitted(g, 2_450_000_000, 4000, 8192);
    FrameValidIff(Route(g, 2_450_000_000, 4000, 8192).1);
  }

  // --- Does the browser recognise the frame? ---

  /** How far a frame's ends may lie inside the requested range. */
  function Tolerance(c: VC.Settings, span: int): real {
    VC.Tolerance(c.absoluteHz, span, c.frameRatio)
  }

  /** The remainder of the division stays within the tolerance; an odd span puts both ends of the frame half
      a hertz too high. */
  predicate FitsTolerance(c: VC.Settings, span: int, intervals: int)
    requires intervals > 0
  {
    if span % 2 == 0 then (span % intervals) as real <= Tolerance(c, span)
    else 0.5 <= Tolerance(c, span) && (span % intervals) as real <= Tolerance(c, span) + 0.5
  }

  /** The range test on an axis that starts at the requested start and ends `lost` below the requested stop. */
  lemma EndsFit(start: int, half: int, odd: int, lost: int, tolerance: real)
    requires 0 <= odd <= 1 && tolerance > 0.0
    ensures var center, span, stop := start + half, 2 * half + odd, start + 2 * half + odd - lost;
            (&& start as real <= center as real - span as real / 2.0 + tolerance
             && stop as real >= center as real + span as real / 2.0 - tolerance)
            <==> if odd == 0 then lost as real <= tolerance else 0.5 <= tolerance && lost as real <= tolerance + 0.5
  {
  }

  lemma EndsCover(c: VC.Settings, start: int, span: nat, lost: int)
    requires Tolerance(c, span) > 0.0
    ensures VC.Covers(c, start + span / 2, span, start as real, (start + span - lost) as real) <==>
              if span % 2 == 0 then lost as real <= Tolerance(c, span)
              else 0.5 <= Tolerance(c, span) && lost as real <= Tolerance(c, span) + 0.5
  {
    assert span == 2 * (span / 2) + span % 2;
    EndsFit(start, span / 2, span % 2, lost, Tolerance(c, span));
  }

  /** For every setting of the tolerances: the frame covers the requested range exactly when the remainder
      that truncating the step loses fits. */
  lemma CoveredIff(c: VC.Settings, g: Config)
    requires VC.ProperSettings(c) && Initialized(g)
    ensures var a, span := FrameAxis(g), g.stop - g.start;
            VC.Covers(c, a.center, span, a.start as real, a.stop as real) <==> FitsTolerance(c, span, g.points - 1)
  {
    var span := g.stop - g.start;
    AxisArithmetic(g);
    EndsCover(c, g.start, span, span % (g.points - 1));
  }

  /** No remainder matters once the tolerance reaches one hertz for every interval but one. */
  lemma WideSpansAreCovered(c: VC.Settings, g: Config)
    requires VC.ProperSettings(c) && Initialized(g)
    requires (g.points - 2) as real <= Tolerance(c, g.stop - g.start)
    requires (g.stop - g.start) % 2 == 1 ==> 0.5 <= Tolerance(c, g.stop - g.start)
    ensures var a := FrameAxis(g);
            VC.Covers(c, a.center, g.stop - g.start, a.start as real, a.stop as real)
  {
    CoveredIff(c, g);
    var span := g.stop - g.start;
    DivisionAlgorithm(span, g.points - 1);
    assert span % (g.points - 1) <= g.points - 2;
  }

  /** With the default settings that is a hundred hertz per interval. */
  lemma HundredHertzPerInterval(g: Config)
    requires Initialized(g) && g.stop - g.start >= 100 * (g.points - 2)
    ensures var a := FrameAxis(g);
            VC.Covers(VC.DEFAULT_SETTINGS, a.center, g.stop - g.start, a.start as real, a.stop as real)
  {
    WideSpansAreCovered(VC.DEFAULT_SETTINGS, g);
  }

  /** Zooming to 100 kHz with the browser's 2048 points is accepted and served, but no frame of that
      axis is ever recognised: the request keeps waiting. */
  lemma NarrowZoomIsNeverRecognised()
    ensures var g := Config(2_400_000_000, 2_500_000_000, 1024, 100_000_000);
            var (reply, h) := Route(g, 2_450_000_000, 100_000, 2048);
            && Initialized(g) && reply.accepted && Initialized(h) && AxisValid(FrameAxis(h))
            && !VC.Covers(VC.DEFAULT_SETTINGS, 2_450_000_000, 100_000,
                          reply.announced.start as real, reply.announced.stop as real)
  {
    var g := Config(2_400_000_000, 2_500_000_000, 1024, 100_000_000);
    AnnouncedAxisIsEmitted(g, 2_450_000_000, 100_000, 2048);
    var h := Route(g, 2_450_000_000, 100_000, 2048).1;
    CoveredIff(VC.DEFAULT_SETTINGS, h);
    FrameValidIff(h);
    assert 100_000 % 2047 == 1744;
  }

  /** The frame a browser sees for a mock frame. */
  function AsBrowserFrame(a: Axis, sequence: nat, session: string, timestampMs: int): VC.Frame {
    VC.Frame(Some("mock"), Some(session), Some(sequence), Some(timestampMs),
             VC.Finite(a.start as real), VC.Finite(a.stop as real))
  }

  /** The frame is from the mock, later than the request and not the one shown when it was sent. */
  predicate NewFromMock(s: Source, request: VC.Context, session: string, timestampMs: int, active: Option<string>) {
    && timestampMs > request.requestedAtMs
    && (request.sourceType == None || request.sourceType == Some("mock"))
    && (active == None || active == Some("mock"))
    && (request.previousSessionId != Some(session) || request.previousSequence != Some(s.sequence))
  }

  /** The next frame after an accepted request matches it exactly when it is new and the remainder fits the
      tolerance. */
  lemma NextFrameMatchesIff(
    v: VC.Settings, s: Source, request: VC.Context, session: string, timestampMs: int, active: Option<string>)
    requires VC.ProperSettings(v) && Initialized(s.config) && s.state == Running
    requires IsU64(request.viewport.center) && IsU64(request.viewport.span) && IsU64(request.points)
    requires Route(s.config, request.viewport.center, request.viewport.span, request.points).0.accepted
    requires request.viewport.span >= request.points - 1
    ensures var (reply, h) := Route(s.config, request.viewport.center, request.viewport.span, request.points);
            && Initialized(h) && Read(s.(config := h)).1 == Some((reply.announced, s.sequence))
            && reply.announced.points > 1
            && (VC.Matches(v, request, AsBrowserFrame(reply.announced, s.sequence, session, timestampMs), active) <==>
                  && NewFromMock(s, request, session, timestampMs, active)
                  && FitsTolerance(v, request.viewport.span, reply.announced.points - 1))
  {
    var center, span := request.viewport.center, request.viewport.span;
    AnnouncedAxisIsEmitted(s.config, center, span, request.points);
    var h := Route(s.config, center, span, request.points).1;
    FrameValidIff(h);
    CoveredIff(v, h);
  }

  /** End to end, for every setting of the controller: its request goes through the route, its response is
      accepted, and the source's next frame ends the wait exactly when it is new and the remainder fits the
      tolerance. */
  lemma RetuneCompletesIff(
    v: VC.Settings, c: VC.State, s: Source, request: VC.Context, session: string, timestampMs: int,
    active: Option<string>)
    requires VC.ProperSettings(v) && VC.Reachable(v, c)
    requires c.inFlight == Some(request) && !VC.Superseded(v, c)
    requires Initialized(s.config) && s.state == Running
    requires IsU64(request.viewport.center) && IsU64(request.viewport.span) && IsU64(request.points)
    requires Route(s.config, request.viewport.center, request.viewport.span, request.points).0.accepted
    requires request.viewport.span >= request.points - 1
    ensures var (reply, h) := Route(s.config, request.viewport.center, request.viewport.span, request.points);
            var answered := VC.Settled(v, c, request, true);
            var (_, frame) := Read(s.(config := h));
            && answered.waiting == Some(request)
            && frame == Some((reply.announced, s.sequence))
            && var f := AsBrowserFrame(frame.value.0, frame.value.1, session, timestampMs);
               var t := VC.ObserveFrame(v, answered, Some(f), active);
               && reply.announced.points > 1
               && (t.waiting.None? <==>
                     && NewFromMock(s, request, session, timestampMs, active)
                     && FitsTolerance(v, request.viewport.span, reply.announced.points - 1))
               && (t.waiting.None? ==>
                     && t.phase == VC.Streaming
                     && t.trace.matched == c.trace.matched + [VC.Match(request.generation, f, active)])
  {
    NextFrameMatchesIff(v, s, request, session, timestampMs, active);
    assert VC.Settled(v, c, request, true).waiting == Some(request);
  }

  class MockRfSource {
    var state: SourceState
    var config: Config
    var sequence: nat
    var framesProduced: nat

    ghost function View(): Source
      reads this
    {
      Source(state, config, sequence, framesProduced)
    }

    constructor (config: Config)
      ensures View() == Source(NotInitialized, config, 0, 0)
    {
      state, this.config, sequence, framesProduced := NotInitialized, config, 0, 0;
    }

    method Initialize() returns (ok: bool)
      requires MachineConfig(config)
      modifies this
      ensures ok <==> Initialized(old(config))
      ensures ok <==>
                && old(config.start) < old(config.stop) && old(config.sampleRate) > 0
                && 2 <= old(config.points) <= MAX_SPECTRUM_POINTS
      ensures View() == if ok then Source(Ready, old(config), 0, 0) else old(View()).(state := Error)
    {
      if config.start >= config.stop || config.points < 2 || config.points > MAX_SPECTRUM_POINTS
         || config.sampleRate == 0
      {
        state := Error;
        return false;
      }
      sequence, state, framesProduced := 0, Ready, 0;
      return true;
    }

    method Start() returns (ok: bool)
      modifies this`state
      ensures ok <==> old(state) == Ready || old(state) == Stopped
      ensures state == if ok then Running else old(state)
    {
      if state != Ready && state != Stopped {
        return false;
      }
      state := Running;
      return true;
    }

    method Stop()
      modifies this`state
      ensures state == if old(state) == Running || old(state) == Ready then Stopped else old(state)
    {
      if state == Running || state == Ready {
        state := Stopped;
      }
    }

    method SetCenterFrequency(frequency: int) returns (ok: bool)
      requires MachineConfig(config) && IsU64(frequency)
      modifies this`config
      ensures ok <==> SetCenter(old(config), frequency).Some?
      ensures config == if ok then SetCenter(old(config), frequency).value else old(config)
    {
      var span := Wrap(config.stop - config.start);
      var half := span / 2;
      if frequency <= half || frequency > MAX64 - half {
        return false;
      }
      config := config.(start := frequency - half);
      config := config.(stop := Wrap(config.start + span));
      return true;
    }

    method SetSpanHz(span: int) returns (ok: bool)
      requires MachineConfig(config) && IsU64(span)
      modifies this`config
      ensures ok <==> SetSpan(old(config), span).Some?
      ensures config == if ok then SetSpan(old(config), span).value else old(config)
    {
      if span == 0 || span >= TOP_HZ {
        return false;
      }
      var center := Wrap(config.start + Wrap(config.stop - config.start) / 2);
      var left := span / 2;
      if center <= left || center > TOP_HZ - (span - left) {
        return false;
      }
      config := config.(start := center - left);
      config := config.(stop := Wrap(config.start + span), sampleRate := span);
      return true;
    }

    method SetSpectrumPointCount(points: int) returns (ok: bool)
      modifies this`config
      ensures ok <==> 2 <= points <= MAX_SPECTRUM_POINTS
      ensures config == if ok then old(config).(points := points) else old(config)
    {
      if points < 2 || points > MAX_SPECTRUM_POINTS {
        return false;
      }
      config := config.(points := points);
      return true;
    }

    /** SourceManager::configureViewport with this source selected. */
    method ConfigureViewport(center: int, span: int, points: int) returns (ok: bool)
      requires Initialized(config) && IsU64(center) && IsU64(span) && IsU64(points)
      modifies this`config
      ensures Retune(ok, config) == Configure(old(config), center, span, points)
      ensures ok ==> Initialized(config)
    {
      ConfigureExactly(config, center, span, points);
      if center == 0 || span == 0 || points < 2 || points > MAX_SPECTRUM_POINTS {
        return false;
      }
      ok := SetCenterFrequency(center);
      if !ok {
        return false;
      }
      SetCenterKeepsSpan(old(config), center);
      ok := SetSpanHz(span);
      if !ok {
        return false;
      }
      ok := SetSpectrumPointCount(points);
    }

    method ReadSpectrumFrame() returns (frame: Option<(Axis, nat)>)
      requires Initialized(config)
      modifies this
      ensures (View(), frame) == Read(old(View()))
    {
      if state != Running {
        return None;
      }
      var step := Wrap(config.stop - config.start) / (config.points - 1);
      var axis := Axis(config.start, Wrap(config.start + Wrap(step * (config.points - 1))), step,
                       Wrap(config.start + Wrap(config.stop - config.start) / 2), config.points);
      assert axis == FrameAxis(config);
      if !AxisValid(axis) {
        state := Error;
        return None;
      }
      frame := Some((axis, sequence));
      sequence := sequence + 1;
      framesProduced := framesProduced + 1;
    }
  }
}
