/** What each call of the Aaronia source leaves behind (aaronia_rf_source.cpp): when a viewport is accepted,
    when a worker is started and when it is not, and what a read takes over from the worker's lines. */
module AaroniaCalls {
  import opened Prelude
  import opened NdjsonFraming
  import opened FrequencyAxis
  import opened AaroniaSource

  // --- Which viewports are accepted ---

  /** Without the source's case split: `first` is not below what the hardware reported, or 5 MHz. */
  predicate NotTooLow(m: Meters, first: int) {
    (m.low > 0 ==> m.low <= first) && (m.low == 0 ==> 5_000_000 <= first)
  }

  /** A reported maximum counts only if it lies above the minimum; 18 GHz otherwise. */
  predicate NotTooHigh(m: Meters, last: int) {
    var sensible := m.high > (if m.low == 0 then 5_000_000 else m.low);
    (sensible ==> last <= m.high) && (!sensible ==> last <= 18_000_000_000)
  }

  /** For spans of at most twice 24 GHz: the band must lie within 24 GHz and within the hardware's limits.
      For larger ones the bound of 24 GHz has wrapped around, and once the upper end leaves 64 bits it is
      what remains of it that is compared with the limits. */
  lemma ConfigurableIff(s: State, center: nat, span: nat, points: nat)
    requires IsU64(center) && IsU64(span)
    ensures var right := span - span / 2;
            var first, last := center - span / 2, center + right;
            Configurable(s, center, span, points) <==>
              && span > 0 && 2 <= points <= 65536 && first > 0
              && last <= (if right <= TOP_HZ then TOP_HZ else TWO64 + TOP_HZ)
              && NotTooLow(s.meters, first)
              && NotTooHigh(s.meters, if last < TWO64 then last else last - TWO64)
  {
    var right := span - span / 2;
    var last := center + right;
    if center > span / 2 {
      assert center - span / 2 + span == last;
      assert Wrap(last) == if last < TWO64 then last else last - TWO64;
      assert Wrap(TOP_HZ - right) == if right <= TOP_HZ then TOP_HZ - right else TWO64 + TOP_HZ - right;
    }
  }

  // --- Workers ---

  /** The event's fork succeeds, if it comes to one. */
  predicate Forks(e: Event) {
    match e
    case StartCall(forked) => forked
    case ConfigureCall(_, _, _, forked) => forked
    case ReadCall(_, forked, _) => forked
    case _ => false
  }

  /** Processes come from successful forks only: one at most, remembered with its open pipe, an empty
      buffer, and a number no process had before. */
  lemma WorkersComeFromForks(s: State, e: Event, parse: Parser)
    requires OneWorker(s) && (forall p :: p in s.processes.alive ==> p < s.processes.nextPid)
    ensures var t := Step(s, e, parse);
            forall p :: p in t.processes.alive && p !in s.processes.alive ==>
              Forks(e) && t.pid == Some(p) && t.fd && p >= s.processes.nextPid && t.phase == Running
    ensures !Forks(e) ==> Step(s, e, parse).processes.nextPid == s.processes.nextPid
  {
    if e.ReadCall? {
      DrainKeepsSupervision(Supervise(s, e.now, e.forked), e.bytes, parse);
    }
  }

  ghost predicate NoProcess(s: State) {
    s.pid.None? && !s.fd && s.processes.alive == {} && s.processes.exited == {}
  }

  /** Stopping ends and forgets the worker and what it has written, and nothing else. */
  lemma StopClears(s: State, parse: Parser)
    requires OneWorker(s)
    ensures var t := Step(s, StopCall, parse);
            && NoProcess(t) && t.phase == Stopped && t.stopRequested && t.buffer == []
            && t == s.(phase := Stopped, stopRequested := true, buffer := [], pid := None, fd := false,
                       processes := t.processes)
  {
    ReapedIsEmpty(s);
  }

  predicate Restarts(s: State, e: Event) {
    e.StartCall? || e.Initialize? || (e.ConfigureCall? && Configurable(s, e.center, e.span, e.points))
  }

  ghost predicate NoRestarts(s: State, es: seq<Event>, parse: Parser)
    decreases |es|
  {
    es == [] || (!Restarts(s, es[0]) && NoRestarts(Step(s, es[0], parse), es[1..], parse))
  }

  /** A stopped source stays stopped, whatever is read or refused, until it is started or reconfigured. */
  lemma {:induction false} StoppedStaysStopped(s: State, es: seq<Event>, parse: Parser)
    requires NoProcess(s) && s.stopRequested && s.phase == Stopped
    requires Possible(s, es, parse) && NoRestarts(s, es, parse)
    ensures var t := Run(s, es, parse); NoProcess(t) && t.phase == Stopped && t.meters == s.meters
    decreases |es|
  {
    if es != [] {
      StoppedStaysStopped(Step(s, es[0], parse), es[1..], parse);
    }
  }

  /** Starting works after initialising, stopping or an error; it counts failures from zero, and a fork that
      fails leaves the source as it is. */
  lemma StartIs(s: State, forked: bool, parse: Parser)
    ensures var t, p := Step(s, StartCall(forked), parse), s.processes.nextPid;
            if s.phase == Running || s.phase == NotInitialized then t == s
            else
              && t.attempts == 0 && !t.stopRequested && t.nextRestart == s.nextRestart && t.config == s.config
              && (if forked then t.phase == Running && t.pid == Some(p) && t.fd && t.buffer == []
                                 && t.processes.alive == s.processes.alive + {p}
                  else t.phase == s.phase && t.pid == s.pid && t.fd == s.fd && t.processes == s.processes)
  {
  }

  lemma InitializeIs(s: State, ok: bool, parse: Parser)
    ensures var t := Step(s, Initialize(ok), parse);
            && t == s.(phase := t.phase) && (ok ==> t.phase == Ready) && (!ok ==> t.phase == Error)
            && Step(t, StartCall(true), parse).phase == Running
  {
  }

  /** The setters only change the configuration that the next worker gets. */
  lemma AdjustIs(s: State, start: nat, stop: nat, points: nat, level: int, parse: Parser)
    ensures var t := Step(s, Adjust(start, stop, points, level), parse);
            && t == s.(config := t.config) && t.config.session == s.config.session
            && t.config.start == start && t.config.stop == stop && t.config.points == points
            && t.config.referenceLevel == level
  {
  }

  /** A refused viewport changes nothing. An accepted one replaces the worker and forgets earlier failures:
      either a new worker runs, or none does and the next read tries again at once. */
  lemma ConfigureIs(s: State, center: nat, span: nat, points: nat, forked: bool, parse: Parser)
    requires OneWorker(s)
    ensures var t := Step(s, ConfigureCall(center, span, points, forked), parse);
            if !Configurable(s, center, span, points) then t == s
            else
              && t.attempts == 0 && !t.stopRequested && t.nextRestart == 0 && t.buffer == []
              && t.config == s.config.(start := t.config.start, stop := t.config.stop, points := points)
              && t.lastGood == s.lastGood && t.meters == s.meters && t.tally == s.tally
              && (if forked then t.phase == Running && t.fd && t.pid == Some(s.processes.nextPid)
                                 && t.processes.alive == {s.processes.nextPid} && t.processes.exited == {}
                  else t.phase == Ready && NoProcess(t))
  {
    if Configurable(s, center, span, points) {
      ReapedIsEmpty(s);
      assert {} + {s.processes.nextPid} == {s.processes.nextPid};
    }
  }

  /** An exit that was not asked for: the source is in error, waits 5, 10 and again 5 seconds after the
      first, second and third one in a row, and falls back after the third. */
  lemma ExitIsNoticed(s: State, now: int, forked: bool, bytes: string, parse: Parser)
    requires OneWorker(s) && s.attempts < 3 && s.pid.Some? && s.pid.value in s.processes.exited
    ensures var (t, r) := Read(s, now, forked, bytes, parse);
            && r == None && t.phase == Error && NoProcess(t)
            && t.nextRestart == now + (if s.attempts == 1 then 10 else 5)
            && t.attempts == (s.attempts + 1) % 3
            && t.config == (if s.attempts == 2 then s.lastGood else s.config)
            && t.meters == s.meters && t.lastGood == s.lastGood
  {
    ReapedIsEmpty(s);
    assert PowerOfTwo(0) == 1 && PowerOfTwo(1) == 2;
  }

  /** Without a worker, a read starts one exactly if none was stopped on purpose, the wait is over, and the
      fork succeeds; it returns what that worker has written by then. */
  lemma ReadRestartsIff(s: State, now: int, forked: bool, bytes: string, parse: Parser)
    requires NoProcess(s)
    ensures var t := Read(s, now, forked, bytes, parse).0;
            && (t.pid.Some? <==> !s.stopRequested && now >= s.nextRestart && forked)
            && (t.pid.None? ==> t == s)
            && (t.pid.Some? ==> t.processes.alive == {t.pid.value} && t.fd && t.phase == Running)
            && t.attempts <= s.attempts && t.nextRestart == s.nextRestart && t.config == s.config
  {
    DrainKeepsSupervision(Supervise(s, now, forked), bytes, parse);
    if !s.stopRequested && now >= s.nextRestart && forked {
      assert {} + {s.processes.nextPid} == {s.processes.nextPid};
    }
  }

  // --- What a read takes over ---

  /** The lower and upper limits that a line reports, if it gets that far. */
  function Reported(p: Parsed): (r: (Option<nat>, Option<nat>)) {
    match p
    case Unreadable(_, low, high) => (low, high)
    case Invalid(low, high) => (Some(low), Some(high))
    case Valid(low, high, _) => (Some(low), Some(high))
  }

  /** The last limits reported, or the ones known before. */
  function LimitsAfter(parse: Parser, lines: seq<string>, before: (nat, nat)): (nat, nat) {
    if lines == [] then before
    else
      var n := |lines| - 1;
      var earlier := LimitsAfter(parse, lines[..n], before);
      if lines[n] == [] then earlier
      else
        var r := Reported(parse(lines[n]));
        (if r.0.Some? then r.0.value else earlier.0, if r.1.Some? then r.1.value else earlier.1)
  }

  lemma {:induction false} LimitsInOrder(parse: Parser, lines: seq<string>, before: (nat, nat))
    requires lines != []
    ensures LimitsAfter(parse, lines, before) ==
            LimitsAfter(parse, lines[1..], LimitsAfter(parse, [lines[0]], before))
    decreases |lines|
  {
    var n := |lines| - 1;
    if n == 0 {
      assert lines == [lines[0]];
    } else {
      LimitsInOrder(parse, lines[..n], before);
      assert lines[1..][..n - 1] == lines[..n][1..] && lines[1..][n - 1] == lines[n];
      assert lines[..n][0] == lines[0];
    }
  }

  /** What the worker's process has to do with is left alone. */
  ghost predicate SameSupervision(s: State, t: State) {
    && t.pid == s.pid && t.fd == s.fd && t.processes == s.processes && t.stopRequested == s.stopRequested
    && t.nextRestart == s.nextRestart && t.config == s.config && t.attempts <= s.attempts
  }

  lemma LimitsOfOne(parse: Parser, line: string, before: (nat, nat))
    requires line != []
    ensures var r := Reported(parse(line));
            LimitsAfter(parse, [line], before)
            == (if r.0.Some? then r.0.value else before.0, if r.1.Some? then r.1.value else before.1)
  {
    assert LimitsAfter(parse, [line][..0], before) == before;
  }

  lemma LineIsTaken(s: State, line: string, parse: Parser, latest: Option<nat>)
    requires line != []
    ensures var (t, frame) := ParseLine(s, parse(line));
            var v := TakeFrame(t, latest, frame).0;
            && (v.meters.low, v.meters.high) == LimitsAfter(parse, [line], (s.meters.low, s.meters.high))
            && v.meters.sequence == s.meters.sequence + (if TakesNumber(parse, line) then 1 else 0)
            && v.phase == (if ValidLine(parse, line) then Running else s.phase)
            && SameSupervision(s, v) && v.tally.overflows == s.tally.overflows && v.buffer == s.buffer
  {
    LimitsOfOne(parse, line, (s.meters.low, s.meters.high));
  }

  lemma {:induction false} LinesAreTaken(s: State, lines: seq<string>, parse: Parser, latest: Option<nat>)
    ensures var t := ParseLines(s, lines, parse, latest).0;
            && (t.meters.low, t.meters.high) == LimitsAfter(parse, lines, (s.meters.low, s.meters.high))
            && t.meters.sequence == s.meters.sequence + NumbersTaken(parse, lines)
            && t.phase == (if NoneValid(parse, lines) then s.phase else Running)
            && SameSupervision(s, t) && t.tally.overflows == s.tally.overflows && t.buffer == s.buffer
    decreases |lines|
  {
    if lines != [] {
      var limits := (s.meters.low, s.meters.high);
      LimitsInOrder(parse, lines, limits);
      NoneValidSplit(parse, lines);
      if lines[0] == [] {
        assert [lines[0]][..0] == [] && LimitsAfter(parse, [lines[0]], limits) == limits;
        LinesAreTaken(s, lines[1..], parse, latest);
      } else {
        LineIsTaken(s, lines[0], parse, latest);
        var (t, frame) := ParseLine(s, parse(lines[0]));
        var (v, newest) := TakeFrame(t, latest, frame);
        LinesAreTaken(v, lines[1..], parse, newest);
      }
    }
  }

  lemma NoneValidSplit(parse: Parser, lines: seq<string>)
    requires lines != []
    ensures NoneValid(parse, lines) <==> !ValidLine(parse, lines[0]) && NoneValid(parse, lines[1..])
  {
    if NoneValid(parse, lines[1..]) && !ValidLine(parse, lines[0]) {
      forall j | 0 <= j < |lines|
        ensures !ValidLine(parse, lines[j])
      {
        assert j > 0 ==> lines[j] == lines[1..][j - 1];
      }
    }
  }

  lemma DrainKeepsSupervision(s: State, bytes: string, parse: Parser)
    ensures SameSupervision(s, Drain(s, bytes, parse).0)
    ensures s.phase == Running ==> Drain(s, bytes, parse).0.phase == Running
  {
    if s.fd {
      var f := Received(s.buffer, bytes).0;
      LinesAreTaken(s.(buffer := f.rest), f.lines, parse, None);
    }
  }

  /** A read of a running worker takes over the limits reported last and the numbers of all lines, and runs
      again once one is valid. A rest longer than 8 MiB is thrown away and counted. */
  lemma ReadTakes(s: State, now: int, forked: bool, bytes: string, parse: Parser)
    requires s.fd && s.pid.Some? && s.pid.value !in s.processes.exited
    ensures var t := Read(s, now, forked, bytes, parse).0;
            var f := Split(s.buffer + bytes);
            && (t.meters.low, t.meters.high) == LimitsAfter(parse, f.lines, (s.meters.low, s.meters.high))
            && t.meters.sequence == s.meters.sequence + NumbersTaken(parse, f.lines)
            && t.phase == (if NoneValid(parse, f.lines) then s.phase else Running)
            && t.buffer == (if |f.rest| > 8 * 1024 * 1024 then [] else f.rest)
            && t.tally.overflows == s.tally.overflows + (if |f.rest| > 8 * 1024 * 1024 then 1 else 0)
            && SameSupervision(s, t)
  {
    var (f, overflow) := Received(s.buffer, bytes);
    LinesAreTaken(s.(buffer := f.rest), f.lines, parse, None);
  }

  /** A drop counter that went back, as that of a new worker does, adds nothing. */
  lemma FallingCounterAddsNothing(s: State, p: Parsed)
    requires p.Valid? && p.workerDropped < s.meters.workerDropped
    ensures var t := ParseLine(s, p).0;
            && t.meters.dropped == s.meters.dropped && t.tally.reported == s.tally.reported
            && t.meters.workerDropped == p.workerDropped
  {
  }
}
