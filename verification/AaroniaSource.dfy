/** The Aaronia source (aaronia_rf_source.cpp): a supervisor that keeps one worker process running,
    restarts it after it dies, falls back to the last configuration that worked, and reads the
    worker's frames.  Processes, the clock and the bytes in the pipe are given by the environment. */
module AaroniaSource {
  import opened Prelude
  import opened NdjsonFraming
  import opened FrequencyAxis

  const MAX_FAILURES := 3
  const MAX_POINTS := 65536

  datatype Config = Config(session: string, start: nat, stop: nat, points: nat, referenceLevel: int)

  datatype Phase = NotInitialized | Ready | Running | Stopped | Error

  /** What reading one line amounts to.  An unreadable line may fail before or after it has taken a
      sequence number and before or after it has updated the hardware limits. */
  datatype Parsed =
    | Unreadable(sequenced: bool, low: Option<nat>, high: Option<nat>)
    | Invalid(lowHz: nat, highHz: nat)
    | Valid(lowHz: nat, highHz: nat, workerDropped: nat)

  type Parser = string -> Parsed

  /** Status counters and the values that frames update. */
  datatype Meters = Meters(sequence: nat, workerDropped: nat, low: nat, high: nat, produced: nat, dropped: nat)

  /** An independent account of the lines: read, bad, valid, valid but replaced by a newer one in the
      same read, returned to the caller, reported dropped by the worker, and oversized rests. */
  datatype Tally = Tally(
    lines: nat, bad: nat, valid: nat, replaced: nat, returned: nat, reported: nat, overflows: nat, numbers: seq<nat>)

  /** Worker processes: running, and dead but not waited for. */
  datatype Processes = Processes(alive: set<nat>, exited: set<nat>, nextPid: nat)

  /** Unrequested exits noticed since the last start, reconfiguration or valid frame; the waits chosen. */
  datatype Log = Log(failures: nat, backoffs: seq<int>)

  datatype State = State(
    phase: Phase,
    config: Config,
    lastGood: Config,
    pid: Option<nat>,
    fd: bool,
    buffer: string,
    attempts: nat,
    nextRestart: int,
    stopRequested: bool,
    meters: Meters,
    processes: Processes,
    tally: Tally,
    log: Log)

  /** The constructor copies the configuration before it makes the session unique. */
  function Init(config: Config, uniqueSession: string): State {
    State(NotInitialized, config.(session := uniqueSession), config, None, false, [], 0, 0, false,
          Meters(0, 0, 0, 0, 0, 0), Processes({}, {}, 0), Tally(0, 0, 0, 0, 0, 0, 0, []), Log(0, []))
  }

  // --- The supervisor's methods ---

  /** launchLocked; pipe and fork may fail. */
  function Launch(s: State, forked: bool): State {
    if !forked then s
    else
      s.(pid := Some(s.processes.nextPid), fd := true, buffer := [], phase := Running,
         processes := s.processes.(alive := s.processes.alive + {s.processes.nextPid},
                                   nextPid := s.processes.nextPid + 1))
  }

  /** The worker is terminated and waited for. */
  function Reaped(p: Processes, pid: Option<nat>): Processes {
    if pid.Some? then p.(alive := p.alive - {pid.value}, exited := p.exited - {pid.value}) else p
  }

  function Halt(s: State): State {
    s.(stopRequested := true, processes := Reaped(s.processes, s.pid), pid := None, fd := false, buffer := [])
  }

  function Start(s: State, forked: bool): State {
    if s.phase != Ready && s.phase != Stopped && s.phase != Error then s
    else Launch(s.(stopRequested := false, attempts := 0, log := s.log.(failures := 0)), forked)
  }

  predicate Configurable(s: State, center: nat, span: nat, points: nat) {
    var left := span / 2;
    var low := if s.meters.low > 0 then s.meters.low else 5_000_000;
    var high := if s.meters.high > low then s.meters.high else 18_000_000_000;
    && center > 0 && span > 0 && 2 <= points <= MAX_POINTS
    && left < center && center <= Wrap(TOP_HZ - (span - left))
    && low <= center - left && Wrap(center - left + span) <= high
  }

  function Configure(s: State, center: nat, span: nat, points: nat, forked: bool): State {
    if !Configurable(s, center, span, points) then s
    else
      var start := center - span / 2;
      Relaunch(s, start, Wrap(start + span), points, forked)
  }

  /** The worker is stopped and a new one launched with another band. */
  function Relaunch(s: State, start: nat, stop: nat, points: nat, forked: bool): State {
    var t := Halt(s.(config := s.config.(start := start, stop := stop, points := points)));
    Launch(t.(stopRequested := false, attempts := 0, nextRestart := 0, phase := Ready,
              log := t.log.(failures := 0)),
           forked)
  }

  function PowerOfTwo(n: nat): nat {
    if n == 0 then 1 else 2 * PowerOfTwo(n - 1)
  }

  /** min(30, 5 << min(attempts - 1, 3)) seconds. */
  function Backoff(attempts: nat): int
    requires attempts > 0
  {
    Min(30, 5 * PowerOfTwo(Min(attempts - 1, 3)))
  }

  /** noteExitLocked at time `now`, in seconds. */
  function NoteExit(s: State, now: int): State {
    var t := s.(processes := Reaped(s.processes, s.pid), fd := false, pid := None);
    if s.stopRequested then t
    else
      var third := s.attempts + 1 >= MAX_FAILURES;
      var seconds := if third then 5 else Backoff(s.attempts + 1);
      t.(config := if third then s.lastGood else s.config,
         attempts := if third then 0 else s.attempts + 1,
         nextRestart := now + seconds, phase := Error,
         log := Log(s.log.failures + 1, s.log.backoffs + [seconds]))
  }

  // --- Reading ---

  /** Frames that the worker's own counter reports lost since the previous frame. */
  function LostByWorker(m: Meters, workerDropped: nat): nat {
    if workerDropped >= m.workerDropped then workerDropped - m.workerDropped else 0
  }

  function AfterFrame(m: Meters, low: nat, high: nat, workerDropped: nat): Meters {
    Meters(m.sequence + 1, workerDropped, low, high, m.produced + 1, m.dropped + LostByWorker(m, workerDropped))
  }

  /** parseLineLocked; the result is the sequence number of a valid frame. */
  function ParseLine(s: State, p: Parsed): (State, Option<nat>) {
    var m, t := s.meters, s.tally.(lines := s.tally.lines + 1);
    match p
    case Unreadable(sequenced, low, high) =>
      (s.(meters := m.(sequence := if sequenced then m.sequence + 1 else m.sequence,
                       low := if low.Some? then low.value else m.low,
                       high := if high.Some? then high.value else m.high,
                       dropped := m.dropped + 1),
          tally := t.(bad := t.bad + 1)),
       None)
    case Invalid(low, high) =>
      (s.(meters := m.(sequence := m.sequence + 1, low := low, high := high, dropped := m.dropped + 1),
          tally := t.(bad := t.bad + 1)),
       None)
    case Valid(low, high, workerDropped) =>
      var lost := LostByWorker(m, workerDropped);
      (s.(phase := Running, lastGood := s.config, attempts := 0,
          meters := AfterFrame(m, low, high, workerDropped),
          tally := t.(valid := t.valid + 1, reported := t.reported + lost, numbers := t.numbers + [m.sequence]),
          log := s.log.(failures := 0)),
       Some(m.sequence))
  }

  /** A valid frame takes the place of an earlier one of the same read, which counts as dropped. */
  function TakeFrame(s: State, latest: Option<nat>, frame: Option<nat>): (State, Option<nat>) {
    if frame.None? then (s, latest)
    else if latest.None? then (s, frame)
    else (s.(meters := s.meters.(dropped := s.meters.dropped + 1),
             tally := s.tally.(replaced := s.tally.replaced + 1)),
          frame)
  }

  function ParseLines(s: State, lines: seq<string>, parse: Parser, latest: Option<nat>): (State, Option<nat>)
    decreases |lines|
  {
    if lines == [] then (s, latest)
    else if lines[0] == [] then ParseLines(s, lines[1..], parse, latest)
    else
      var (t, frame) := ParseLine(s, parse(lines[0]));
      var (u, newest) := TakeFrame(t, latest, frame);
      ParseLines(u, lines[1..], parse, newest)
  }

  /** Noticing an exit and relaunching, at the start of a read. */
  function Supervise(s: State, now: int, forked: bool): State {
    var t := if s.pid.Some? && s.pid.value in s.processes.exited then NoteExit(s, now) else s;
    if t.pid.None? && !t.stopRequested && now >= t.nextRestart then Launch(t, forked) else t
  }

  /** The rest of a read, with the bytes that the pipe holds. */
  function Drain(s: State, bytes: string, parse: Parser): (State, Option<nat>) {
    if !s.fd then (s, None)
    else
      var (f, overflow) := Received(s.buffer, bytes);
      var (t, latest) := ParseLines(s.(buffer := f.rest), f.lines, parse, None);
      var u := if overflow then t.(meters := t.meters.(dropped := t.meters.dropped + 1),
                                   tally := t.tally.(overflows := t.tally.overflows + 1))
               else t;
      (if latest.Some? then u.(tally := u.tally.(returned := u.tally.returned + 1)) else u, latest)
  }

  function Read(s: State, now: int, forked: bool, bytes: string, parse: Parser): (State, Option<nat>) {
    Drain(Supervise(s, now, forked), bytes, parse)
  }

  // --- Runs ---

  datatype Event =
    | Initialize(ok: bool)
    | StartCall(forked: bool)
    | StopCall
    | ConfigureCall(center: nat, span: nat, points: nat, forked: bool)
    | Adjust(start: nat, stop: nat, points: nat, referenceLevel: int)
    | WorkerExits
    | ReadCall(now: int, forked: bool, bytes: string)

  /** initialize is called once, before there is a worker; a worker can exit while it runs. */
  predicate Enabled(s: State, e: Event) {
    match e
    case Initialize(_) => s.pid.None?
    case WorkerExits => s.processes.alive != {}
    case _ => true
  }

  function Step(s: State, e: Event, parse: Parser): State {
    match e
    case Initialize(ok) => s.(phase := if ok then Ready else Error)
    case StartCall(forked) => Start(s, forked)
    case StopCall => Halt(s).(phase := Stopped)
    case ConfigureCall(center, span, points, forked) => Configure(s, center, span, points, forked)
    case Adjust(start, stop, points, level) => s.(config := Config(s.config.session, start, stop, points, level))
    case WorkerExits =>
      s.(processes := s.processes.(alive := {}, exited := s.processes.exited + s.processes.alive))
    case ReadCall(now, forked, bytes) => Read(s, now, forked, bytes, parse).0
  }

  ghost predicate Possible(s: State, es: seq<Event>, parse: Parser)
    decreases |es|
  {
    es == [] || (Enabled(s, es[0]) && Possible(Step(s, es[0], parse), es[1..], parse))
  }

  ghost function Run(s: State, es: seq<Event>, parse: Parser): State
    decreases |es|
  {
    if es == [] then s else Run(Step(s, es[0], parse), es[1..], parse)
  }

  // --- Invariants ---

  /** At most one worker process exists, it is the one remembered, and its pipe is open exactly as
      long; a remembered worker means a running source. */
  ghost predicate OneWorker(s: State) {
    && s.processes.alive !! s.processes.exited
    && s.processes.alive + s.processes.exited == (if s.pid.Some? then {s.pid.value} else {})
    && (s.pid.Some? <==> s.fd)
    && (s.pid.Some? ==> s.phase == Running && !s.stopRequested && s.pid.value < s.processes.nextPid)
  }

  ghost predicate BoundedRestarts(s: State) {
    && s.attempts < MAX_FAILURES && s.attempts == s.log.failures % MAX_FAILURES
    && forall i :: 0 <= i < |s.log.backoffs| ==> s.log.backoffs[i] == 5 || s.log.backoffs[i] == 10
  }

  /** The status counters agree with the independent account, each line is counted once, and each
      valid frame is either returned or replaced. */
  ghost predicate Balanced(s: State, pendingFrame: bool) {
    var t := s.tally;
    && t.lines == t.valid + t.bad
    && t.valid == t.returned + t.replaced + (if pendingFrame then 1 else 0)
    && s.meters.produced == t.valid
    && s.meters.dropped == t.bad + t.replaced + t.reported + t.overflows
    && |t.numbers| == t.valid
    && (forall i, j :: 0 <= i < j < |t.numbers| ==> t.numbers[i] < t.numbers[j])
    && (forall i :: 0 <= i < |t.numbers| ==> t.numbers[i] < s.meters.sequence)
  }

  /** The last good configuration lacks the suffix of the session until a valid frame has been read, and
      is in the session of the current one from then on. */
  ghost predicate SessionKept(s: State, plain: string, uniqueSession: string) {
    && s.config.session in {plain, uniqueSession}
    && s.lastGood.session == (if s.tally.valid > 0 then s.config.session else plain)
  }

  ghost predicate Inv(s: State, plain: string, uniqueSession: string) {
    && OneWorker(s) && BoundedRestarts(s) && Balanced(s, false) && SessionKept(s, plain, uniqueSession)
    && NewlineFree(s.buffer) && |s.buffer| <= RESIDUE_CAP
  }

  lemma InitInv(config: Config, uniqueSession: string)
    ensures Inv(Init(config, uniqueSession), config.session, uniqueSession)
  {
  }

  lemma LaunchKeepsInv(s: State, forked: bool, plain: string, u: string)
    requires Inv(s, plain, u) && s.pid.None? && !s.stopRequested
    ensures Inv(Launch(s, forked), plain, u)
  {
    assert s.processes.alive == {} && s.processes.exited == {};
    assert {} + {s.processes.nextPid} == {s.processes.nextPid};
  }

  lemma ReapedIsEmpty(s: State)
    requires OneWorker(s)
    ensures Reaped(s.processes, s.pid).alive == {} && Reaped(s.processes, s.pid).exited == {}
  {
    var both := s.processes.alive + s.processes.exited;
    assert forall x :: x in s.processes.alive ==> x in both;
    assert forall x :: x in s.processes.exited ==> x in both;
  }

  lemma NoteExitKeepsInv(s: State, now: int, plain: string, u: string)
    requires Inv(s, plain, u) && s.pid.Some?
    ensures Inv(NoteExit(s, now), plain, u)
  {
    ReapedIsEmpty(s);
    assert PowerOfTwo(0) == 1 && PowerOfTwo(1) == 2;
    assert Backoff(1) == 5 && Backoff(2) == 10;
  }

  lemma SuperviseKeepsInv(s: State, now: int, forked: bool, plain: string, u: string)
    requires Inv(s, plain, u)
    ensures Inv(Supervise(s, now, forked), plain, u)
  {
    var t := s;
    if s.pid.Some? && s.pid.value in s.processes.exited {
      NoteExitKeepsInv(s, now, plain, u);
      t := NoteExit(s, now);
    }
    if t.pid.None? && !t.stopRequested {
      LaunchKeepsInv(t, forked, plain, u);
    }
  }

  /** What parsing needs and keeps while the worker's pipe is open. */
  ghost predicate ReadInv(s: State, latest: Option<nat>, plain: string, u: string) {
    && OneWorker(s) && s.fd && BoundedRestarts(s) && Balanced(s, latest.Some?) && SessionKept(s, plain, u)
  }

  lemma ParseLineKeeps(s: State, p: Parsed, latest: Option<nat>, plain: string, u: string)
    requires ReadInv(s, latest, plain, u)
    ensures var (t, frame) := ParseLine(s, p);
            var (v, newest) := TakeFrame(t, latest, frame);
            ReadInv(v, newest, plain, u) && v.buffer == s.buffer
  {
    var (t, frame) := ParseLine(s, p);
    if p.Valid? {
      assert t.tally.numbers == s.tally.numbers + [s.meters.sequence];
    }
  }

  lemma {:induction false} ParseLinesKeeps(
    s: State, lines: seq<string>, parse: Parser, latest: Option<nat>, plain: string, u: string)
    requires ReadInv(s, latest, plain, u)
    ensures var (t, newest) := ParseLines(s, lines, parse, latest);
            ReadInv(t, newest, plain, u) && t.buffer == s.buffer
    decreases |lines|
  {
    if lines == [] {
    } else if lines[0] == [] {
      ParseLinesKeeps(s, lines[1..], parse, latest, plain, u);
    } else {
      ParseLineKeeps(s, parse(lines[0]), latest, plain, u);
      var (t, frame) := ParseLine(s, parse(lines[0]));
      var (v, newest) := TakeFrame(t, latest, frame);
      ParseLinesKeeps(v, lines[1..], parse, newest, plain, u);
    }
  }

  lemma DrainKeepsInv(s: State, bytes: string, parse: Parser, plain: string, u: string)
    requires Inv(s, plain, u)
    ensures Inv(Drain(s, bytes, parse).0, plain, u)
  {
    if s.fd {
      var (f, overflow) := Received(s.buffer, bytes);
      ParseLinesKeeps(s.(buffer := f.rest), f.lines, parse, None, plain, u);
    }
  }

  lemma ConfigureKeepsInv(s: State, center: nat, span: nat, points: nat, forked: bool, plain: string, u: string)
    requires Inv(s, plain, u)
    ensures Inv(Configure(s, center, span, points, forked), plain, u)
  {
    if Configurable(s, center, span, points) {
      ReapedIsEmpty(s);
      var start := center - span / 2;
      var t := Halt(s.(config := s.config.(start := start, stop := Wrap(start + span), points := points)));
      LaunchKeepsInv(t.(stopRequested := false, attempts := 0, nextRestart := 0, phase := Ready,
                        log := t.log.(failures := 0)), forked, plain, u);
    }
  }

  lemma StepKeepsInv(s: State, e: Event, parse: Parser, plain: string, u: string)
    requires Inv(s, plain, u) && Enabled(s, e)
    ensures Inv(Step(s, e, parse), plain, u)
  {
    match e
    case Initialize(_) =>
    case StartCall(forked) =>
      if s.phase == Ready || s.phase == Stopped || s.phase == Error {
        LaunchKeepsInv(s.(stopRequested := false, attempts := 0, log := s.log.(failures := 0)), forked, plain, u);
      }
    case StopCall => ReapedIsEmpty(s);
    case ConfigureCall(center, span, points, forked) => ConfigureKeepsInv(s, center, span, points, forked, plain, u);
    case Adjust(_, _, _, _) =>
    case WorkerExits =>
      assert s.processes.exited + s.processes.alive == s.processes.alive + s.processes.exited;
    case ReadCall(now, forked, bytes) =>
      SuperviseKeepsInv(s, now, forked, plain, u);
      DrainKeepsInv(Supervise(s, now, forked), bytes, parse, plain, u);
  }

  /** The invariants hold after every run of calls, worker exits and reads. */
  lemma {:induction false} RunKeepsInv(s: State, es: seq<Event>, parse: Parser, plain: string, u: string)
    requires Inv(s, plain, u) && Possible(s, es, parse)
    ensures Inv(Run(s, es, parse), plain, u)
    decreases |es|
  {
    if es == [] {
    } else {
      StepKeepsInv(s, es[0], parse, plain, u);
      RunKeepsInv(Step(s, es[0], parse), es[1..], parse, plain, u);
    }
  }

  // --- Consequences ---

  /** Over every run: at most one worker process, restart counter below three, waits of 5 or 10 seconds,
      and every line accounted for. */
  lemma SupervisionIsSafe(config: Config, uniqueSession: string, es: seq<Event>, parse: Parser)
    requires Possible(Init(config, uniqueSession), es, parse)
    ensures var s := Run(Init(config, uniqueSession), es, parse);
            && |s.processes.alive + s.processes.exited| <= 1
            && (s.pid.Some? <==> s.fd)
            && s.attempts < 3
            && (forall i :: 0 <= i < |s.log.backoffs| ==> s.log.backoffs[i] in {5, 10})
            && s.tally.lines == s.meters.produced + s.tally.bad
            && s.meters.produced == s.tally.returned + s.tally.replaced
            && s.meters.dropped == s.tally.bad + s.tally.replaced + s.tally.reported + s.tally.overflows
  {
    InitInv(config, uniqueSession);
    RunKeepsInv(Init(config, uniqueSession), es, parse, config.session, uniqueSession);
  }

  /** Published frames carry strictly increasing sequence numbers, across restarts and bad lines. */
  lemma SequenceNumbersIncrease(config: Config, uniqueSession: string, es: seq<Event>, parse: Parser, i: nat, j: nat)
    requires Possible(Init(config, uniqueSession), es, parse)
    requires i < j < |Run(Init(config, uniqueSession), es, parse).tally.numbers|
    ensures var numbers := Run(Init(config, uniqueSession), es, parse).tally.numbers;
            numbers[i] < numbers[j]
  {
    InitInv(config, uniqueSession);
    RunKeepsInv(Init(config, uniqueSession), es, parse, config.session, uniqueSession);
  }

  function NonEmpty(lines: seq<string>): nat {
    if lines == [] then 0 else (if lines[0] == [] then 0 else 1) + NonEmpty(lines[1..])
  }

  lemma {:induction false} NonEmptyTogether(a: seq<string>, b: seq<string>)
    ensures NonEmpty(a + b) == NonEmpty(a) + NonEmpty(b)
    decreases |a|
  {
    if a == [] {
      assert a + b == b;
    } else {
      NonEmptyTogether(a[1..], b);
      assert (a + b)[1..] == a[1..] + b;
    }
  }

  lemma {:induction false} ParseLinesCounts(s: State, lines: seq<string>, parse: Parser, latest: Option<nat>)
    ensures var t := ParseLines(s, lines, parse, latest).0;
            t.tally.lines == s.tally.lines + NonEmpty(lines) && t.buffer == s.buffer && t.fd == s.fd
    decreases |lines|
  {
    if lines == [] {
    } else if lines[0] == [] {
      ParseLinesCounts(s, lines[1..], parse, latest);
    } else {
      var (t, frame) := ParseLine(s, parse(lines[0]));
      var (v, newest) := TakeFrame(t, latest, frame);
      ParseLinesCounts(v, lines[1..], parse, newest);
    }
  }

  /** The worker's own drop counter never goes back in these lines. */
  ghost predicate CountersRise(last: nat, lines: seq<string>, parse: Parser)
    decreases |lines|
  {
    if lines == [] then true
    else if lines[0] != [] && parse(lines[0]).Valid? then
      parse(lines[0]).workerDropped >= last && CountersRise(parse(lines[0]).workerDropped, lines[1..], parse)
    else CountersRise(last, lines[1..], parse)
  }

  /** The drops taken over from a worker add up to what its counter rose by. */
  lemma {:induction false} ReportedDropsTelescope(s: State, lines: seq<string>, parse: Parser, latest: Option<nat>)
    requires CountersRise(s.meters.workerDropped, lines, parse)
    ensures var t := ParseLines(s, lines, parse, latest).0;
            t.tally.reported - s.tally.reported == t.meters.workerDropped - s.meters.workerDropped
    decreases |lines|
  {
    if lines == [] {
    } else if lines[0] == [] {
      ReportedDropsTelescope(s, lines[1..], parse, latest);
    } else {
      var (t, frame) := ParseLine(s, parse(lines[0]));
      var (v, newest) := TakeFrame(t, latest, frame);
      ReportedDropsTelescope(v, lines[1..], parse, newest);
    }
  }

  /** Reads in a row from one worker that does not exit. */
  function DrainAll(s: State, pieces: seq<string>, parse: Parser): State
    decreases |pieces|
  {
    if pieces == [] then s else DrainAll(Drain(s, pieces[0], parse).0, pieces[1..], parse)
  }

  lemma DrainCounts(s: State, piece: string, parse: Parser)
    requires s.fd
    ensures var t, f := Drain(s, piece, parse).0, Received(s.buffer, piece).0;
            t.fd && t.buffer == f.rest && t.tally.lines == s.tally.lines + NonEmpty(f.lines)
  {
    var f := Received(s.buffer, piece).0;
    ParseLinesCounts(s.(buffer := f.rest), f.lines, parse, None);
  }

  lemma {:induction false} DrainAllCounts(s: State, pieces: seq<string>, parse: Parser)
    requires s.fd
    ensures var t, f := DrainAll(s, pieces, parse), ReceivedAll(s.buffer, pieces);
            t.buffer == f.rest && t.tally.lines == s.tally.lines + NonEmpty(f.lines)
    decreases |pieces|
  {
    if pieces != [] {
      DrainCounts(s, pieces[0], parse);
      DrainAllCounts(Drain(s, pieces[0], parse).0, pieces[1..], parse);
      var f := Received(s.buffer, pieces[0]).0;
      NonEmptyTogether(f.lines, ReceivedAll(f.rest, pieces[1..]).lines);
    }
  }

  /** Framing and accounting together: however a worker's output is cut into reads, the lines counted are
      the non-empty lines of the whole stream, while the unfinished rest stays within its cap. */
  lemma StreamIsCounted(s: State, pieces: seq<string>, parse: Parser)
    requires s.fd && NewlineFree(s.buffer) && NeverOverflows(s.buffer, pieces)
    ensures var t, f := DrainAll(s, pieces, parse), Split(s.buffer + Concat(pieces));
            t.buffer == f.rest && t.tally.lines == s.tally.lines + NonEmpty(f.lines)
  {
    DrainAllCounts(s, pieces, parse);
    CuttingIrrelevantIff(s.buffer, pieces);
  }

  ghost predicate OnlyExitsAndReads(es: seq<Event>) {
    forall i :: 0 <= i < |es| ==> es[i].WorkerExits? || es[i].ReadCall?
  }

  lemma {:induction false} ParseLinesWithoutValid(s: State, lines: seq<string>, parse: Parser, latest: Option<nat>)
    ensures var t := ParseLines(s, lines, parse, latest).0;
            && t.tally.valid >= s.tally.valid
            && (t.tally.valid == s.tally.valid ==>
                  t.config == s.config && t.lastGood == s.lastGood && t.log == s.log)
    decreases |lines|
  {
    if lines == [] {
    } else if lines[0] == [] {
      ParseLinesWithoutValid(s, lines[1..], parse, latest);
    } else {
      var (t, frame) := ParseLine(s, parse(lines[0]));
      var (v, newest) := TakeFrame(t, latest, frame);
      ParseLinesWithoutValid(v, lines[1..], parse, newest);
    }
  }

  /** The number of fallbacks that a count of consecutive failures implies. */
  function Fallbacks(failures: nat): nat {
    failures / MAX_FAILURES
  }

  lemma QuietSupervision(s: State, now: int, forked: bool, plain: string, u: string)
    requires Inv(s, plain, u)
    ensures var t := Supervise(s, now, forked);
            && t.tally == s.tally && t.lastGood == s.lastGood
            && s.log.failures <= t.log.failures <= s.log.failures + 1
            && t.config == if Fallbacks(t.log.failures) > Fallbacks(s.log.failures) then s.lastGood else s.config
  {
  }

  lemma QuietDrain(s: State, bytes: string, parse: Parser)
    ensures var t := Drain(s, bytes, parse).0;
            && t.tally.valid >= s.tally.valid
            && (t.tally.valid == s.tally.valid ==>
                  t.config == s.config && t.lastGood == s.lastGood && t.log == s.log)
  {
    if s.fd {
      var f := Received(s.buffer, bytes).0;
      ParseLinesWithoutValid(s.(buffer := f.rest), f.lines, parse, None);
    }
  }

  lemma QuietStep(s: State, e: Event, parse: Parser, plain: string, u: string)
    requires Inv(s, plain, u) && Enabled(s, e) && (e.WorkerExits? || e.ReadCall?)
    ensures var t := Step(s, e, parse);
            && t.tally.valid >= s.tally.valid
            && (t.tally.valid == s.tally.valid ==>
                  && t.lastGood == s.lastGood
                  && s.log.failures <= t.log.failures <= s.log.failures + 1
                  && t.config == if Fallbacks(t.log.failures) > Fallbacks(s.log.failures) then s.lastGood else s.config)
  {
    if e.ReadCall? {
      QuietSupervision(s, e.now, e.forked, plain, u);
      QuietDrain(Supervise(s, e.now, e.forked), e.bytes, parse);
    }
  }

  /** Three strikes: while workers only exit and no valid frame is read, the configuration in force is
      the requested one before the third noticed exit, and the last one that worked from then on. */
  lemma {:induction false} ThirdFailureFallsBack(s: State, es: seq<Event>, parse: Parser, plain: string, u: string)
    requires Inv(s, plain, u) && Possible(s, es, parse) && OnlyExitsAndReads(es)
    requires Run(s, es, parse).tally.valid == s.tally.valid
    ensures var t := Run(s, es, parse);
            && t.lastGood == s.lastGood && t.log.failures >= s.log.failures
            && (t.config == if Fallbacks(t.log.failures) > Fallbacks(s.log.failures) then s.lastGood else s.config)
            && t.attempts == t.log.failures % MAX_FAILURES
    decreases |es|
  {
    if es == [] {
    } else {
      var m := Step(s, es[0], parse);
      QuietStep(s, es[0], parse, plain, u);
      StepKeepsInv(s, es[0], parse, plain, u);
      ValidNeverDecreases(m, es[1..], parse, plain, u);
      ThirdFailureFallsBack(m, es[1..], parse, plain, u);
    }
  }

  lemma {:induction false} ValidNeverDecreases(s: State, es: seq<Event>, parse: Parser, plain: string, u: string)
    requires Inv(s, plain, u) && Possible(s, es, parse) && OnlyExitsAndReads(es)
    ensures Run(s, es, parse).tally.valid >= s.tally.valid
    decreases |es|
  {
    if es != [] {
      QuietStep(s, es[0], parse, plain, u);
      StepKeepsInv(s, es[0], parse, plain, u);
      ValidNeverDecreases(Step(s, es[0], parse), es[1..], parse, plain, u);
    }
  }

  // --- The frame that a read returns ---

  predicate ValidLine(parse: Parser, line: string) {
    line != [] && parse(line).Valid?
  }

  /** Lines take a sequence number unless they fail before that. */
  predicate TakesNumber(parse: Parser, line: string) {
    line != [] && !(parse(line).Unreadable? && !parse(line).sequenced)
  }

  function NumbersTaken(parse: Parser, lines: seq<string>): nat {
    if lines == [] then 0 else (if TakesNumber(parse, lines[0]) then 1 else 0) + NumbersTaken(parse, lines[1..])
  }

  ghost predicate LastValid(parse: Parser, lines: seq<string>, k: nat) {
    && k < |lines| && ValidLine(parse, lines[k])
    && forall j :: k < j < |lines| ==> !ValidLine(parse, lines[j])
  }

  ghost predicate NoneValid(parse: Parser, lines: seq<string>) {
    forall j :: 0 <= j < |lines| ==> !ValidLine(parse, lines[j])
  }

  lemma {:induction false} NoneValidParsed(s: State, lines: seq<string>, parse: Parser, latest: Option<nat>)
    requires NoneValid(parse, lines)
    ensures var (t, r) := ParseLines(s, lines, parse, latest);
            r == latest && t.tally.numbers == s.tally.numbers && t.tally.valid == s.tally.valid
    decreases |lines|
  {
    if lines != [] {
      assert !ValidLine(parse, lines[0]);
      assert NoneValid(parse, lines[1..]);
      if lines[0] == [] {
        NoneValidParsed(s, lines[1..], parse, latest);
      } else {
        NoneValidParsed(ParseLine(s, parse(lines[0])).0, lines[1..], parse, latest);
      }
    }
  }

  lemma {:induction false} LastValidParsed(s: State, lines: seq<string>, parse: Parser, latest: Option<nat>, k: nat)
    requires LastValid(parse, lines, k)
    ensures var (t, r) := ParseLines(s, lines, parse, latest);
            && r == Some(s.meters.sequence + NumbersTaken(parse, lines[..k]))
            && t.tally.numbers != [] && r == Some(t.tally.numbers[|t.tally.numbers| - 1])
            && t.tally.valid > s.tally.valid
    decreases |lines|
  {
    LastValidRest(parse, lines, k);
    if lines[0] == [] {
      LastValidParsed(s, lines[1..], parse, latest, k - 1);
    } else {
      var (t, frame) := ParseLine(s, parse(lines[0]));
      var (v, newest) := TakeFrame(t, latest, frame);
      if k == 0 {
        NoneValidParsed(v, lines[1..], parse, newest);
      } else {
        LastValidParsed(v, lines[1..], parse, newest, k - 1);
      }
    }
  }

  lemma LastValidRest(parse: Parser, lines: seq<string>, k: nat)
    requires LastValid(parse, lines, k)
    ensures if k == 0 then NoneValid(parse, lines[1..]) else LastValid(parse, lines[1..], k - 1)
    ensures k > 0 ==> NumbersTaken(parse, lines[..k]) ==
                      (if TakesNumber(parse, lines[0]) then 1 else 0) + NumbersTaken(parse, lines[1..][..k - 1])
  {
    assert forall j :: 0 <= j < |lines[1..]| ==> lines[1..][j] == lines[j + 1];
    if k > 0 {
      assert lines[..k][1..] == lines[1..][..k - 1];
    }
  }

  /** The position of the last valid line, negative if there is none. */
  ghost predicate IsLastValid(parse: Parser, lines: seq<string>, k: int) {
    if k < 0 then NoneValid(parse, lines) else LastValid(parse, lines, k)
  }

  /** While a worker runs, a read returns exactly the last valid frame among the lines that have become
      complete, under the number that all lines before it have left for it, and nothing if none is valid. */
  lemma ReadReturnsNewest(s: State, now: int, forked: bool, bytes: string, parse: Parser, k: int)
    requires s.fd && s.pid.Some? && s.pid.value !in s.processes.exited
    requires IsLastValid(parse, Split(s.buffer + bytes).lines, k)
    ensures var (t, r) := Read(s, now, forked, bytes, parse);
            var lines := Split(s.buffer + bytes).lines;
            if k < 0 then r == None && t.tally.numbers == s.tally.numbers
            else
              && r == Some(s.meters.sequence + NumbersTaken(parse, lines[..k]))
              && t.tally.numbers != [] && r == Some(t.tally.numbers[|t.tally.numbers| - 1])
  {
    var lines := Split(s.buffer + bytes).lines;
    var u := RunningReadParses(s, now, forked, bytes, parse);
    if k < 0 {
      NoneValidParsed(u, lines, parse, None);
    } else {
      LastValidParsed(u, lines, parse, None, k);
    }
  }

  lemma RunningReadParses(s: State, now: int, forked: bool, bytes: string, parse: Parser) returns (u: State)
    requires s.fd && s.pid.Some? && s.pid.value !in s.processes.exited
    ensures u.meters == s.meters && u.tally == s.tally
    ensures var (t, r) := Read(s, now, forked, bytes, parse);
            var (v, newest) := ParseLines(u, Split(s.buffer + bytes).lines, parse, None);
            r == newest && t.tally.numbers == v.tally.numbers
  {
    u := s.(buffer := Received(s.buffer, bytes).0.rest);
  }

  /** Whatever happens to the worker, a read returns a frame exactly if it has counted a valid one, and
      then the newest. */
  lemma ReturnedFrameIsLatest(s: State, now: int, forked: bool, bytes: string, parse: Parser)
    ensures var (t, r) := Read(s, now, forked, bytes, parse);
            && (r.Some? <==> t.tally.valid > s.tally.valid)
            && (r.Some? ==> t.tally.numbers != [] && r == Some(t.tally.numbers[|t.tally.numbers| - 1]))
  {
    var w := Supervise(s, now, forked);
    if w.fd {
      var f := Received(w.buffer, bytes).0;
      var k := FindLastValid(parse, f.lines);
      if k < 0 {
        NoneValidParsed(w.(buffer := f.rest), f.lines, parse, None);
      } else {
        LastValidParsed(w.(buffer := f.rest), f.lines, parse, None, k);
      }
    }
  }

  lemma {:induction false} FindLastValid(parse: Parser, lines: seq<string>) returns (k: int)
    ensures IsLastValid(parse, lines, k)
    decreases |lines|
  {
    if lines == [] {
      k := -1;
    } else {
      var n := |lines| - 1;
      if ValidLine(parse, lines[n]) {
        k := n;
      } else {
        k := FindLastValid(parse, lines[..n]);
      }
    }
  }

  // --- The session ---

  /** The read finds the worker dead. */
  predicate Notices(s: State, e: Event) {
    e.ReadCall? && s.pid.Some? && s.pid.value in s.processes.exited
  }

  /** An accepted start or reconfiguration, which counts exits from zero again. */
  predicate Recounts(s: State, e: Event) {
    || (e.StartCall? && (s.phase == Ready || s.phase == Stopped || s.phase == Error))
    || (e.ConfigureCall? && Configurable(s, e.center, e.span, e.points))
  }

  /** A third exit in a row is noticed before the first valid frame is read; `noticed` went before. */
  ghost predicate ThirdExitFirst(s: State, es: seq<Event>, parse: Parser, noticed: nat)
    decreases |es|
  {
    es != [] &&
    var t := Step(s, es[0], parse);
    if Notices(s, es[0]) then noticed == 2 || ThirdExitFirst(t, es[1..], parse, noticed + 1)
    else t.tally.valid == s.tally.valid && ThirdExitFirst(t, es[1..], parse, if Recounts(s, es[0]) then 0 else noticed)
  }

  lemma {:induction false} ParsedSession(s: State, lines: seq<string>, parse: Parser, latest: Option<nat>)
    ensures var t := ParseLines(s, lines, parse, latest).0;
            && t.config == s.config && t.tally.valid >= s.tally.valid
            && (if t.tally.valid == s.tally.valid then t.lastGood == s.lastGood && t.attempts == s.attempts
                else t.lastGood == s.config)
    decreases |lines|
  {
    if lines == [] {
    } else if lines[0] == [] {
      ParsedSession(s, lines[1..], parse, latest);
    } else {
      var (t, frame) := ParseLine(s, parse(lines[0]));
      var (v, newest) := TakeFrame(t, latest, frame);
      ParsedSession(v, lines[1..], parse, newest);
    }
  }

  lemma DrainedSession(s: State, bytes: string, parse: Parser)
    ensures var t := Drain(s, bytes, parse).0;
            && t.config == s.config && t.tally.valid >= s.tally.valid
            && (if t.tally.valid == s.tally.valid then t.lastGood == s.lastGood && t.attempts == s.attempts
                else t.lastGood == s.config)
  {
    if s.fd {
      var f := Received(s.buffer, bytes).0;
      ParsedSession(s.(buffer := f.rest), f.lines, parse, None);
    }
  }

  /** Once both configurations are in one session, no event changes it. */
  lemma {:induction false} SettledSession(s: State, es: seq<Event>, parse: Parser)
    requires s.config.session == s.lastGood.session
    ensures Run(s, es, parse).config.session == s.config.session
    decreases |es|
  {
    if es != [] {
      if es[0].ReadCall? {
        DrainedSession(Supervise(s, es[0].now, es[0].forked), es[0].bytes, parse);
      }
      SettledSession(Step(s, es[0], parse), es[1..], parse);
    }
  }

  /** A read that finds the worker dead. */
  lemma NoticingRead(s: State, e: Event, parse: Parser)
    requires OneWorker(s) && Notices(s, e)
    ensures var t := Step(s, e, parse);
            && t.tally == s.tally && t.lastGood == s.lastGood
            && (if s.attempts >= 2 then t.config == s.lastGood
                else t.config == s.config && t.attempts == s.attempts + 1)
  {
  }

  /** Any other event. */
  lemma OtherStep(s: State, e: Event, parse: Parser)
    requires !Notices(s, e)
    ensures var t := Step(s, e, parse);
            && t.config.session == s.config.session && t.tally.valid >= s.tally.valid
            && (if t.tally.valid > s.tally.valid then t.lastGood.session == s.config.session
                else t.lastGood == s.lastGood && t.attempts == if Recounts(s, e) then 0 else s.attempts)
  {
    if e.ReadCall? {
      DrainedSession(Supervise(s, e.now, e.forked), e.bytes, parse);
    }
  }

  lemma {:induction false} SessionFollows(s: State, es: seq<Event>, parse: Parser, plain: string, u: string)
    requires Inv(s, plain, u) && Possible(s, es, parse) && plain != u
    requires s.config.session == u && s.lastGood.session == plain
    ensures Run(s, es, parse).config.session == u <==> !ThirdExitFirst(s, es, parse, s.attempts)
    decreases |es|
  {
    if es != [] {
      var t := Step(s, es[0], parse);
      StepKeepsInv(s, es[0], parse, plain, u);
      if Notices(s, es[0]) {
        NoticingRead(s, es[0], parse);
      } else {
        OtherStep(s, es[0], parse);
      }
      if t.config.session == t.lastGood.session {
        SettledSession(t, es[1..], parse);
      } else {
        SessionFollows(t, es[1..], parse, plain, u);
      }
    }
  }

  /** The session stays unique exactly as long as no third exit in a row is noticed before the first valid
      frame: the copy made by the constructor lacks the suffix. */
  lemma SessionUniqueIff(config: Config, uniqueSession: string, es: seq<Event>, parse: Parser)
    requires Possible(Init(config, uniqueSession), es, parse) && uniqueSession != config.session
    ensures var s := Init(config, uniqueSession);
            Run(s, es, parse).config.session == uniqueSession <==> !ThirdExitFirst(s, es, parse, 0)
  {
    InitInv(config, uniqueSession);
    SessionFollows(Init(config, uniqueSession), es, parse, config.session, uniqueSession);
  }

  /** Two reads, one before and one after a worker dies. */
  function FailedWorker(now: int): seq<Event> {
    [ReadCall(now, true, []), WorkerExits, ReadCall(now + 1, true, [])]
  }

  /** No worker, and the next read may launch one. */
  ghost predicate Waiting(s: State, now: int) {
    s.pid.None? && s.processes.alive == {} == s.processes.exited && !s.stopRequested && now >= s.nextRestart
  }

  lemma EmptyReadIsIdle(s: State, parse: Parser)
    requires s.fd && s.buffer == []
    ensures Drain(s, [], parse) == (s, None)
  {
  }

  lemma WorkerFails(s: State, now: int, parse: Parser, rest: seq<Event>)
    requires Waiting(s, now) && s.attempts < 3
    ensures var t := Run(s, FailedWorker(now), parse);
            && t.lastGood == s.lastGood && Waiting(t, now + 11)
            && (if s.attempts == 2 then t.config == s.lastGood
                else t.config == s.config && t.attempts == s.attempts + 1)
            && (Possible(t, rest, parse) ==> Possible(s, FailedWorker(now) + rest, parse))
            && Run(s, FailedWorker(now) + rest, parse) == Run(t, rest, parse)
  {
    var es := FailedWorker(now);
    var a := Step(s, es[0], parse);
    var b := Step(a, es[1], parse);
    var c := Step(b, es[2], parse);
    EmptyReadIsIdle(Launch(s, true), parse);
    assert a == Launch(s, true) && a.processes.alive == {s.processes.nextPid};
    assert b.processes.exited == {s.processes.nextPid};
    assert PowerOfTwo(0) == 1 && PowerOfTwo(1) == 2 && c == NoteExit(b, now + 1);
    ThreeSteps(s, es[0], es[1], es[2], parse, rest);
    ThreeSteps(s, es[0], es[1], es[2], parse, []);
    assert es + [] == es;
  }

  lemma ThreeSteps(s: State, x: Event, y: Event, z: Event, parse: Parser, rest: seq<Event>)
    ensures var a := Step(s, x, parse);
            var b := Step(a, y, parse);
            var c := Step(b, z, parse);
            && Run(s, [x, y, z] + rest, parse) == Run(c, rest, parse)
            && (Possible(s, [x, y, z] + rest, parse) <==>
                  Enabled(s, x) && Enabled(a, y) && Enabled(b, z) && Possible(c, rest, parse))
  {
    var a := Step(s, x, parse);
    OneStep(s, x, [y, z] + rest, parse);
    OneStep(a, y, [z] + rest, parse);
    OneStep(Step(a, y, parse), z, rest, parse);
    assert [x, y, z] + rest == [x] + ([y, z] + rest) && [y, z] + rest == [y] + ([z] + rest);
  }

  lemma OneStep(s: State, e: Event, rest: seq<Event>, parse: Parser)
    ensures Run(s, [e] + rest, parse) == Run(Step(s, e, parse), rest, parse)
    ensures Possible(s, [e] + rest, parse) <==> Enabled(s, e) && Possible(Step(s, e, parse), rest, parse)
  {
    assert ([e] + rest)[1..] == rest;
  }

  /** Three workers that die without a frame: the source goes on in the session without the suffix. */
  lemma SessionCanBeLost(config: Config, uniqueSession: string, parse: Parser)
    ensures var s, es := Init(config, uniqueSession), FailedWorker(0) + (FailedWorker(20) + FailedWorker(40));
            && Possible(s, es, parse) && Run(s, es, parse).config == config
  {
    var s := Init(config, uniqueSession);
    var t := Run(s, FailedWorker(0), parse);
    WorkerFails(s, 0, parse, FailedWorker(20) + FailedWorker(40));
    var u := Run(t, FailedWorker(20), parse);
    WorkerFails(t, 20, parse, FailedWorker(40));
    WorkerFails(u, 40, parse, []);
    assert FailedWorker(40) + [] == FailedWorker(40);
  }

  /** An accepted viewport starts where it was asked to, inside the hardware limits, and has the span asked
      for exactly if its upper end fits 64 bits; otherwise the stop wraps around to below the start. */
  lemma AcceptedBandIff(s: State, center: nat, span: nat, points: nat, forked: bool)
    requires IsU64(center) && IsU64(span) && Configurable(s, center, span, points)
    ensures var g := Configure(s, center, span, points, forked).config;
            && g.start == center - span / 2 > 0 && g.points == points && g.session == s.config.session
            && (s.meters.low > 0 ==> s.meters.low <= g.start)
            && (g.stop == g.start + span <==> center + (span - span / 2) < TWO64)
            && (center + (span - span / 2) >= TWO64 ==> g.stop < g.start)
  {
    var stop := center - span / 2 + span;
    if stop >= TWO64 {
      assert Wrap(stop) == stop - TWO64;
    }
  }

  /** Such a viewport passes every check of a source whose worker has not reported its limits yet. */
  lemma WrappedBandIsAccepted(config: Config, uniqueSession: string)
    ensures var s := Init(config, uniqueSession);
            var center, span := 0x8000_0000_0000_0000 + 10_000_000_000, MAX64;
            && Configurable(s, center, span, 1024)
            && Configure(s, center, span, 1024, true).config.start == 10_000_000_001
            && Configure(s, center, span, 1024, true).config.stop == 10_000_000_000
  {
    var center, left := 0x8000_0000_0000_0000 + 10_000_000_000, MAX64 / 2;
    assert left == 0x7FFF_FFFF_FFFF_FFFF;
    assert Wrap(TOP_HZ - (MAX64 - left)) == TOP_HZ - (MAX64 - left) + TWO64;
    assert Wrap(center - left + MAX64) == center - left + MAX64 - TWO64;
  }

  /** A read launches a worker even on a source that was never initialized or started. */
  lemma FreshReadLaunches(config: Config, uniqueSession: string, now: nat, parse: Parser)
    ensures var s := Init(config, uniqueSession);
            Supervise(s, now, true).pid.Some? && Supervise(s, now, true).phase == Running
  {
  }

  /** Calling initialize again makes the next start fork a second worker exactly when one is running:
      the first one is then forgotten but alive. */
  lemma ReinitializeForksIff(s: State, plain: string, u: string)
    requires Inv(s, plain, u)
    ensures var t := Start(s.(phase := Ready), true);
            |t.processes.alive + t.processes.exited| == 2 <==> s.pid.Some?
  {
    var both := s.processes.alive + s.processes.exited;
    var t := Start(s.(phase := Ready), true);
    assert t.processes.alive + t.processes.exited == both + {s.processes.nextPid};
  }

  // --- The object ---

  /** The object behind the lock.  Each method is one step of the supervisor; `processes` is the
      operating system's table of this object's children, `tally` and `log` are bookkeeping. */
  class AaroniaRfSource {
    const parse: Parser
    var phase: Phase
    var config: Config
    var lastGood: Config
    var pid: Option<nat>
    var fd: bool
    var buffer: string
    var attempts: nat
    var nextRestart: int
    var stopRequested: bool
    var meters: Meters
    var processes: Processes
    ghost var tally: Tally
    ghost var log: Log

    ghost function View(): State
      reads this
    {
      State(phase, config, lastGood, pid, fd, buffer, attempts, nextRestart, stopRequested, meters, processes,
            tally, log)
    }

    constructor (initial: Config, uniqueSession: string, parser: Parser)
      ensures View() == Init(initial, uniqueSession) && parse == parser
    {
      parse := parser;
      phase, config, lastGood := NotInitialized, initial.(session := uniqueSession), initial;
      pid, fd, buffer, attempts, nextRestart, stopRequested := None, false, [], 0, 0, false;
      meters, processes := Meters(0, 0, 0, 0, 0, 0), Processes({}, {}, 0);
      tally, log := Tally(0, 0, 0, 0, 0, 0, 0, []), Log(0, []);
    }

    method LaunchLocked(forked: bool) returns (ok: bool)
      modifies this
      ensures View() == Launch(old(View()), forked) && ok == forked
    {
      if !forked {
        return false;
      }
      var child := processes.nextPid;
      processes := processes.(alive := processes.alive + {child}, nextPid := child + 1);
      pid, fd, buffer := Some(child), true, [];
      phase := Running;
      return true;
    }

    method Start(forked: bool) returns (ok: bool)
      modifies this
      ensures View() == Step(old(View()), StartCall(forked), parse)
      ensures ok == (Recounts(old(View()), StartCall(forked)) && forked)
    {
      if phase != Ready && phase != Stopped && phase != Error {
        return false;
      }
      stopRequested, attempts := false, 0;
      log := log.(failures := 0);
      ok := LaunchLocked(forked);
    }

    method StopLocked()
      modifies this
      ensures View() == Halt(old(View()))
    {
      stopRequested := true;
      processes := Reaped(processes, pid);
      pid, fd, buffer := None, false, [];
    }

    method Stop()
      modifies this
      ensures View() == Step(old(View()), StopCall, parse)
    {
      StopLocked();
      phase := Stopped;
    }

    method ConfigureViewport(center: nat, span: nat, points: nat, forked: bool) returns (ok: bool)
      modifies this
      ensures View() == Configure(old(View()), center, span, points, forked)
      ensures ok == (Configurable(old(View()), center, span, points) && forked)
    {
      if center == 0 || span == 0 || points < 2 || points > MAX_POINTS {
        return false;
      }
      var left := span / 2;
      if center <= left || center > Wrap(TOP_HZ - (span - left)) {
        return false;
      }
      var start := center - left;
      var stop := Wrap(start + span);
      var minimum := if meters.low > 0 then meters.low else 5_000_000;
      var maximum := if meters.high > minimum then meters.high else 18_000_000_000;
      if start < minimum || stop > maximum {
        return false;
      }
      ok := RelaunchLocked(start, stop, points, forked);
    }

    method RelaunchLocked(start: nat, stop: nat, points: nat, forked: bool) returns (ok: bool)
      modifies this
      ensures View() == Relaunch(old(View()), start, stop, points, forked) && ok == forked
    {
      config := config.(start := start, stop := stop, points := points);
      StopLocked();
      stopRequested, attempts, nextRestart := false, 0, 0;
      phase := Ready;
      log := log.(failures := 0);
      ok := LaunchLocked(forked);
    }

    method NoteExitLocked(now: int)
      modifies this
      ensures View() == NoteExit(old(View()), now)
    {
      processes := Reaped(processes, pid);
      fd, pid := false, None;
      if !stopRequested {
        ScheduleRestart(now);
      }
    }

    /** The backoff after an exit that was not requested, and the fallback after the third. */
    method ScheduleRestart(now: int)
      modifies `config, `attempts, `nextRestart, `phase, `log
      ensures var third := old(attempts) + 1 >= MAX_FAILURES;
              var seconds := if third then 5 else Backoff(old(attempts) + 1);
              && config == (if third then lastGood else old(config))
              && attempts == (if third then 0 else old(attempts) + 1)
              && nextRestart == now + seconds && phase == Error
              && log == Log(old(log).failures + 1, old(log).backoffs + [seconds])
    {
      attempts := attempts + 1;
      var seconds := 5;
      if attempts >= MAX_FAILURES {
        config, attempts := lastGood, 0;
      } else {
        seconds := Backoff(attempts);
      }
      nextRestart := now + seconds;
      phase := Error;
      log := Log(log.failures + 1, log.backoffs + [seconds]);
    }

    method ParseLineLocked(line: string) returns (frame: Option<nat>)
      modifies this
      ensures (View(), frame) == ParseLine(old(View()), parse(line))
    {
      frame := None;
      tally := tally.(lines := tally.lines + 1);
      match parse(line) {
        case Unreadable(sequenced, low, high) =>
          CountBad(if sequenced then meters.sequence + 1 else meters.sequence,
                   if low.Some? then low.value else meters.low,
                   if high.Some? then high.value else meters.high);
        case Invalid(low, high) =>
          CountBad(meters.sequence + 1, low, high);
        case Valid(low, high, workerDropped) =>
          frame := Some(meters.sequence);
          AcceptFrame(low, high, workerDropped);
      }
    }

    method CountBad(sequence: nat, low: nat, high: nat)
      modifies `meters, `tally
      ensures meters == old(meters).(sequence := sequence, low := low, high := high, dropped := old(meters).dropped + 1)
      ensures tally == old(tally).(bad := old(tally).bad + 1)
    {
      meters := meters.(sequence := sequence, low := low, high := high, dropped := meters.dropped + 1);
      tally := tally.(bad := tally.bad + 1);
    }

    method AcceptFrame(low: nat, high: nat, workerDropped: nat)
      modifies `phase, `lastGood, `attempts, `meters, `tally, `log
      ensures phase == Running && lastGood == config && attempts == 0
      ensures var lost := LostByWorker(old(meters), workerDropped);
              && meters == AfterFrame(old(meters), low, high, workerDropped)
              && tally == old(tally).(valid := old(tally).valid + 1, reported := old(tally).reported + lost,
                                      numbers := old(tally).numbers + [old(meters).sequence])
      ensures log == old(log).(failures := 0)
    {
      tally := tally.(valid := tally.valid + 1, numbers := tally.numbers + [meters.sequence]);
      phase := Running;
      var lost := 0;
      if workerDropped >= meters.workerDropped {
        lost := workerDropped - meters.workerDropped;
      }
      tally := tally.(reported := tally.reported + lost);
      meters := Meters(meters.sequence + 1, workerDropped, low, high, meters.produced + 1, meters.dropped + lost);
      lastGood, attempts := config, 0;
      log := log.(failures := 0);
    }

    /** The loop over complete lines; only the newest valid frame is kept. */
    method ParseAll(lines: seq<string>) returns (latest: Option<nat>)
      modifies this
      ensures (View(), latest) == ParseLines(old(View()), lines, parse, None)
    {
      latest := None;
      ghost var goal := ParseLines(View(), lines, parse, None);
      for i := 0 to |lines|
        invariant ParseLines(View(), lines[i..], parse, latest) == goal
      {
        assert lines[i..][0] == lines[i] && lines[i..][1..] == lines[i + 1..];
        if lines[i] != [] {
          var parsed := ParseLineLocked(lines[i]);
          if parsed.Some? {
            if latest.Some? {
              meters := meters.(dropped := meters.dropped + 1);
              tally := tally.(replaced := tally.replaced + 1);
            }
            latest := parsed;
          }
        }
      }
    }

    method SuperviseLocked(now: int, forked: bool)
      modifies this
      ensures View() == Supervise(old(View()), now, forked)
    {
      if pid.Some? && pid.value in processes.exited {
        NoteExitLocked(now);
      }
      if pid.None? && !stopRequested && now >= nextRestart {
        var _ := LaunchLocked(forked);
      }
    }

    /** `bytes` is what the pipe holds until it is empty. */
    method ReadSpectrumFrame(now: int, forked: bool, bytes: string) returns (latest: Option<nat>)
      modifies this
      ensures (View(), latest) == Read(old(View()), now, forked, bytes, parse)
    {
      SuperviseLocked(now, forked);
      latest := DrainLocked(bytes);
    }

    /** Appends to the buffer, takes its complete lines and discards an overlong rest. */
    method TakeBuffered(bytes: string) returns (lines: seq<string>, overflow: bool)
      modifies `buffer
      ensures Received(old(buffer), bytes) == (Framed(lines, buffer), overflow)
    {
      lines, buffer := TakeLines(buffer + bytes);
      overflow := |buffer| > RESIDUE_CAP;
      if overflow {
        buffer := [];
      }
    }

    method DrainLocked(bytes: string) returns (latest: Option<nat>)
      modifies this
      ensures (View(), latest) == Drain(old(View()), bytes, parse)
    {
      if !fd {
        return None;
      }
      var lines, overflow := TakeBuffered(bytes);
      latest := ParseAll(lines);
      if overflow {
        meters := meters.(dropped := meters.dropped + 1);
        tally := tally.(overflows := tally.overflows + 1);
      }
      if latest.Some? {
        tally := tally.(returned := tally.returned + 1);
      }
    }
  }
}
