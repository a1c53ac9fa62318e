/** The replay source (replay_rf_source.cpp) after a recording has been loaded.  One reader thread
    calls readSpectrumFrame, which releases the lock while it waits for the next frame's time, so a
    read is two steps and every control call may come between them. */
module ReplaySource {
  import opened Prelude
  import opened FrequencyAxis

  datatype Status = Ready | Running | Paused | Stopped

  /** The player. `waiting` is the reader's position: between its two critical sections. */
  datatype Player = Player(status: Status, loop: bool, index: nat, sequence: nat, produced: nat, waiting: bool)

  /** One emitted frame: its position in the recording, the number it was given, and the target of the
      last seek accepted since the frame before it. */
  datatype Emission = Emission(position: nat, number: nat, jump: Option<nat>)

  /** Bookkeeping: everything emitted, and the last seek accepted since. */
  datatype Trace = Trace(emitted: seq<Emission>, pending: Option<nat>)

  datatype State = State(player: Player, trace: Trace)

  datatype Event = Start | Stop | Pause | Resume | Seek(target: nat) | SetLoop(on: bool) | ReadBegin | ReadEnd

  function Init(loop: bool): State {
    State(Player(Ready, loop, 0, 0, 0, false), Trace([], None))
  }

  // --- Steps; n is the number of frames, at least one after loading ---

  /** The first critical section: rewinds at the end when looping, otherwise stops. */
  function Begin(p: Player, n: nat): Player {
    if p.status != Running then p
    else if p.index < n then p.(waiting := true)
    else if p.loop then p.(index := 0, waiting := true)
    else p.(status := Stopped)
  }

  /** The second critical section: emits unless the status changed during the wait. */
  function End(s: State): State {
    var p := s.player;
    if p.status != Running then s.(player := p.(waiting := false))
    else
      State(p.(index := p.index + 1, sequence := p.sequence + 1, produced := p.produced + 1, waiting := false),
            Trace(s.trace.emitted + [Emission(p.index, p.sequence, s.trace.pending)], None))
  }

  function Control(p: Player, e: Event, n: nat): Player {
    match e
    case Start =>
      if p.status != Ready && p.status != Stopped then p
      else p.(index := if p.index >= n then 0 else p.index, status := Running)
    case Stop => if p.status == Stopped then p else p.(status := Stopped)
    case Pause => if p.status == Running then p.(status := Paused) else p
    case Resume => if p.status == Paused then p.(status := Running) else p
    case Seek(target) => if target >= n then p else p.(index := target)
    case SetLoop(on) => p.(loop := on)
    case ReadBegin => Begin(p, n)
    case ReadEnd => p
  }

  function Step(s: State, e: Event, n: nat): State {
    if e.ReadEnd? then End(s)
    else
      State(Control(s.player, e, n),
            if e.Seek? && e.target < n then s.trace.(pending := Some(e.target)) else s.trace)
  }

  /** The reader alternates between its two sections; control calls come at any time. */
  predicate Enabled(s: State, e: Event) {
    (e.ReadBegin? ==> !s.player.waiting) && (e.ReadEnd? ==> s.player.waiting)
  }

  ghost predicate Possible(s: State, es: seq<Event>, n: nat)
    decreases |es|
  {
    es == [] || (Enabled(s, es[0]) && Possible(Step(s, es[0], n), es[1..], n))
  }

  ghost function Run(s: State, es: seq<Event>, n: nat): State
    decreases |es|
  {
    if es == [] then s else Run(Step(s, es[0], n), es[1..], n)
  }

  // --- What is emitted ---

  /** The frame that is due after `emitted`: a seek's target, or the cyclic successor of the last one. */
  function Due(emitted: seq<Emission>, jump: Option<nat>, n: nat): nat
    requires n > 0
  {
    if jump.Some? then jump.value
    else if emitted == [] then 0
    else After(emitted[|emitted| - 1].position, n)
  }

  /** The cyclic successor of a position. */
  function After(position: nat, n: nat): nat {
    if position + 1 >= n then 0 else position + 1
  }

  /** Every emission is the frame that was due, numbered by its place in the output. */
  ghost predicate Continuous(emitted: seq<Emission>, n: nat)
    requires n > 0
  {
    forall k :: 0 <= k < |emitted| ==>
      && emitted[k].number == k
      && emitted[k].position < n
      && emitted[k].position == Due(emitted[..k], emitted[k].jump, n)
  }

  ghost predicate Inv(s: State, n: nat)
    requires n > 0
  {
    var p, t := s.player, s.trace;
    && p.index <= n && (p.waiting ==> p.index < n)
    && p.sequence == |t.emitted| && p.produced == |t.emitted|
    && Continuous(t.emitted, n)
    && (if p.index == n then 0 else p.index) == Due(t.emitted, t.pending, n)
  }

  /** Emitting in the window indexes in bounds and continues the sequence. */
  lemma EndKeepsInv(s: State, n: nat)
    requires n > 0 && Inv(s, n) && s.player.waiting
    ensures Inv(End(s), n)
  {
    var p, t := s.player, s.trace;
    if p.status == Running {
      var x := Emission(p.index, p.sequence, t.pending);
      var longer := t.emitted + [x];
      forall k | 0 <= k < |longer|
        ensures longer[k].number == k && longer[k].position < n
        ensures longer[k].position == Due(longer[..k], longer[k].jump, n)
      {
        assert longer[..k] == t.emitted[..k];
        assert t.emitted[..|t.emitted|] == t.emitted;
      }
    }
  }

  lemma StepKeepsInv(s: State, e: Event, n: nat)
    requires n > 0 && Inv(s, n) && Enabled(s, e)
    ensures Inv(Step(s, e, n), n)
  {
    if e.ReadEnd? {
      EndKeepsInv(s, n);
    }
  }

  /** After any interleaving of reads, pauses, seeks, stops, restarts and loop changes: the reader's
      index is in bounds whenever it is about to use it, the numbers given out are 0, 1, 2, ... and equal
      frames_produced, and each frame follows the one before it cyclically unless a seek came between. */
  lemma {:induction false} PlaybackIsContinuous(s: State, es: seq<Event>, n: nat)
    requires n > 0 && Inv(s, n) && Possible(s, es, n)
    ensures Inv(Run(s, es, n), n)
    decreases |es|
  {
    if es != [] {
      StepKeepsInv(s, es[0], n);
      PlaybackIsContinuous(Step(s, es[0], n), es[1..], n);
    }
  }

  lemma InitInv(loop: bool, n: nat)
    requires n > 0
    ensures Inv(Init(loop), n)
  {
  }

  lemma ModuloStep(a: nat, n: nat)
    requires n > 0
    ensures After(a % n, n) == (a + 1) % n
  {
    var q, r := a / n, a % n;
    Division.DivisionAlgorithm(a, n);
    if r + 1 < n {
      Division.RemainderIs(a + 1, n, q, r + 1);
    } else {
      assert (q + 1) * n == q * n + n;
      Division.RemainderIs(a + 1, n, q + 1, 0);
    }
  }

  lemma NextModulo(a: nat, d: nat, n: nat)
    requires n > 0 && d > 0
    ensures After((a + (d - 1)) % n, n) == (a + d) % n
  {
    ModuloStep(a + d - 1, n);
  }

  /** Without a seek in between, a frame is the cyclic successor of the one before. */
  lemma SuccessorWithoutJump(emitted: seq<Emission>, n: nat, k: nat)
    requires n > 0 && Continuous(emitted, n) && 0 < k < |emitted| && emitted[k].jump == None
    ensures emitted[k].position == After(emitted[k - 1].position, n)
  {
    assert emitted[..k][|emitted[..k]| - 1] == emitted[k - 1];
  }

  /** Between two seeks the frames of the recording come round and round. */
  lemma {:induction false} NoJumpBetween(emitted: seq<Emission>, n: nat, i: nat, d: nat)
    requires n > 0 && Continuous(emitted, n) && i + d < |emitted|
    requires forall k :: i < k <= i + d ==> emitted[k].jump == None
    ensures emitted[i + d].position == (emitted[i].position + d) % n
    decreases d
  {
    var first := emitted[i].position;
    if d == 0 {
      assert first < n;
      Division.QuotientIs(first, n, 0);
    } else {
      NoJumpBetween(emitted, n, i, d - 1);
      SuccessorWithoutJump(emitted, n, i + d);
      NextModulo(first, d, n);
    }
  }

  ghost predicate NoSeek(es: seq<Event>) {
    forall i :: 0 <= i < |es| ==> !es[i].Seek?
  }

  ghost predicate NoJumps(t: Trace) {
    t.pending == None && forall k :: 0 <= k < |t.emitted| ==> t.emitted[k].jump == None
  }

  lemma {:induction false} NoSeekNoJumps(s: State, es: seq<Event>, n: nat)
    requires NoSeek(es) && NoJumps(s.trace)
    ensures NoJumps(Run(s, es, n).trace)
    decreases |es|
  {
    if es != [] {
      NoSeekNoJumps(Step(s, es[0], n), es[1..], n);
    }
  }

  /** Without a seek the k-th emitted frame is frame k mod n, whatever pauses, stops, restarts and loop
      changes there were. */
  lemma WithoutSeekFramesComeInOrder(loop: bool, es: seq<Event>, n: nat, k: nat)
    requires n > 0 && Possible(Init(loop), es, n) && NoSeek(es)
    requires k < |Run(Init(loop), es, n).trace.emitted|
    ensures var x := Run(Init(loop), es, n).trace.emitted[k];
            x.position == k % n && x.number == k
  {
    InitInv(loop, n);
    PlaybackIsContinuous(Init(loop), es, n);
    NoSeekNoJumps(Init(loop), es, n);
    var emitted := Run(Init(loop), es, n).trace.emitted;
    NoJumpBetween(emitted, n, 0, k);
    assert emitted[..0] == [];
  }

  // --- Where playback ends ---

  ghost predicate PlainPlayback(es: seq<Event>) {
    forall i :: 0 <= i < |es| ==> !es[i].Seek? && !es[i].Start? && es[i] != SetLoop(true)
  }

  lemma {:induction false} PlainPlaybackAdvances(s: State, es: seq<Event>, n: nat)
    requires n > 0 && Inv(s, n) && Possible(s, es, n) && !s.player.loop && PlainPlayback(es)
    ensures var t := Run(s, es, n);
            && !t.player.loop && Inv(t, n)
            && t.player.index - s.player.index == |t.trace.emitted| - |s.trace.emitted|
    decreases |es|
  {
    if es != [] {
      StepKeepsInv(s, es[0], n);
      PlainPlaybackAdvances(Step(s, es[0], n), es[1..], n);
    }
  }

  /** Without looping, seeking or restarting, at most the rest of the recording is emitted; the read
      after the last frame stops the player. */
  lemma PlaybackEndsWithTheRecording(s: State, es: seq<Event>, n: nat)
    requires n > 0 && Inv(s, n) && Possible(s, es, n) && !s.player.loop && PlainPlayback(es)
    ensures var t := Run(s, es, n);
            && |t.trace.emitted| - |s.trace.emitted| <= n - s.player.index
            && (|t.trace.emitted| - |s.trace.emitted| == n - s.player.index && t.player.status == Running ==>
                  Step(t, ReadBegin, n).player.status == Stopped)
  {
    PlainPlaybackAdvances(s, es, n);
  }

  /** A read ends playback exactly at the end of a recording that is not looped; any other one goes on to
      wait for the next frame, cyclically. */
  lemma ReadStopsIff(s: State, n: nat)
    requires n > 0 && Inv(s, n) && s.player.status == Running && !s.player.waiting
    ensures var t := Step(s, ReadBegin, n);
            if s.player.index == n && !s.player.loop then t == s.(player := s.player.(status := Stopped))
            else t == s.(player := s.player.(index := s.player.index % n, waiting := true))
  {
    if s.player.index < n {
      Division.RemainderIs(s.player.index, n, 0, s.player.index);
    }
  }

  /** Reads without a control call in between. */
  function Reads(m: nat): seq<Event> {
    if m == 0 then [] else [ReadBegin, ReadEnd] + Reads(m - 1)
  }

  lemma TwoSteps(s: State, rest: seq<Event>, n: nat)
    ensures var u := Step(Step(s, ReadBegin, n), ReadEnd, n);
            && Run(s, [ReadBegin, ReadEnd] + rest, n) == Run(u, rest, n)
            && (Possible(s, [ReadBegin, ReadEnd] + rest, n) <==>
                  !s.player.waiting && Step(s, ReadBegin, n).player.waiting && Possible(u, rest, n))
  {
    var es := [ReadBegin, ReadEnd] + rest;
    assert es[1..] == [ReadEnd] + rest && es[1..][1..] == rest;
  }

  lemma RoundTheEnd(index: nat, j: nat, n: nat)
    requires n > 0 && index <= n
    ensures (index % n + j) % n == (index + j) % n
  {
    if index < n {
      Division.RemainderIs(index, n, 0, index);
    } else {
      Division.DivisionAlgorithm(j, n);
      Division.RemainderIs(n, n, 1, 0);
      assert (j / n + 1) * n == j / n * n + n;
      Division.RemainderIs(n + j, n, j / n + 1, j % n);
    }
  }

  /** From position k on, the frames come round and round from `index` on. */
  ghost predicate RoundFrom(emitted: seq<Emission>, k: nat, index: nat, n: nat)
    requires n > 0
  {
    forall i :: k <= i < |emitted| ==> emitted[i].position == (index + (i - k)) % n
  }

  /** One read of a player that goes on. */
  lemma OneRead(s: State, n: nat)
    requires n > 0 && Inv(s, n) && s.player.status == Running && !s.player.waiting
    requires s.player.loop || s.player.index < n
    ensures Step(s, ReadBegin, n).player.waiting
    ensures var u := Step(Step(s, ReadBegin, n), ReadEnd, n);
            && Inv(u, n)
            && u.player == s.player.(index := s.player.index % n + 1, sequence := s.player.sequence + 1,
                                     produced := s.player.produced + 1)
            && |u.trace.emitted| == |s.trace.emitted| + 1
            && u.trace.emitted[..|s.trace.emitted|] == s.trace.emitted
            && u.trace.emitted[|s.trace.emitted|].position == s.player.index % n
  {
    ReadStopsIff(s, n);
    StepKeepsInv(s, ReadBegin, n);
    StepKeepsInv(Step(s, ReadBegin, n), ReadEnd, n);
  }

  /** `t` has emitted m more frames than `s`, going round from its position, and still runs. */
  ghost predicate PlayedOn(s: State, t: State, m: nat, n: nat)
    requires n > 0
  {
    var k := |s.trace.emitted|;
    && t.player.status == Running && t.player.loop == s.player.loop && !t.player.waiting
    && |t.trace.emitted| == k + m && t.trace.emitted[..k] == s.trace.emitted
    && RoundFrom(t.trace.emitted, k, s.player.index, n)
    && (!s.player.loop ==> t.player.index == s.player.index + m)
  }

  /** m reads in a row emit exactly m frames, going round the recording from the position on, as long as the
      player loops or the recording lasts; the player keeps running. */
  lemma {:induction false} PlaysOn(s: State, m: nat, n: nat)
    requires n > 0 && Inv(s, n) && s.player.status == Running && !s.player.waiting
    requires s.player.loop || s.player.index + m <= n
    ensures Possible(s, Reads(m), n) && PlayedOn(s, Run(s, Reads(m), n), m, n)
    decreases m
  {
    if m > 0 {
      var u := Step(Step(s, ReadBegin, n), ReadEnd, n);
      OneRead(s, n);
      TwoSteps(s, Reads(m - 1), n);
      if !s.player.loop {
        Division.RemainderIs(s.player.index, n, 0, s.player.index);
      }
      PlaysOn(u, m - 1, n);
      PlayedOneMore(s, u, Run(u, Reads(m - 1), n), m, n);
    }
  }

  lemma PlayedOneMore(s: State, u: State, t: State, m: nat, n: nat)
    requires n > 0 && m > 0 && s.player.index <= n && PlayedOn(u, t, m - 1, n)
    requires u.player == s.player.(index := s.player.index % n + 1, sequence := u.player.sequence,
                                   produced := u.player.produced)
    requires |u.trace.emitted| == |s.trace.emitted| + 1 && u.trace.emitted[..|s.trace.emitted|] == s.trace.emitted
    requires u.trace.emitted[|s.trace.emitted|].position == s.player.index % n
    requires s.player.loop || s.player.index < n
    ensures PlayedOn(s, t, m, n)
  {
    OneAhead(s.trace.emitted, u.trace.emitted, t.trace.emitted, s.player.index, n);
    if !s.player.loop {
      Division.RemainderIs(s.player.index, n, 0, s.player.index);
    }
  }

  lemma OneAhead(before: seq<Emission>, one: seq<Emission>, all: seq<Emission>, index: nat, n: nat)
    requires n > 0 && index <= n
    requires |one| == |before| + 1 && one[..|before|] == before && one[|before|].position == index % n
    requires |all| >= |one| && all[..|one|] == one && RoundFrom(all, |one|, index % n + 1, n)
    ensures all[..|before|] == before && RoundFrom(all, |before|, index, n)
  {
    var k := |before|;
    assert all[..k] == all[..k + 1][..k] && all[k] == all[..k + 1][k];
    forall i | k <= i < |all|
      ensures all[i].position == (index + (i - k)) % n
    {
      RoundTheEnd(index, i - k, n);
      if i > k {
        assert all[i].position == (index % n + 1 + (i - (k + 1))) % n;
      }
    }
  }

  // --- The controls ---

  /** Pausing takes effect only on a running player, and resuming it gives back the same player; nothing is
      emitted, and no read begins, unless the player runs. */
  lemma PauseHoldsPosition(s: State, n: nat)
    ensures s.player.status == Running ==>
              && Step(s, Pause, n) == s.(player := s.player.(status := Paused))
              && Step(Step(s, Pause, n), Resume, n) == s
    ensures s.player.status != Running ==> Step(s, Pause, n) == s && Step(s, ReadBegin, n) == s
    ensures s.player.status != Paused ==> Step(s, Resume, n) == s
    ensures s.player.status != Running ==> Step(s, ReadEnd, n) == s.(player := s.player.(waiting := false))
  {
  }

  /** A stopped player starts again where it stopped, or from the beginning if that was the end; starting
      one that runs or is paused does nothing. */
  lemma StopThenStart(s: State, n: nat)
    requires s.player.index <= n
    ensures Step(s, Stop, n) == s.(player := s.player.(status := Stopped))
    ensures Step(Step(s, Stop, n), Start, n) ==
            s.(player := s.player.(status := Running, index := if s.player.index == n then 0 else s.player.index))
    ensures s.player.status == Running || s.player.status == Paused ==> Step(s, Start, n) == s
    ensures s.player.status == Ready ==> Step(s, Start, n) == Step(Step(s, Stop, n), Start, n)
  {
  }

  /** A seek inside the recording decides the next frame and nothing else; one outside changes nothing. */
  lemma SeekIsNext(s: State, k: nat, n: nat)
    requires n > 0 && Inv(s, n) && s.player.status == Running && !s.player.waiting && k < n
    ensures var t := Run(s, [Seek(k)] + Reads(1), n);
            && Possible(s, [Seek(k)] + Reads(1), n)
            && t.trace.emitted == s.trace.emitted + [Emission(k, |s.trace.emitted|, Some(k))]
            && t.player.status == Running
    ensures forall far :: far >= n ==> Step(s, Seek(far), n) == s
    ensures Step(s, Seek(k), n).player == s.player.(index := k)
  {
    var es := [Seek(k)] + Reads(1);
    assert es[1..] == Reads(1) == [ReadBegin, ReadEnd] + Reads(0);
    TwoSteps(Step(s, Seek(k), n), [], n);
    assert [ReadBegin, ReadEnd] + [] == Reads(1);
  }

  /** Switching the loop decides what happens at the end, and nothing before. */
  lemma LoopDecidesTheEnd(s: State, on: bool, n: nat)
    requires n > 0 && Inv(s, n) && s.player.status == Running && !s.player.waiting && s.player.index == n
    ensures var t := Step(Step(s, SetLoop(on), n), ReadBegin, n);
            if on then t.player.status == Running && t.player.waiting && t.player.index == 0
            else t.player.status == Stopped && !t.player.waiting && t.player.index == n
    ensures var t := Step(s, SetLoop(on), n); t == s.(player := s.player.(loop := on))
  {
  }

  // --- A second reader, which the design excludes ---

  /** Control calls that put the index back into the recording: an accepted seek or start. */
  predicate Repositions(p: Player, e: Event, n: nat) {
    (e.Seek? && e.target < n) || (e.Start? && (p.status == Ready || p.status == Stopped))
  }

  ghost predicate Repositioned(s: State, es: seq<Event>, n: nat)
    decreases |es|
  {
    es != [] && (Repositions(s.player, es[0], n) || Repositioned(Step(s, es[0], n), es[1..], n))
  }

  ghost predicate OnlyControls(es: seq<Event>) {
    forall i :: 0 <= i < |es| ==> !es[i].ReadBegin? && !es[i].ReadEnd?
  }

  lemma {:induction false} OverrunLasts(s: State, es: seq<Event>, n: nat)
    requires n > 0 && OnlyControls(es) && s.player.index <= n
    ensures Run(s, es, n).player.index == n <==> s.player.index == n && !Repositioned(s, es, n)
    decreases |es|
  {
    if es != [] {
      OverrunLasts(Step(s, es[0], n), es[1..], n);
    }
  }

  /** When two readers wait and one emits, the other one, after any control calls, finds the index past the
      end exactly if the first took the final frame and no seek or start was accepted since. */
  lemma SecondReaderOverrunsIff(s: State, es: seq<Event>, n: nat)
    requires n > 0 && Inv(s, n) && s.player.waiting && s.player.status == Running && OnlyControls(es)
    ensures Run(End(s), es, n).player.index >= n <==> s.player.index == n - 1 && !Repositioned(End(s), es, n)
    ensures Run(End(s), es, n).player.index <= n
  {
    OverrunLasts(End(s), es, n);
    IndexStaysBounded(End(s), es, n);
  }

  lemma {:induction false} IndexStaysBounded(s: State, es: seq<Event>, n: nat)
    requires OnlyControls(es) && s.player.index <= n
    ensures Run(s, es, n).player.index <= n
    decreases |es|
  {
    if es != [] {
      IndexStaysBounded(Step(s, es[0], n), es[1..], n);
    }
  }

  /** The shortest such run: two readers enter a recording of one frame, and the first one takes it. */
  lemma SecondReaderCanOverrun()
    ensures var s := Run(Init(false), [Start, ReadBegin], 1);
            && Begin(s.player, 1) == s.player && s.player.waiting
            && End(s).player.status == Running && End(s).player.index == 1
  {
    var es := [Start, ReadBegin];
    var started := Step(Init(false), Start, 1);
    assert es[1..] == [ReadBegin] && es[1..][1..] == [];
    assert Run(Init(false), es, 1) == Run(started, [ReadBegin], 1) == Run(Step(started, ReadBegin, 1), [], 1);
  }

  // --- The frames handed out ---

  datatype Recording = Recording(name: string, session: string, frames: seq<SpectrumFrame>)

  /** A recorded frame as it is replayed under the given number. */
  function Replayed(r: Recording, f: SpectrumFrame, number: nat): SpectrumFrame {
    f.(sourceType := Replay,
       sourceDevice := "replay:" + r.name,
       sessionId := if r.session != "" then r.session else f.sessionId,
       sequence := number,
       metadata := f.metadata.(attributes := f.metadata.attributes["replayed" := "true"]
                     ["original_source_type" := TypeName(f.sourceType)]["original_sequence" := Decimal(f.sequence)]))
  }

  function TypeName(t: SourceType): string {
    match t
    case Mock => "mock"
    case Replay => "replay"
    case Aaronia => "aaronia"
    case Usrp => "usrp"
    case Hackrf => "hackrf"
    case Unknown => "unknown"
  }

  function Decimal(n: nat): string {
    (if n < 10 then "" else Decimal(n / 10)) + [('0' as int + n % 10) as char]
  }

  /** The number that a text of digits stands for. */
  function Value(s: string): int {
    if s == [] then 0 else 10 * Value(s[..|s| - 1]) + (s[|s| - 1] as int - '0' as int)
  }

  /** Digits only, no leading zero, and read back as the number. */
  lemma {:induction false} DecimalReadsBack(n: nat)
    ensures Value(Decimal(n)) == n && Decimal(n) != []
    ensures forall i :: 0 <= i < |Decimal(n)| ==> '0' <= Decimal(n)[i] <= '9'
    ensures Decimal(n)[0] == '0' ==> n == 0
    decreases n
  {
    var s := Decimal(n);
    var rest := s[..|s| - 1];
    if n < 10 {
      assert rest == [];
    } else {
      assert rest == Decimal(n / 10);
      DecimalReadsBack(n / 10);
    }
  }

  lemma TypeNamesDiffer(t: SourceType, u: SourceType)
    requires TypeName(t) == TypeName(u)
    ensures t == u
  {
    assert forall x :: TypeName(x) == "mock" ==> |TypeName(x)| == 4;
    assert TypeName(t)[0] == TypeName(u)[0] && |TypeName(t)| == |TypeName(u)|;
  }

  /** What a replayed frame is called: the player is its source, the recorded source and number are kept as
      attributes, and so are all other attributes. */
  lemma ReplayedIsMarked(r: Recording, f: SpectrumFrame, number: nat)
    ensures var g, before := Replayed(r, f, number), f.metadata.attributes;
            var now := g.metadata.attributes;
            && g.sourceType == Replay && g.sourceDevice == "replay:" + r.name && g.sequence == number
            && (r.session == "" ==> g.sessionId == f.sessionId) && (r.session != "" ==> g.sessionId == r.session)
            && now.Keys == before.Keys + {"replayed", "original_source_type", "original_sequence"}
            && now["replayed"] == "true" && now["original_source_type"] == TypeName(f.sourceType)
            && Value(now["original_sequence"]) == f.sequence
            && forall k :: k in before && k !in {"replayed", "original_source_type", "original_sequence"} ==>
                 now[k] == before[k]
  {
    DecimalReadsBack(f.sequence);
    assert |"replayed"| == 8 && |"original_source_type"| == 20 && |"original_sequence"| == 17;
  }

  /** A replayed frame is again well formed and carries the recorded measurement. */
  lemma ReplayedIsWellFormed(r: Recording, f: SpectrumFrame, number: nat, maxPoints: int)
    requires WellFormed(f, maxPoints)
    ensures var g := Replayed(r, f, number);
            && WellFormed(g, maxPoints)
            && g.powers == f.powers && g.start == f.start && g.stop == f.stop && g.step == f.step
            && g.timestamp == f.timestamp && g.flags == f.flags && g.metadata.gain == f.metadata.gain
  {
    assert ("replay:" + r.name)[0] == 'r';
  }

  // --- The object ---

  /** The object behind the mutex. */
  class ReplayRfSource {
    const recording: Recording
    var status: Status
    var loop: bool
    var index: nat
    var sequence: nat
    var produced: nat
    ghost var waiting: bool
    ghost var trace: Trace

    ghost function View(): State
      reads this
    {
      State(Player(status, loop, index, sequence, produced, waiting), trace)
    }

    ghost predicate Valid()
      reads this
    {
      recording.frames != [] && Inv(View(), |recording.frames|)
    }

    ghost function Next(e: Event): State
      reads this
    {
      Step(View(), e, |recording.frames|)
    }

    /** The state after a recording has been loaded. */
    constructor (loaded: Recording, loop: bool)
      requires loaded.frames != []
      ensures Valid() && View() == Init(loop) && recording == loaded
    {
      recording := loaded;
      status, this.loop, index, sequence, produced, waiting := Ready, loop, 0, 0, 0, false;
      trace := Trace([], None);
    }

    method Start() returns (ok: bool)
      requires Valid()
      modifies this
      ensures Valid() && View() == old(Next(Event.Start))
      ensures ok == (old(status) == Ready || old(status) == Stopped)
    {
      StepKeepsInv(View(), Event.Start, |recording.frames|);
      if status != Ready && status != Stopped {
        return false;
      }
      if index >= |recording.frames| {
        index := 0;
      }
      status := Running;
      return true;
    }

    method Stop()
      requires Valid()
      modifies this
      ensures Valid() && View() == old(Next(Event.Stop))
    {
      StepKeepsInv(View(), Event.Stop, |recording.frames|);
      if status == Running || status == Paused || status == Ready {
        status := Stopped;
      }
    }

    method Pause() returns (ok: bool)
      requires Valid()
      modifies this
      ensures Valid() && View() == old(Next(Event.Pause)) && ok == (old(status) == Running)
    {
      StepKeepsInv(View(), Event.Pause, |recording.frames|);
      if status != Running {
        return false;
      }
      status := Paused;
      return true;
    }

    method Resume() returns (ok: bool)
      requires Valid()
      modifies this
      ensures Valid() && View() == old(Next(Event.Resume)) && ok == (old(status) == Paused)
    {
      StepKeepsInv(View(), Event.Resume, |recording.frames|);
      if status != Paused {
        return false;
      }
      status := Running;
      return true;
    }

    method Seek(target: nat) returns (ok: bool)
      requires Valid()
      modifies this
      ensures Valid() && View() == old(Next(Event.Seek(target))) && ok == (target < |recording.frames|)
    {
      StepKeepsInv(View(), Event.Seek(target), |recording.frames|);
      if target >= |recording.frames| {
        return false;
      }
      index := target;
      trace := trace.(pending := Some(target));
      return true;
    }

    method SetLoop(on: bool)
      requires Valid()
      modifies this
      ensures Valid() && View() == old(Next(Event.SetLoop(on)))
    {
      StepKeepsInv(View(), Event.SetLoop(on), |recording.frames|);
      loop := on;
    }

    /** readSpectrumFrame up to the wait; false when it returns without waiting. */
    method BeginRead() returns (wait: bool)
      requires Valid() && !waiting
      modifies this
      ensures Valid() && View() == old(Next(ReadBegin)) && wait == waiting
    {
      StepKeepsInv(View(), ReadBegin, |recording.frames|);
      if status != Running {
        return false;
      }
      if index >= |recording.frames| {
        if loop {
          index := 0;
        } else {
          status := Stopped;
          return false;
        }
      }
      waiting := true;
      return true;
    }

    /** readSpectrumFrame after the wait. */
    method EndRead() returns (frame: Option<SpectrumFrame>)
      requires Valid() && waiting
      modifies this
      ensures Valid() && View() == old(Next(ReadEnd))
      ensures frame == if old(status) == Running
                       then Some(Replayed(recording, recording.frames[old(index)], old(sequence)))
                       else None
    {
      EndKeepsInv(View(), |recording.frames|);
      waiting := false;
      if status != Running {
        return None;
      }
      frame := Some(Replayed(recording, recording.frames[index], sequence));
      trace := Trace(trace.emitted + [Emission(index, sequence, trace.pending)], None);
      index := index + 1;
      sequence := sequence + 1;
      produced := produced + 1;
    }
  }
}
