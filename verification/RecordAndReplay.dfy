/** What was recorded is what is played: the writer, the loader and the player together. */
module RecordAndReplay {
  import opened Prelude
  import opened FrequencyAxis
  import opened RecordingText
  import opened RecordingFormat
  import RecordingStore
  import ReplaySource

  /** Wherever the writer was interrupted and whatever failed: a directory that `recordings` lists loads
      exactly if its book says that it can. */
  lemma ListedLoadsIff(es: seq<RecordingStore.Event>, tools: Tools, d: RecordingStore.DirName, limits: Limits)
    requires Sound(tools) && d in RecordingStore.Listed(RecordingStore.Run(RecordingStore.EMPTY, es, tools).fs)
    ensures var s := RecordingStore.Run(RecordingStore.EMPTY, es, tools);
            && d.id in s.books
            && (Load(tools, s.fs[d], limits).Ok? <==> CanLoad(tools, s.books[d.id], limits))
  {
    var s := RecordingStore.Run(RecordingStore.EMPTY, es, tools);
    RecordingStore.ListedRecordingsAreFinished(es, tools, d);
    LoadsIff(tools, s.fs[d], d.id, s.books[d.id], limits);
  }

  /** Wherever the writer was interrupted, a directory that `recordings` lists loads to the surviving
      frames of its recording, if no append failed, its file was closed properly, the loader's limits
      suffice and the documents can be read back. */
  lemma ListedRecordingLoads(es: seq<RecordingStore.Event>, tools: Tools, d: RecordingStore.DirName, limits: Limits)
    requires Sound(tools) && d in RecordingStore.Listed(RecordingStore.Run(RecordingStore.EMPTY, es, tools).fs)
    requires d.id in RecordingStore.Run(RecordingStore.EMPTY, es, tools).books
    requires var b := RecordingStore.Run(RecordingStore.EMPTY, es, tools).books[d.id];
             && AllWhole(b.log) && b.flushed && |TextOf(b.log)| <= limits.maxText
             && ReadsBack(tools, b.frames) && WithinLimits(tools, b.frames, limits)
    ensures var s := RecordingStore.Run(RecordingStore.EMPTY, es, tools);
            Load(tools, s.fs[d], limits) == Recovered(s.books[d.id].frames)
  {
    var s := RecordingStore.Run(RecordingStore.EMPTY, es, tools);
    RecordingStore.ListedRecordingsAreFinished(es, tools, d);
    RecordingRoundTrip(tools, s.fs[d], d.id, s.books[d.id], limits);
  }

  ghost predicate AllReadable(frames: seq<SpectrumFrame>) {
    forall i :: 0 <= i < |frames| ==> Restored(frames[i]).Some?
  }

  /** Readable frames all survive, in order. */
  lemma {:induction false} AllSurvive(frames: seq<SpectrumFrame>)
    requires AllReadable(frames)
    ensures |Survivors(frames)| == |frames|
    ensures forall i :: 0 <= i < |frames| ==> Survivors(frames)[i] == Restored(frames[i]).value
    decreases |frames|
  {
    if frames != [] {
      AllSurvive(frames[..|frames| - 1]);
    }
  }

  lemma LoadedInFull(frames: seq<SpectrumFrame>)
    requires frames != [] && |Survivors(frames)| == |frames|
    ensures Recovered(frames) == Ok(Loaded(Survivors(frames), 0))
  {
  }

  /** The measurement in a frame. */
  ghost predicate SameMeasurement(f: SpectrumFrame, g: SpectrumFrame) {
    && f.start == g.start && f.stop == g.stop && f.step == g.step && f.center == g.center
    && f.numPoints == g.numPoints && f.powers == g.powers && f.powerUnit == g.powerUnit
    && f.sampleRate == g.sampleRate && f.rbw == g.rbw && f.timestamp == g.timestamp && f.flags == g.flags
    && f.sensorId == g.sensorId && f.metadata.gain == g.metadata.gain && f.metadata.simulated == g.metadata.simulated
  }

  lemma ReplayedMeasurement(r: ReplaySource.Recording, f: SpectrumFrame, number: nat)
    requires Restored(f).Some?
    ensures SameMeasurement(ReplaySource.Replayed(r, Restored(f).value, number), f)
  {
  }

  /** Recording readable frames and playing them without a seek: the k-th frame played carries the
      measurement of recorded frame k mod n, under number k. */
  lemma RecordThenReplay(
    frames: seq<SpectrumFrame>, name: string, session: string, loop: bool, es: seq<ReplaySource.Event>, k: nat)
    requires frames != [] && AllReadable(frames)
    requires ReplaySource.Possible(ReplaySource.Init(loop), es, |frames|) && ReplaySource.NoSeek(es)
    requires k < |ReplaySource.Run(ReplaySource.Init(loop), es, |frames|).trace.emitted|
    ensures Recovered(frames) == Ok(Loaded(Survivors(frames), 0)) && |Survivors(frames)| == |frames|
    ensures var r := ReplaySource.Recording(name, session, Survivors(frames));
            var x := ReplaySource.Run(ReplaySource.Init(loop), es, |frames|).trace.emitted[k];
            && x.position < |r.frames|
            && var played := ReplaySource.Replayed(r, r.frames[x.position], x.number);
               SameMeasurement(played, frames[k % |frames|]) && played.sequence == k
  {
    AllSurvive(frames);
    LoadedInFull(frames);
    ReplaySource.WithoutSeekFramesComeInOrder(loop, es, |frames|, k);
    var r := ReplaySource.Recording(name, session, Survivors(frames));
    Division.DivisionAlgorithm(k, |frames|);
    ReplayedMeasurement(r, frames[k % |frames|], k);
  }

  /** Appends and close succeeded, the limits suffice, and every frame can be read back. */
  ghost predicate Loadable(tools: Tools, b: Book, limits: Limits) {
    && AllWhole(b.log) && b.flushed && |TextOf(b.log)| <= limits.maxText
    && ReadsBack(tools, b.frames) && WithinLimits(tools, b.frames, limits) && AllReadable(b.frames)
  }

  /** From the writer's system calls to the screen: wherever the recording was interrupted, a listed one
      whose appends and close succeeded, within the loader's limits and with readable frames, is loaded in
      full, and played without a seek the k-th frame carries the measurement of the (k mod n)-th frame whose
      append succeeded, under number k. */
  lemma RecordedIsPlayed(
    calls: seq<RecordingStore.Event>, tools: Tools, d: RecordingStore.DirName, limits: Limits, name: string,
    session: string, loop: bool, es: seq<ReplaySource.Event>, k: nat)
    requires Sound(tools) && d in RecordingStore.Listed(RecordingStore.Run(RecordingStore.EMPTY, calls, tools).fs)
    requires d.id in RecordingStore.Run(RecordingStore.EMPTY, calls, tools).books
    requires Loadable(tools, RecordingStore.Run(RecordingStore.EMPTY, calls, tools).books[d.id], limits)
    requires var n := |RecordingStore.Run(RecordingStore.EMPTY, calls, tools).books[d.id].frames|;
             && ReplaySource.Possible(ReplaySource.Init(loop), es, n) && ReplaySource.NoSeek(es)
             && k < |ReplaySource.Run(ReplaySource.Init(loop), es, n).trace.emitted|
    ensures var s := RecordingStore.Run(RecordingStore.EMPTY, calls, tools);
            var frames, loaded := s.books[d.id].frames, Load(tools, s.fs[d], limits);
            && loaded.Ok? && loaded.value.dropped == 0 && |loaded.value.frames| == |frames| > 0
            && var r := ReplaySource.Recording(name, session, loaded.value.frames);
               var x := ReplaySource.Run(ReplaySource.Init(loop), es, |r.frames|).trace.emitted[k];
               x.position < |r.frames|
               && var played := ReplaySource.Replayed(r, r.frames[x.position], x.number);
                  SameMeasurement(played, frames[k % |frames|]) && played.sequence == k
  {
    var frames := RecordingStore.Run(RecordingStore.EMPTY, calls, tools).books[d.id].frames;
    RecordingStore.ListedRecordingsAreFinished(calls, tools, d);
    ListedRecordingLoads(calls, tools, d, limits);
    RecordThenReplay(frames, name, session, loop, es, k);
  }
}
