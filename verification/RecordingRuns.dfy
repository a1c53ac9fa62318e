/** Whole runs of the recording writer that show where a listed recording cannot be loaded. */
module RecordingRuns {
  import opened Prelude
  import opened NdjsonFraming
  import opened FrequencyAxis
  import opened RecordingText
  import opened RecordingFormat
  import opened RecordingStore

  /** A frame that every check accepts. */
  const SAMPLE := SpectrumFrame(
    1, "sensor", Aaronia, "device", "model", "sweep", "session", "2024-01-01T00:00:00Z", 0, 150, 100, 200, 100, 1000,
    Dbm(10.0), 2, "dBm", [Dbm(-90.0), Dbm(-80.0)], Flags(false, false, false), Metadata(None, None, false, map[]))

  predicate NewYear(t: string) {
    && |t| == 20 && t[4] == '-' && t[7] == '-' && t[10] == 'T' && t[13] == ':' && t[16] == ':' && t[19] == 'Z'
    && t[0] == '2' && t[1] == '0' && t[2] == '2' && t[3] == '4'
    && t[5] == '0' && t[6] == '1' && t[8] == '0' && t[9] == '1'
    && t[11] == '0' && t[12] == '0' && t[14] == '0' && t[15] == '0' && t[17] == '0' && t[18] == '0'
  }

  lemma TwoDigits(t: string, at: nat)
    requires Digits(t, at, 2)
    ensures Number(t, at, 2) == 10 * (t[at] as int - '0' as int) + (t[at + 1] as int - '0' as int)
  {
    assert Number(t, at, 0) == 0 && Number(t, at, 1) == t[at] as int - '0' as int;
  }

  lemma TimestampIsValid(t: string)
    requires NewYear(t)
    ensures ValidTimestamp(t)
  {
    TwoDigits(t, 0);
    assert Number(t, 0, 3) == 202 && Number(t, 0, 4) == 2024;
    TwoDigits(t, 5);
    TwoDigits(t, 8);
    TwoDigits(t, 11);
    TwoDigits(t, 14);
    TwoDigits(t, 17);
    assert t[19..] == ['Z'];
  }

  lemma SampleTimestamp()
    ensures ValidTimestamp(SAMPLE.timestamp)
  {
    TimestampIsValid(SAMPLE.timestamp);
  }

  /** The frame is valid; read back, it has lost its device model and measurement mode. */
  lemma SampleLosesModel()
    ensures WellFormed(SAMPLE, MAX_SPECTRUM_POINTS)
    ensures ParseFrame(ToDoc(SAMPLE)) == Some(SAMPLE.(deviceModel := "unknown", measurementMode := "spectrum"))
    ensures ParseFrame(ToDoc(SAMPLE)) != Some(SAMPLE)
  {
    SampleTimestamp();
    FrameReadsBack(SAMPLE, MAX_SPECTRUM_POINTS);
    assert |SAMPLE.deviceModel| == 5;
  }

  /** With an attribute called "gain_db" it is still valid, but cannot be read back at all. */
  lemma SampleBecomesUnreadable()
    ensures var f := SAMPLE.(metadata := Metadata(None, None, false, map["gain_db" := "auto"]));
            WellFormed(f, MAX_SPECTRUM_POINTS) && ParseFrame(ToDoc(f)) == None
  {
    SampleTimestamp();
    FrameReadsBack(SAMPLE.(metadata := Metadata(None, None, false, map["gain_db" := "auto"])), MAX_SPECTRUM_POINTS);
  }

  // --- Sessions from the empty store ---

  const DONE := Atomic(true, true, true)

  /** stop, where everything succeeds except perhaps flushing the frame file or the last rename. */
  function Finishing(flushed: bool, publish: bool): Plan {
    Plan(true, true, flushed, true, DONE, DONE, publish)
  }

  /** A recording that one frame is appended to, and then more. */
  function Session(id: string, f: SpectrumFrame, more: seq<Event>): seq<Event> {
    [Begin(id, true)] + ([Open(true, false)] + ([Append(f, Written)] + more))
  }

  /** The state after the first frame. */
  ghost function Started(id: string, f: SpectrumFrame, tools: Tools): State {
    Step(Step(Step(EMPTY, Begin(id, true), tools), Open(true, false), tools), Append(f, Written), tools)
  }

  lemma StartedIs(id: string, f: SpectrumFrame, tools: Tools, more: seq<Event>)
    requires SafeId(id) && WellFormed(f, MAX_SPECTRUM_POINTS)
    ensures var s := Started(id, f, tools);
            && Inv(s, tools) && Run(EMPTY, Session(id, f, more), tools) == Run(s, more, tools)
            && s.writer.phase == Active && s.writer.id == id && s.writer.count == 1 && !s.writer.broken
            && id in s.books && s.books[id] == Book([f], [Whole(Line(tools, f))], false, false, Staged)
  {
    var begun := Step(EMPTY, Begin(id, true), tools);
    var ready := Step(begun, Open(true, false), tools);
    EmptyInv(tools);
    StepKeepsInv(EMPTY, Begin(id, true), tools);
    StepKeepsInv(begun, Open(true, false), tools);
    StepKeepsInv(ready, Append(f, Written), tools);
    RunOne(EMPTY, Begin(id, true), [Open(true, false)] + ([Append(f, Written)] + more), tools);
    RunOne(begun, Open(true, false), [Append(f, Written)] + more, tools);
    RunOne(ready, Append(f, Written), more, tools);
  }

  lemma EndedSession(s: State, tools: Tools, flushed: bool, publish: bool)
    requires Inv(s, tools) && s.writer.phase == Active && s.writer.count > 0 && !s.writer.broken
    ensures var t, id := Run(s, StopEvents(Finishing(flushed, publish)), tools), s.writer.id;
            && id in s.books && id in t.books
            && t.books[id] == s.books[id].(flushed := flushed, stage := LastStage(Finishing(flushed, publish)))
  {
    StopIsRun(s, tools, Finishing(flushed, publish));
    CommittedStop(s, tools, Finishing(flushed, publish));
  }

  lemma CommittedStop(s: State, tools: Tools, p: Plan)
    requires Inv(s, tools) && s.writer.phase == Active && s.writer.count > 0 && !s.writer.broken && Commits(p)
    ensures var t, id := StopAll(s, tools, p), s.writer.id;
            && id in s.books && id in t.books
            && t.books[id] == s.books[id].(flushed := p.flushed, stage := LastStage(p))
  {
    StopPublishesIff(s, tools, p);
  }

  /** When the last rename fails, the recording stays listed under the name of its staging directory. */
  lemma StagingDirectoryIsListed(id: string, f: SpectrumFrame, tools: Tools)
    requires SafeId(id) && WellFormed(f, MAX_SPECTRUM_POINTS)
    ensures var s := Run(EMPTY, Session(id, f, StopEvents(Finishing(true, false))), tools);
            Hidden(id) in Listed(s.fs) && Final(id) !in Listed(s.fs)
  {
    var stop := StopEvents(Finishing(true, false));
    StartedIs(id, f, tools, stop);
    EndedSession(Started(id, f, tools), tools, true, false);
    ListedIff(Session(id, f, stop), tools, id);
  }

  lemma OneLine(line: string)
    ensures TextOf([Whole(line)]) == line + ['\n']
  {
    assert TextOf([Whole(line)]) == line + ['\n'] + TextOf([]);
  }

  /** When closing the frame file fails, the recording is published and can never be loaded. */
  lemma UnflushedIsPublished(id: string, f: SpectrumFrame, tools: Tools, limits: Limits)
    requires SafeId(id) && WellFormed(f, MAX_SPECTRUM_POINTS) && Sound(tools)
    requires |Line(tools, f)| < limits.maxText
    ensures var s := Run(EMPTY, Session(id, f, StopEvents(Finishing(false, true))), tools);
            && Final(id) in Listed(s.fs) && Load(tools, s.fs[Final(id)], limits) == Err(Truncated)
  {
    var stop := StopEvents(Finishing(false, true));
    var s := Run(EMPTY, Session(id, f, stop), tools);
    StartedIs(id, f, tools, stop);
    EndedSession(Started(id, f, tools), tools, false, true);
    ListedIff(Session(id, f, stop), tools, id);
    ListedRecordingsAreFinished(Session(id, f, stop), tools, Final(id));
    OneLine(Line(tools, f));
    UnflushedNeverLoads(tools, s.fs[Final(id)], id, s.books[id], limits);
  }

  // --- A torn append ---

  /** The compressor fails after one character of a second frame's line. */
  function Torn(f: SpectrumFrame): seq<Event> {
    [Append(f, CompressorFails(1))] + StopEvents(Finishing(true, true))
  }

  lemma TornAppend(s: State, f: SpectrumFrame, tools: Tools)
    requires Inv(s, tools) && s.writer.phase == Active && WellFormed(f, MAX_SPECTRUM_POINTS) && Sound(tools)
    ensures var t, id := Step(s, Append(f, CompressorFails(1)), tools), s.writer.id;
            && Inv(t, tools) && t.writer == s.writer.(stream := t.writer.stream) && id in s.books && id in t.books
            && t.books[id] == s.books[id].(log := s.books[id].log + [Part(Line(tools, f)[..1])])
  {
    StepKeepsInv(s, Append(f, CompressorFails(1)), tools);
    assert Line(tools, f) != [];
  }

  lemma TornBook(id: string, f: SpectrumFrame, tools: Tools)
    requires SafeId(id) && WellFormed(f, MAX_SPECTRUM_POINTS) && Sound(tools)
    ensures var s := Run(EMPTY, Session(id, f, Torn(f)), tools);
            && id in s.books
            && s.books[id] == Book([f], [Whole(Line(tools, f)), Part(Line(tools, f)[..1])], false, true, Published)
  {
    var first := Started(id, f, tools);
    var second := Step(first, Append(f, CompressorFails(1)), tools);
    StartedIs(id, f, tools, Torn(f));
    RunOne(first, Append(f, CompressorFails(1)), StopEvents(Finishing(true, true)), tools);
    TornAppend(first, f, tools);
    EndedSession(second, tools, true, true);
  }

  lemma OnePiece(piece: string)
    ensures TextOf([Part(piece)]) == piece && Loose([], [Part(piece)]) == piece
  {
    assert TextOf([Part(piece)]) == piece + TextOf([]);
    assert Loose([], [Part(piece)]) == Loose([] + piece, []) && [] + piece == piece;
  }

  lemma LineThenPiece(line: string, piece: string)
    ensures var log := [Whole(line), Part(piece)];
            TextOf(log) == line + ['\n'] + piece && Loose([], log) == piece
  {
    var log := [Whole(line), Part(piece)];
    OnePiece(piece);
    assert log[1..] == [Part(piece)];
  }

  lemma TornText(line: string, piece: string)
    requires NewlineFree(line) && NewlineFree(piece) && piece != []
    ensures GetLines(line + ['\n'] + piece) == [line, piece]
  {
    SplitLine(line, piece);
    SplitJoin(Framed([], piece));
    assert [line] + [] == [line];
  }

  lemma TornReads(tools: Tools, f: SpectrumFrame, limits: Limits)
    requires Sound(tools) && WellFormed(f, MAX_SPECTRUM_POINTS) && Restored(f).Some?
    requires tools.parse(Line(tools, f)) == Some(ToDoc(f))
    requires limits.maxFrames >= 2 && |Line(tools, f)| <= limits.maxLine
    ensures var lines := [Line(tools, f), Line(tools, f)[..1]];
            Readable(tools, lines[0], limits) && !Overfull(tools, lines, limits, 0)
  {
    ReadsRestored(tools, f);
    FewLinesFit(tools, [Line(tools, f), Line(tools, f)[..1]], limits);
  }

  /** When the last append fails inside its line, the recording is published and refused by the loader,
      although everything in it can be read. */
  lemma TornIsPublished(id: string, f: SpectrumFrame, tools: Tools, limits: Limits)
    requires SafeId(id) && WellFormed(f, MAX_SPECTRUM_POINTS) && Restored(f).Some? && Sound(tools)
    requires tools.parse(Line(tools, f)) == Some(ToDoc(f))
    requires limits.maxFrames >= 2 && |Line(tools, f)| <= limits.maxLine && |Line(tools, f)| + 2 <= limits.maxText
    ensures var s := Run(EMPTY, Session(id, f, Torn(f)), tools);
            && Final(id) in Listed(s.fs) && Load(tools, s.fs[Final(id)], limits) == Err(CountMismatch)
  {
    var es := Session(id, f, Torn(f));
    var s := Run(EMPTY, es, tools);
    TornBook(id, f, tools);
    ListedIff(es, tools, id);
    ListedRecordingsAreFinished(es, tools, Final(id));
    LineThenPiece(Line(tools, f), Line(tools, f)[..1]);
    TornText(Line(tools, f), Line(tools, f)[..1]);
    TornReads(tools, f, limits);
    CountMismatchIff(tools, s.fs[Final(id)], id, s.books[id], limits);
  }
}
