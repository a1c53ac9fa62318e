/** The text that a recording's appends leave behind, and how std::getline cuts it up. */
module RecordingText {
  import opened Prelude
  import opened NdjsonFraming

  /** What went into the compressor: a line with its newline, or, when it failed, part of a line. */
  datatype Write = Whole(line: string) | Part(piece: string)

  function Bytes(w: Write): string {
    match w
    case Whole(line) => line + ['\n']
    case Part(piece) => piece
  }

  function TextOf(log: seq<Write>): string {
    if log == [] then [] else Bytes(log[0]) + TextOf(log[1..])
  }

  function WholeLines(log: seq<Write>): seq<string> {
    if log == [] then []
    else if log[0].Whole? then [log[0].line] + WholeLines(log[1..])
    else WholeLines(log[1..])
  }

  ghost predicate LineWise(log: seq<Write>) {
    forall i :: 0 <= i < |log| ==>
      match log[i]
      case Whole(line) => NewlineFree(line) && line != []
      case Part(piece) => NewlineFree(piece)
  }

  ghost predicate AllWhole(log: seq<Write>) {
    forall i :: 0 <= i < |log| ==> log[i].Whole?
  }

  /** The text after the last newline. */
  function Loose(carry: string, log: seq<Write>): string
    decreases |log|
  {
    if log == [] then carry
    else if log[0].Whole? then Loose([], log[1..])
    else Loose(carry + log[0].piece, log[1..])
  }

  ghost predicate NonEmptyLines(lines: seq<string>) {
    forall i :: 0 <= i < |lines| ==> lines[i] != []
  }

  /** The completed lines, each led by the pieces that failures left before it. */
  function LedLines(carry: string, log: seq<Write>): seq<string>
    decreases |log|
  {
    if log == [] then []
    else if log[0].Whole? then [carry + log[0].line] + LedLines([], log[1..])
    else LedLines(carry + log[0].piece, log[1..])
  }

  lemma {:induction false} LedLinesCount(carry: string, log: seq<Write>)
    requires LineWise(log)
    ensures |LedLines(carry, log)| == |WholeLines(log)| && NonEmptyLines(LedLines(carry, log))
    decreases |log|
  {
    if log != [] {
      LedLinesCount(if log[0].Whole? then [] else carry + log[0].piece, log[1..]);
    }
  }

  /** Each completed write ends one line, which the pieces left by failures before it lead; the pieces after
      the last completed write stay unfinished. */
  lemma {:induction false} SplitText(carry: string, log: seq<Write>)
    requires LineWise(log) && NewlineFree(carry)
    ensures Split(carry + TextOf(log)) == Framed(LedLines(carry, log), Loose(carry, log))
    decreases |log|
  {
    if log == [] {
      assert carry + [] == carry;
      SplitJoin(Framed([], carry));
    } else {
      var tail := TextOf(log[1..]);
      Regroup(carry, Bytes(log[0]), tail);
      if log[0].Whole? {
        SplitAfterLine(carry, log[0].line, tail);
        SplitText([], log[1..]);
      } else {
        SplitText(carry + log[0].piece, log[1..]);
      }
    }
  }

  lemma SplitAfterLine(carry: string, line: string, tail: string)
    requires NewlineFree(carry) && NewlineFree(line)
    ensures var g := Split([] + tail);
            Split(carry + (line + ['\n']) + tail) == Framed([carry + line] + g.lines, g.rest)
  {
    assert [] + tail == tail;
    assert carry + (line + ['\n']) + tail == (carry + line) + ['\n'] + tail;
    SplitLine(carry + line, tail);
  }

  /** Without failures the lines are exactly what was written. */
  lemma {:induction false} SplitCleanText(log: seq<Write>)
    requires LineWise(log) && AllWhole(log)
    ensures Split(TextOf(log)) == Framed(WholeLines(log), [])
    decreases |log|
  {
    if log == [] {
    } else {
      SplitCleanText(log[1..]);
      SplitLine(log[0].line, TextOf(log[1..]));
    }
  }

  /** std::getline also delivers an unfinished last line. */
  function GetLines(text: string): seq<string> {
    var f := Split(text);
    if f.rest == [] then f.lines else f.lines + [f.rest]
  }

  /** As many lines as completed writes, and one more if a failed write left a piece at the end. */
  lemma LineCount(log: seq<Write>)
    requires LineWise(log)
    ensures var lines := GetLines(TextOf(log));
            NonEmptyLines(lines) && |lines| == |WholeLines(log)| + (if Loose([], log) == [] then 0 else 1)
  {
    var text := TextOf(log);
    assert [] + text == text;
    SplitText([], log);
    LedLinesCount([], log);
  }
}

/** The text of a spectrum recording: one JSON document per frame (frame_json.cpp:10-36), and the reading
    of it back (replay_rf_source.cpp:91-126, 321-350). */
module RecordingFormat {
  import opened Prelude
  import opened NdjsonFraming
  import opened RecordingText
  import opened FrequencyAxis

  datatype Value = Text(text: string) | Num(number: real) | Flag(on: bool)

  /** A frame's document: its scalar members, kept in `fields`, and its metadata object. */
  datatype Doc = Doc(fields: SpectrumFrame, metadata: map<string, Value>)

  const NO_METADATA := Metadata(None, None, false, map[])

  /** JSON text, SHA-256 and their readers are given functions. */
  datatype Tools = Tools(dump: Doc -> string, parse: string -> Option<Doc>, digest: File -> string)

  /** A recording's files. A file whose writing was cut short is Partial; a frame file that was closed
      holds text, and is complete when the end of the compressed stream reached the disk. */
  datatype File =
    | Partial
    | Frames(text: string, complete: bool)
    | Checksum(sum: string)
    | Description(meta: RecordingMetadata)

  datatype RecordingMetadata = RecordingMetadata(id: string, count: nat, sum: string, summary: Summary)

  /** Taken from the first accepted frame, except the last timestamp. */
  datatype Summary =
    | Blank
    | Summary(sensorId: string, sourceType: SourceType, sourceDevice: string, sessionId: string,
              firstTimestamp: string, lastTimestamp: string, start: int, stop: int, points: int)

  /** Dumped documents are single non-empty lines, digests have 64 digits. */
  ghost predicate Sound(tools: Tools) {
    && (forall d :: NewlineFree(tools.dump(d)) && tools.dump(d) != [])
    && (forall f :: |tools.digest(f)| == 64)
  }

  // --- One frame ---

  /** metadata_json: attributes share the object with the three named members. */
  function MetadataDoc(m: Metadata): map<string, Value> {
    var plain := (map k | k in m.attributes :: Text(m.attributes[k]))["is_simulated" := Flag(m.simulated)];
    var gained := if m.gain.Some? then plain["gain_db" := Num(m.gain.value)] else plain;
    if m.antenna.Some? then gained["antenna" := Text(m.antenna.value)] else gained
  }

  function ToDoc(f: SpectrumFrame): Doc {
    Doc(f.(metadata := NO_METADATA), MetadataDoc(f.metadata))
  }

  /** A missing or mistyped member is an exception. */
  function ParseMetadata(m: map<string, Value>): Option<Metadata> {
    if "is_simulated" !in m || !m["is_simulated"].Flag? then None
    else if "gain_db" in m && !m["gain_db"].Num? then None
    else if "antenna" in m && !m["antenna"].Text? then None
    else
      Some(Metadata(if "gain_db" in m then Some(m["gain_db"].number) else None,
                    if "antenna" in m then Some(m["antenna"].text) else None,
                    m["is_simulated"].on, map[]))
  }

  /** The axis of a document that has no step is recomputed. */
  function WithStep(f: SpectrumFrame): SpectrumFrame {
    if f.step == 0 && f.numPoints > 1 then
      var step := Wrap(f.stop - f.start) / (f.numPoints - 1);
      f.(step := step, stop := Wrap(f.start + Wrap(step * (f.numPoints - 1))))
    else f
  }

  /** A step that is missing becomes the greatest whole one that stays within the range, which then ends at
      the last point; any other axis is taken as it is. */
  lemma MissingStepIsRecomputed(f: SpectrumFrame)
    ensures f.step != 0 || f.numPoints <= 1 ==> WithStep(f) == f
    ensures f.step == 0 && f.numPoints > 1 && 0 <= f.start <= f.stop < TWO64 ==>
              var g, n := WithStep(f), f.numPoints - 1;
              && g == f.(step := g.step, stop := g.stop)
              && g.step >= 0 && g.step * n <= f.stop - f.start < (g.step + 1) * n
              && g.stop == f.start + g.step * n
  {
    if f.step == 0 && f.numPoints > 1 && 0 <= f.start <= f.stop < TWO64 {
      var span, n := f.stop - f.start, f.numPoints - 1;
      Division.DivisionAlgorithm(span, n);
      assert span / n * n <= span < TWO64;
      assert (span / n + 1) * n == span / n * n + n;
    }
  }

  /** parse_frame: device model, measurement mode and attributes are not read. */
  function ParseFrame(d: Doc): Option<SpectrumFrame> {
    var m := ParseMetadata(d.metadata);
    if m.None? then None
    else Some(WithStep(d.fields).(deviceModel := "unknown", measurementMode := "spectrum", metadata := m.value))
  }

  /** What a recording preserves of a frame. An attribute called "gain_db" without a gain makes the
      frame unreadable; one called "antenna" without an antenna becomes the antenna. */
  function Restored(f: SpectrumFrame): Option<SpectrumFrame> {
    var m := f.metadata;
    if m.gain.None? && "gain_db" in m.attributes then None
    else
      var antenna :=
        if m.antenna.None? && "antenna" in m.attributes then Some(m.attributes["antenna"]) else m.antenna;
      Some(f.(deviceModel := "unknown", measurementMode := "spectrum",
              metadata := Metadata(m.gain, antenna, m.simulated, map[])))
  }

  lemma MetadataReadsBack(m: Metadata)
    ensures ParseMetadata(MetadataDoc(m)) ==
            if m.gain.None? && "gain_db" in m.attributes then None
            else Some(Metadata(m.gain,
                               if m.antenna.None? && "antenna" in m.attributes then Some(m.attributes["antenna"])
                               else m.antenna,
                               m.simulated, map[]))
  {
    var d := MetadataDoc(m);
    assert "is_simulated" in d && d["is_simulated"] == Flag(m.simulated) by {
      assert "is_simulated" != "gain_db" && "is_simulated" != "antenna" by {
        assert |"is_simulated"| == 12 && |"gain_db"| == 7 && |"antenna"| == 7;
      }
    }
    assert "gain_db" != "antenna" by {
      assert "gain_db"[0] == 'g' && "antenna"[0] == 'a';
    }
    assert "gain_db" in d <==> m.gain.Some? || "gain_db" in m.attributes;
    assert "antenna" in d <==> m.antenna.Some? || "antenna" in m.attributes;
  }

  /** Writing a valid frame and reading it gives Restored. */
  lemma FrameReadsBack(f: SpectrumFrame, maxPoints: int)
    requires WellFormed(f, maxPoints)
    ensures ParseFrame(ToDoc(f)) == Restored(f)
    ensures Restored(f).Some? ==> WellFormed(Restored(f).value, maxPoints)
  {
    MetadataReadsBack(f.metadata);
  }

  /** The round trip is exact for exactly the frames that have default values where nothing is read. */
  lemma RestoredExactlyIff(f: SpectrumFrame)
    ensures Restored(f) == Some(f) <==>
            f.deviceModel == "unknown" && f.measurementMode == "spectrum" && f.metadata.attributes == map[]
  {
  }

  // --- Its line ---

  function Line(tools: Tools, f: SpectrumFrame): string {
    tools.dump(ToDoc(f))
  }

  // --- Reading a recording ---

  datatype Limits = Limits(maxFrames: nat, maxLine: nat, maxText: nat)

  datatype LoadError =
    | NoMetadata | NoFrameFile | NoChecksum | ChecksumMismatch | TextTooLarge | Truncated
    | TooManyFrames | NoValidFrame | CountMismatch

  datatype Loaded = Loaded(frames: seq<SpectrumFrame>, dropped: nat)

  /** A document that can be read and validated. */
  ghost function ReadLine(tools: Tools, line: string): Option<SpectrumFrame> {
    var doc := tools.parse(line);
    var frame := if doc.Some? then ParseFrame(doc.value) else None;
    if frame.Some? && WellFormed(frame.value, MAX_SPECTRUM_POINTS) then frame else None
  }

  /** parseFrames, continued from what has been read so far. */
  ghost function ParseLines(tools: Tools, lines: seq<string>, limits: Limits, sofar: Loaded)
    : Result<Loaded, LoadError>
  {
    if lines == [] then
      if sofar.frames == [] then Err(NoValidFrame) else Ok(sofar)
    else if lines[0] == [] then ParseLines(tools, lines[1..], limits, sofar)
    else if |lines[0]| > limits.maxLine then
      ParseLines(tools, lines[1..], limits, sofar.(dropped := sofar.dropped + 1))
    else if |sofar.frames| >= limits.maxFrames then Err(TooManyFrames)
    else
      var frame := ReadLine(tools, lines[0]);
      ParseLines(tools, lines[1..], limits,
                 if frame.Some? then sofar.(frames := sofar.frames + [frame.value])
                 else sofar.(dropped := sofar.dropped + 1))
  }

  lemma ParseOne(tools: Tools, lines: seq<string>, limits: Limits, sofar: Loaded, frame: Option<SpectrumFrame>)
    requires lines != [] && lines[0] != [] && |lines[0]| <= limits.maxLine && |sofar.frames| < limits.maxFrames
    requires ReadLine(tools, lines[0]) == frame
    ensures ParseLines(tools, lines, limits, sofar) ==
            ParseLines(tools, lines[1..], limits,
                       if frame.Some? then sofar.(frames := sofar.frames + [frame.value])
                       else sofar.(dropped := sofar.dropped + 1))
  {
  }

  /** Every non-empty line is either a frame or dropped. */
  lemma {:induction false} EveryLineCounted(tools: Tools, lines: seq<string>, limits: Limits, sofar: Loaded)
    requires NonEmptyLines(lines) && ParseLines(tools, lines, limits, sofar).Ok?
    ensures var r := ParseLines(tools, lines, limits, sofar).value;
            |r.frames| + r.dropped == |sofar.frames| + sofar.dropped + |lines|
    decreases |lines|
  {
    if lines != [] {
      assert NonEmptyLines(lines[1..]);
      if |lines[0]| > limits.maxLine {
        EveryLineCounted(tools, lines[1..], limits, sofar.(dropped := sofar.dropped + 1));
      } else {
        var frame := ReadLine(tools, lines[0]);
        EveryLineCounted(tools, lines[1..], limits,
                         if frame.Some? then sofar.(frames := sofar.frames + [frame.value])
                         else sofar.(dropped := sofar.dropped + 1));
      }
    }
  }

  /** frames.ndjson.zst, checksum.sha256 and metadata.json; a temporary file has ".tmp" appended. */
  datatype FileName = FrameFile | ChecksumFile | MetadataFile | Temporary(base: FileName)

  type Directory = map<FileName, File>

  /** The checks on the frame file, and its text. */
  function FrameText(tools: Tools, d: Directory, limits: Limits): Result<string, LoadError> {
    if FrameFile !in d || !d[FrameFile].Frames? then Err(NoFrameFile)
    else if ChecksumFile !in d || !d[ChecksumFile].Checksum? then Err(NoChecksum)
    else
      var sum := d[ChecksumFile].sum;
      if |sum| != 64 || sum != tools.digest(d[FrameFile]) then Err(ChecksumMismatch)
      else if |d[FrameFile].text| > limits.maxText then Err(TextTooLarge)
      else if !d[FrameFile].complete then Err(Truncated)
      else Ok(d[FrameFile].text)
  }

  /** loadRecording. */
  ghost function Load(tools: Tools, d: Directory, limits: Limits): Result<Loaded, LoadError> {
    if MetadataFile !in d || !d[MetadataFile].Description? then Err(NoMetadata)
    else
      var text := FrameText(tools, d, limits);
      if text.Err? then Err(text.error)
      else
        var loaded := ParseLines(tools, GetLines(text.value), limits, Loaded([], 0));
        if loaded.Ok? && d[MetadataFile].meta.count != |loaded.value.frames| + loaded.value.dropped
        then Err(CountMismatch)
        else loaded
  }

  // --- What the writer recorded ---

  function Lines(tools: Tools, frames: seq<SpectrumFrame>): seq<string> {
    seq(|frames|, i requires 0 <= i < |frames| => Line(tools, frames[i]))
  }

  function SummaryOf(frames: seq<SpectrumFrame>): Summary {
    if frames == [] then Blank
    else
      var first := frames[0];
      Summary(first.sensorId, first.sourceType, first.sourceDevice, first.sessionId, first.timestamp,
              frames[|frames| - 1].timestamp, first.start, first.stop, first.numPoints)
  }

  /** An independent account of one recording: the frames whose append succeeded, everything given to
      the compressor, whether a write to the output failed, and whether closing the file succeeded. */
  datatype Book = Book(frames: seq<SpectrumFrame>, log: seq<Write>, spoiled: bool, flushed: bool, stage: Stage)

  datatype Stage = Staged | Committed | Published

  ghost predicate AllValid(frames: seq<SpectrumFrame>) {
    forall i :: 0 <= i < |frames| ==> WellFormed(frames[i], MAX_SPECTRUM_POINTS)
  }

  ghost predicate BookOk(tools: Tools, b: Book) {
    && LineWise(b.log)
    && WholeLines(b.log) == Lines(tools, b.frames)
    && AllValid(b.frames)
  }

  /** A finished recording directory. */
  ghost predicate Finished(tools: Tools, d: Directory, id: string, b: Book) {
    && b.frames != []
    && FrameFile in d && d[FrameFile] == Frames(TextOf(b.log), b.flushed)
    && ChecksumFile in d && d[ChecksumFile] == Checksum(tools.digest(d[FrameFile]))
    && MetadataFile in d && d[MetadataFile] ==
       Description(RecordingMetadata(id, |b.frames|, tools.digest(d[FrameFile]), SummaryOf(b.frames)))
  }

  // --- When a finished recording loads ---

  /** A line that the loader looks into. */
  predicate Admissible(line: string, limits: Limits) {
    line != [] && |line| <= limits.maxLine
  }

  ghost predicate Readable(tools: Tools, line: string, limits: Limits) {
    Admissible(line, limits) && ReadLine(tools, line).Some?
  }

  /** How many of these lines are frames. */
  ghost function FrameCount(tools: Tools, lines: seq<string>, limits: Limits): (n: nat)
    ensures n <= |lines|
  {
    if lines == [] then 0
    else (if Readable(tools, lines[0], limits) then 1 else 0) + FrameCount(tools, lines[1..], limits)
  }

  /** Line i still has to be looked into after the greatest number of frames, `found` of them before these
      lines. */
  ghost predicate TooLate(tools: Tools, lines: seq<string>, limits: Limits, found: nat, i: nat)
    requires i < |lines|
  {
    Admissible(lines[i], limits) && found + FrameCount(tools, lines[..i], limits) >= limits.maxFrames
  }

  ghost predicate Overfull(tools: Tools, lines: seq<string>, limits: Limits, found: nat) {
    exists i :: 0 <= i < |lines| && TooLate(tools, lines, limits, found, i)
  }

  lemma {:induction false} FrameCountZeroIff(tools: Tools, lines: seq<string>, limits: Limits)
    ensures FrameCount(tools, lines, limits) > 0 <==> exists i :: 0 <= i < |lines| && Readable(tools, lines[i], limits)
    decreases |lines|
  {
    if lines != [] {
      FrameCountZeroIff(tools, lines[1..], limits);
      assert forall i :: 0 < i < |lines| ==> lines[i] == lines[1..][i - 1];
    }
  }

  /** The lines after the first. */
  lemma OverfullLater(tools: Tools, lines: seq<string>, limits: Limits, found: nat)
    requires lines != []
    ensures var one := if Readable(tools, lines[0], limits) then 1 else 0;
            Overfull(tools, lines, limits, found) <==>
              TooLate(tools, lines, limits, found, 0) || Overfull(tools, lines[1..], limits, found + one)
  {
    var rest, later := lines[1..], found + (if Readable(tools, lines[0], limits) then 1 else 0);
    forall i | 0 <= i < |rest|
      ensures TooLate(tools, lines, limits, found, i + 1) == TooLate(tools, rest, limits, later, i)
    {
      assert lines[..i + 1][1..] == rest[..i];
    }
    if Overfull(tools, rest, limits, later) {
      var i :| 0 <= i < |rest| && TooLate(tools, rest, limits, later, i);
      assert TooLate(tools, lines, limits, found, i + 1);
    }
    if Overfull(tools, lines, limits, found) {
      var i :| 0 <= i < |lines| && TooLate(tools, lines, limits, found, i);
      if i > 0 {
        assert TooLate(tools, rest, limits, later, i - 1);
      }
    }
  }

  /** Parsing fails exactly if a line is left to look into after the greatest number of frames, or no
      line is a frame; otherwise it finds exactly the lines that are. */
  ghost predicate ParsedAs(tools: Tools, lines: seq<string>, limits: Limits, sofar: Loaded) {
    var r, n := ParseLines(tools, lines, limits, sofar), |sofar.frames| + FrameCount(tools, lines, limits);
    if Overfull(tools, lines, limits, |sofar.frames|) then r == Err(TooManyFrames)
    else if n == 0 then r == Err(NoValidFrame)
    else r.Ok? && |r.value.frames| == n
  }

  lemma {:induction false} ParseOutcome(tools: Tools, lines: seq<string>, limits: Limits, sofar: Loaded)
    ensures ParsedAs(tools, lines, limits, sofar)
    decreases |lines|
  {
    if lines != [] {
      OverfullLater(tools, lines, limits, |sofar.frames|);
      assert FrameCount(tools, lines[..0], limits) == 0;
      if !Admissible(lines[0], limits) {
        ParseOutcome(tools, lines[1..], limits,
                     if lines[0] == [] then sofar else sofar.(dropped := sofar.dropped + 1));
      } else if |sofar.frames| < limits.maxFrames {
        var frame := ReadLine(tools, lines[0]);
        ParseOne(tools, lines, limits, sofar, frame);
        ParseOutcome(tools, lines[1..], limits,
                     if frame.Some? then sofar.(frames := sofar.frames + [frame.value])
                     else sofar.(dropped := sofar.dropped + 1));
      }
    }
  }

  /** What the loader makes of any finished recording. */
  lemma LoadOutcome(tools: Tools, d: Directory, id: string, b: Book, limits: Limits)
    requires Sound(tools) && BookOk(tools, b) && Finished(tools, d, id, b)
    ensures var r, lines := Load(tools, d, limits), GetLines(TextOf(b.log));
            if |TextOf(b.log)| > limits.maxText then r == Err(TextTooLarge)
            else if !b.flushed then r == Err(Truncated)
            else if Overfull(tools, lines, limits, 0) then r == Err(TooManyFrames)
            else if FrameCount(tools, lines, limits) == 0 then r == Err(NoValidFrame)
            else if Loose([], b.log) != [] then r == Err(CountMismatch)
            else r.Ok? && |r.value.frames| == FrameCount(tools, lines, limits)
  {
    var text := TextOf(b.log);
    if b.flushed && |text| <= limits.maxText {
      var lines := GetLines(text);
      assert FrameText(tools, d, limits) == Ok(text);
      ParseOutcome(tools, lines, limits, Loaded([], 0));
      if ParseLines(tools, lines, limits, Loaded([], 0)).Ok? {
        LineCount(b.log);
        EveryLineCounted(tools, lines, limits, Loaded([], 0));
      }
    }
  }

  /** A finished recording loads exactly if its file was closed properly and fits the limits, no failed
      append left a piece at the end, and some line is a frame. */
  ghost predicate CanLoad(tools: Tools, b: Book, limits: Limits) {
    var lines := GetLines(TextOf(b.log));
    && b.flushed && |TextOf(b.log)| <= limits.maxText && !Overfull(tools, lines, limits, 0)
    && Loose([], b.log) == []
    && exists i :: 0 <= i < |lines| && Readable(tools, lines[i], limits)
  }

  lemma LoadsIff(tools: Tools, d: Directory, id: string, b: Book, limits: Limits)
    requires Sound(tools) && BookOk(tools, b) && Finished(tools, d, id, b)
    ensures Load(tools, d, limits).Ok? <==> CanLoad(tools, b, limits)
  {
    LoadOutcome(tools, d, id, b, limits);
    FrameCountZeroIff(tools, GetLines(TextOf(b.log)), limits);
  }

  /** No more lines than frames allowed are never too many. */
  lemma FewLinesFit(tools: Tools, lines: seq<string>, limits: Limits)
    requires |lines| <= limits.maxFrames
    ensures !Overfull(tools, lines, limits, 0)
  {
  }

  /** The loader never finds a wrong checksum; of the recordings that are closed, within the limits and
      hold a frame, the frame count check refuses exactly those whose last append failed part-way through
      its line. */
  lemma CountMismatchIff(tools: Tools, d: Directory, id: string, b: Book, limits: Limits)
    requires Sound(tools) && BookOk(tools, b) && Finished(tools, d, id, b)
    ensures Load(tools, d, limits) != Err(ChecksumMismatch)
    ensures var lines := GetLines(TextOf(b.log));
            Load(tools, d, limits) == Err(CountMismatch) <==>
              && Loose([], b.log) != [] && b.flushed && |TextOf(b.log)| <= limits.maxText
              && !Overfull(tools, lines, limits, 0)
              && exists i :: 0 <= i < |lines| && Readable(tools, lines[i], limits)
  {
    LoadOutcome(tools, d, id, b, limits);
    FrameCountZeroIff(tools, GetLines(TextOf(b.log)), limits);
  }

  /** The frames that survive the round trip. */
  function Survivors(frames: seq<SpectrumFrame>): (kept: seq<SpectrumFrame>)
    ensures |kept| <= |frames|
  {
    if frames == [] then []
    else
      var rest := Survivors(frames[..|frames| - 1]);
      var last := Restored(frames[|frames| - 1]);
      if last.Some? then rest + [last.value] else rest
  }

  ghost predicate ReadsBack(tools: Tools, frames: seq<SpectrumFrame>) {
    forall i :: 0 <= i < |frames| ==> tools.parse(Line(tools, frames[i])) == Some(ToDoc(frames[i]))
  }

  ghost predicate WithinLimits(tools: Tools, frames: seq<SpectrumFrame>, limits: Limits) {
    && |frames| <= limits.maxFrames
    && forall i :: 0 <= i < |frames| ==> |Line(tools, frames[i])| <= limits.maxLine
  }

  /** What the loader has after the first k of these lines. */
  function LoadedUpTo(frames: seq<SpectrumFrame>, k: nat): Loaded
    requires k <= |frames|
  {
    Loaded(Survivors(frames[..k]), k - |Survivors(frames[..k])|)
  }

  lemma LoadedOneMore(frames: seq<SpectrumFrame>, k: nat)
    requires k < |frames|
    ensures var sofar, frame := LoadedUpTo(frames, k), Restored(frames[k]);
            LoadedUpTo(frames, k + 1) ==
            if frame.Some? then sofar.(frames := sofar.frames + [frame.value])
            else sofar.(dropped := sofar.dropped + 1)
  {
    assert frames[..k + 1][..k] == frames[..k] && frames[..k + 1][k] == frames[k];
  }

  lemma ReadsRestored(tools: Tools, f: SpectrumFrame)
    requires tools.parse(Line(tools, f)) == Some(ToDoc(f)) && WellFormed(f, MAX_SPECTRUM_POINTS)
    ensures ReadLine(tools, Line(tools, f)) == Restored(f)
  {
    FrameReadsBack(f, MAX_SPECTRUM_POINTS);
  }

  lemma {:induction false} ParseWritten(tools: Tools, frames: seq<SpectrumFrame>, k: nat, limits: Limits)
    requires Sound(tools) && ReadsBack(tools, frames) && WithinLimits(tools, frames, limits) && k <= |frames|
    requires AllValid(frames)
    ensures ParseLines(tools, Lines(tools, frames)[k..], limits, LoadedUpTo(frames, k))
         == ParseLines(tools, [], limits, LoadedUpTo(frames, |frames|))
    decreases |frames| - k
  {
    var lines := Lines(tools, frames)[k..];
    if k < |frames| {
      assert lines[0] == Line(tools, frames[k]) && lines[0] != [];
      assert lines[1..] == Lines(tools, frames)[k + 1..];
      ReadsRestored(tools, frames[k]);
      ParseOne(tools, lines, limits, LoadedUpTo(frames, k), Restored(frames[k]));
      LoadedOneMore(frames, k);
      ParseWritten(tools, frames, k + 1, limits);
    } else {
      assert lines == [];
    }
  }

  /** What the loader makes of these frames. */
  function Recovered(frames: seq<SpectrumFrame>): Result<Loaded, LoadError> {
    if Survivors(frames) == [] then Err(NoValidFrame)
    else Ok(Loaded(Survivors(frames), |frames| - |Survivors(frames)|))
  }

  lemma ParseNothing(tools: Tools, frames: seq<SpectrumFrame>, limits: Limits)
    ensures ParseLines(tools, [], limits, LoadedUpTo(frames, |frames|)) == Recovered(frames)
  {
    assert frames[..|frames|] == frames;
  }

  lemma ParseAllWritten(tools: Tools, frames: seq<SpectrumFrame>, limits: Limits)
    requires Sound(tools) && ReadsBack(tools, frames) && WithinLimits(tools, frames, limits)
    requires AllValid(frames)
    ensures ParseLines(tools, Lines(tools, frames), limits, Loaded([], 0)) == Recovered(frames)
  {
    var lines := Lines(tools, frames);
    assert LoadedUpTo(frames, 0) == Loaded([], 0) by {
      assert frames[..0] == [];
    }
    ParseWritten(tools, frames, 0, limits);
    assert lines[0..] == lines;
    ParseNothing(tools, frames, limits);
  }

  /** A finished recording whose appends and close succeeded, within the loader's limits, is loaded
      exactly if some frame survives, and then gives the surviving frames in order. */
  lemma RecordingRoundTrip(tools: Tools, d: Directory, id: string, b: Book, limits: Limits)
    requires Sound(tools) && BookOk(tools, b) && Finished(tools, d, id, b)
    requires b.flushed && AllWhole(b.log) && |TextOf(b.log)| <= limits.maxText
    requires ReadsBack(tools, b.frames) && WithinLimits(tools, b.frames, limits)
    ensures Load(tools, d, limits) == Recovered(b.frames)
  {
    LinesOfCleanText(tools, b);
    ParseAllWritten(tools, b.frames, limits);
    TextIsAccepted(tools, d, id, b, limits);
  }

  lemma LinesOfCleanText(tools: Tools, b: Book)
    requires BookOk(tools, b) && AllWhole(b.log)
    ensures GetLines(TextOf(b.log)) == Lines(tools, b.frames)
  {
    SplitCleanText(b.log);
  }

  lemma TextIsAccepted(tools: Tools, d: Directory, id: string, b: Book, limits: Limits)
    requires Sound(tools) && Finished(tools, d, id, b) && b.flushed && |TextOf(b.log)| <= limits.maxText
    ensures FrameText(tools, d, limits) == Ok(TextOf(b.log))
  {
  }

  /** A recording whose close failed unnoticed is listed and has a matching checksum, but is never loaded. */
  lemma UnflushedNeverLoads(tools: Tools, d: Directory, id: string, b: Book, limits: Limits)
    requires Sound(tools) && Finished(tools, d, id, b) && !b.flushed
    ensures Load(tools, d, limits) == Err(if |TextOf(b.log)| > limits.maxText then TextTooLarge else Truncated)
  {
  }

  /** The loop of parseFrames. */
  method ParseFrames(tools: Tools, text: string, limits: Limits) returns (r: Result<Loaded, LoadError>)
    requires forall line :: tools.parse(line).Some? ==> Machine(tools.parse(line).value.fields)
    ensures r == ParseLines(tools, GetLines(text), limits, Loaded([], 0))
  {
    var lines := GetLines(text);
    var loaded := Loaded([], 0);
    for i := 0 to |lines|
      invariant ParseLines(tools, lines[i..], limits, loaded) == ParseLines(tools, lines, limits, Loaded([], 0))
    {
      var line := lines[i];
      assert lines[i..][0] == line && lines[i..][1..] == lines[i + 1..];
      if line == [] {
        continue;
      }
      if |line| > limits.maxLine {
        loaded := loaded.(dropped := loaded.dropped + 1);
        continue;
      }
      if |loaded.frames| >= limits.maxFrames {
        return Err(TooManyFrames);
      }
      var frame := ReadDocument(tools, line);
      loaded := if frame.Some? then loaded.(frames := loaded.frames + [frame.value])
                else loaded.(dropped := loaded.dropped + 1);
    }
    r := if loaded.frames == [] then Err(NoValidFrame) else Ok(loaded);
  }

  method ReadDocument(tools: Tools, line: string) returns (frame: Option<SpectrumFrame>)
    requires tools.parse(line).Some? ==> Machine(tools.parse(line).value.fields)
    ensures frame == ReadLine(tools, line)
  {
    var doc := tools.parse(line);
    frame := if doc.Some? then ParseFrame(doc.value) else None;
    if frame.Some? {
      StepStaysMachine(doc.value.fields);
      var errors := ValidateSpectrumFrame(frame.value, MAX_SPECTRUM_POINTS);
      if errors != [] {
        frame := None;
      }
    }
  }

  lemma QuotientIsSmall(a: nat, d: nat)
    requires d > 0
    ensures 0 <= a / d <= a
  {
    Division.DivisionAlgorithm(a, d);
    assert a / d <= a / d * d by {
      assert a / d * d == a / d + a / d * (d - 1);
      Division.ProductBounds(a / d, 0, d - 1);
    }
  }

  lemma StepStaysMachine(f: SpectrumFrame)
    requires Machine(f)
    ensures Machine(WithStep(f))
  {
    if f.step == 0 && f.numPoints > 1 {
      QuotientIsSmall(Wrap(f.stop - f.start), f.numPoints - 1);
    }
  }
}
