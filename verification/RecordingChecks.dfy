/** What the loader makes of any directory, also one that no writer has left (replay_rf_source.cpp:281-375):
    which checks it must pass, and exactly which frames are taken from its lines. */
module RecordingChecks {
  import opened Prelude
  import opened RecordingText
  import opened RecordingFormat
  import opened FrequencyAxis

  /** The frame of a line: not blank, not too long, a document that parses, a frame in it, and a valid one. */
  ghost function OneFrame(tools: Tools, line: string, limits: Limits): seq<SpectrumFrame> {
    if line == [] || |line| > limits.maxLine || tools.parse(line).None? then []
    else
      match ParseFrame(tools.parse(line).value)
      case None => []
      case Some(f) => if WellFormed(f, 65536) then [f] else []
  }

  ghost function Kept(tools: Tools, lines: seq<string>, limits: Limits): seq<SpectrumFrame> {
    if lines == [] then [] else OneFrame(tools, lines[0], limits) + Kept(tools, lines[1..], limits)
  }

  function NotBlank(lines: seq<string>): nat {
    if lines == [] then 0 else (if lines[0] == [] then 0 else 1) + NotBlank(lines[1..])
  }

  lemma OneFrameIs(tools: Tools, line: string, limits: Limits)
    ensures OneFrame(tools, line, limits) ==
            if Readable(tools, line, limits) then [ReadLine(tools, line).value] else []
  {
  }

  lemma {:induction false} KeptIsCounted(tools: Tools, lines: seq<string>, limits: Limits)
    ensures |Kept(tools, lines, limits)| == FrameCount(tools, lines, limits)
    decreases |lines|
  {
    if lines != [] {
      OneFrameIs(tools, lines[0], limits);
      KeptIsCounted(tools, lines[1..], limits);
    }
  }

  lemma KeptStep(tools: Tools, lines: seq<string>, limits: Limits, before: seq<SpectrumFrame>)
    requires lines != []
    ensures before + Kept(tools, lines, limits) ==
            (if Readable(tools, lines[0], limits) then before + [ReadLine(tools, lines[0]).value] else before)
            + Kept(tools, lines[1..], limits)
  {
    OneFrameIs(tools, lines[0], limits);
    var one, rest := OneFrame(tools, lines[0], limits), Kept(tools, lines[1..], limits);
    assert before + (one + rest) == before + one + rest;
    assert one == [] ==> before + one == before;
  }

  lemma {:induction false} FramesAreKept(tools: Tools, lines: seq<string>, limits: Limits, sofar: Loaded)
    requires ParseLines(tools, lines, limits, sofar).Ok?
    ensures ParseLines(tools, lines, limits, sofar).value.frames == sofar.frames + Kept(tools, lines, limits)
    decreases |lines|
  {
    if lines != [] {
      KeptStep(tools, lines, limits, sofar.frames);
      if lines[0] == [] {
        FramesAreKept(tools, lines[1..], limits, sofar);
      } else if !Readable(tools, lines[0], limits) {
        SkippedLine(tools, lines, limits, sofar);
        FramesAreKept(tools, lines[1..], limits, sofar.(dropped := sofar.dropped + 1));
      } else {
        var f := ReadLine(tools, lines[0]).value;
        ParseOne(tools, lines, limits, sofar, Some(f));
        FramesAreKept(tools, lines[1..], limits, sofar.(frames := sofar.frames + [f]));
      }
    }
  }

  lemma {:induction false} LinesAreCounted(tools: Tools, lines: seq<string>, limits: Limits, sofar: Loaded)
    requires ParseLines(tools, lines, limits, sofar).Ok?
    ensures var r := ParseLines(tools, lines, limits, sofar).value;
            |r.frames| + r.dropped == |sofar.frames| + sofar.dropped + NotBlank(lines)
    decreases |lines|
  {
    if lines != [] {
      if lines[0] == [] {
        LinesAreCounted(tools, lines[1..], limits, sofar);
      } else if !Readable(tools, lines[0], limits) {
        SkippedLine(tools, lines, limits, sofar);
        LinesAreCounted(tools, lines[1..], limits, sofar.(dropped := sofar.dropped + 1));
      } else {
        var f := ReadLine(tools, lines[0]).value;
        ParseOne(tools, lines, limits, sofar, Some(f));
        LinesAreCounted(tools, lines[1..], limits, sofar.(frames := sofar.frames + [f]));
      }
    }
  }

  lemma SkippedLine(tools: Tools, lines: seq<string>, limits: Limits, sofar: Loaded)
    requires lines != [] && lines[0] != [] && !Readable(tools, lines[0], limits)
    requires ParseLines(tools, lines, limits, sofar).Ok?
    ensures ParseLines(tools, lines, limits, sofar)
         == ParseLines(tools, lines[1..], limits, sofar.(dropped := sofar.dropped + 1))
  {
    if |lines[0]| <= limits.maxLine {
      ParseOne(tools, lines, limits, sofar, None);
    }
  }

  /** The three files are there, the checksum is that of the frame file, which was closed and is not too
      long. */
  ghost predicate Intact(tools: Tools, d: Directory, limits: Limits) {
    && MetadataFile in d && d[MetadataFile].Description?
    && FrameFile in d && d[FrameFile].Frames? && d[FrameFile].complete && |d[FrameFile].text| <= limits.maxText
    && ChecksumFile in d && d[ChecksumFile].Checksum?
    && |d[ChecksumFile].sum| == 64 && d[ChecksumFile].sum == tools.digest(d[FrameFile])
  }

  /** A directory loads exactly if it is intact, holds a frame and not too many, and its metadata count
      every line that is not blank; it loads to the valid frames of its lines, in order. */
  lemma LoadsExactly(tools: Tools, d: Directory, limits: Limits)
    ensures Load(tools, d, limits).Ok? <==>
              && Intact(tools, d, limits)
              && var lines := GetLines(d[FrameFile].text);
                 && !Overfull(tools, lines, limits, 0) && Kept(tools, lines, limits) != []
                 && d[MetadataFile].meta.count == NotBlank(lines)
    ensures Load(tools, d, limits).Ok? ==>
              var r, lines := Load(tools, d, limits).value, GetLines(d[FrameFile].text);
              r.frames == Kept(tools, lines, limits) && r.dropped == NotBlank(lines) - |r.frames|
  {
    if Intact(tools, d, limits) {
      var lines := GetLines(d[FrameFile].text);
      assert FrameText(tools, d, limits) == Ok(d[FrameFile].text);
      ParseOutcome(tools, lines, limits, Loaded([], 0));
      KeptIsCounted(tools, lines, limits);
      if ParseLines(tools, lines, limits, Loaded([], 0)).Ok? {
        FramesAreKept(tools, lines, limits, Loaded([], 0));
        LinesAreCounted(tools, lines, limits, Loaded([], 0));
        assert [] + Kept(tools, lines, limits) == Kept(tools, lines, limits);
      }
    }
  }

  lemma {:induction false} KeptAreValid(tools: Tools, lines: seq<string>, limits: Limits)
    ensures AllValid(Kept(tools, lines, limits))
    decreases |lines|
  {
    if lines != [] {
      KeptAreValid(tools, lines[1..], limits);
    }
  }

  /** Whatever is in the files, only valid frames are played. */
  lemma LoadedFramesAreValid(tools: Tools, d: Directory, limits: Limits)
    requires Load(tools, d, limits).Ok?
    ensures var frames := Load(tools, d, limits).value.frames; frames != [] && AllValid(frames)
  {
    LoadsExactly(tools, d, limits);
    KeptAreValid(tools, GetLines(d[FrameFile].text), limits);
  }

  /** A frame file that is not the one the checksum was taken of is refused for that. */
  lemma ChangedFileIsRefused(tools: Tools, d: Directory, limits: Limits, file: File)
    requires Load(tools, d, limits).Ok? && file.Frames? && tools.digest(file) != tools.digest(d[FrameFile])
    ensures Load(tools, d[FrameFile := file], limits) == Err(ChecksumMismatch)
  {
  }
}
