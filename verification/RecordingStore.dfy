/** The recording writer (recording_writer.cpp) as a protocol over the file system: every system call
    is one step, any of them may fail, and the process may stop between any two. */
module RecordingStore {
  import opened Prelude
  import opened NdjsonFraming
  import opened FrequencyAxis
  import opened RecordingText
  import opened RecordingFormat

  /** The recordings root. */
  type FileSystem = map<DirName, Directory>

  /** A recording's directory, and the hidden one that it is written to. */
  datatype DirName = Final(id: string) | Hidden(id: string)

  datatype Target = Sum | Meta

  datatype SaveAct = Create | Fill | Rename

  /** Where the writer is: `Opening` inside start, everything from `Ending` on inside stop. */
  datatype Phase =
    | Idle
    | Opening
    | Active
    | Ending
    | Closed
    | Saving(target: Target, step: SaveAct)
    | Publishing

  /** `stream` is what the compressor was given, `broken` the output's failure bit, which is never cleared. */
  datatype Writer = Writer(
    phase: Phase, id: string, stream: seq<Write>, broken: bool, count: nat, summary: Summary, sum: string)

  datatype State = State(fs: FileSystem, writer: Writer, books: map<string, Book>)

  /** How an append's compression and write end; a failed one may have taken a piece of the line. */
  datatype Outcome = Written | CompressorFails(taken: nat) | OutputFails(taken: nat)

  datatype Event =
    | Begin(id: string, made: bool)
    | Open(ok: bool, removed: bool)
    | Append(frame: SpectrumFrame, outcome: Outcome)
    | Stop(removed: bool)
    | EndStream(ok: bool, flushed: bool)
    | Hash(ok: bool)
    | Save(ok: bool)
    | Publish(ok: bool)
    | Crash

  const FRESH := Writer(Idle, "", [], false, 0, Blank, "")

  // --- Names ---

  predicate SafeId(id: string) {
    && id != "" && |id| <= 128 && id[0] != '.'
    && forall i :: 0 <= i < |id| ==> 'a' <= id[i] <= 'z' || 'A' <= id[i] <= 'Z' || '0' <= id[i] <= '9' || id[i] in "-_"
  }

  function Text(d: DirName): string {
    match d
    case Final(id) => id
    case Hidden(id) => "." + id + ".tmp"
  }

  /** Directories of different recordings never share a name, hidden or not. */
  lemma NamesAreDistinct(a: DirName, b: DirName)
    requires SafeId(a.id) && SafeId(b.id)
    ensures Text(a) == Text(b) <==> a == b
  {
    if a.Hidden? && b.Hidden? && Text(a) == Text(b) {
      assert Text(a)[1..|Text(a)| - 4] == a.id && Text(b)[1..|Text(b)| - 4] == b.id;
    }
  }

  function NameOf(t: Target): FileName {
    match t
    case Sum => ChecksumFile
    case Meta => MetadataFile
  }

  // --- Steps; an event that does not belong to the writer's phase changes nothing ---

  function Put(s: State, name: FileName, file: File): FileSystem {
    var dir := Hidden(s.writer.id);
    if dir in s.fs then s.fs[dir := s.fs[dir][name := file]] else s.fs
  }

  function To(s: State, phase: Phase): State {
    s.(writer := s.writer.(phase := phase))
  }

  /** start up to the creation of the staging directory. */
  function BeginStep(s: State, id: string, made: bool): State {
    if s.writer.phase != Idle || !SafeId(id) || Hidden(id) in s.fs || Final(id) in s.fs || !made then s
    else s.(fs := s.fs[Hidden(id) := map[]], writer := FRESH.(phase := Opening, id := id))
  }

  function OpenStep(s: State, ok: bool, removed: bool): State {
    if s.writer.phase != Opening then s
    else if ok then
      To(s, Active).(fs := Put(s, FrameFile, Partial),
                     books := s.books[s.writer.id := Book([], [], false, false, Staged)])
    else To(s, Idle).(fs := if removed then s.fs - {Hidden(s.writer.id)} else s.fs)
  }

  /** A metadata summary, extended by a frame. */
  function Extended(w: Writer, f: SpectrumFrame): Summary {
    var first :=
      if w.count == 0 then
        Summary(f.sensorId, f.sourceType, f.sourceDevice, f.sessionId, f.timestamp, "", f.start, f.stop, f.numPoints)
      else w.summary;
    if first.Summary? then first.(lastTimestamp := f.timestamp) else first
  }

  function PieceOf(tools: Tools, f: SpectrumFrame, taken: nat): Write {
    Part(Line(tools, f)[..Min(taken, |Line(tools, f)|)])
  }

  ghost function AppendStep(s: State, tools: Tools, f: SpectrumFrame, outcome: Outcome): State {
    var w := s.writer;
    if w.phase != Active || !WellFormed(f, MAX_SPECTRUM_POINTS) || w.id !in s.books then s
    else
      var b := s.books[w.id];
      if outcome.CompressorFails? then
        s.(writer := w.(stream := w.stream + [PieceOf(tools, f, outcome.taken)]),
           books := s.books[w.id := b.(log := b.log + [PieceOf(tools, f, outcome.taken)])])
      else if outcome.OutputFails? || w.broken then
        s.(writer := w.(broken := true), books := s.books[w.id := b.(spoiled := true)])
      else
        s.(writer := w.(stream := w.stream + [Whole(Line(tools, f))], count := w.count + 1, summary := Extended(w, f)),
           books := s.books[w.id := b.(frames := b.frames + [f], log := b.log + [Whole(Line(tools, f))])])
  }

  function StopStep(s: State, removed: bool): State {
    if s.writer.phase != Active then s
    else if s.writer.count > 0 then To(s, Ending)
    else To(s, Idle).(fs := if removed then s.fs - {Hidden(s.writer.id)} else s.fs)
  }

  /** The end of the stream is written and the file closed; a failing close goes unnoticed. */
  function EndStep(s: State, ok: bool, flushed: bool): State {
    if s.writer.phase != Ending then s
    else if s.writer.broken || !ok || s.writer.id !in s.books then To(s, Idle)
    else
      var b := s.books[s.writer.id];
      To(s, Closed).(fs := Put(s, FrameFile, Frames(TextOf(s.writer.stream), flushed)),
                     books := s.books[s.writer.id := b.(flushed := flushed)])
  }

  function HashStep(s: State, tools: Tools, ok: bool): State {
    var dir := Hidden(s.writer.id);
    if s.writer.phase != Closed then s
    else if !ok || dir !in s.fs || FrameFile !in s.fs[dir] then To(s, Idle)
    else s.(writer := s.writer.(phase := Saving(Sum, Create), sum := tools.digest(s.fs[dir][FrameFile])))
  }

  function Content(w: Writer, t: Target): File {
    match t
    case Sum => Checksum(w.sum)
    case Meta => Description(RecordingMetadata(w.id, w.count, w.sum, w.summary))
  }

  /** One step of atomic_write: create a temporary file, fill and close it, rename it. */
  function Saved(w: Writer, d: Directory): Directory
    requires w.phase.Saving?
  {
    var t := w.phase.target;
    var temporary := Temporary(NameOf(t));
    match w.phase.step
    case Create => d[temporary := Partial]
    case Fill => d[temporary := Content(w, t)]
    case Rename => if temporary in d then (d - {temporary})[NameOf(t) := d[temporary]] else d
  }

  /** The checksum is saved before the metadata. */
  function AfterSave(target: Target, step: SaveAct): Phase {
    match step
    case Create => Saving(target, Fill)
    case Fill => Saving(target, Rename)
    case Rename => if target == Sum then Saving(Meta, Create) else Publishing
  }

  function SaveStep(s: State, ok: bool): State {
    var w, dir := s.writer, Hidden(s.writer.id);
    if !w.phase.Saving? then s
    else if !ok then To(s, Idle)
    else
      State(if dir in s.fs then s.fs[dir := Saved(w, s.fs[dir])] else s.fs,
            w.(phase := AfterSave(w.phase.target, w.phase.step)),
            if w.phase == Saving(Meta, Rename) && w.id in s.books
            then s.books[w.id := s.books[w.id].(stage := Committed)] else s.books)
  }

  function PublishStep(s: State, ok: bool): State {
    var id := s.writer.id;
    if s.writer.phase != Publishing then s
    else if !ok || Hidden(id) !in s.fs || id !in s.books then To(s, Idle)
    else
      To(s, Idle).(fs := (s.fs - {Hidden(id)})[Final(id) := s.fs[Hidden(id)]],
                   books := s.books[id := s.books[id].(stage := Published)])
  }

  ghost function Step(s: State, e: Event, tools: Tools): State {
    match e
    case Begin(id, made) => BeginStep(s, id, made)
    case Open(ok, removed) => OpenStep(s, ok, removed)
    case Append(frame, outcome) => AppendStep(s, tools, frame, outcome)
    case Stop(removed) => StopStep(s, removed)
    case EndStream(ok, flushed) => EndStep(s, ok, flushed)
    case Hash(ok) => HashStep(s, tools, ok)
    case Save(ok) => SaveStep(s, ok)
    case Publish(ok) => PublishStep(s, ok)
    case Crash => s.(writer := FRESH)
  }

  ghost function Run(s: State, es: seq<Event>, tools: Tools): State
    decreases |es|
  {
    if es == [] then s else Run(Step(s, es[0], tools), es[1..], tools)
  }

  const EMPTY := State(map[], FRESH, map[])

  // --- What `recordings` shows ---

  /** Directories that hold a metadata file; hidden ones are not left out. */
  function Listed(fs: FileSystem): set<DirName> {
    set d | d in fs && MetadataFile in fs[d]
  }

  // --- Invariant ---

  /** The directory of a finished book: a committed one is still hidden. */
  function Place(id: string, b: Book): DirName {
    if b.stage == Published then Final(id) else Hidden(id)
  }

  ghost predicate Accounted(fs: FileSystem, books: map<string, Book>, tools: Tools, d: DirName) {
    && d in fs && d.id in books && books[d.id].stage != Staged && d == Place(d.id, books[d.id])
    && Finished(tools, fs[d], d.id, books[d.id]) && !books[d.id].spoiled
  }

  /** Listed directories are exactly those of finished books. */
  ghost predicate StoreInv(fs: FileSystem, books: map<string, Book>, tools: Tools) {
    && (forall d :: d in fs && MetadataFile in fs[d] ==> Accounted(fs, books, tools, d))
    && (forall id :: id in books ==>
          && SafeId(id)
          && (books[id].stage != Staged ==> Accounted(fs, books, tools, Place(id, books[id]))))
  }

  /** The directory that is being written, phase by phase. */
  ghost predicate StagedInv(w: Writer, tools: Tools, d: Directory, b: Book) {
    && w.count == |b.frames| && w.summary == SummaryOf(b.frames) && w.broken == b.spoiled
    && (w.broken ==> w.phase in {Active, Ending})
    && (w.phase in {Active, Ending} ==> w.stream == b.log)
    && (w.phase == Publishing <==> b.stage == Committed) && b.stage != Published
    && (w.phase != Publishing ==> MetadataFile !in d)
    && (w.phase != Active ==> w.count > 0)
    && (w.phase == Closed || w.phase.Saving? ==> FrameFile in d && d[FrameFile] == Frames(TextOf(b.log), b.flushed))
    && (w.phase == Publishing ==> FrameFile in d && w.sum == tools.digest(d[FrameFile]))
    && (w.phase.Saving? ==>
          && w.sum == tools.digest(d[FrameFile])
          && (w.phase.step == Rename ==>
                var temporary := Temporary(NameOf(w.phase.target));
                temporary in d && d[temporary] == Content(w, w.phase.target))
          && (w.phase.target == Meta ==> ChecksumFile in d && d[ChecksumFile] == Checksum(w.sum)))
  }

  ghost predicate WriterInv(s: State, tools: Tools) {
    var w := s.writer;
    w.phase != Idle ==>
      && SafeId(w.id) && Hidden(w.id) in s.fs && Final(w.id) !in s.fs
      && (w.phase == Opening ==>
            && s.fs[Hidden(w.id)] == map[] && w.count == 0 && w.summary == Blank && !w.broken && w.stream == []
            && (w.id in s.books ==> s.books[w.id].stage == Staged))
      && (w.phase != Opening ==> w.id in s.books && StagedInv(w, tools, s.fs[Hidden(w.id)], s.books[w.id]))
  }

  ghost predicate Inv(s: State, tools: Tools) {
    StoreInv(s.fs, s.books, tools) && WriterInv(s, tools)
  }

  lemma EmptyInv(tools: Tools)
    ensures Inv(EMPTY, tools)
  {
  }

  /** What one recording contributes to the store's invariant. */
  ghost predicate RecordingInv(fs: FileSystem, books: map<string, Book>, tools: Tools, id: string) {
    && (forall d :: d in {Hidden(id), Final(id)} && d in fs && MetadataFile in fs[d] ==> Accounted(fs, books, tools, d))
    && (id in books ==>
          && SafeId(id)
          && (books[id].stage != Staged ==> Accounted(fs, books, tools, Place(id, books[id]))))
  }

  ghost predicate SameElsewhere(
    fs: FileSystem, books: map<string, Book>, fs': FileSystem, books': map<string, Book>, id: string)
  {
    && (forall d: DirName :: d.id != id ==> (d in fs <==> d in fs') && (d in fs ==> fs[d] == fs'[d]))
    && (forall i :: i != id ==> (i in books <==> i in books') && (i in books ==> books[i] == books'[i]))
  }

  /** Recordings do not disturb each other. */
  lemma OneRecordingChanges(
    fs: FileSystem, books: map<string, Book>, fs': FileSystem, books': map<string, Book>, tools: Tools, id: string)
    requires StoreInv(fs, books, tools) && SameElsewhere(fs, books, fs', books', id)
    requires RecordingInv(fs', books', tools, id)
    ensures StoreInv(fs', books', tools)
  {
    forall d | d in fs' && MetadataFile in fs'[d]
      ensures Accounted(fs', books', tools, d)
    {
      if d.id != id {
        assert Accounted(fs, books, tools, d);
      } else {
        assert d in {Hidden(id), Final(id)};
      }
    }
    forall i | i in books'
      ensures SafeId(i)
      ensures books'[i].stage != Staged ==> Accounted(fs', books', tools, Place(i, books'[i]))
    {
      if i != id && books'[i].stage != Staged {
        assert Accounted(fs, books, tools, Place(i, books[i]));
      }
    }
  }

  /** Work in a hidden directory that has no metadata file yet is invisible. */
  lemma StagedWorkIsInvisible(
    fs: FileSystem, books: map<string, Book>, fs': FileSystem, books': map<string, Book>, tools: Tools, id: string)
    requires StoreInv(fs, books, tools) && SameElsewhere(fs, books, fs', books', id)
    requires id in books' ==> SafeId(id) && books'[id].stage == Staged
    requires Hidden(id) in fs' ==> MetadataFile !in fs'[Hidden(id)]
    requires Final(id) !in fs'
    ensures StoreInv(fs', books', tools)
  {
    OneRecordingChanges(fs, books, fs', books', tools, id);
  }

  lemma BeginKeepsInv(s: State, tools: Tools, id: string, made: bool)
    requires Inv(s, tools)
    ensures Inv(BeginStep(s, id, made), tools)
  {
    var t := BeginStep(s, id, made);
    if t != s {
      assert id in s.books && s.books[id].stage != Staged ==>
               Accounted(s.fs, s.books, tools, Place(id, s.books[id]));
      StagedWorkIsInvisible(s.fs, s.books, t.fs, t.books, tools, id);
    }
  }

  lemma OpenKeepsInv(s: State, tools: Tools, ok: bool, removed: bool)
    requires Inv(s, tools)
    ensures Inv(OpenStep(s, ok, removed), tools)
  {
    var t := OpenStep(s, ok, removed);
    if t != s {
      var id := s.writer.id;
      StagedWorkIsInvisible(s.fs, s.books, t.fs, t.books, tools, id);
    }
  }

  lemma MoreLines(log: seq<Write>, w: Write)
    ensures WholeLines(log + [w]) == WholeLines(log) + (if w.Whole? then [w.line] else [])
  {
    if log != [] {
      MoreLines(log[1..], w);
      assert (log + [w])[1..] == log[1..] + [w];
    } else {
      assert log + [w] == [w];
    }
  }

  lemma BookGrows(tools: Tools, b: Book, f: SpectrumFrame)
    requires Sound(tools) && BookOk(tools, b) && WellFormed(f, MAX_SPECTRUM_POINTS)
    ensures BookOk(tools, b.(frames := b.frames + [f], log := b.log + [Whole(Line(tools, f))]))
  {
    MoreLines(b.log, Whole(Line(tools, f)));
    assert Lines(tools, b.frames + [f]) == Lines(tools, b.frames) + [Line(tools, f)];
  }

  lemma BookTakesPiece(tools: Tools, b: Book, f: SpectrumFrame, taken: nat)
    requires Sound(tools) && BookOk(tools, b)
    ensures BookOk(tools, b.(log := b.log + [PieceOf(tools, f, taken)]))
  {
    MoreLines(b.log, PieceOf(tools, f, taken));
    assert NewlineFree(Line(tools, f));
  }

  lemma SummaryGrows(w: Writer, frames: seq<SpectrumFrame>, f: SpectrumFrame)
    requires w.count == |frames| && w.summary == SummaryOf(frames)
    ensures Extended(w, f) == SummaryOf(frames + [f])
  {
  }

  /** A step of the writer in its hidden directory, before the commit. */
  lemma StagedStepKeepsInv(s: State, w: Writer, d: Directory, b: Book, tools: Tools)
    requires Inv(s, tools) && s.writer.phase != Idle && w.id == s.writer.id && w.phase != Opening
    requires StagedInv(w, tools, d, b) && b.stage == Staged && MetadataFile !in d
    requires s.writer.phase != Publishing
    ensures Inv(State(s.fs[Hidden(w.id) := d], w, s.books[w.id := b]), tools)
  {
    StagedWorkIsInvisible(s.fs, s.books, s.fs[Hidden(w.id) := d], s.books[w.id := b], tools, w.id);
  }

  lemma ActiveStepKeepsInv(s: State, w: Writer, b: Book, tools: Tools)
    requires Inv(s, tools) && s.writer.phase == Active && w.phase == Active && w.id == s.writer.id
    requires b.stage == Staged && b.log == w.stream
    requires w.count == |b.frames| && w.summary == SummaryOf(b.frames) && w.broken == b.spoiled
    ensures Inv(State(s.fs, w, s.books[w.id := b]), tools)
  {
    var d := s.fs[Hidden(w.id)];
    assert s.fs[Hidden(w.id) := d] == s.fs;
    assert StagedInv(w, tools, d, b);
    StagedStepKeepsInv(s, w, d, b, tools);
  }

  lemma AppendKeepsInv(s: State, tools: Tools, f: SpectrumFrame, outcome: Outcome)
    requires Inv(s, tools)
    ensures Inv(AppendStep(s, tools, f, outcome), tools)
  {
    var w := s.writer;
    if w.phase == Active && WellFormed(f, MAX_SPECTRUM_POINTS) {
      var b := s.books[w.id];
      if outcome.CompressorFails? {
        var piece := PieceOf(tools, f, outcome.taken);
        ActiveStepKeepsInv(s, w.(stream := w.stream + [piece]), b.(log := b.log + [piece]), tools);
      } else if outcome.OutputFails? || w.broken {
        ActiveStepKeepsInv(s, w.(broken := true), b.(spoiled := true), tools);
      } else {
        var line := Whole(Line(tools, f));
        SummaryGrows(w, b.frames, f);
        ActiveStepKeepsInv(
          s, w.(stream := w.stream + [line], count := w.count + 1, summary := Extended(w, f)),
          b.(frames := b.frames + [f], log := b.log + [line]), tools);
      }
    }
  }

  lemma StopKeepsInv(s: State, tools: Tools, removed: bool)
    requires Inv(s, tools)
    ensures Inv(StopStep(s, removed), tools)
  {
    var t := StopStep(s, removed);
    if s.writer.phase == Active && s.writer.count == 0 && removed {
      StagedWorkIsInvisible(s.fs, s.books, t.fs, t.books, tools, s.writer.id);
    }
  }

  lemma EndKeepsInv(s: State, tools: Tools, ok: bool, flushed: bool)
    requires Inv(s, tools)
    ensures Inv(EndStep(s, ok, flushed), tools)
  {
    var w, t := s.writer, EndStep(s, ok, flushed);
    if w.phase == Ending && t.writer.phase == Closed {
      StagedStepKeepsInv(s, t.writer, t.fs[Hidden(w.id)], t.books[w.id], tools);
    }
  }

  lemma SaveKeepsInv(s: State, tools: Tools, ok: bool)
    requires Inv(s, tools)
    ensures Inv(SaveStep(s, ok), tools)
  {
    if s.writer.phase.Saving? && ok {
      if s.writer.phase == Saving(Meta, Rename) {
        CommitKeepsInv(s, tools);
      } else {
        SavingKeepsInv(s, tools);
      }
    }
  }

  lemma SavedKeepsStaged(w: Writer, tools: Tools, d: Directory, b: Book)
    requires StagedInv(w, tools, d, b) && w.phase.Saving? && w.phase != Saving(Meta, Rename)
    ensures MetadataFile !in Saved(w, d)
    ensures StagedInv(w.(phase := AfterSave(w.phase.target, w.phase.step)), tools, Saved(w, d), b)
  {
  }

  lemma SaveStepIs(s: State)
    requires s.writer.phase.Saving? && s.writer.phase != Saving(Meta, Rename)
    requires Hidden(s.writer.id) in s.fs && s.writer.id in s.books
    ensures var w, dir := s.writer, Hidden(s.writer.id);
            SaveStep(s, true) == State(s.fs[dir := Saved(w, s.fs[dir])],
                                       w.(phase := AfterSave(w.phase.target, w.phase.step)),
                                       s.books[w.id := s.books[w.id]])
  {
    assert s.books == s.books[s.writer.id := s.books[s.writer.id]];
  }

  lemma SavingKeepsInv(s: State, tools: Tools)
    requires Inv(s, tools) && s.writer.phase.Saving? && s.writer.phase != Saving(Meta, Rename)
    ensures Inv(SaveStep(s, true), tools)
  {
    var w, b, d := s.writer, s.books[s.writer.id], s.fs[Hidden(s.writer.id)];
    SaveStepIs(s);
    SavedKeepsStaged(w, tools, d, b);
    StagedStepKeepsInv(s, w.(phase := AfterSave(w.phase.target, w.phase.step)), Saved(w, d), b, tools);
  }

  /** Renaming the metadata file finishes the directory. */
  lemma RenamingFinishes(w: Writer, tools: Tools, d: Directory, b: Book)
    requires StagedInv(w, tools, d, b) && w.phase == Saving(Meta, Rename)
    ensures Finished(tools, Saved(w, d), w.id, b)
    ensures StagedInv(w.(phase := Publishing), tools, Saved(w, d), b.(stage := Committed))
  {
  }

  lemma CommitKeepsStore(s: State, d: Directory, tools: Tools)
    requires StoreInv(s.fs, s.books, tools) && SafeId(s.writer.id) && s.writer.id in s.books
    requires s.books[s.writer.id].stage == Staged && Final(s.writer.id) !in s.fs
    requires Finished(tools, d, s.writer.id, s.books[s.writer.id]) && !s.books[s.writer.id].spoiled
    ensures var id := s.writer.id;
            StoreInv(s.fs[Hidden(id) := d], s.books[id := s.books[id].(stage := Committed)], tools)
  {
    var id := s.writer.id;
    var fs, books := s.fs[Hidden(id) := d], s.books[id := s.books[id].(stage := Committed)];
    assert Accounted(fs, books, tools, Hidden(id));
    OneRecordingChanges(s.fs, s.books, fs, books, tools, id);
  }

  /** It is the commit: this step, and no step before it, makes the directory a listed one. */
  lemma CommitKeepsInv(s: State, tools: Tools)
    requires Inv(s, tools) && s.writer.phase == Saving(Meta, Rename)
    ensures Inv(SaveStep(s, true), tools)
    ensures Hidden(s.writer.id) !in Listed(s.fs)
    ensures Listed(SaveStep(s, true).fs) == Listed(s.fs) + {Hidden(s.writer.id)}
  {
    var w, d := s.writer, s.fs[Hidden(s.writer.id)];
    RenamingFinishes(w, tools, d, s.books[w.id]);
    CommitKeepsStore(s, Saved(w, d), tools);
    assert SaveStep(s, true).fs == s.fs[Hidden(w.id) := Saved(w, d)];
  }

  lemma PublishKeepsInv(s: State, tools: Tools, ok: bool)
    requires Inv(s, tools)
    ensures Inv(PublishStep(s, ok), tools)
  {
    if s.writer.phase == Publishing && ok {
      var id := s.writer.id;
      var fs := (s.fs - {Hidden(id)})[Final(id) := s.fs[Hidden(id)]];
      var books := s.books[id := s.books[id].(stage := Published)];
      assert Accounted(s.fs, s.books, tools, Hidden(id));
      assert Finished(tools, fs[Final(id)], id, books[id]);
      OneRecordingChanges(s.fs, s.books, fs, books, tools, id);
      assert PublishStep(s, ok) == State(fs, s.writer.(phase := Idle), books);
    }
  }

  lemma StepKeepsInv(s: State, e: Event, tools: Tools)
    requires Inv(s, tools)
    ensures Inv(Step(s, e, tools), tools)
  {
    match e
    case Begin(id, made) => BeginKeepsInv(s, tools, id, made);
    case Open(ok, removed) => OpenKeepsInv(s, tools, ok, removed);
    case Append(frame, outcome) => AppendKeepsInv(s, tools, frame, outcome);
    case Stop(removed) => StopKeepsInv(s, tools, removed);
    case EndStream(ok, flushed) => EndKeepsInv(s, tools, ok, flushed);
    case Hash(ok) =>
    case Save(ok) => SaveKeepsInv(s, tools, ok);
    case Publish(ok) => PublishKeepsInv(s, tools, ok);
    case Crash =>
  }

  /** What each book says about its own frames and text. */
  ghost predicate BooksOk(books: map<string, Book>, tools: Tools) {
    forall id :: id in books ==> BookOk(tools, books[id])
  }

  /** Whatever an append leaves behind when it fails, the completed lines in the text stay those of the frames. */
  lemma AppendKeepsBooks(s: State, tools: Tools, f: SpectrumFrame, outcome: Outcome)
    requires BooksOk(s.books, tools) && Sound(tools)
    ensures BooksOk(AppendStep(s, tools, f, outcome).books, tools)
  {
    var w := s.writer;
    if w.phase == Active && WellFormed(f, MAX_SPECTRUM_POINTS) && w.id in s.books {
      if outcome.CompressorFails? {
        BookTakesPiece(tools, s.books[w.id], f, outcome.taken);
      } else {
        BookGrows(tools, s.books[w.id], f);
      }
    }
  }

  /** An append adds its frame to the current recording exactly if it succeeds, and touches no other. */
  lemma AppendAddsFrameIff(s: State, tools: Tools, f: SpectrumFrame, outcome: Outcome, id: string)
    requires id in s.books
    ensures var t := AppendStep(s, tools, f, outcome);
            && id in t.books
            && (t.books[id].frames == s.books[id].frames + [f] <==>
                  && id == s.writer.id && s.writer.phase == Active && WellFormed(f, MAX_SPECTRUM_POINTS)
                  && outcome == Written && !s.writer.broken)
            && (t.books[id].frames == s.books[id].frames || t.books[id].frames == s.books[id].frames + [f])
            && (id != s.writer.id ==> t.books[id] == s.books[id])
  {
    assert |s.books[id].frames + [f]| == |s.books[id].frames| + 1;
  }

  lemma StepKeepsBooks(s: State, e: Event, tools: Tools)
    requires BooksOk(s.books, tools) && Sound(tools)
    ensures BooksOk(Step(s, e, tools).books, tools)
  {
    if e.Append? {
      AppendKeepsBooks(s, tools, e.frame, e.outcome);
    }
  }

  lemma {:induction false} RunKeepsInv(s: State, es: seq<Event>, tools: Tools)
    requires Inv(s, tools)
    ensures Inv(Run(s, es, tools), tools)
    decreases |es|
  {
    if es != [] {
      StepKeepsInv(s, es[0], tools);
      RunKeepsInv(Step(s, es[0], tools), es[1..], tools);
    }
  }

  lemma {:induction false} RunKeepsBooks(s: State, es: seq<Event>, tools: Tools)
    requires BooksOk(s.books, tools) && Sound(tools)
    ensures BooksOk(Run(s, es, tools).books, tools)
    decreases |es|
  {
    if es != [] {
      StepKeepsBooks(s, es[0], tools);
      RunKeepsBooks(Step(s, es[0], tools), es[1..], tools);
    }
  }

  // --- Consequences ---

  /** metadata.json is the commit point: wherever recordings were interrupted, every listed directory
      has a closed frame file that matches its checksum, and metadata about exactly the frames whose
      append succeeded; no write to its output failed. */
  lemma ListedRecordingsAreFinished(es: seq<Event>, tools: Tools, d: DirName)
    requires Sound(tools)
    requires d in Listed(Run(EMPTY, es, tools).fs)
    ensures var s := Run(EMPTY, es, tools);
            && d.id in s.books && !s.books[d.id].spoiled
            && Finished(tools, s.fs[d], d.id, s.books[d.id]) && BookOk(tools, s.books[d.id])
  {
    EmptyInv(tools);
    RunKeepsInv(EMPTY, es, tools);
    RunKeepsBooks(EMPTY, es, tools);
    assert Accounted(Run(EMPTY, es, tools).fs, Run(EMPTY, es, tools).books, tools, d);
  }

  /** A recording is listed under its own name exactly once published, and under its hidden name exactly
      when metadata.json was renamed but the directory was not. */
  lemma ListedIff(es: seq<Event>, tools: Tools, id: string)
    ensures var s := Run(EMPTY, es, tools);
            && (Final(id) in Listed(s.fs) <==> id in s.books && s.books[id].stage == Published)
            && (Hidden(id) in Listed(s.fs) <==> id in s.books && s.books[id].stage == Committed)
  {
    EmptyInv(tools);
    RunKeepsInv(EMPTY, es, tools);
    var s := Run(EMPTY, es, tools);
    if Final(id) in Listed(s.fs) {
      assert Accounted(s.fs, s.books, tools, Final(id));
    }
    if Hidden(id) in Listed(s.fs) {
      assert Accounted(s.fs, s.books, tools, Hidden(id));
    }
    if id in s.books && s.books[id].stage != Staged {
      assert Accounted(s.fs, s.books, tools, Place(id, s.books[id]));
    }
  }

  /** Failing or dying at the last rename leaves the recording listed under its hidden name. */
  lemma InterruptedPublishIsListed(s: State, tools: Tools, e: Event)
    requires Inv(s, tools) && s.writer.phase == Publishing && (e == Publish(false) || e == Crash)
    ensures var t := Step(s, e, tools);
            t.writer.phase == Idle && Hidden(s.writer.id) in Listed(t.fs) && Final(s.writer.id) !in t.fs
  {
    assert Accounted(s.fs, s.books, tools, Hidden(s.writer.id));
  }

  // --- stop as a whole ---

  /** The results of stop's system calls. */
  datatype Plan = Plan(removed: bool, end: bool, flushed: bool, hash: bool, sum: Atomic, meta: Atomic, publish: bool)

  /** The results of one atomic_write. */
  datatype Atomic = Atomic(create: bool, fill: bool, rename: bool)

  function SaveAll(s: State, a: Atomic): State {
    SaveStep(SaveStep(SaveStep(s, a.create), a.fill), a.rename)
  }

  function StopAll(s: State, tools: Tools, p: Plan): State {
    var ended := EndStep(StopStep(s, p.removed), p.end, p.flushed);
    var saved := SaveAll(SaveAll(HashStep(ended, tools, p.hash), p.sum), p.meta);
    PublishStep(saved, p.publish)
  }

  /** The steps of one atomic_write, and what follows. */
  function SaveEvents(a: Atomic, rest: seq<Event>): seq<Event> {
    [Save(a.create)] + ([Save(a.fill)] + ([Save(a.rename)] + rest))
  }

  function StopEvents(p: Plan): seq<Event> {
    [Stop(p.removed)] + ([EndStream(p.end, p.flushed)] + ([Hash(p.hash)] +
      SaveEvents(p.sum, SaveEvents(p.meta, [Publish(p.publish)] + []))))
  }

  predicate Succeeds(p: Plan) {
    p.end && p.hash && AllDone(p.sum) && AllDone(p.meta) && p.publish
  }

  lemma RunOne(s: State, e: Event, es: seq<Event>, tools: Tools)
    ensures Run(s, [e] + es, tools) == Run(Step(s, e, tools), es, tools)
  {
    assert ([e] + es)[1..] == es;
  }

  lemma RunSave(s: State, a: Atomic, rest: seq<Event>, tools: Tools)
    ensures Run(s, SaveEvents(a, rest), tools) == Run(SaveAll(s, a), rest, tools)
  {
    var t := SaveStep(s, a.create);
    RunOne(s, Save(a.create), [Save(a.fill)] + ([Save(a.rename)] + rest), tools);
    RunOne(t, Save(a.fill), [Save(a.rename)] + rest, tools);
    RunOne(SaveStep(t, a.fill), Save(a.rename), rest, tools);
  }

  /** stop is a run of its system calls. */
  lemma StopIsRun(s: State, tools: Tools, p: Plan)
    ensures StopAll(s, tools, p) == Run(s, StopEvents(p), tools)
  {
    var last := [Publish(p.publish)] + [];
    var saves := SaveEvents(p.sum, SaveEvents(p.meta, last));
    var ended := EndStep(StopStep(s, p.removed), p.end, p.flushed);
    var hashed := HashStep(ended, tools, p.hash);
    RunOne(s, Stop(p.removed), [EndStream(p.end, p.flushed)] + ([Hash(p.hash)] + saves), tools);
    RunOne(StopStep(s, p.removed), EndStream(p.end, p.flushed), [Hash(p.hash)] + saves, tools);
    RunOne(ended, Hash(p.hash), saves, tools);
    RunSave(hashed, p.sum, SaveEvents(p.meta, last), tools);
    RunSave(SaveAll(hashed, p.sum), p.meta, last, tools);
    RunOne(SaveAll(SaveAll(hashed, p.sum), p.meta), Publish(p.publish), [], tools);
  }

  predicate AllDone(a: Atomic) {
    a.create && a.fill && a.rename
  }

  /** An atomic_write leads to the next phase if all its steps succeed, otherwise the writer gives up. */
  lemma SaveAllAdvances(s: State, a: Atomic, tools: Tools)
    requires Inv(s, tools) && s.writer.phase.Saving? && s.writer.phase.step == Create
    ensures var t, u := s.writer.phase.target, SaveAll(s, a);
            && Inv(u, tools) && u.writer.id == s.writer.id
            && u.writer.phase == (if AllDone(a) then AfterSave(t, Rename) else Idle)
            && u.books == (if AllDone(a) && t == Meta then Promoted(s, Committed) else s.books)
  {
    var t := SaveStep(s, a.create);
    var u := SaveStep(t, a.fill);
    SaveIs(s, a.create, tools);
    SaveIs(t, a.fill, tools);
    SaveIs(u, a.rename, tools);
  }

  lemma SaveIs(s: State, ok: bool, tools: Tools)
    requires Inv(s, tools)
    ensures var t := SaveStep(s, ok);
            && Inv(t, tools) && t.writer.id == s.writer.id
            && (s.writer.phase.Saving? ==>
                  t.writer.phase == if ok then AfterSave(s.writer.phase.target, s.writer.phase.step) else Idle)
            && (!s.writer.phase.Saving? ==> t == s)
            && t.books == (if ok && s.writer.phase == Saving(Meta, Rename) then Promoted(s, Committed) else s.books)
  {
    SaveKeepsInv(s, tools, ok);
  }

  /** The books with that of the current recording moved on to another stage. */
  function Promoted(s: State, stage: Stage): map<string, Book> {
    if s.writer.id in s.books then s.books[s.writer.id := s.books[s.writer.id].(stage := stage)] else s.books
  }

  lemma IdleStaysIdle(s: State, tools: Tools, p: Plan)
    requires s.writer.phase == Idle
    ensures SaveAll(s, p.sum) == s && SaveAll(s, p.meta) == s
    ensures PublishStep(s, p.publish) == s && HashStep(s, tools, p.hash) == s && EndStep(s, p.end, p.flushed) == s
  {
  }

  /** stop up to the checksum. */
  function Hashed(s: State, tools: Tools, p: Plan): State {
    HashStep(EndStep(StopStep(s, p.removed), p.end, p.flushed), tools, p.hash)
  }

  /** The end of the stream notes whether the file was flushed. */
  function AfterEnd(s: State, p: Plan): Book
    requires s.writer.id in s.books
  {
    var b := s.books[s.writer.id];
    if s.writer.count > 0 && !s.writer.broken && p.end then b.(flushed := p.flushed) else b
  }

  lemma EndedIs(s: State, tools: Tools, p: Plan)
    requires Inv(s, tools) && s.writer.phase == Active
    ensures var t := EndStep(StopStep(s, p.removed), p.end, p.flushed);
            && Inv(t, tools) && t.writer.id == s.writer.id
            && t.writer.phase == (if s.writer.count > 0 && !s.writer.broken && p.end then Closed else Idle)
            && s.writer.id in t.books && t.books[s.writer.id].stage == Staged
            && t.books[s.writer.id] == AfterEnd(s, p)
  {
    StopKeepsInv(s, tools, p.removed);
    EndKeepsInv(StopStep(s, p.removed), tools, p.end, p.flushed);
  }

  lemma HashKeepsInv(s: State, tools: Tools, ok: bool)
    requires Inv(s, tools)
    ensures var t := HashStep(s, tools, ok);
            && Inv(t, tools) && t.writer.id == s.writer.id && t.books == s.books
            && (s.writer.phase == Closed ==> t.writer.phase == if ok then Saving(Sum, Create) else Idle)
            && (s.writer.phase == Idle ==> t.writer.phase == Idle)
  {
  }

  lemma HashedIs(s: State, tools: Tools, p: Plan)
    requires Inv(s, tools) && s.writer.phase == Active
    ensures var t := Hashed(s, tools, p);
            && Inv(t, tools) && t.writer.id == s.writer.id && s.writer.id in t.books
            && t.books[s.writer.id].stage == Staged && t.books[s.writer.id] == AfterEnd(s, p)
            && t.writer.phase ==
               if s.writer.count > 0 && !s.writer.broken && p.end && p.hash then Saving(Sum, Create) else Idle
  {
    EndedIs(s, tools, p);
    HashKeepsInv(EndStep(StopStep(s, p.removed), p.end, p.flushed), tools, p.hash);
  }

  lemma PublishIs(s: State, tools: Tools, ok: bool)
    requires Inv(s, tools) && s.writer.phase == Publishing
    ensures var t := PublishStep(s, ok);
            && t.writer.phase == Idle && s.writer.id in t.books
            && t.books == (if ok then Promoted(s, Published) else s.books)
  {
    PublishKeepsInv(s, tools, ok);
  }

  function LastStage(p: Plan): Stage {
    if p.publish then Published else Committed
  }

  /** stop from the checksum on. */
  lemma FinishingIs(s: State, tools: Tools, p: Plan)
    requires Inv(s, tools) && s.writer.phase == Saving(Sum, Create) && s.writer.id in s.books
    requires s.books[s.writer.id].stage == Staged
    ensures var t := PublishStep(SaveAll(SaveAll(s, p.sum), p.meta), p.publish);
            && t.writer.phase == Idle && s.writer.id in t.books
            && t.books == (if AllDone(p.sum) && AllDone(p.meta) then Promoted(s, LastStage(p)) else s.books)
  {
    SaveAllAdvances(s, p.sum, tools);
    var u := SaveAll(s, p.sum);
    if AllDone(p.sum) {
      DescribingIs(u, tools, p);
      SamePromoted(s, u, LastStage(p));
    } else {
      IdleStaysIdle(u, tools, p);
    }
  }

  lemma SamePromoted(s: State, t: State, stage: Stage)
    requires t.writer.id == s.writer.id && t.books == s.books
    ensures Promoted(t, stage) == Promoted(s, stage)
  {
  }

  lemma PromotedAgain(s: State, t: State, stage: Stage)
    requires t.writer.id == s.writer.id && t.books == Promoted(s, Committed)
    ensures Promoted(t, stage) == Promoted(s, stage)
  {
  }

  /** stop from the metadata on. */
  lemma DescribingIs(s: State, tools: Tools, p: Plan)
    requires Inv(s, tools) && s.writer.phase == Saving(Meta, Create) && s.writer.id in s.books
    requires s.books[s.writer.id].stage == Staged
    ensures var t := PublishStep(SaveAll(s, p.meta), p.publish);
            && t.writer.phase == Idle && s.writer.id in t.books
            && t.books == (if AllDone(p.meta) then Promoted(s, LastStage(p)) else s.books)
  {
    SaveAllAdvances(s, p.meta, tools);
    var u := SaveAll(s, p.meta);
    if AllDone(p.meta) {
      PublishIs(u, tools, p.publish);
      PromotedAgain(s, u, Published);
    } else {
      IdleStaysIdle(u, tools, p);
    }
  }

  /** Everything before the last rename succeeds. */
  predicate Commits(p: Plan) {
    p.end && p.hash && AllDone(p.sum) && AllDone(p.meta)
  }

  /** stop commits a recording exactly if it has frames, no write to its output failed and every system call
      before the last succeeds, and publishes it if the last does too; removing and flushing are not among
      them. Either way the writer is idle, and frames and text are what the appends made them. */
  lemma StopPublishesIff(s: State, tools: Tools, p: Plan)
    requires Inv(s, tools) && s.writer.phase == Active
    ensures var t, id := StopAll(s, tools, p), s.writer.id;
            && t.writer.phase == Idle && id in t.books && id in s.books
            && (t.books[id].stage != Staged <==> s.writer.count > 0 && !s.writer.broken && Commits(p))
            && (t.books[id].stage == Published <==> s.writer.count > 0 && !s.writer.broken && Succeeds(p))
            && (t.books[id].stage != Staged ==>
                  t.books[id] == s.books[id].(flushed := p.flushed, stage := LastStage(p)))
  {
    HashedIs(s, tools, p);
    var t := Hashed(s, tools, p);
    if t.writer.phase == Idle {
      IdleStaysIdle(t, tools, p);
    } else {
      FinishingIs(t, tools, p);
    }
  }

  /** A published directory describes itself as the writer does. */
  lemma PublishedMetadata(s: State, tools: Tools)
    requires Inv(s, tools) && s.writer.phase == Publishing
    ensures var t, w := PublishStep(s, true), s.writer;
            && Final(w.id) in Listed(t.fs)
            && t.fs[Final(w.id)][MetadataFile] == Description(RecordingMetadata(w.id, w.count, w.sum, w.summary))
  {
    assert Accounted(s.fs, s.books, tools, Hidden(s.writer.id));
  }

  // --- The object ---

  /** The writer. `fs` is the recordings root, which outlives it; `books` is bookkeeping. */
  class SpectrumRecordingWriter {
    const tools: Tools
    var fs: FileSystem
    var phase: Phase
    var id: string
    var stream: seq<Write>
    var broken: bool
    var count: nat
    var summary: Summary
    var sum: string
    ghost var books: map<string, Book>

    ghost function View(): State
      reads this
    {
      State(fs, Writer(phase, id, stream, broken, count, summary, sum), books)
    }

    /** Between calls the writer is either idle or active. */
    ghost predicate Valid()
      reads this
    {
      Inv(View(), tools) && Sound(tools) && (phase == Idle || phase == Active)
    }

    /** A new process finds whatever an earlier one left behind. */
    constructor (given: Tools, root: FileSystem, ghost earlier: map<string, Book>)
      requires Sound(given) && StoreInv(root, earlier, given)
      ensures Valid() && View() == State(root, FRESH, earlier) && tools == given
    {
      tools := given;
      fs, phase, id, stream, broken, count, summary, sum := root, Idle, "", [], false, 0, Blank, "";
      books := earlier;
    }

    method PutFile(name: FileName, file: File)
      modifies `fs
      ensures fs == Put(old(View()), name, file)
    {
      if Hidden(id) in fs {
        fs := fs[Hidden(id) := fs[Hidden(id)][name := file]];
      }
    }

    /** `made`, `ok` and `removed` are the results of creating the directory, opening the stream and
        removing the directory again. */
    method Start(recording: string, made: bool, ok: bool, removed: bool) returns (started: bool)
      requires Valid()
      modifies this
      ensures Valid() && View() == OpenStep(BeginStep(old(View()), recording, made), ok, removed)
      ensures started <==> old(phase) == Idle && phase == Active
    {
      BeginKeepsInv(View(), tools, recording, made);
      OpenKeepsInv(BeginStep(View(), recording, made), tools, ok, removed);
      started := StartUnlessRejected(recording, made, ok, removed);
    }

    method StartUnlessRejected(recording: string, made: bool, ok: bool, removed: bool) returns (started: bool)
      requires phase == Idle || phase == Active
      modifies this
      ensures View() == OpenStep(BeginStep(old(View()), recording, made), ok, removed)
      ensures started <==> old(phase) == Idle && phase == Active
      ensures phase == Idle || phase == Active
    {
      if phase == Active {
        return false;
      }
      var staged := MakeDirectory(recording, made);
      if !staged {
        return false;
      }
      started := OpenStream(ok, removed);
    }

    method MakeDirectory(recording: string, made: bool) returns (staged: bool)
      requires phase == Idle
      modifies this
      ensures View() == BeginStep(old(View()), recording, made)
      ensures staged <==> phase == Opening
      ensures staged || phase == Idle
    {
      if !SafeId(recording) || Hidden(recording) in fs || Final(recording) in fs || !made {
        return false;
      }
      fs := fs[Hidden(recording) := map[]];
      id, stream, broken, count, summary, sum := recording, [], false, 0, Blank, "";
      phase := Opening;
      return true;
    }

    method OpenStream(ok: bool, removed: bool) returns (usable: bool)
      requires phase == Opening
      modifies this
      ensures View() == OpenStep(old(View()), ok, removed) && usable == ok
    {
      if !ok {
        if removed {
          fs := fs - {Hidden(id)};
        }
        phase := Idle;
        return false;
      }
      PutFile(FrameFile, Partial);
      phase := Active;
      books := books[id := Book([], [], false, false, Staged)];
      return true;
    }

    method AppendFrame(frame: SpectrumFrame, outcome: Outcome) returns (ok: bool)
      requires Valid() && Machine(frame)
      modifies this
      ensures Valid() && View() == AppendStep(old(View()), tools, frame, outcome)
      ensures ok <==>
                old(phase) == Active && WellFormed(frame, MAX_SPECTRUM_POINTS) && outcome == Written && !old(broken)
    {
      AppendKeepsInv(View(), tools, frame, outcome);
      ok := AppendUnlessRejected(frame, outcome);
    }

    method AppendUnlessRejected(frame: SpectrumFrame, outcome: Outcome) returns (ok: bool)
      requires (phase == Active ==> id in books) && Machine(frame)
      modifies this
      ensures View() == AppendStep(old(View()), tools, frame, outcome)
      ensures ok <==>
                old(phase) == Active && WellFormed(frame, MAX_SPECTRUM_POINTS) && outcome == Written && !old(broken)
    {
      if phase != Active {
        return false;
      }
      var errors := ValidateSpectrumFrame(frame, MAX_SPECTRUM_POINTS);
      if errors != [] {
        return false;
      }
      ok := WriteLine(frame, outcome);
      if ok {
        NoteFrame(frame);
      }
    }

    method NoteFrame(frame: SpectrumFrame)
      modifies `count, `summary
      ensures count == old(count) + 1
      ensures summary == Extended(old(View().writer), frame)
    {
      if count == 0 {
        summary := Summary(frame.sensorId, frame.sourceType, frame.sourceDevice, frame.sessionId, frame.timestamp,
                           "", frame.start, frame.stop, frame.numPoints);
      }
      if summary.Summary? {
        summary := summary.(lastTimestamp := frame.timestamp);
      }
      count := count + 1;
    }

    /** write_chunk for one line; its effect on the disk appears when the stream is closed. */
    method WriteLine(frame: SpectrumFrame, outcome: Outcome) returns (ok: bool)
      requires id in books
      modifies `stream, `broken, `books
      ensures ok <==> outcome == Written && !old(broken)
      ensures broken == (old(broken) || outcome.OutputFails?)
      ensures stream == old(stream) + (if outcome.CompressorFails? then [PieceOf(tools, frame, outcome.taken)]
                                       else if ok then [Whole(Line(tools, frame))] else [])
      ensures var b := old(books)[id];
              books == old(books)[id :=
                if outcome.CompressorFails? then b.(log := b.log + [PieceOf(tools, frame, outcome.taken)])
                else if outcome.OutputFails? || old(broken) then b.(spoiled := true)
                else b.(frames := b.frames + [frame], log := b.log + [Whole(Line(tools, frame))])]
    {
      ghost var b := books[id];
      if outcome.CompressorFails? {
        stream := stream + [PieceOf(tools, frame, outcome.taken)];
        books := books[id := b.(log := b.log + [PieceOf(tools, frame, outcome.taken)])];
        return false;
      }
      if outcome.OutputFails? || broken {
        broken := true;
        books := books[id := b.(spoiled := true)];
        return false;
      }
      stream := stream + [Whole(Line(tools, frame))];
      books := books[id := b.(frames := b.frames + [frame], log := b.log + [Whole(Line(tools, frame))])];
      return true;
    }

    method StopActive(removed: bool)
      requires phase == Active
      modifies this
      ensures View() == StopStep(old(View()), removed)
    {
      if count > 0 {
        phase := Ending;
        return;
      }
      if removed {
        fs := fs - {Hidden(id)};
      }
      phase := Idle;
    }

    method EndStream(ok: bool, flushed: bool)
      requires phase == Ending && id in books
      modifies this
      ensures View() == EndStep(old(View()), ok, flushed)
    {
      if broken || !ok {
        phase := Idle;
        return;
      }
      PutFile(FrameFile, Frames(TextOf(stream), flushed));
      books := books[id := books[id].(flushed := flushed)];
      phase := Closed;
    }

    method HashFrames(ok: bool)
      requires phase == Closed
      modifies this
      ensures View() == HashStep(old(View()), tools, ok)
    {
      if !ok || Hidden(id) !in fs || FrameFile !in fs[Hidden(id)] {
        phase := Idle;
        return;
      }
      sum := tools.digest(fs[Hidden(id)][FrameFile]);
      phase := Saving(Sum, Create);
    }

    /** One step of atomic_write. */
    method Save(ok: bool)
      requires phase.Saving?
      modifies this
      ensures View() == SaveStep(old(View()), ok)
    {
      if !ok {
        phase := Idle;
        return;
      }
      var t := phase.target;
      match phase.step {
        case Create =>
          PutFile(Temporary(NameOf(t)), Partial);
        case Fill =>
          PutFile(Temporary(NameOf(t)), if t == Sum then Checksum(sum)
                                        else Description(RecordingMetadata(id, count, sum, summary)));
        case Rename =>
          RenameFile(Temporary(NameOf(t)), NameOf(t));
          if t == Meta && id in books {
            books := books[id := books[id].(stage := Committed)];
          }
      }
      phase := AfterSave(phase.target, phase.step);
    }

    method RenameFile(before: FileName, after: FileName)
      modifies `fs
      ensures fs == if Hidden(id) in old(fs) && before in old(fs)[Hidden(id)]
                    then old(fs)[Hidden(id) := (old(fs)[Hidden(id)] - {before})[after := old(fs)[Hidden(id)][before]]]
                    else old(fs)
    {
      if Hidden(id) in fs && before in fs[Hidden(id)] {
        var d := fs[Hidden(id)];
        fs := fs[Hidden(id) := (d - {before})[after := d[before]]];
      }
    }

    method AtomicWrite(a: Atomic)
      requires phase.Saving? && phase.step == Create
      modifies this
      ensures View() == SaveAll(old(View()), a)
    {
      Save(a.create);
      if phase != Idle {
        Save(a.fill);
        if phase != Idle {
          Save(a.rename);
        }
      }
    }

    method PublishDirectory(ok: bool) returns (published: Option<RecordingMetadata>)
      requires Inv(View(), tools) && phase == Publishing
      modifies this
      ensures View() == PublishStep(old(View()), ok)
      ensures published.Some? <==> ok
      ensures ok ==> Final(id) in Listed(fs) && fs[Final(id)][MetadataFile] == Description(published.value)
    {
      PublishedMetadata(View(), tools);
      phase := Idle;
      if ok && Hidden(id) in fs {
        fs := (fs - {Hidden(id)})[Final(id) := fs[Hidden(id)]];
        books := books[id := books[id].(stage := Published)];
      }
      published := if ok then Some(RecordingMetadata(id, count, sum, summary)) else None;
    }

    /** `p` holds the results of the system calls; the metadata is returned for a published recording. */
    method StopRecording(p: Plan) returns (published: Option<RecordingMetadata>)
      requires Valid()
      modifies this
      ensures Valid() && View() == StopAll(old(View()), tools, p)
      ensures published.Some? <==> old(phase) == Active && old(count) > 0 && !old(broken) && Succeeds(p)
      ensures published.Some? ==> Final(id) in Listed(fs) && fs[Final(id)][MetadataFile] == Description(published.value)
    {
      if phase != Active {
        IdleStaysIdle(View(), tools, p);
        return None;
      }
      StopIsRun(View(), tools, p);
      RunKeepsInv(View(), StopEvents(p), tools);
      StopPublishesIff(View(), tools, p);
      HashedIs(View(), tools, p);
      CloseAndHash(p);
      if phase == Idle {
        IdleStaysIdle(View(), tools, p);
        return None;
      }
      published := SaveAndPublish(p);
    }

    method CloseAndHash(p: Plan)
      requires phase == Active && id in books
      modifies this
      ensures View() == Hashed(old(View()), tools, p)
    {
      StopActive(p.removed);
      if phase == Ending {
        EndStream(p.end, p.flushed);
        if phase == Closed {
          HashFrames(p.hash);
        }
      }
    }

    method SaveAndPublish(p: Plan) returns (published: Option<RecordingMetadata>)
      requires Inv(View(), tools) && phase == Saving(Sum, Create)
      modifies this
      ensures View() == PublishStep(SaveAll(SaveAll(old(View()), p.sum), p.meta), p.publish)
      ensures published.Some? <==> AllDone(p.sum) && AllDone(p.meta) && p.publish
      ensures published.Some? ==> Final(id) in Listed(fs) && fs[Final(id)][MetadataFile] == Description(published.value)
    {
      SaveAllAdvances(View(), p.sum, tools);
      AtomicWrite(p.sum);
      if phase == Idle {
        IdleStaysIdle(View(), tools, p);
        return None;
      }
      published := DescribeAndPublish(p);
    }

    method DescribeAndPublish(p: Plan) returns (published: Option<RecordingMetadata>)
      requires Inv(View(), tools) && phase == Saving(Meta, Create)
      modifies this
      ensures View() == PublishStep(SaveAll(old(View()), p.meta), p.publish)
      ensures published.Some? <==> AllDone(p.meta) && p.publish
      ensures published.Some? ==> Final(id) in Listed(fs) && fs[Final(id)][MetadataFile] == Description(published.value)
    {
      SaveAllAdvances(View(), p.meta, tools);
      AtomicWrite(p.meta);
      if phase == Idle {
        IdleStaysIdle(View(), tools, p);
        return None;
      }
      published := PublishDirectory(p.publish);
    }
  }
}
