/** What starting and stopping the recording writer leave on disk when there is nothing to publish
    (recording_writer.cpp:87-110), and which identifiers may name a directory. */
module RecordingLeftovers {
  import opened Prelude
  import opened RecordingText
  import opened RecordingFormat
  import opened RecordingStore

  // --- Identifiers ---

  function Repeated(c: char, n: nat): string {
    seq(n, _ => c)
  }

  /** An identifier cannot leave the root or collide with a hidden name: it has no slash and no dot. */
  lemma SafeIdsStayInRoot(id: string)
    requires SafeId(id)
    ensures 1 <= |id| <= 128 && '/' !in id && '.' !in id && '\\' !in id && ' ' !in id
  {
  }

  /** The first and last letters and digits are allowed, and 128 characters but not 129. */
  lemma SafeIdLimits()
    ensures SafeId("azAZ09-_") && SafeId(Repeated('a', 128)) && !SafeId(Repeated('a', 129)) && !SafeId("")
    ensures forall c: char :: !SafeId([c]) <==>
              c !in "-_" && (c < '0' || '9' < c < 'A' || 'Z' < c < 'a' || 'z' < c)
  {
    var id := "azAZ09-_";
    assert id[6] in "-_" && id[7] in "-_";
    forall c: char
      ensures !SafeId([c]) <==> c !in "-_" && (c < '0' || '9' < c < 'A' || 'Z' < c < 'a' || 'z' < c)
    {
      assert [c][0] == c;
    }
  }

  // --- Directories ---

  /** No other directory and no book is touched, and the writer keeps all but its phase. */
  ghost predicate OnlyHidden(s: State, t: State) {
    && t.fs - {Hidden(s.writer.id)} == s.fs - {Hidden(s.writer.id)}
    && t.writer == s.writer.(phase := t.writer.phase)
  }

  /** When the output cannot be opened, the writer is idle again and the staging directory is gone, unless
      removing it fails as well. Otherwise the frame file is there, unfinished. */
  lemma OpenLeaves(s: State, ok: bool, removed: bool, tools: Tools)
    requires Inv(s, tools) && s.writer.phase == Opening
    ensures var t, dir := Step(s, Open(ok, removed), tools), Hidden(s.writer.id);
            && OnlyHidden(s, t)
            && (ok ==> t.writer.phase == Active && dir in t.fs && t.fs[dir] == map[FrameFile := Partial])
            && (!ok ==> t.writer.phase == Idle && t.books == s.books
                        && (dir in t.fs <==> !removed) && (!removed ==> t.fs == s.fs))
  {
  }

  /** Stopping a recording with frames goes on to finish it; one without frames is removed, or stays behind
      without metadata if removing fails. */
  lemma StopLeaves(s: State, removed: bool, tools: Tools)
    requires Inv(s, tools) && s.writer.phase == Active
    ensures var t, dir := Step(s, Stop(removed), tools), Hidden(s.writer.id);
            && OnlyHidden(s, t) && t.books == s.books
            && (s.books[s.writer.id].frames != [] ==> t.writer.phase == Ending && t.fs == s.fs)
            && (s.books[s.writer.id].frames == [] ==>
                  && t.writer.phase == Idle && dir !in Listed(t.fs)
                  && (dir in t.fs <==> !removed) && (!removed ==> t.fs == s.fs))
  {
  }

  /** A recording that is started and stopped without a frame leaves the disk as it was, if removing works. */
  lemma NothingIsLeft(s: State, id: string, tools: Tools)
    requires Inv(s, tools) && s.writer.phase == Idle && SafeId(id)
    requires Hidden(id) !in s.fs && Final(id) !in s.fs
    ensures Run(s, [Begin(id, true), Open(true, true), Stop(true)], tools).fs == s.fs
  {
    var a := Step(s, Begin(id, true), tools);
    var b := Step(a, Open(true, true), tools);
    var es := [Begin(id, true), Open(true, true), Stop(true)];
    assert es[1..] == [Open(true, true), Stop(true)] && es[1..][1..] == [Stop(true)] && es[1..][1..][1..] == [];
    assert Run(s, es, tools) == Run(a, es[1..], tools) == Run(b, es[1..][1..], tools);
    assert Run(b, [Stop(true)], tools) == Run(Step(b, Stop(true), tools), [], tools);
    assert Step(b, Stop(true), tools).fs == b.fs - {Hidden(id)};
    assert a.fs - {Hidden(id)} == s.fs;
  }
}
