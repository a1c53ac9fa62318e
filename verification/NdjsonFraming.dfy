/** Reassembly of newline-delimited JSON from a byte stream that arrives in arbitrary pieces
    (the buffer loop of AaroniaRfSource::readSpectrumFrame). */
module NdjsonFraming {
  import opened Prelude

  /** 8 MiB, the limit for an unfinished line. */
  const RESIDUE_CAP := 8388608

  /** Complete lines, without their newlines, and the unfinished rest. */
  datatype Framed = Framed(lines: seq<string>, rest: string)

  predicate NewlineFree(s: string) {
    forall i :: 0 <= i < |s| ==> s[i] != '\n'
  }

  /** The position of the first newline, |data| if there is none. */
  function FirstNewline(data: string): (i: nat)
    ensures i <= |data| && NewlineFree(data[..i]) && (i < |data| ==> data[i] == '\n')
  {
    if data == [] || data[0] == '\n' then 0
    else
      assert data[..1 + FirstNewline(data[1..])] == [data[0]] + data[1..][..FirstNewline(data[1..])];
      1 + FirstNewline(data[1..])
  }

  function Split(data: string): (f: Framed)
    ensures |f.rest| <= |data| && NewlineFree(f.rest)
    decreases |data|
  {
    var i := FirstNewline(data);
    if i == |data| then
      assert data[..i] == data;
      Framed([], data)
    else
      var tail := Split(data[i + 1..]);
      Framed([data[..i]] + tail.lines, tail.rest)
  }

  /** The stream that a list of lines and a rest came from. */
  function Join(f: Framed): string
    decreases |f.lines|
  {
    if f.lines == [] then f.rest else f.lines[0] + ['\n'] + Join(Framed(f.lines[1..], f.rest))
  }

  /** Splitting loses nothing and every line is free of newlines. */
  lemma {:induction false} JoinSplit(data: string)
    ensures Join(Split(data)) == data
    ensures forall k :: 0 <= k < |Split(data).lines| ==> NewlineFree(Split(data).lines[k])
    decreases |data|
  {
    var i := FirstNewline(data);
    if i < |data| {
      JoinSplit(data[i + 1..]);
      var tail := Split(data[i + 1..]);
      assert ([data[..i]] + tail.lines)[1..] == tail.lines;
      assert data == data[..i] + ['\n'] + data[i + 1..];
    }
  }

  lemma {:induction false} FirstNewlineIs(data: string, j: nat)
    requires j <= |data| && (forall k :: 0 <= k < j ==> data[k] != '\n') && (j < |data| ==> data[j] == '\n')
    ensures FirstNewline(data) == j
    decreases j
  {
    if j > 0 {
      assert forall k :: 0 <= k < j - 1 ==> data[1..][k] == data[k + 1];
      FirstNewlineIs(data[1..], j - 1);
    }
  }

  /** A line, its newline, and the split of what follows. */
  lemma SplitLine(line: string, tail: string)
    requires NewlineFree(line)
    ensures Split(line + ['\n'] + tail) == Framed([line] + Split(tail).lines, Split(tail).rest)
  {
    var data := line + ['\n'] + tail;
    FirstNewlineIs(data, |line|);
    assert data[..|line|] == line && data[|line| + 1..] == tail;
  }

  /** And it invents nothing: any newline-free lines and rest are recovered from their stream. */
  lemma {:induction false} SplitJoin(f: Framed)
    requires NewlineFree(f.rest) && forall k :: 0 <= k < |f.lines| ==> NewlineFree(f.lines[k])
    ensures Split(Join(f)) == f
    decreases |f.lines|
  {
    if f.lines == [] {
      FirstNewlineIs(f.rest, |f.rest|);
    } else {
      var g := Framed(f.lines[1..], f.rest);
      SplitJoin(g);
      SplitLine(f.lines[0], Join(g));
    }
  }

  lemma CutAt(a: string, i: nat, b: string)
    requires i < |a|
    ensures a + b == a[..i] + [a[i]] + (a[i + 1..] + b)
  {
  }

  /** Splitting what was left over together with the next piece continues the split of the whole. */
  lemma {:induction false} SplitContinues(a: string, b: string)
    ensures Split(a + b) == Framed(Split(a).lines + Split(Split(a).rest + b).lines, Split(Split(a).rest + b).rest)
    decreases |a|
  {
    var i := FirstNewline(a);
    if i < |a| {
      var line, tail := a[..i], a[i + 1..];
      SplitContinues(tail, b);
      var t := Split(tail);
      var m := Split(t.rest + b);
      SplitLine(line, tail + b);
      CutAt(a, i, b);
      assert Split(a) == Framed([line] + t.lines, t.rest);
      Regroup([line], t.lines, m.lines);
    } else {
      assert Split(a) == Framed([], a);
      assert [] + Split(a + b).lines == Split(a + b).lines;
    }
  }

  // --- Reads ---

  /** One read: the piece is appended, complete lines are taken, and an overlong rest is discarded. */
  function Received(buffer: string, piece: string): (Framed, bool) {
    var f := Split(buffer + piece);
    if |f.rest| > RESIDUE_CAP then (Framed(f.lines, []), true) else (f, false)
  }

  /** The lines delivered by successive reads, and the buffer left. */
  function ReceivedAll(buffer: string, pieces: seq<string>): Framed
    decreases |pieces|
  {
    if pieces == [] then Framed([], buffer)
    else
      var (f, _) := Received(buffer, pieces[0]);
      var later := ReceivedAll(f.rest, pieces[1..]);
      Framed(f.lines + later.lines, later.rest)
  }

  function Concat(pieces: seq<string>): string
    decreases |pieces|
  {
    if pieces == [] then [] else pieces[0] + Concat(pieces[1..])
  }

  /** No read leaves more than the cap in the buffer. */
  ghost predicate NeverOverflows(buffer: string, pieces: seq<string>)
    decreases |pieces|
  {
    pieces == [] ||
      (!Received(buffer, pieces[0]).1 && NeverOverflows(Received(buffer, pieces[0]).0.rest, pieces[1..]))
  }

  lemma {:induction false} ReceivedWithoutLoss(buffer: string, pieces: seq<string>)
    requires NewlineFree(buffer) && NeverOverflows(buffer, pieces)
    ensures ReceivedAll(buffer, pieces) == Split(buffer + Concat(pieces))
    decreases |pieces|
  {
    if pieces == [] {
      assert buffer + [] == buffer;
      SplitJoin(Framed([], buffer));
    } else {
      var f := Received(buffer, pieces[0]).0;
      ReceivedWithoutLoss(f.rest, pieces[1..]);
      SplitContinues(buffer + pieces[0], Concat(pieces[1..]));
      Regroup(buffer, pieces[0], Concat(pieces[1..]));
    }
  }

  lemma {:induction false} JoinLength(lines: seq<string>, f: Framed)
    ensures |Join(Framed(lines + f.lines, f.rest))| == |Join(Framed(lines, []))| + |Join(f)|
    decreases |lines|
  {
    if lines == [] {
      assert [] + f.lines == f.lines;
    } else {
      JoinLength(lines[1..], f);
      assert (lines + f.lines)[1..] == lines[1..] + f.lines;
    }
  }

  /** Bytes are conserved up to overflows: what comes out is as long as what went in exactly if nothing
      was ever discarded, and shorter otherwise. */
  lemma {:induction false} BytesConservedIff(buffer: string, pieces: seq<string>)
    ensures |Join(ReceivedAll(buffer, pieces))| <= |buffer + Concat(pieces)|
    ensures |Join(ReceivedAll(buffer, pieces))| == |buffer + Concat(pieces)| <==> NeverOverflows(buffer, pieces)
    decreases |pieces|
  {
    if pieces != [] {
      var whole := Split(buffer + pieces[0]);
      var f := Received(buffer, pieces[0]).0;
      BytesConservedIff(f.rest, pieces[1..]);
      JoinLength(f.lines, ReceivedAll(f.rest, pieces[1..]));
      JoinSplit(buffer + pieces[0]);
      JoinLength(whole.lines, Framed([], whole.rest));
      assert whole.lines + [] == whole.lines;
    }
  }

  /** The lines delivered and the rest are those of the whole stream, however it is cut, exactly if no
      read leaves more than the cap in the buffer. */
  lemma CuttingIrrelevantIff(buffer: string, pieces: seq<string>)
    requires NewlineFree(buffer)
    ensures ReceivedAll(buffer, pieces) == Split(buffer + Concat(pieces)) <==> NeverOverflows(buffer, pieces)
  {
    if NeverOverflows(buffer, pieces) {
      ReceivedWithoutLoss(buffer, pieces);
    } else {
      BytesConservedIff(buffer, pieces);
      JoinSplit(buffer + Concat(pieces));
    }
  }

  lemma OneLineSplits(line: string)
    requires NewlineFree(line)
    ensures Split(line + ['\n']) == Framed([line], []) && Split(line) == Framed([], line)
  {
    SplitJoin(Framed([line], []));
    assert Join(Framed([line], [])) == line + ['\n'] + Join(Framed([], [])) == line + ['\n'];
    SplitJoin(Framed([], line));
  }

  lemma ReceivedOnce(buffer: string, piece: string)
    ensures ReceivedAll(buffer, [piece]) == Received(buffer, piece).0
  {
    assert [piece][1..] == [];
    var f := Received(buffer, piece).0;
    assert f.lines + [] == f.lines;
  }

  lemma ReceivedTwice(buffer: string, first: string, second: string)
    ensures var f := Received(buffer, first).0;
            var g := Received(f.rest, second).0;
            ReceivedAll(buffer, [first, second]) == Framed(f.lines + g.lines, g.rest)
  {
    assert [first, second][1..] == [second];
    ReceivedOnce(Received(buffer, first).0.rest, second);
  }

  lemma OverlongLineIsLost(line: string)
    requires NewlineFree(line) && |line| > RESIDUE_CAP
    ensures Received([], line) == (Framed([], []), true) && Received([], ['\n']).0 == Framed([[]], [])
  {
    OneLineSplits(line);
    OneLineSplits([]);
    assert [] + line == line && [] + ['\n'] == ['\n'];
  }

  /** Beyond the cap the cut decides: a line longer than the cap is delivered when its newline comes
      with it, and lost when the newline comes in the next read. */
  lemma OverlongLineDependsOnCut(line: string)
    requires NewlineFree(line) && |line| > RESIDUE_CAP
    ensures ReceivedAll([], [line + ['\n']]) == Framed([line], [])
    ensures ReceivedAll([], [line, ['\n']]) == Framed([[]], [])
  {
    LineInOnePiece(line);
    LineInTwoPieces(line);
  }

  lemma LineInOnePiece(line: string)
    requires NewlineFree(line)
    ensures ReceivedAll([], [line + ['\n']]) == Framed([line], [])
  {
    OneLineSplits(line);
    assert [] + (line + ['\n']) == line + ['\n'];
    ReceivedOnce([], line + ['\n']);
  }

  lemma LineInTwoPieces(line: string)
    requires NewlineFree(line) && |line| > RESIDUE_CAP
    ensures ReceivedAll([], [line, ['\n']]) == Framed([[]], [])
  {
    OverlongLineIsLost(line);
    ReceivedTwice([], line, ['\n']);
  }

  /** The loop that takes the lines out of the buffer. */
  method TakeLines(buffer: string) returns (lines: seq<string>, rest: string)
    ensures Framed(lines, rest) == Split(buffer)
  {
    lines, rest := [], buffer;
    var newline := FirstNewline(rest);
    while newline < |rest|
      invariant newline == FirstNewline(rest)
      invariant Framed(lines + Split(rest).lines, Split(rest).rest) == Split(buffer)
      decreases |rest|
    {
      var line := rest[..newline];
      assert lines + ([line] + Split(rest[newline + 1..]).lines) == (lines + [line]) + Split(rest[newline + 1..]).lines;
      lines := lines + [line];
      rest := rest[newline + 1..];
      newline := FirstNewline(rest);
    }
    assert lines + [] == lines;
  }
}
