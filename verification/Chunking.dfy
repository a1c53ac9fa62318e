/** `chunk_text` of rag.py: overlapping windows that end at a word boundary where there is one in
    their second half. */
module Chunking {
  import opened Prelude

  /** str.strip()'s whitespace. */
  predicate IsSpace(c: char) {
    var k := c as int;
    || 0x09 <= k <= 0x0D || 0x1C <= k <= 0x20 || k == 0x85 || k == 0xA0 || k == 0x1680
    || 0x2000 <= k <= 0x200A || k == 0x2028 || k == 0x2029 || k == 0x202F || k == 0x205F || k == 0x3000
  }

  /** The code points of that whitespace, one by one. */
  lemma WhitespaceIs(c: char)
    ensures IsSpace(c) <==>
              c as int in {9, 10, 11, 12, 13, 28, 29, 30, 31, 32, 133, 160, 5760,
                           8192, 8193, 8194, 8195, 8196, 8197, 8198, 8199, 8200, 8201, 8202,
                           8232, 8233, 8239, 8287, 12288}
  {
  }

  predicate IsSeparator(c: char) {
    c == '\n' || c == ' '
  }

  /** re.sub(r"\r\n?", "\n", content). */
  function UnifyNewlines(s: string): string {
    if s == [] then []
    else if s[0] == '\r' then ['\n'] + UnifyNewlines(if |s| > 1 && s[1] == '\n' then s[2..] else s[1..])
    else [s[0]] + UnifyNewlines(s[1..])
  }

  predicate SplitsPair(a: string, b: string) {
    a != [] && b != [] && a[|a| - 1] == '\r' && b[0] == '\n'
  }

  /** Texts are unified piece by piece, except where a carriage return and its newline are torn apart. */
  lemma {:induction false} UnifyTogether(a: string, b: string)
    requires !SplitsPair(a, b)
    ensures UnifyNewlines(a + b) == UnifyNewlines(a) + UnifyNewlines(b)
    decreases |a|
  {
    if a == [] {
      assert a + b == b;
    } else {
      var cut := if a[0] == '\r' && |a| > 1 && a[1] == '\n' then 2 else 1;
      assert (a + b)[cut..] == a[cut..] + b;
      UnifyTogether(a[cut..], b);
    }
  }

  /** The pieces are a lone carriage return, the pair, and every other character; nothing but newlines is
      left of the first two. */
  lemma UnifyPieces(c: char)
    requires c != '\r'
    ensures UnifyNewlines(['\r', '\n']) == ['\n'] == UnifyNewlines(['\r'])
    ensures UnifyNewlines([c]) == [c] && UnifyNewlines([]) == []
  {
    assert ['\r', '\n'][2..] == [] && ['\r'][1..] == [] && [c][1..] == [];
  }

  lemma {:induction false} UnifiedHasNoReturns(s: string)
    ensures '\r' !in UnifyNewlines(s)
    ensures '\r' !in s ==> UnifyNewlines(s) == s
    decreases |s|
  {
    if s != [] {
      UnifiedHasNoReturns(if s[0] == '\r' && |s| > 1 && s[1] == '\n' then s[2..] else s[1..]);
    }
  }

  /** The number of whitespace characters s begins with. */
  function Lead(blank: char -> bool, s: string): (n: nat)
    ensures n <= |s|
  {
    if s == [] || !blank(s[0]) then 0 else 1 + Lead(blank, s[1..])
  }

  /** The position after the last character of s that is not whitespace. */
  function Trail(blank: char -> bool, s: string): (n: nat)
    ensures n <= |s|
  {
    if s == [] then 0
    else if blank(s[|s| - 1]) then Trail(blank, s[..|s| - 1])
    else |s|
  }

  function Strip(blank: char -> bool, s: string): string {
    if Lead(blank, s) <= Trail(blank, s) then s[Lead(blank, s)..Trail(blank, s)] else []
  }

  /** text.rfind(c, lo, hi); -1 when there is none. */
  function RFind(text: string, c: char, lo: nat, hi: nat): (r: int)
    requires hi <= |text|
    ensures r == -1 || lo <= r < hi
    decreases hi
  {
    if hi <= lo then -1
    else if text[hi - 1] == c then hi - 1
    else RFind(text, c, lo, hi - 1)
  }

  lemma {:induction false} LeadIsBlank(blank: char -> bool, s: string)
    ensures forall i :: 0 <= i < Lead(blank, s) ==> blank(s[i])
    ensures Lead(blank, s) < |s| ==> !blank(s[Lead(blank, s)])
  {
    if s != [] && blank(s[0]) {
      LeadIsBlank(blank, s[1..]);
      assert forall i :: 0 < i < |s| ==> s[i] == s[1..][i - 1];
    }
  }

  lemma {:induction false} TrailIsBlank(blank: char -> bool, s: string)
    ensures forall i :: Trail(blank, s) <= i < |s| ==> blank(s[i])
    ensures Trail(blank, s) > 0 ==> !blank(s[Trail(blank, s) - 1])
  {
    if s != [] && blank(s[|s| - 1]) {
      TrailIsBlank(blank, s[..|s| - 1]);
      assert forall i :: 0 <= i < |s| - 1 ==> s[i] == s[..|s| - 1][i];
    }
  }

  /** rfind finds the last occurrence. */
  lemma {:induction false} RFindIsLast(text: string, c: char, lo: nat, hi: nat)
    requires hi <= |text|
    ensures var r := RFind(text, c, lo, hi);
            && (r != -1 ==> text[r] == c)
            && forall i :: lo <= i < hi && i > r ==> text[i] != c
    decreases hi
  {
    if lo < hi && text[hi - 1] != c {
      RFindIsLast(text, c, lo, hi - 1);
    }
  }

  predicate ValidConfig(maxCharacters: int, overlap: int) {
    maxCharacters >= 64 && 0 <= overlap < maxCharacters
  }

  /** Where the window that begins at `start` ends. */
  function WindowEnd(text: string, start: nat, maxCharacters: nat): (end: nat)
    requires start < |text| && maxCharacters >= 64
    ensures start < end <= |text| && end <= start + maxCharacters
  {
    var end := Min(|text|, start + maxCharacters);
    if end == |text| then end
    else
      var from := start + maxCharacters / 2;
      var boundary := Max(RFind(text, '\n', from, end), RFind(text, ' ', from, end));
      if boundary > start then boundary else end
  }

  function NextStart(start: nat, end: nat, overlap: nat): nat {
    Max(start + 1, end - overlap)
  }

  datatype Window = Window(start: nat, end: nat)

  function Windows(text: string, start: nat, maxCharacters: nat, overlap: nat): seq<Window>
    requires ValidConfig(maxCharacters, overlap)
    decreases |text| - start
  {
    if start >= |text| then []
    else
      var end := WindowEnd(text, start, maxCharacters);
      if end >= |text| then [Window(start, end)]
      else [Window(start, end)] + Windows(text, NextStart(start, end, overlap), maxCharacters, overlap)
  }

  /** The chunk of a window, if it is not blank. */
  function ChunkOf(blank: char -> bool, text: string, w: Window): seq<string> {
    if w.start <= w.end <= |text| && Strip(blank, text[w.start..w.end]) != []
    then [Strip(blank, text[w.start..w.end])] else []
  }

  function ChunksOf(blank: char -> bool, text: string, ws: seq<Window>): seq<string> {
    if ws == [] then [] else ChunkOf(blank, text, ws[0]) + ChunksOf(blank, text, ws[1..])
  }

  /** The chunks of the text from `start` on. */
  function ChunksFrom(blank: char -> bool, text: string, start: nat, maxCharacters: nat, overlap: nat): seq<string>
    requires ValidConfig(maxCharacters, overlap)
    decreases |text| - start
  {
    if start >= |text| then []
    else
      var end := WindowEnd(text, start, maxCharacters);
      ChunkOf(blank, text, Window(start, end))
      + (if end >= |text| then []
         else ChunksFrom(blank, text, NextStart(start, end, overlap), maxCharacters, overlap))
  }

  lemma {:induction false} ChunksFromWindows(
    blank: char -> bool, text: string, start: nat, maxCharacters: nat, overlap: nat)
    requires ValidConfig(maxCharacters, overlap)
    ensures ChunksFrom(blank, text, start, maxCharacters, overlap)
         == ChunksOf(blank, text, Windows(text, start, maxCharacters, overlap))
    decreases |text| - start
  {
    if start < |text| {
      var end := WindowEnd(text, start, maxCharacters);
      var w := Window(start, end);
      if end < |text| {
        var next := NextStart(start, end, overlap);
        ChunksFromWindows(blank, text, next, maxCharacters, overlap);
        var rest := Windows(text, next, maxCharacters, overlap);
        assert ([w] + rest)[1..] == rest;
      } else {
        assert [w][1..] == [];
      }
    }
  }

  datatype ChunkError = EmptyContent | InvalidConfiguration

  method ChunkText(content: string, maxCharacters: int, overlap: int) returns (r: Result<seq<string>, ChunkError>)
    ensures var text := Strip(IsSpace, UnifyNewlines(content));
            r == if text == [] then Err(EmptyContent)
                 else if maxCharacters < 64 || overlap < 0 || maxCharacters <= overlap then Err(InvalidConfiguration)
                 else Ok(ChunksFrom(IsSpace, text, 0, maxCharacters, overlap))
  {
    var text := Strip(IsSpace, UnifyNewlines(content));
    if text == [] {
      return Err(EmptyContent);
    }
    if maxCharacters < 64 || overlap < 0 || overlap >= maxCharacters {
      return Err(InvalidConfiguration);
    }
    var chunks := CutWindows(IsSpace, text, maxCharacters, overlap);
    r := Ok(chunks);
  }

  method FindEnd(text: string, start: nat, maxCharacters: nat) returns (end: nat)
    requires start < |text| && maxCharacters >= 64
    ensures end == WindowEnd(text, start, maxCharacters)
  {
    end := Min(|text|, start + maxCharacters);
    if end < |text| {
      var boundary := Max(RFind(text, '\n', start + maxCharacters / 2, end),
                          RFind(text, ' ', start + maxCharacters / 2, end));
      if boundary > start {
        end := boundary;
      }
    }
  }

  /** The loop of chunk_text. */
  method CutWindows(blank: char -> bool, text: string, maxCharacters: nat, overlap: nat)
    returns (chunks: seq<string>)
    requires ValidConfig(maxCharacters, overlap)
    ensures chunks == ChunksFrom(blank, text, 0, maxCharacters, overlap)
  {
    chunks := [];
    var start := 0;
    ghost var all := ChunksFrom(blank, text, 0, maxCharacters, overlap);
    assert chunks + all == all;
    while start < |text|
      invariant chunks + ChunksFrom(blank, text, start, maxCharacters, overlap) == all
      decreases |text| - start
    {
      var end := FindEnd(text, start, maxCharacters);
      ghost var rest := if end >= |text| then [] else
                          ChunksFrom(blank, text, NextStart(start, end, overlap), maxCharacters, overlap);
      Regroup(chunks, ChunkOf(blank, text, Window(start, end)), rest);
      var chunk := Strip(blank, text[start..end]);
      if chunk != [] {
        chunks := chunks + [chunk];
      }
      assert chunks + rest == all;
      if end >= |text| {
        return;
      }
      start := NextStart(start, end, overlap);
    }
  }

  // --- Properties of one window ---

  /** The last window takes all that is left.  A window that stops before the end of the text stops at a
      separator in its second half; only if there is none there does it cut at the full length. */
  lemma WindowEndsAtBoundary(text: string, start: nat, maxCharacters: nat)
    requires start < |text| && maxCharacters >= 64
    ensures WindowEnd(text, start, maxCharacters) == |text| <==> start + maxCharacters >= |text|
    ensures var end, from := WindowEnd(text, start, maxCharacters), start + maxCharacters / 2;
            end < |text| ==>
              || (from <= end && IsSeparator(text[end])
                  && forall i :: end < i < start + maxCharacters && i < |text| ==> !IsSeparator(text[i]))
              || (end == start + maxCharacters && forall i :: from <= i < end ==> !IsSeparator(text[i]))
  {
    var full := Min(|text|, start + maxCharacters);
    RFindIsLast(text, '\n', start + maxCharacters / 2, full);
    RFindIsLast(text, ' ', start + maxCharacters / 2, full);
  }

  /** Although the end is searched for backwards, it never lies before the end of the window before. */
  lemma EndsNeverMoveBack(text: string, start: nat, maxCharacters: nat, overlap: nat)
    requires start < |text| && ValidConfig(maxCharacters, overlap)
    requires WindowEnd(text, start, maxCharacters) < |text|
    ensures var end := WindowEnd(text, start, maxCharacters);
            var next := NextStart(start, end, overlap);
            next < |text| && end <= WindowEnd(text, next, maxCharacters)
  {
    var end := WindowEnd(text, start, maxCharacters);
    var next := NextStart(start, end, overlap);
    WindowEndsAtBoundary(text, start, maxCharacters);
    WindowEndsAtBoundary(text, next, maxCharacters);
  }

  // --- Properties of all windows ---

  /** Window k starts inside the one before it, with exactly the overlap asked for if that leaves it a new
      place, and one character on otherwise, and ends no earlier. */
  ghost predicate Follows(ws: seq<Window>, k: nat, overlap: nat)
    requires 0 < k < |ws|
  {
    && ws[k - 1].start < ws[k].start <= ws[k - 1].end
    && ws[k - 1].end - ws[k].start == Min(overlap, ws[k - 1].end - ws[k - 1].start - 1)
    && ws[k - 1].end <= ws[k].end
  }

  /** The windows from `start` on cover the rest of the text without a gap. */
  ghost predicate Tiling(text: string, ws: seq<Window>, start: nat, maxCharacters: nat, overlap: nat) {
    && ws != [] && ws[0].start == start && ws[|ws| - 1].end == |text|
    && (forall k :: 0 <= k < |ws| ==>
          ws[k].start < ws[k].end <= |text| && ws[k].end - ws[k].start <= maxCharacters)
    && (forall k :: 0 < k < |ws| ==> Follows(ws, k, overlap))
  }

  lemma {:induction false} WindowsTile(text: string, start: nat, maxCharacters: nat, overlap: nat)
    requires start < |text| && ValidConfig(maxCharacters, overlap)
    ensures Tiling(text, Windows(text, start, maxCharacters, overlap), start, maxCharacters, overlap)
    decreases |text| - start
  {
    var ws := Windows(text, start, maxCharacters, overlap);
    var end := WindowEnd(text, start, maxCharacters);
    if end < |text| {
      var next := NextStart(start, end, overlap);
      EndsNeverMoveBack(text, start, maxCharacters, overlap);
      WindowsTile(text, next, maxCharacters, overlap);
      var rest := Windows(text, next, maxCharacters, overlap);
      assert rest[0].end == WindowEnd(text, next, maxCharacters);
      TilingGrows(text, Window(start, end), rest, maxCharacters, overlap);
    }
  }

  lemma TilingGrows(text: string, w: Window, rest: seq<Window>, maxCharacters: nat, overlap: nat)
    requires rest != [] && Tiling(text, rest, rest[0].start, maxCharacters, overlap)
    requires w.start < w.end <= w.start + maxCharacters
    requires w.start < rest[0].start <= w.end <= rest[0].end
    requires w.end - rest[0].start == Min(overlap, w.end - w.start - 1)
    ensures Tiling(text, [w] + rest, w.start, maxCharacters, overlap)
  {
    var ws := [w] + rest;
    forall k | 0 < k < |ws|
      ensures Follows(ws, k, overlap)
    {
      assert k > 1 ==> Follows(rest, k - 1, overlap);
    }
  }

  /** Without a gap: every position lies in some window. */
  lemma {:induction false} EveryPositionInAWindow(
    text: string, start: nat, maxCharacters: nat, overlap: nat, i: nat) returns (k: nat)
    requires start <= i < |text| && ValidConfig(maxCharacters, overlap)
    ensures var ws := Windows(text, start, maxCharacters, overlap);
            k < |ws| && ws[k].start <= i < ws[k].end
    decreases |text| - start
  {
    var end := WindowEnd(text, start, maxCharacters);
    if i < end {
      k := 0;
    } else {
      var next := NextStart(start, end, overlap);
      var j := EveryPositionInAWindow(text, next, maxCharacters, overlap, i);
      k := j + 1;
    }
  }

  lemma OneMoreTerm(n: int, d: int)
    ensures n * d == (n - 1) * d + d
  {
  }

  /** With less than half a window of overlap, the number of windows is linear in the text. */
  lemma {:induction false} WindowCount(text: string, start: nat, maxCharacters: nat, overlap: nat)
    requires start < |text| && ValidConfig(maxCharacters, overlap)
    requires overlap < maxCharacters / 2
    ensures (|Windows(text, start, maxCharacters, overlap)| - 1) * (maxCharacters / 2 - overlap) < |text| - start
    decreases |text| - start
  {
    var end := WindowEnd(text, start, maxCharacters);
    if end < |text| {
      var next := NextStart(start, end, overlap);
      WindowEndsAtBoundary(text, start, maxCharacters);
      var d := maxCharacters / 2 - overlap;
      assert next >= start + d;
      WindowCount(text, next, maxCharacters, overlap);
      OneMoreTerm(|Windows(text, next, maxCharacters, overlap)|, d);
    }
  }

  // --- Properties of the chunks ---

  lemma StripCuts(blank: char -> bool, s: string)
    requires Strip(blank, s) != []
    ensures Lead(blank, s) < Trail(blank, s) && Strip(blank, s) == s[Lead(blank, s)..Trail(blank, s)]
    ensures !blank(Strip(blank, s)[0]) && !blank(Strip(blank, s)[|Strip(blank, s)| - 1])
  {
    LeadIsBlank(blank, s);
    TrailIsBlank(blank, s);
    var a, b := Lead(blank, s), Trail(blank, s);
    assert Strip(blank, s) == s[a..b];
    assert s[a..b][0] == s[a] && s[a..b][b - a - 1] == s[b - 1];
  }

  lemma StripKeeps(blank: char -> bool, s: string, i: nat)
    requires i < |s| && !blank(s[i])
    ensures Lead(blank, s) <= i < Trail(blank, s) && Strip(blank, s) != []
  {
    LeadIsBlank(blank, s);
    TrailIsBlank(blank, s);
  }

  lemma SliceOfSlice(text: string, a: nat, b: nat, l: nat, t: nat)
    requires a <= b <= |text| && l <= t <= b - a
    ensures text[a..b][l..t] == text[a + l..a + t]
  {
    var s := text[a..b];
    assert forall i :: 0 <= i < t - l ==> s[l..t][i] == text[a + l..a + t][i];
  }

  lemma {:induction false} ChunksOfAppend(blank: char -> bool, text: string, ws: seq<Window>, k: nat)
    requires k < |ws|
    ensures forall c :: c in ChunkOf(blank, text, ws[k]) ==> c in ChunksOf(blank, text, ws)
  {
    if k > 0 {
      ChunksOfAppend(blank, text, ws[1..], k - 1);
    }
  }

  lemma {:induction false} ChunksComeFromWindows(blank: char -> bool, text: string, ws: seq<Window>, c: string)
    returns (k: nat)
    requires c in ChunksOf(blank, text, ws)
    ensures k < |ws| && c in ChunkOf(blank, text, ws[k])
  {
    if c in ChunkOf(blank, text, ws[0]) {
      k := 0;
    } else {
      var j := ChunksComeFromWindows(blank, text, ws[1..], c);
      k := j + 1;
    }
  }

  /** No chunk is blank, none exceeds the limit, and none has whitespace at its ends. */
  lemma ChunkShape(blank: char -> bool, text: string, maxCharacters: nat, overlap: nat, c: string)
    requires text != [] && ValidConfig(maxCharacters, overlap)
    requires c in ChunksFrom(blank, text, 0, maxCharacters, overlap)
    ensures 1 <= |c| <= maxCharacters
    ensures !blank(c[0]) && !blank(c[|c| - 1])
    ensures exists a, b :: 0 <= a <= b <= |text| && c == text[a..b]
  {
    var ws := Windows(text, 0, maxCharacters, overlap);
    WindowsTile(text, 0, maxCharacters, overlap);
    ChunksFromWindows(blank, text, 0, maxCharacters, overlap);
    var k := ChunksComeFromWindows(blank, text, ws, c);
    ChunkOfWindow(blank, text, ws[k], c);
  }

  lemma ChunkOfWindow(blank: char -> bool, text: string, w: Window, c: string)
    requires w.start < w.end <= |text| && c in ChunkOf(blank, text, w)
    ensures 1 <= |c| <= w.end - w.start && !blank(c[0]) && !blank(c[|c| - 1])
    ensures exists a, b :: 0 <= a <= b <= |text| && c == text[a..b]
  {
    var s := text[w.start..w.end];
    StripCuts(blank, s);
    var l, t := Lead(blank, s), Trail(blank, s);
    SliceOfSlice(text, w.start, w.end, l, t);
    assert c == text[w.start + l..w.start + t];
  }

  /** `c` is the piece of the text in which position `at` of the text is character number `o`. */
  ghost predicate Shows(text: string, c: string, at: nat, o: nat) {
    o < |c| && o <= at && at - o + |c| <= |text| && c == text[at - o..at - o + |c|]
  }

  lemma VisibleInWindow(blank: char -> bool, text: string, w: Window, i: nat) returns (c: string, o: nat)
    requires w.start <= i < w.end <= |text| && !blank(text[i])
    ensures c in ChunkOf(blank, text, w) && Shows(text, c, i, o)
  {
    var s := text[w.start..w.end];
    assert s[i - w.start] == text[i];
    StripKeeps(blank, s, i - w.start);
    StripCuts(blank, s);
    SliceOfSlice(text, w.start, w.end, Lead(blank, s), Trail(blank, s));
    c, o := Strip(blank, s), i - w.start - Lead(blank, s);
  }

  /** Nothing is lost: every character that is not whitespace is part of some chunk. */
  lemma EveryVisibleCharacterIsInAChunk(blank: char -> bool, text: string, maxCharacters: nat, overlap: nat, i: nat)
    requires i < |text| && !blank(text[i]) && ValidConfig(maxCharacters, overlap)
    ensures exists c, o :: c in ChunksFrom(blank, text, 0, maxCharacters, overlap) && Shows(text, c, i, o)
  {
    var ws := Windows(text, 0, maxCharacters, overlap);
    WindowsTile(text, 0, maxCharacters, overlap);
    var k := EveryPositionInAWindow(text, 0, maxCharacters, overlap, i);
    var c, o := VisibleInWindow(blank, text, ws[k], i);
    ChunksOfAppend(blank, text, ws, k);
    ChunksFromWindows(blank, text, 0, maxCharacters, overlap);
  }

  /** chunk_text on any accepted content yields at least one chunk. */
  lemma AcceptedContentHasChunks(blank: char -> bool, content: string, maxCharacters: nat, overlap: nat)
    requires ValidConfig(maxCharacters, overlap) && Strip(blank, content) != []
    ensures var text := Strip(blank, content);
            ChunksFrom(blank, text, 0, maxCharacters, overlap) != []
  {
    StripCuts(blank, content);
    EveryVisibleCharacterIsInAChunk(blank, Strip(blank, content), maxCharacters, overlap, 0);
  }
}
