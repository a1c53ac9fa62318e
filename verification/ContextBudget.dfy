/** Packing sample records into a prompt (assistant.py).  JSON text is represented by its length,
    which is additive: a list costs its brackets, its elements and the commas between them, and
    everything else of the context is a constant. */
module ContextBudget {
  import opened Prelude

  /** A record after trimming: what it is and the length of its JSON text. */
  datatype Record = Record(id: int, size: nat)

  /** The kinds that carry record lists, in order, with their records; `frame` is the length of the
      context without the lists; `budget` is the limit. */
  datatype Problem = Problem(frame: nat, queues: seq<seq<Record>>, budget: int)

  function SumTo(q: seq<Record>, n: nat): nat
    requires n <= |q|
  {
    if n == 0 then 0 else SumTo(q, n - 1) + q[n - 1].size
  }

  /** The length of the JSON list of the first n records. */
  function ListLength(q: seq<Record>, n: nat): nat
    requires n <= |q|
  {
    2 + SumTo(q, n) + (if n > 0 then n - 1 else 0)
  }

  /** How many records of each kind have been packed. */
  ghost predicate Fits(p: Problem, counts: seq<nat>) {
    |counts| == |p.queues| && forall k :: 0 <= k < |counts| ==> counts[k] <= |p.queues[k]|
  }

  function ListsTo(p: Problem, counts: seq<nat>, n: nat): nat
    requires Fits(p, counts) && n <= |counts|
  {
    if n == 0 then 0 else ListsTo(p, counts, n - 1) + ListLength(p.queues[n - 1], counts[n - 1])
  }

  /** serialized_size of the packed context. */
  function Size(p: Problem, counts: seq<nat>): nat
    requires Fits(p, counts)
  {
    p.frame + ListsTo(p, counts, |counts|)
  }

  lemma {:induction false} ListsMonotone(p: Problem, a: seq<nat>, b: seq<nat>, n: nat)
    requires Fits(p, a) && Fits(p, b) && n <= |a|
    requires forall k :: 0 <= k < n ==> a[k] <= b[k]
    ensures ListsTo(p, a, n) <= ListsTo(p, b, n)
  {
    if n > 0 {
      ListsMonotone(p, a, b, n - 1);
      ListMonotone(p.queues[n - 1], a[n - 1], b[n - 1]);
    }
  }

  lemma {:induction false} ListMonotone(q: seq<Record>, m: nat, n: nat)
    requires m <= n <= |q|
    ensures ListLength(q, m) <= ListLength(q, n)
    decreases n - m
  {
    if m < n {
      ListMonotone(q, m, n - 1);
    }
  }

  ghost predicate NoMore(a: seq<nat>, b: seq<nat>) {
    |a| == |b| && forall k :: 0 <= k < |a| ==> a[k] <= b[k]
  }

  /** More records never make the context smaller. */
  lemma SizeMonotone(p: Problem, a: seq<nat>, b: seq<nat>)
    requires Fits(p, a) && Fits(p, b) && NoMore(a, b)
    ensures Size(p, a) <= Size(p, b)
  {
    ListsMonotone(p, a, b, |a|);
  }

  // --- The packing as one sweep over the records ---

  /** The record number r of kind k is considered: it is taken when all earlier records of its kind
      were taken and the result stays within the budget. */
  function Consider(p: Problem, counts: seq<nat>, r: nat, k: nat): (result: seq<nat>)
    requires Fits(p, counts) && k < |counts|
    ensures Fits(p, result)
  {
    if counts[k] == r < |p.queues[k]| && Size(p, counts[k := r + 1]) <= p.budget then counts[k := r + 1] else counts
  }

  /** The kinds from k on, in order, each with its record number r. */
  function Pass(p: Problem, counts: seq<nat>, r: nat, k: nat): (result: seq<nat>)
    requires Fits(p, counts) && k <= |counts|
    ensures Fits(p, result)
    decreases |counts| - k
  {
    if k == |counts| then counts else Pass(p, Consider(p, counts, r, k), r, k + 1)
  }

  function Longest(queues: seq<seq<Record>>): (n: nat)
    ensures forall k :: 0 <= k < |queues| ==> |queues[k]| <= n
  {
    if queues == [] then 0 else Max(Longest(queues[..|queues| - 1]), |queues[|queues| - 1]|)
  }

  /** Round after round: all first records, all second records, and so on. */
  function Rounds(p: Problem, counts: seq<nat>, r: nat): (result: seq<nat>)
    requires Fits(p, counts)
    ensures Fits(p, result)
    decreases Longest(p.queues) - r
  {
    if r >= Longest(p.queues) then counts else Rounds(p, Pass(p, counts, r, 0), r + 1)
  }

  function NoRecords(p: Problem): (counts: seq<nat>)
    ensures Fits(p, counts)
  {
    seq(|p.queues|, k => 0)
  }

  function Packed(p: Problem): (counts: seq<nat>)
    ensures Fits(p, counts)
  {
    Rounds(p, NoRecords(p), 0)
  }

  // --- What packing promises ---

  /** Kind k was closed when its next record did not fit beside `seen`, which holds at most one more
      record of any other kind than kind k got, and nothing that was not kept. */
  ghost predicate ClosedFairly(p: Problem, counts: seq<nat>, k: nat, seen: seq<nat>) {
    && Fits(p, counts) && Fits(p, seen) && k < |counts|
    && (forall j :: 0 <= j < |counts| ==> seen[j] <= counts[j] && seen[j] <= counts[k] + 1)
    && seen[k] == counts[k] < |p.queues[k]|
    && Size(p, seen[k := counts[k] + 1]) > p.budget
  }

  ghost predicate Refused(p: Problem, counts: seq<nat>, k: nat) {
    exists seen :: ClosedFairly(p, counts, k, seen)
  }

  /** How many records kind j can have had a turn for, before record r of kind k is considered. */
  function Turns(r: nat, k: nat, j: nat): nat {
    if j < k then r + 1 else r
  }

  /** The state before record number r of kind k is considered: nobody is ahead of its turn, the limit
      holds, and every kind that has fallen behind was closed fairly. */
  ghost predicate Sound(p: Problem, counts: seq<nat>, r: nat, k: nat) {
    && Fits(p, counts) && k <= |counts| && WithinLimit(p, counts)
    && (forall j :: 0 <= j < |counts| ==> KindSound(p, counts, r, k, j))
  }

  ghost predicate WithinLimit(p: Problem, counts: seq<nat>)
    requires Fits(p, counts)
  {
    counts == NoRecords(p) || Size(p, counts) <= p.budget
  }

  ghost predicate KindSound(p: Problem, counts: seq<nat>, r: nat, k: nat, j: nat)
    requires Fits(p, counts) && j < |counts|
  {
    && counts[j] <= Turns(r, k, j)
    && (counts[j] < Turns(r, k, j) && counts[j] < |p.queues[j]| ==> Refused(p, counts, j))
  }

  lemma StillClosed(p: Problem, a: seq<nat>, b: seq<nat>, k: nat, seen: seq<nat>)
    requires ClosedFairly(p, a, k, seen) && Fits(p, b)
    requires b[k] == a[k] && forall j :: 0 <= j < |a| ==> a[j] <= b[j]
    ensures ClosedFairly(p, b, k, seen)
  {
  }

  lemma NotTaken(p: Problem, counts: seq<nat>, r: nat, k: nat)
    requires Sound(p, counts, r, k) && k < |counts| && counts[k] == r < |p.queues[k]|
    requires Consider(p, counts, r, k) == counts
    ensures ClosedFairly(p, counts, k, counts)
  {
    forall j | 0 <= j < |counts|
      ensures counts[j] <= r + 1
    {
      assert KindSound(p, counts, r, k, j);
    }
  }

  lemma ConsiderIsSound(p: Problem, counts: seq<nat>, r: nat, k: nat)
    requires Sound(p, counts, r, k) && k < |counts|
    ensures Sound(p, Consider(p, counts, r, k), r, k + 1)
  {
    var next := Consider(p, counts, r, k);
    var after := k + 1;
    forall j | 0 <= j < |next|
      ensures KindSound(p, next, r, after, j)
    {
      assert KindSound(p, counts, r, k, j);
      if next[j] < Turns(r, k + 1, j) && next[j] < |p.queues[j]| {
        if j == k && counts[k] == r {
          NotTaken(p, counts, r, k);
        } else {
          var seen :| ClosedFairly(p, counts, j, seen);
          StillClosed(p, counts, next, j, seen);
        }
      }
    }
  }

  lemma RoundEnds(p: Problem, counts: seq<nat>, r: nat)
    requires Sound(p, counts, r, |counts|)
    ensures Sound(p, counts, r + 1, 0)
  {
    var after := r + 1;
    forall j | 0 <= j < |counts|
      ensures KindSound(p, counts, after, 0, j)
    {
      assert KindSound(p, counts, r, |counts|, j);
    }
  }

  lemma {:induction false} PassIsSound(p: Problem, counts: seq<nat>, r: nat, k: nat)
    requires Sound(p, counts, r, k)
    ensures Sound(p, Pass(p, counts, r, k), r + 1, 0)
    decreases |counts| - k
  {
    if k < |counts| {
      var next := Consider(p, counts, r, k);
      ConsiderIsSound(p, counts, r, k);
      PassIsSound(p, next, r, k + 1);
    } else {
      RoundEnds(p, counts, r);
    }
  }

  /** Every turn of every round keeps the limit, the order of the turns and fair refusal. */
  lemma {:induction false} RoundsAreSound(p: Problem, counts: seq<nat>, r: nat)
    requires r <= Longest(p.queues) && Sound(p, counts, r, 0)
    ensures Sound(p, Rounds(p, counts, r), Longest(p.queues), 0)
    decreases Longest(p.queues) - r
  {
    if r < Longest(p.queues) {
      PassIsSound(p, counts, r, 0);
      RoundsAreSound(p, Pass(p, counts, r, 0), r + 1);
    }
  }

  lemma PackedIsSound(p: Problem)
    ensures Sound(p, Packed(p), Longest(p.queues), 0)
  {
    forall j | 0 <= j < |p.queues|
      ensures KindSound(p, NoRecords(p), 0, 0, j)
    {
    }
    RoundsAreSound(p, NoRecords(p), 0);
  }

  lemma PackedWithinLimit(p: Problem)
    ensures WithinLimit(p, Packed(p))
  {
    PackedIsSound(p);
  }

  /** The packed context never exceeds the budget, or the empty skeleton if that is larger already. */
  lemma PackedWithinBudget(p: Problem)
    ensures Size(p, Packed(p)) <= Max(p.budget, Size(p, NoRecords(p)))
  {
    PackedWithinLimit(p);
  }

  /** Fairness: a kind with records left over was refused at a moment when no other kind had more than
      one record more than it. */
  lemma PackedFairly(p: Problem, k: nat)
    requires k < |p.queues| && Packed(p)[k] < |p.queues[k]|
    ensures exists seen :: ClosedFairly(p, Packed(p), k, seen)
  {
    PackedIsSound(p);
    assert KindSound(p, Packed(p), Longest(p.queues), 0, k);
  }

  /** Maximality: no kind's next record fits beside what was packed in the end. */
  lemma PackedMaximal(p: Problem, k: nat)
    requires k < |p.queues| && Packed(p)[k] < |p.queues[k]|
    ensures Size(p, Packed(p)[k := Packed(p)[k] + 1]) > p.budget
  {
    PackedFairly(p, k);
    var counts := Packed(p);
    var seen :| ClosedFairly(p, counts, k, seen);
    SizeMonotone(p, seen[k := counts[k] + 1], counts[k := counts[k] + 1]);
  }

  function Everything(p: Problem): (counts: seq<nat>)
    ensures Fits(p, counts) && forall k :: 0 <= k < |counts| ==> counts[k] == |p.queues[k]|
  {
    seq(|p.queues|, k requires 0 <= k < |p.queues| => |p.queues[k]|)
  }

  /** Everything is packed exactly when everything fits, or there is nothing to pack. */
  lemma AllPackedIff(p: Problem)
    ensures Packed(p) == Everything(p) <==>
              Everything(p) == NoRecords(p) || Size(p, Everything(p)) <= p.budget
  {
    PackedWithinLimit(p);
    if forall k :: 0 <= k < |p.queues| ==> Packed(p)[k] == |p.queues[k]| {
      assert Packed(p) == Everything(p);
    } else {
      var k :| 0 <= k < |p.queues| && Packed(p)[k] != |p.queues[k]|;
      PackedMaximal(p, k);
      SizeMonotone(p, Packed(p)[k := Packed(p)[k] + 1], Everything(p));
      assert NoRecords(p)[k] != |p.queues[k]|;
    }
  }

  // --- The queue-driven loop ---

  /** Kind k takes no further part from round r on. */
  ghost predicate Closed(p: Problem, counts: seq<nat>, r: nat, k: nat)
    requires Fits(p, counts) && k < |counts|
  {
    counts[k] < r || counts[k] == |p.queues[k]|
  }

  lemma {:induction false} ClosedPassIsIdle(p: Problem, counts: seq<nat>, r: nat, k: nat)
    requires Fits(p, counts) && k <= |counts|
    requires forall j :: 0 <= j < |counts| ==> Closed(p, counts, r, j)
    ensures Pass(p, counts, r, k) == counts
    decreases |counts| - k
  {
    if k < |counts| {
      assert Closed(p, counts, r, k);
      ClosedPassIsIdle(p, counts, r, k + 1);
    }
  }

  lemma StaysClosed(p: Problem, counts: seq<nat>, r: nat, later: nat)
    requires Fits(p, counts) && r <= later
    requires forall j :: 0 <= j < |counts| ==> Closed(p, counts, r, j)
    ensures forall j :: 0 <= j < |counts| ==> Closed(p, counts, later, j)
  {
    forall j | 0 <= j < |counts|
      ensures Closed(p, counts, later, j)
    {
      assert Closed(p, counts, r, j);
    }
  }

  /** Once every kind is closed the remaining rounds change nothing, so the loop may stop. */
  lemma {:induction false} ClosedRoundsAreIdle(p: Problem, counts: seq<nat>, r: nat)
    requires Fits(p, counts)
    requires forall j :: 0 <= j < |counts| ==> Closed(p, counts, r, j)
    ensures Rounds(p, counts, r) == counts
    decreases Longest(p.queues) - r
  {
    if r < Longest(p.queues) {
      ClosedPassIsIdle(p, counts, r, 0);
      StaysClosed(p, counts, r, r + 1);
      ClosedRoundsAreIdle(p, counts, r + 1);
    }
  }

  /** The loop variables: records taken so far, what is left of each queue, and the closed kinds. */
  ghost predicate LoopState(
    p: Problem, taken: seq<seq<Record>>, left: seq<seq<Record>>, exhausted: set<nat>, counts: seq<nat>, r: nat, k: nat)
  {
    && Fits(p, counts) && k <= |counts| == |taken| == |left|
    && (forall j :: 0 <= j < |counts| ==>
          taken[j] == p.queues[j][..counts[j]] && left[j] == p.queues[j][counts[j]..])
    && (forall j :: j in exhausted ==> j < |counts|)
    && (forall j :: 0 <= j < |counts| ==>
          && counts[j] <= (if j < k then r + 1 else r)
          && (j in exhausted <==> counts[j] < (if j < k then r + 1 else r) || counts[j] == |p.queues[j]|))
  }

  function CountsOf(taken: seq<seq<Record>>): (counts: seq<nat>)
    ensures |counts| == |taken| && forall k :: 0 <= k < |counts| ==> counts[k] == |taken[k]|
  {
    seq(|taken|, k requires 0 <= k < |taken| => |taken[k]|)
  }

  ghost predicate Prefixes(p: Problem, taken: seq<seq<Record>>) {
    |taken| == |p.queues| && forall k :: 0 <= k < |taken| ==> taken[k] <= p.queues[k]
  }

  /** json.dumps(...) of the context with the lists as they are. */
  method SerializedSize(p: Problem, taken: seq<seq<Record>>) returns (size: nat)
    requires Prefixes(p, taken)
    ensures size == Size(p, CountsOf(taken))
  {
    size := Size(p, CountsOf(taken));
  }

  lemma {:induction false} AllBelow(s: set<nat>, n: nat)
    requires forall j :: j in s ==> j < n
    ensures |s| <= n
    ensures |s| == n <==> forall j: nat :: j < n ==> j in s
    decreases n
  {
    if n == 0 {
      assert s == {};
    } else {
      var t := s - {n - 1};
      AllBelow(t, n - 1);
      if n - 1 in s {
        assert s == t + {n - 1};
        assert (forall j: nat :: j < n ==> j in s) <==> forall j: nat :: j < n - 1 ==> j in t;
      } else {
        assert s == t;
        assert |s| <= n - 1;
      }
    }
  }

  method PackContextByBudget(p: Problem) returns (taken: seq<seq<Record>>)
    ensures |taken| == |p.queues|
    ensures forall k :: 0 <= k < |taken| ==> taken[k] == p.queues[k][..Packed(p)[k]]
  {
    var n := |p.queues|;
    taken := seq(n, k => []);
    var left := p.queues;
    var exhausted := EmptyKinds(left);
    ghost var counts, r := NoRecords(p), 0;
    InitialLoopState(p, taken, exhausted);
    while |exhausted| < n
      invariant LoopState(p, taken, left, exhausted, counts, r, 0)
      invariant Rounds(p, counts, r) == Packed(p)
      decreases Longest(p.queues) - r
    {
      SomeKindIsOpen(p, taken, left, exhausted, counts, r);
      var progressed;
      taken, left, exhausted, progressed, counts := PackPass(p, taken, left, exhausted, counts, r);
      r := r + 1;
      if !progressed {
        break;
      }
    }
    AllKindsClosed(p, taken, left, exhausted, counts, r);
  }

  function EmptyKinds(queues: seq<seq<Record>>): set<nat> {
    set k: nat | k < |queues| && queues[k] == []
  }

  lemma InitialLoopState(p: Problem, taken: seq<seq<Record>>, exhausted: set<nat>)
    requires |taken| == |p.queues| && forall k :: 0 <= k < |taken| ==> taken[k] == []
    requires exhausted == EmptyKinds(p.queues)
    ensures LoopState(p, taken, p.queues, exhausted, NoRecords(p), 0, 0)
  {
  }

  lemma SomeKindIsOpen(
    p: Problem, taken: seq<seq<Record>>, left: seq<seq<Record>>, exhausted: set<nat>, counts: seq<nat>, r: nat)
    requires LoopState(p, taken, left, exhausted, counts, r, 0) && |exhausted| < |p.queues|
    ensures r < Longest(p.queues)
  {
    AllBelow(exhausted, |p.queues|);
  }

  lemma AllKindsClosed(
    p: Problem, taken: seq<seq<Record>>, left: seq<seq<Record>>, exhausted: set<nat>, counts: seq<nat>, r: nat)
    requires LoopState(p, taken, left, exhausted, counts, r, 0) && |exhausted| >= |p.queues|
    ensures Rounds(p, counts, r) == counts
  {
    AllBelow(exhausted, |p.queues|);
    assert forall j :: 0 <= j < |counts| ==> Closed(p, counts, r, j);
    ClosedRoundsAreIdle(p, counts, r);
  }

  /** One pass over the kinds; without progress every kind is closed afterwards, so the source's break
      leaves the outer loop no earlier than its condition would. */
  method PackPass(
    p: Problem, taken: seq<seq<Record>>, left: seq<seq<Record>>, exhausted: set<nat>,
    ghost counts: seq<nat>, ghost r: nat)
    returns (taken': seq<seq<Record>>, left': seq<seq<Record>>, exhausted': set<nat>, progressed: bool,
             ghost counts': seq<nat>)
    requires LoopState(p, taken, left, exhausted, counts, r, 0)
    ensures LoopState(p, taken', left', exhausted', counts', r + 1, 0)
    ensures counts' == Pass(p, counts, r, 0)
    ensures !progressed ==> |exhausted'| == |p.queues|
  {
    taken', left', exhausted', progressed, counts' := taken, left, exhausted, false, counts;
    for k := 0 to |p.queues|
      invariant LoopState(p, taken', left', exhausted', counts', r, k)
      invariant Pass(p, counts', r, k) == Pass(p, counts, r, 0)
      invariant !progressed ==> forall j :: 0 <= j < k ==> j in exhausted'
    {
      var moved;
      taken', left', exhausted', moved, counts' := PackOne(p, taken', left', exhausted', counts', r, k);
      progressed := progressed || moved;
    }
    AllBelow(exhausted', |p.queues|);
  }

  /** The loop body for kind k. */
  method PackOne(
    p: Problem, taken: seq<seq<Record>>, left: seq<seq<Record>>, exhausted: set<nat>,
    ghost counts: seq<nat>, ghost r: nat, k: nat)
    returns (taken': seq<seq<Record>>, left': seq<seq<Record>>, exhausted': set<nat>, moved: bool,
             ghost counts': seq<nat>)
    requires k < |p.queues| && LoopState(p, taken, left, exhausted, counts, r, k)
    ensures LoopState(p, taken', left', exhausted', counts', r, k + 1)
    ensures counts' == Consider(p, counts, r, k)
    ensures exhausted <= exhausted' && (!moved ==> k in exhausted')
  {
    taken', left', exhausted', moved, counts' := taken, left, exhausted, false, counts;
    if k in exhausted {
      return;
    }
    assert counts[k] == r < |p.queues[k]| && left[k] != [];
    var longer := taken[k := taken[k] + [left[k][0]]];
    assert longer[k] == p.queues[k][..r + 1];
    assert CountsOf(longer) == counts[k := r + 1];
    var size := SerializedSize(p, longer);
    if size > p.budget {
      exhausted' := exhausted + {k};
      return;
    }
    taken', left', moved, counts' := longer, left[k := left[k][1..]], true, counts[k := r + 1];
    if left'[k] == [] {
      exhausted' := exhausted + {k};
    }
  }

  // --- The prompt payload ---

  const SOURCES_FRAME := 19  // {"source_records":}
  const PAYLOAD_FRAME := 30  // {"context":,"source_records":}

  /** The length of the JSON payload with the context and the first n sources. */
  function PayloadLength(contextSize: nat, sources: seq<Record>, n: nat): nat
    requires n <= |sources|
  {
    PAYLOAD_FRAME + contextSize + ListLength(sources, n)
  }

  /** The budget left to the context once the sources have been reserved. */
  function ContextLimit(cap: int, sources: seq<Record>): int {
    Max(200, cap - (SOURCES_FRAME + ListLength(sources, |sources|)))
  }

  /** `kept` is the greatest number of sources with which the payload meets its cap, or zero. */
  ghost predicate MostSources(contextSize: nat, sources: seq<Record>, cap: int, kept: nat) {
    && kept <= |sources|
    && (kept == 0 || PayloadLength(contextSize, sources, kept) <= cap)
    && (forall m :: kept < m <= |sources| ==> PayloadLength(contextSize, sources, m) > cap)
  }

  /** The payload part of build_grounded_prompt. */
  method BuildPayload(frame: nat, queues: seq<seq<Record>>, sources: seq<Record>, cap: int, maxSources: nat)
    returns (taken: seq<seq<Record>>, kept: nat)
    ensures var capped := sources[..Min(|sources|, maxSources)];
            var p := Problem(frame, queues, ContextLimit(cap, capped));
            && |taken| == |queues|
            && (forall k :: 0 <= k < |taken| ==> taken[k] == queues[k][..Packed(p)[k]])
            && MostSources(Size(p, Packed(p)), capped, cap, kept)
  {
    var capped := sources[..Min(|sources|, maxSources)];
    var p := Problem(frame, queues, ContextLimit(cap, capped));
    taken := PackContextByBudget(p);
    assert CountsOf(taken) == Packed(p);
    var contextSize := SerializedSize(p, taken);
    kept := |capped|;
    while PayloadLength(contextSize, capped, kept) > cap && kept > 0
      invariant kept <= |capped|
      invariant forall m :: kept < m <= |capped| ==> PayloadLength(contextSize, capped, m) > cap
    {
      kept := kept - 1;
    }
  }

  /** When the empty context fits its budget and the sources leave at least 200 characters, the payload
      overshoots its cap by at most eleven characters, so dropping one source of ordinary length is
      enough. */
  lemma AtMostOneSourceDropped(p: Problem, sources: seq<Record>, cap: int, kept: nat)
    requires p.budget == ContextLimit(cap, sources) && Size(p, NoRecords(p)) <= p.budget
    requires cap - (SOURCES_FRAME + ListLength(sources, |sources|)) >= 200
    requires forall i :: 0 <= i < |sources| ==> sources[i].size >= 11
    requires MostSources(Size(p, Packed(p)), sources, cap, kept)
    ensures PayloadLength(Size(p, Packed(p)), sources, |sources|) <= cap + 11
    ensures kept >= |sources| - 1
    ensures sources != [] ==> PayloadLength(Size(p, Packed(p)), sources, kept) <= cap
  {
    PackedWithinBudget(p);
    if kept < |sources| {
      assert ListLength(sources, |sources| - 1) + 11 <= ListLength(sources, |sources|);
      assert PayloadLength(Size(p, Packed(p)), sources, |sources| - 1) <= cap;
    }
  }

  // --- When the payload meets its cap ---

  /** However many sources there were to drop, the cap is met exactly when the context leaves room for
      the 32 characters around it and an empty list of sources. */
  lemma CapIsMetIff(contextSize: nat, sources: seq<Record>, cap: int, kept: nat)
    requires MostSources(contextSize, sources, cap, kept)
    ensures PayloadLength(contextSize, sources, kept) <= cap <==> contextSize + 32 <= cap
    ensures contextSize + 32 > cap ==> kept == 0 && PayloadLength(contextSize, sources, kept) == contextSize + 32
  {
    ListMonotone(sources, 0, kept);
    assert ListLength(sources, 0) == 2;
  }

  lemma {:induction false} EmptyLists(p: Problem, n: nat)
    requires n <= |p.queues|
    ensures ListsTo(p, NoRecords(p), n) == 2 * n
  {
    if n > 0 {
      EmptyLists(p, n - 1);
    }
  }

  /** The length of the context without records, which a caller knows beforehand. */
  function Skeleton(frame: nat, kinds: nat): nat {
    frame + 2 * kinds
  }

  lemma SkeletonIsEmptyContext(p: Problem)
    ensures Size(p, NoRecords(p)) == Skeleton(p.frame, |p.queues|)
  {
    EmptyLists(p, |p.queues|);
  }

  lemma PassGrows(p: Problem, counts: seq<nat>, r: nat, k: nat)
    requires Fits(p, counts) && k <= |counts|
    ensures NoMore(counts, Pass(p, counts, r, k))
    decreases |counts| - k
  {
    if k < |counts| {
      PassGrows(p, Consider(p, counts, r, k), r, k + 1);
    }
  }

  lemma {:induction false} RoundsGrow(p: Problem, counts: seq<nat>, r: nat)
    requires Fits(p, counts)
    ensures NoMore(counts, Rounds(p, counts, r))
    decreases Longest(p.queues) - r
  {
    if r < Longest(p.queues) {
      PassGrows(p, counts, r, 0);
      RoundsGrow(p, Pass(p, counts, r, 0), r + 1);
    }
  }

  lemma ConsiderAgrees(p: Problem, tight: Problem, counts: seq<nat>, r: nat, k: nat)
    requires tight == p.(budget := tight.budget) && tight.budget <= p.budget
    requires Fits(p, counts) && k < |counts| && Size(p, Consider(p, counts, r, k)) <= tight.budget
    ensures Consider(tight, counts, r, k) == Consider(p, counts, r, k)
  {
    if counts[k] == r < |p.queues[k]| {
      SizesAgree(p, tight, counts[k := r + 1], |counts|);
    }
  }

  /** A tighter limit that the result meets anyway changes no turn. */
  lemma {:induction false} PassAgrees(p: Problem, tight: Problem, counts: seq<nat>, r: nat, k: nat)
    requires tight == p.(budget := tight.budget) && tight.budget <= p.budget
    requires Fits(p, counts) && k <= |counts| && Size(p, Pass(p, counts, r, k)) <= tight.budget
    ensures Pass(tight, counts, r, k) == Pass(p, counts, r, k)
    decreases |counts| - k
  {
    if k < |counts| {
      var next := Consider(p, counts, r, k);
      PassGrows(p, next, r, k + 1);
      SizeMonotone(p, next, Pass(p, next, r, k + 1));
      ConsiderAgrees(p, tight, counts, r, k);
      PassAgrees(p, tight, next, r, k + 1);
    }
  }

  lemma {:induction false} SizesAgree(p: Problem, tight: Problem, counts: seq<nat>, n: nat)
    requires tight == p.(budget := tight.budget) && Fits(p, counts) && n <= |counts|
    ensures ListsTo(p, counts, n) == ListsTo(tight, counts, n)
    ensures n == |counts| ==> Size(p, counts) == Size(tight, counts)
  {
    if n > 0 {
      SizesAgree(p, tight, counts, n - 1);
    }
  }

  lemma {:induction false} RoundsAgree(p: Problem, tight: Problem, counts: seq<nat>, r: nat)
    requires tight == p.(budget := tight.budget) && tight.budget <= p.budget
    requires Fits(p, counts) && Size(p, Rounds(p, counts, r)) <= tight.budget
    ensures Rounds(tight, counts, r) == Rounds(p, counts, r)
    decreases Longest(p.queues) - r
  {
    if r < Longest(p.queues) {
      var next := Pass(p, counts, r, 0);
      RoundsGrow(p, next, r + 1);
      SizeMonotone(p, next, Rounds(p, next, r + 1));
      PassAgrees(p, tight, counts, r, 0);
      RoundsAgree(p, tight, next, r + 1);
    }
  }

  /** For given records: the payload meets its cap exactly if the skeleton does, and either the sources
      reserve at least what surrounds the context, or leaving that much room would not change what is
      packed. */
  lemma PayloadMeetsCapIff(p: Problem, sources: seq<Record>, cap: int, kept: nat)
    requires p.budget == ContextLimit(cap, sources) && MostSources(Size(p, Packed(p)), sources, cap, kept)
    ensures PayloadLength(Size(p, Packed(p)), sources, kept) <= cap <==>
              && Skeleton(p.frame, |p.queues|) + 32 <= cap
              && (p.budget <= cap - 32 || Packed(p) == Packed(p.(budget := cap - 32)))
  {
    var tight := p.(budget := cap - 32);
    CapIsMetIff(Size(p, Packed(p)), sources, cap, kept);
    PackedWithinBudget(p);
    PackedWithinBudget(tight);
    SkeletonIsEmptyContext(p);
    SkeletonIsEmptyContext(tight);
    SizeMonotone(p, NoRecords(p), Packed(p));
    SizesAgree(p, tight, Packed(tight), |p.queues|);
    if Size(p, Packed(p)) <= cap - 32 < p.budget {
      assert NoRecords(p) == NoRecords(tight);
      RoundsAgree(p, tight, NoRecords(p), 0);
    }
  }

  /** The payload never exceeds its cap by more than the reserve falls short of what surrounds the
      context: eleven characters once the cap is 221 and the skeleton fits its budget. */
  lemma ExcessBounded(p: Problem, sources: seq<Record>, cap: int, kept: nat)
    requires p.budget == ContextLimit(cap, sources) && MostSources(Size(p, Packed(p)), sources, cap, kept)
    ensures var length, skeleton := PayloadLength(Size(p, Packed(p)), sources, kept), Skeleton(p.frame, |p.queues|);
            && length <= Max(cap, Max(p.budget, skeleton) + 32)
            && (length > cap ==> kept == 0)
            && (cap >= 221 && skeleton <= p.budget ==> length <= cap + 11)
  {
    CapIsMetIff(Size(p, Packed(p)), sources, cap, kept);
    PackedWithinBudget(p);
    SkeletonIsEmptyContext(p);
  }

  /** One record in the first of these kinds. */
  function OneRecord(kinds: nat, size: nat): seq<seq<Record>>
    requires kinds > 0
  {
    [[Record(0, size)]] + seq(kinds - 1, k => [])
  }

  lemma {:induction false} OneRecordLists(p: Problem, size: nat, n: nat)
    requires 0 < n <= |p.queues| && p.queues == OneRecord(|p.queues|, size)
    ensures ListsTo(p, Everything(p), n) == 2 * n + size
  {
    if n == 1 {
      assert SumTo(p.queues[0], 0) == 0 && SumTo(p.queues[0], 1) == size;
      assert ListsTo(p, Everything(p), 0) == 0;
    } else {
      OneRecordLists(p, size, n - 1);
    }
  }

  /** The bound is attained: a single record of the right length fills the budget. */
  lemma BoundIsAttained(frame: nat, kinds: nat, sources: seq<Record>, cap: int) returns (p: Problem)
    requires kinds > 0 && Skeleton(frame, kinds) <= ContextLimit(cap, sources) && ContextLimit(cap, sources) > cap - 32
    ensures p.frame == frame && |p.queues| == kinds && p.budget == ContextLimit(cap, sources)
    ensures MostSources(Size(p, Packed(p)), sources, cap, 0)
    ensures PayloadLength(Size(p, Packed(p)), sources, 0) == p.budget + 32 > cap
  {
    var size := ContextLimit(cap, sources) - Skeleton(frame, kinds);
    p := Problem(frame, OneRecord(kinds, size), ContextLimit(cap, sources));
    OneRecordLists(p, size, kinds);
    assert Size(p, Everything(p)) == p.budget;
    AllPackedIff(p);
    NothingToKeep(Size(p, Packed(p)), sources, cap);
  }

  lemma NothingToKeep(contextSize: nat, sources: seq<Record>, cap: int)
    requires contextSize + 32 > cap
    ensures MostSources(contextSize, sources, cap, 0) && PayloadLength(contextSize, sources, 0) == contextSize + 32
  {
    forall m | 0 < m <= |sources|
      ensures PayloadLength(contextSize, sources, m) > cap
    {
      ListMonotone(sources, 0, m);
    }
    assert ListLength(sources, 0) == 2;
  }

  /** The cap is met for every choice of records. */
  ghost predicate CapGuaranteed(frame: nat, kinds: nat, sources: seq<Record>, cap: int) {
    forall p: Problem, kept: nat ::
      p.frame == frame && |p.queues| == kinds && p.budget == ContextLimit(cap, sources)
      && MostSources(Size(p, Packed(p)), sources, cap, kept) ==>
        PayloadLength(Size(p, Packed(p)), sources, kept) <= cap
  }

  /** Before any record is known: the cap is guaranteed exactly if the skeleton meets it and, when there
      are kinds with records, the cap is at least 232 and the JSON of the sources at least 32 long. */
  lemma CapGuaranteedIff(frame: nat, kinds: nat, sources: seq<Record>, cap: int)
    ensures CapGuaranteed(frame, kinds, sources, cap) <==>
              && Skeleton(frame, kinds) + 32 <= cap
              && (kinds == 0 || (cap >= 232 && SOURCES_FRAME + ListLength(sources, |sources|) >= 32))
  {
    var limit := ContextLimit(cap, sources);
    assert limit <= cap - 32 <==> cap >= 232 && SOURCES_FRAME + ListLength(sources, |sources|) >= 32;
    if Skeleton(frame, kinds) + 32 > cap {
      var p := Problem(frame, seq(kinds, k => []), limit);
      SkeletonIsEmptyContext(p);
      SizeMonotone(p, NoRecords(p), Packed(p));
      NothingToKeep(Size(p, Packed(p)), sources, cap);
    } else if kinds > 0 && limit > cap - 32 {
      var p := BoundIsAttained(frame, kinds, sources, cap);
    } else {
      forall p: Problem, kept: nat | p.frame == frame && |p.queues| == kinds && p.budget == limit
          && MostSources(Size(p, Packed(p)), sources, cap, kept)
        ensures PayloadLength(Size(p, Packed(p)), sources, kept) <= cap
      {
        if kinds == 0 {
          assert Packed(p) == [] == NoRecords(p);
          SkeletonIsEmptyContext(p);
          CapIsMetIff(Size(p, Packed(p)), sources, cap, kept);
        } else {
          PayloadMeetsCapIff(p, sources, cap, kept);
        }
      }
    }
  }

  /** A context of one record for which the payload exceeds its cap of 12000 characters. */
  lemma CapCanBeExceeded()
    ensures var p := Problem(40, [[Record(1, 11937)]], ContextLimit(12000, []));
            && Packed(p) == [1] && Size(p, Packed(p)) == 11979
            && PayloadLength(Size(p, Packed(p)), [], 0) == 12011
  {
    var q := [Record(1, 11937)];
    var p := Problem(40, [q], ContextLimit(12000, []));
    assert ListLength([], 0) == 2 && p.budget == 11979;
    assert SumTo(q, 0) == 0 && SumTo(q, 1) == 11937;
    assert ListLength(q, 1) == 11939;
    assert ListsTo(p, [1], 0) == 0 && ListsTo(p, [1], 1) == 11939;
    assert Size(p, [1]) == 11979;
    AllPackedIff(p);
    assert Everything(p) == [1];
  }
}
