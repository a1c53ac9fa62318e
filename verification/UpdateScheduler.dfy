/** `createUpdateScheduler` of demod-passband.js: debounced PATCH requests whose responses may
    arrive in any order.  The page's timeouts and the unsettled promises are part of the state,
    because the factory only ever sees them through handles and continuations. */
module UpdateScheduler {
  import opened Prelude

  /** The page: its clock and the timeouts it still holds, by handle and due time. */
  datatype Host = Host(clock: nat, live: map<nat, nat>, nextHandle: nat)

  /** What an observer of the scheduler has seen.  The request with sequence number k carried
      `sent[k - 1]`, which was the payload scheduled as number `origin[k - 1]`. */
  datatype Trace<P> = Trace(
    scheduled: seq<P>,
    lastScheduledAt: nat,
    sent: seq<P>,
    origin: seq<nat>,
    outstanding: set<nat>,
    settled: nat,
    succeeded: set<nat>,
    applied: seq<nat>,
    reported: seq<nat>)
  {
    function Scheduled(payload: P, now: nat): Trace<P> {
      this.(scheduled := scheduled + [payload], lastScheduledAt := now)
    }

    function Sent(payload: P, request: nat): Trace<P> {
      this.(sent := sent + [payload],
            origin := origin + [if |scheduled| > 0 then |scheduled| - 1 else 0],
            outstanding := outstanding + {request})
    }

    function Settled(request: nat, ok: bool): Trace<P> {
      this.(outstanding := outstanding - {request},
            settled := settled + 1,
            succeeded := if ok then succeeded + {request} else succeeded)
    }
  }

  /** The closure's five variables, the host and the observations. */
  datatype State<P> = State(
    timer: Option<nat>,
    pending: Option<P>,
    dispatchSeq: nat,
    appliedSeq: nat,
    inFlight: int,
    host: Host,
    trace: Trace<P>)

  datatype Event<P> =
    | Schedule(payload: P)
    | Flush
    | Fire(handle: nat)
    | Settle(request: nat, ok: bool)
    | Tick(ms: nat)

  function Init<P>(): State<P> {
    State(None, None, 0, 0, 0, Host(0, map[], 0), Trace([], 0, [], [], {}, 0, {}, [], []))
  }

  /** clearTimeout of the remembered handle, then setTimeout(flush, debounceMs). */
  function Rearmed(host: Host, timer: Option<nat>, debounceMs: nat): Host {
    var kept := if timer.Some? then host.live - {timer.value} else host.live;
    host.(live := kept[host.nextHandle := host.clock + debounceMs], nextHandle := host.nextHandle + 1)
  }

  function Scheduled<P>(s: State<P>, payload: P, debounceMs: nat): State<P> {
    s.(pending := Some(payload),
       timer := Some(s.host.nextHandle),
       host := Rearmed(s.host, s.timer, debounceMs),
       trace := s.trace.Scheduled(payload, s.host.clock))
  }

  /** The synchronous part of flush, up to the `await`. */
  function Flushed<P>(s: State<P>): State<P> {
    if s.pending.None? then
      s.(timer := None)
    else
      s.(timer := None,
         pending := None,
         dispatchSeq := s.dispatchSeq + 1,
         inFlight := s.inFlight + 1,
         trace := s.trace.Sent(s.pending.value, s.dispatchSeq + 1))
  }

  /** The continuation of flush once the promise of `request` has settled. */
  function Settled<P>(s: State<P>, request: nat, ok: bool): State<P> {
    var t := s.trace.Settled(request, ok);
    if request < s.appliedSeq then
      s.(inFlight := s.inFlight - 1, trace := t)
    else if ok then
      s.(inFlight := s.inFlight - 1, appliedSeq := request, trace := t.(applied := t.applied + [request]))
    else
      s.(inFlight := s.inFlight - 1, trace := t.(reported := t.reported + [request]))
  }

  predicate Enabled<P>(s: State<P>, e: Event<P>) {
    match e
    case Fire(h) => h in s.host.live && s.host.live[h] <= s.host.clock
    case Settle(k, _) => k in s.trace.outstanding
    case _ => true
  }

  function Step<P>(s: State<P>, e: Event<P>, debounceMs: nat): State<P> {
    match e
    case Schedule(p) => Scheduled(s, p, debounceMs)
    case Flush => Flushed(s)
    case Fire(h) => Flushed(s.(host := s.host.(live := s.host.live - {h})))
    case Settle(k, ok) => Settled(s, k, ok)
    case Tick(ms) => s.(host := s.host.(clock := s.host.clock + ms))
  }

  /** `es` can happen in this order from `s`. */
  ghost predicate Possible<P>(s: State<P>, es: seq<Event<P>>, debounceMs: nat)
    decreases |es|
  {
    es == [] ||
      (Enabled(s, es[0]) && Possible(Step(s, es[0], debounceMs), es[1..], debounceMs))
  }

  ghost function Run<P>(s: State<P>, es: seq<Event<P>>, debounceMs: nat): State<P>
    decreases |es|
  {
    if es == [] then s else Run(Step(s, es[0], debounceMs), es[1..], debounceMs)
  }

  ghost predicate Reachable<P(!new)>(s: State<P>, debounceMs: nat) {
    exists es: seq<Event<P>> ::
      Possible(Init<P>(), es, debounceMs) && s == Run(Init<P>(), es, debounceMs)
  }

  // --- What every step keeps ---

  ghost predicate IsMaximum(m: nat, s: set<nat>) {
    && (forall k :: k in s ==> k <= m)
    && (m in s || (m == 0 && s == {}))
  }

  ghost predicate Increasing(s: seq<nat>) {
    forall i, j :: 0 <= i < j < |s| ==> s[i] < s[j]
  }

  /** Every request is either unsettled or settled, and the counters count them. */
  ghost predicate Accounting<P>(s: State<P>) {
    && |s.trace.sent| == s.dispatchSeq
    && (forall k :: k in s.trace.outstanding ==> 1 <= k <= s.dispatchSeq)
    && (forall k :: k in s.trace.succeeded ==> 1 <= k <= s.dispatchSeq)
    && s.trace.succeeded !! s.trace.outstanding
    && s.inFlight == |s.trace.outstanding|
    && s.inFlight == |s.trace.sent| - s.trace.settled
  }

  /** What onApplied has seen is determined by the set of successful requests. */
  ghost predicate NewestWins<P>(s: State<P>) {
    && IsMaximum(s.appliedSeq, s.trace.succeeded)
    && Increasing(s.trace.applied)
    && (forall k :: k in s.trace.applied ==> k in s.trace.succeeded)
    && (s.trace.applied == [] <==> s.appliedSeq == 0)
    && (s.trace.applied != [] ==> s.trace.applied[|s.trace.applied| - 1] == s.appliedSeq)
  }

  /** Requests carry scheduled payloads in scheduling order, and an unsent payload is the last
      one scheduled and has a timeout that will send it. */
  ghost predicate NothingInvented<P>(s: State<P>) {
    && PicksInOrder(s.trace.sent, s.trace.scheduled, s.trace.origin)
    && (s.pending.Some? <==> s.timer.Some?)
    && (s.timer.Some? ==> s.timer.value in s.host.live && s.timer.value < s.host.nextHandle)
    && (s.pending.Some? ==>
          && |s.trace.scheduled| > 0 && s.pending.value == s.trace.scheduled[|s.trace.scheduled| - 1]
          && (s.trace.origin != [] ==> s.trace.origin[|s.trace.origin| - 1] < |s.trace.scheduled| - 1))
    && (s.pending.None? && s.trace.scheduled != [] ==>
          s.trace.origin != [] && s.trace.origin[|s.trace.origin| - 1] == |s.trace.scheduled| - 1)
    && (forall h :: h in s.host.live ==> h < s.host.nextHandle)
  }

  ghost predicate Inv<P>(s: State<P>) {
    Accounting(s) && NewestWins(s) && NothingInvented(s) && s.trace.lastScheduledAt <= s.host.clock
  }

  lemma SettledKeepsInv<P>(s: State<P>, request: nat, ok: bool)
    requires Inv(s) && request in s.trace.outstanding
    ensures Inv(Settled(s, request, ok))
  {
    var t := Settled(s, request, ok);
    if request < s.appliedSeq {
      assert NewestWins(t);
    } else if ok {
      assert request > s.appliedSeq;
      assert t.trace.applied == s.trace.applied + [request];
      assert NewestWins(t);
    }
  }

  lemma FlushedKeepsInv<P>(s: State<P>)
    requires Accounting(s) && NewestWins(s) && s.trace.lastScheduledAt <= s.host.clock
    requires PicksInOrder(s.trace.sent, s.trace.scheduled, s.trace.origin)
    requires s.pending.Some? ==>
               && |s.trace.scheduled| > 0 && s.pending.value == s.trace.scheduled[|s.trace.scheduled| - 1]
               && (s.trace.origin != [] ==> s.trace.origin[|s.trace.origin| - 1] < |s.trace.scheduled| - 1)
    requires s.pending.None? && s.trace.scheduled != [] ==>
               s.trace.origin != [] && s.trace.origin[|s.trace.origin| - 1] == |s.trace.scheduled| - 1
    requires forall h :: h in s.host.live ==> h < s.host.nextHandle
    ensures Inv(Flushed(s))
  {
    var t := Flushed(s);
    if s.pending.Some? {
      var last := |s.trace.scheduled| - 1;
      assert t.trace.origin == s.trace.origin + [last] && t.trace.sent == s.trace.sent + [s.pending.value];
      assert s.dispatchSeq + 1 !in s.trace.outstanding;
      assert PicksInOrder(t.trace.sent, t.trace.scheduled, t.trace.origin) by {
        forall i, j | 0 <= i < j < |t.trace.origin|
          ensures t.trace.origin[i] < t.trace.origin[j]
        {
          if j == |s.trace.origin| && i < |s.trace.origin| - 1 {
            assert s.trace.origin[i] < s.trace.origin[|s.trace.origin| - 1];
          }
        }
      }
    }
  }

  lemma StepKeepsInv<P>(s: State<P>, e: Event<P>, debounceMs: nat)
    requires Inv(s) && Enabled(s, e)
    ensures Inv(Step(s, e, debounceMs))
  {
    match e
    case Schedule(p) =>
      var t := Scheduled(s, p, debounceMs);
      assert s.trace.scheduled != [] && s.trace.origin != [] ==>
               s.trace.origin[|s.trace.origin| - 1] < |s.trace.scheduled|;
      assert NothingInvented(t);
    case Flush => FlushedKeepsInv(s);
    case Fire(h) => FlushedKeepsInv(s.(host := s.host.(live := s.host.live - {h})));
    case Settle(k, ok) => SettledKeepsInv(s, k, ok);
    case Tick(ms) =>
  }

  lemma {:induction false} RunKeepsInv<P>(s: State<P>, es: seq<Event<P>>, debounceMs: nat)
    requires Inv(s) && Possible(s, es, debounceMs)
    ensures Inv(Run(s, es, debounceMs))
    decreases |es|
  {
    if es == [] {
    } else {
      StepKeepsInv(s, es[0], debounceMs);
      RunKeepsInv(Step(s, es[0], debounceMs), es[1..], debounceMs);
    }
  }

  /** The invariants hold after every interleaving of schedule, flush, timeouts and responses. */
  lemma ReachableInv<P(!new)>(s: State<P>, debounceMs: nat)
    requires Reachable(s, debounceMs)
    ensures Inv(s)
  {
    var es: seq<Event<P>> :|
      Possible(Init<P>(), es, debounceMs) && s == Run(Init<P>(), es, debounceMs);
    RunKeepsInv(Init<P>(), es, debounceMs);
  }

  // --- Safety over whole runs ---

  /** The payload of the last request that onApplied was called for. */
  ghost function Shown<P>(s: State<P>): Option<P> {
    if s.trace.applied == [] then None
    else
      var k := s.trace.applied[|s.trace.applied| - 1];
      if 1 <= k <= |s.trace.sent| then Some(s.trace.sent[k - 1]) else None
  }

  /** inFlight is dispatched minus settled; applied numbers strictly increase; what was sent is a
      subsequence of what was scheduled; and the applied payload is that of the highest-numbered
      success. */
  lemma SafetyOfEveryRun<P(!new)>(s: State<P>, debounceMs: nat)
    requires Reachable(s, debounceMs)
    ensures s.inFlight == |s.trace.sent| - s.trace.settled
    ensures forall i, j :: 0 <= i < j < |s.trace.applied| ==> s.trace.applied[i] < s.trace.applied[j]
    ensures Subsequence(s.trace.sent, s.trace.scheduled)
    ensures forall k :: k in s.trace.succeeded ==> k <= s.appliedSeq
    ensures s.trace.succeeded != {} ==>
              && s.appliedSeq in s.trace.succeeded && 1 <= s.appliedSeq <= |s.trace.sent|
              && Shown(s) == Some(s.trace.sent[s.appliedSeq - 1])
  {
    ReachableInv(s, debounceMs);
    assert PicksInOrder(s.trace.sent, s.trace.scheduled, s.trace.origin);
  }

  /** Two runs that sent the same requests and saw the same ones succeed end showing the same
      payload, whatever else happened and in whatever order. */
  lemma OutcomeDependsOnSuccessesOnly<P(!new)>(s: State<P>, t: State<P>, debounceMs: nat)
    requires Reachable(s, debounceMs) && Reachable(t, debounceMs)
    requires s.trace.sent == t.trace.sent && s.trace.succeeded == t.trace.succeeded
    ensures s.appliedSeq == t.appliedSeq && Shown(s) == Shown(t)
    ensures s.trace.succeeded != {} ==> Shown(s).Some?
  {
    ReachableInv(s, debounceMs);
    ReachableInv(t, debounceMs);
  }

  ghost predicate OnlyResponses<P>(es: seq<Event<P>>) {
    forall i :: 0 <= i < |es| ==> es[i].Settle?
  }

  lemma {:induction false} ResponsesAddUp<P>(s: State<P>, es: seq<Event<P>>, debounceMs: nat)
    requires OnlyResponses(es) && Possible(s, es, debounceMs)
    ensures var t := Run(s, es, debounceMs);
            && (forall k :: k in t.trace.succeeded <==> k in s.trace.succeeded || Settle(k, true) in es)
            && (forall k :: k in t.trace.outstanding <==>
                  k in s.trace.outstanding && Settle(k, true) !in es && Settle(k, false) !in es)
            && t.trace.sent == s.trace.sent && t.pending == s.pending
    decreases |es|
  {
    if es == [] {
    } else {
      var rest := es[1..];
      assert es == [es[0]] + rest;
      assert forall k, ok :: Settle(k, ok) in es <==> Settle(k, ok) == es[0] || Settle(k, ok) in rest;
      ResponsesAddUp(Step(s, es[0], debounceMs), rest, debounceMs);
    }
  }

  /** Confluence: delivering the same responses in another order gives the same counters, the same
      unsettled requests and the same applied request. */
  lemma ArrivalOrderIrrelevant<P>(
    s: State<P>, es: seq<Event<P>>, fs: seq<Event<P>>, debounceMs: nat)
    requires Inv(s) && OnlyResponses(es) && OnlyResponses(fs)
    requires Possible(s, es, debounceMs) && Possible(s, fs, debounceMs)
    requires multiset(es) == multiset(fs)
    ensures var t, u := Run(s, es, debounceMs), Run(s, fs, debounceMs);
            && t.appliedSeq == u.appliedSeq && t.inFlight == u.inFlight
            && t.trace.outstanding == u.trace.outstanding && t.trace.succeeded == u.trace.succeeded
  {
    assert forall e :: e in es <==> e in multiset(es);
    assert forall e :: e in fs <==> e in multiset(fs);
    ResponsesAddUp(s, es, debounceMs);
    ResponsesAddUp(s, fs, debounceMs);
    RunKeepsInv(s, es, debounceMs);
    RunKeepsInv(s, fs, debounceMs);
    var t, u := Run(s, es, debounceMs), Run(s, fs, debounceMs);
    assert t.trace.succeeded == u.trace.succeeded;
    assert t.trace.outstanding == u.trace.outstanding;
  }

  /** Once nothing is pending and every promise has settled, the page shows the newest payload that
      the server accepted; when the last request succeeded, that is the last one scheduled. */
  lemma QuiescentShowsLastScheduled<P(!new)>(s: State<P>, debounceMs: nat)
    requires Reachable(s, debounceMs)
    requires s.pending.None? && s.trace.scheduled != []
    ensures s.timer.None?
    ensures s.trace.sent != [] && s.trace.sent[|s.trace.sent| - 1] == s.trace.scheduled[|s.trace.scheduled| - 1]
    ensures s.inFlight == 0 <==> s.trace.outstanding == {}
    ensures |s.trace.sent| in s.trace.succeeded ==>
              Shown(s) == Some(s.trace.scheduled[|s.trace.scheduled| - 1])
  {
    ReachableInv(s, debounceMs);
    var n := |s.trace.origin|;
    assert s.trace.sent[n - 1] == s.trace.scheduled[s.trace.origin[n - 1]];
  }

  /** A payload that is waiting has a timeout that can send it, so it is never forgotten. */
  lemma PendingIsSent<P(!new)>(s: State<P>, debounceMs: nat)
    requires Reachable(s, debounceMs) && s.pending.Some?
    ensures s.timer.Some? && s.timer.value in s.host.live && s.trace.scheduled != []
    ensures var due := s.(host := s.host.(clock := Max(s.host.clock, s.host.live[s.timer.value])));
            && Enabled(due, Fire(s.timer.value))
            && Step(due, Fire(s.timer.value), debounceMs).trace.sent ==
               s.trace.sent + [s.trace.scheduled[|s.trace.scheduled| - 1]]
  {
    ReachableInv(s, debounceMs);
  }

  /** A response, good or bad, reaches the page exactly when no newer request has succeeded yet. */
  lemma ResponseVisibleIff<P(!new)>(s: State<P>, request: nat, ok: bool, debounceMs: nat)
    requires Reachable(s, debounceMs) && request in s.trace.outstanding
    ensures var t := Settled(s, request, ok);
            var newest := forall k :: k in s.trace.succeeded ==> k < request;
            && t.trace.applied == (if ok && newest then s.trace.applied + [request] else s.trace.applied)
            && t.trace.reported == (if !ok && newest then s.trace.reported + [request] else s.trace.reported)
  {
    ReachableInv(s, debounceMs);
  }

  // --- Debouncing ---

  /** Each schedule sets one timeout, and the remembered one is due `debounceMs` after the last schedule. */
  ghost predicate Timed<P>(s: State<P>, debounceMs: nat) {
    && s.host.nextHandle == |s.trace.scheduled|
    && (s.timer.Some? ==> s.timer.value in s.host.live)
    && (s.timer.Some? ==> s.host.live[s.timer.value] == s.trace.lastScheduledAt + debounceMs)
  }

  /** The host holds no timeout other than the remembered one. */
  predicate NoneForgotten<P>(s: State<P>) {
    s.host.live.Keys == if s.timer.Some? then {s.timer.value} else {}
  }

  ghost predicate Debounced<P>(s: State<P>, debounceMs: nat) {
    Timed(s, debounceMs) && NoneForgotten(s)
  }

  lemma StepKeepsTimed<P>(s: State<P>, e: Event<P>, debounceMs: nat)
    requires Inv(s) && Timed(s, debounceMs) && Enabled(s, e)
    ensures Timed(Step(s, e, debounceMs), debounceMs)
  {
  }

  lemma {:induction false} RunKeepsTimed<P>(s: State<P>, es: seq<Event<P>>, debounceMs: nat)
    requires Inv(s) && Timed(s, debounceMs) && Possible(s, es, debounceMs)
    ensures Timed(Run(s, es, debounceMs), debounceMs)
    decreases |es|
  {
    if es != [] {
      StepKeepsInv(s, es[0], debounceMs);
      StepKeepsTimed(s, es[0], debounceMs);
      RunKeepsTimed(Step(s, es[0], debounceMs), es[1..], debounceMs);
    }
  }

  lemma ReachableTimed<P(!new)>(s: State<P>, debounceMs: nat)
    requires Reachable(s, debounceMs)
    ensures Inv(s) && Timed(s, debounceMs)
  {
    var es: seq<Event<P>> :|
      Possible(Init<P>(), es, debounceMs) && s == Run(Init<P>(), es, debounceMs);
    RunKeepsInv(Init<P>(), es, debounceMs);
    RunKeepsTimed(Init<P>(), es, debounceMs);
  }

  /** Without a direct call of flush, a timeout sends a payload only after `debounceMs` of rest. */
  lemma DebounceHonoured<P>(s: State<P>, e: Event<P>, debounceMs: nat)
    requires Inv(s) && Debounced(s, debounceMs) && Enabled(s, e) && !e.Flush?
    ensures Debounced(Step(s, e, debounceMs), debounceMs)
    ensures |Step(s, e, debounceMs).trace.sent| > |s.trace.sent| ==>
              s.host.clock >= s.trace.lastScheduledAt + debounceMs
  {
    var t := Step(s, e, debounceMs);
    match e
    case Schedule(p) =>
      assert t.host.live.Keys == {s.host.nextHandle};
    case Fire(h) =>
      assert h == s.timer.value;
      assert t.host.live.Keys == {};
    case Settle(k, ok) =>
    case Tick(ms) =>
  }

  /** Every payload that a timeout sends in this run has rested for `debounceMs` since the last schedule. */
  ghost predicate RestsBeforeSending<P>(s: State<P>, es: seq<Event<P>>, debounceMs: nat)
    decreases |es|
  {
    es == [] ||
    ((es[0].Fire? && s.pending.Some? ==> s.host.clock >= s.trace.lastScheduledAt + debounceMs)
     && RestsBeforeSending(Step(s, es[0], debounceMs), es[1..], debounceMs))
  }

  ghost predicate NoDirectFlush<P>(es: seq<Event<P>>) {
    forall i :: 0 <= i < |es| ==> !es[i].Flush?
  }

  /** The whole-run form: as long as nobody calls flush directly, every send comes after the rest. */
  lemma {:induction false} DebounceHonouredAlongRun<P>(s: State<P>, es: seq<Event<P>>, debounceMs: nat)
    requires Inv(s) && Debounced(s, debounceMs) && Possible(s, es, debounceMs) && NoDirectFlush(es)
    ensures RestsBeforeSending(s, es, debounceMs)
    ensures Debounced(Run(s, es, debounceMs), debounceMs)
    decreases |es|
  {
    if es == [] {
    } else {
      StepKeepsInv(s, es[0], debounceMs);
      DebounceHonoured(s, es[0], debounceMs);
      DebounceHonouredAlongRun(Step(s, es[0], debounceMs), es[1..], debounceMs);
    }
  }

  /** The debounce promise from a state on. */
  ghost predicate KeepsDebouncing<P(!new)>(s: State<P>, debounceMs: nat) {
    forall es: seq<Event<P>> :: Possible(s, es, debounceMs) && NoDirectFlush(es) ==>
      RestsBeforeSending(s, es, debounceMs)
  }

  /** In every reachable state: the promise holds for everything that follows exactly when there is no
      debounce time, or the page holds no timeout but the one remembered. */
  lemma KeepsDebouncingIff<P(!new)>(s: State<P>, debounceMs: nat)
    requires Reachable(s, debounceMs)
    ensures KeepsDebouncing(s, debounceMs) <==> debounceMs == 0 || NoneForgotten(s)
  {
    ReachableTimed(s, debounceMs);
    DebouncesIff(s, debounceMs);
  }

  /** flush forgets the timeout without clearing it: called directly, it keeps the promise exactly when
      there is no debounce time, or the page holds no timeout at all, remembered or not. */
  lemma DirectFlushKeepsDebounceIff<P(!new)>(s: State<P>, debounceMs: nat)
    requires Reachable(s, debounceMs)
    ensures KeepsDebouncing(Flushed(s), debounceMs) <==> debounceMs == 0 || s.host.live == map[]
  {
    ReachableTimed(s, debounceMs);
    StepKeepsInv(s, Flush, debounceMs);
    DebouncesIff(Flushed(s), debounceMs);
    assert s.host.live == map[] <==> s.host.live.Keys == {};
  }

  lemma DebouncesIff<P(!new)>(s: State<P>, debounceMs: nat)
    requires Inv(s) && Timed(s, debounceMs)
    ensures KeepsDebouncing(s, debounceMs) <==> debounceMs == 0 || NoneForgotten(s)
  {
    if debounceMs == 0 {
      NothingToWaitFor(s);
    } else if NoneForgotten(s) {
      forall es: seq<Event<P>> | Possible(s, es, debounceMs) && NoDirectFlush(es)
        ensures RestsBeforeSending(s, es, debounceMs)
      {
        DebounceHonouredAlongRun(s, es, debounceMs);
      }
    } else {
      var h := ForgottenTimeout(s);
      ForgottenTimeoutSendsEarly(s, h, s.trace.scheduled[0], debounceMs);
    }
  }

  /** A timeout that the scheduler does not remember; some payload was scheduled with it. */
  lemma ForgottenTimeout<P>(s: State<P>) returns (h: nat)
    requires Inv(s) && s.host.nextHandle == |s.trace.scheduled| && !NoneForgotten(s)
    ensures h in s.host.live && s.timer != Some(h) && s.trace.scheduled != []
  {
    var remembered := if s.timer.Some? then {s.timer.value} else {};
    assert remembered <= s.host.live.Keys;
    h :| h in s.host.live.Keys && h !in remembered;
  }

  /** No payload is scheduled in the future. */
  lemma NothingToWaitFor<P(!new)>(s: State<P>)
    requires s.host.clock >= s.trace.lastScheduledAt
    ensures KeepsDebouncing(s, 0)
  {
    forall es: seq<Event<P>> | Possible(s, es, 0)
      ensures RestsBeforeSending(s, es, 0)
    {
      ClockRunsForward(s, es);
    }
  }

  lemma {:induction false} ClockRunsForward<P>(s: State<P>, es: seq<Event<P>>)
    requires s.host.clock >= s.trace.lastScheduledAt && Possible(s, es, 0)
    ensures RestsBeforeSending(s, es, 0)
    decreases |es|
  {
    if es != [] {
      ClockRunsForward(Step(s, es[0], 0), es[1..]);
    }
  }

  /** What a forgotten timeout does: after it is due, the next scheduled payload can be sent
      without any rest at all. */
  lemma ForgottenTimeoutSendsEarly<P>(s: State<P>, h: nat, p: P, debounceMs: nat)
    requires Inv(s) && h in s.host.live && s.timer != Some(h)
    ensures var es := [Tick(Max(0, s.host.live[h] - s.host.clock)), Schedule(p), Fire(h)];
            var t := Run(s, es, debounceMs);
            && Possible(s, es, debounceMs) && NoDirectFlush(es)
            && t.trace.sent == s.trace.sent + [p]
            && t.host.clock == t.trace.lastScheduledAt
            && (debounceMs > 0 ==> !RestsBeforeSending(s, es, debounceMs))
  {
    var e0: Event<P>, e1, e2 := Tick(Max(0, s.host.live[h] - s.host.clock)), Schedule(p), Fire(h);
    var s1 := Step(s, e0, debounceMs);
    var s2 := Step(s1, e1, debounceMs);
    var s3 := Step(s2, e2, debounceMs);
    assert h in s2.host.live && s2.host.live[h] == s.host.live[h];
    assert [e0, e1, e2][1..] == [e1, e2] && [e1, e2][1..] == [e2] && [e2][1..] == [];
    assert Possible(s3, [], debounceMs) && Possible(s2, [e2], debounceMs);
    assert Possible(s1, [e1, e2], debounceMs);
    assert Run(s2, [e2], debounceMs) == s3;
    assert Run(s1, [e1, e2], debounceMs) == s3;
    if debounceMs > 0 {
      assert s2.host.clock == s2.trace.lastScheduledAt;
      assert !RestsBeforeSending(s2, [e2], debounceMs);
      assert !RestsBeforeSending(s1, [e1, e2], debounceMs);
    }
  }

  /** Such a state is two calls away, schedule and then flush, and the promise is broken in it; a second
      flush, with nothing pending and no timeout remembered, does not mend it. */
  lemma ForgottenTimeoutIsReachable<P(!new)>(p: P, debounceMs: nat)
    requires debounceMs > 0
    ensures exists s: State<P> ::
              && Reachable(s, debounceMs) && s.pending.None? && s.timer.None?
              && !KeepsDebouncing(s, debounceMs) && !KeepsDebouncing(Flushed(s), debounceMs)
  {
    var e0: Event<P>, e1: Event<P> := Schedule(p), Flush;
    var s1 := Step(Init<P>(), e0, debounceMs);
    var s2 := Step(s1, e1, debounceMs);
    assert [e0, e1][1..] == [e1] && [e1][1..] == [];
    assert Possible(s2, [], debounceMs) && Possible(s1, [e1], debounceMs) && Possible(Init<P>(), [e0, e1], debounceMs);
    assert Run(s1, [e1], debounceMs) == Run(s2, [], debounceMs) == s2;
    assert Run(Init<P>(), [e0, e1], debounceMs) == Run(s1, [e1], debounceMs);
    assert Reachable(s2, debounceMs) && 0 in s2.host.live;
    KeepsDebouncingIff(s2, debounceMs);
    DirectFlushKeepsDebounceIff(s2, debounceMs);
  }

  // --- The factory's closure ---

  class Scheduler<P> {
    const debounceMs: nat
    var timer: Option<nat>
    var dispatchSeq: nat
    var appliedSeq: nat
    var pendingPayload: Option<P>
    var inFlight: int
    var host: Host
    ghost var trace: Trace<P>

    ghost function View(): State<P>
      reads this
    {
      State(timer, pendingPayload, dispatchSeq, appliedSeq, inFlight, host, trace)
    }

    constructor (debounceMs: nat)
      ensures View() == Init<P>() && this.debounceMs == debounceMs
    {
      this.debounceMs := debounceMs;
      timer, pendingPayload, dispatchSeq, appliedSeq, inFlight := None, None, 0, 0, 0;
      host := Host(0, map[], 0);
      trace := Init<P>().trace;
    }

    method Schedule(payload: P)
      modifies this
      ensures View() == Step(old(View()), Event.Schedule(payload), debounceMs)
    {
      trace := trace.Scheduled(payload, host.clock);
      pendingPayload := Some(payload);
      ghost var before := host;
      if timer.Some? {
        host := host.(live := host.live - {timer.value});
      }
      var handle := host.nextHandle;
      host := host.(live := host.live[handle := host.clock + debounceMs], nextHandle := handle + 1);
      assert host == Rearmed(before, timer, debounceMs);
      timer := Some(handle);
    }

    /** Runs flush up to its `await`; the result is what was handed to `send`. */
    method Flush() returns (request: Option<(P, nat)>)
      modifies this
      ensures View() == Step(old(View()), Event.Flush, debounceMs)
      ensures request == if old(pendingPayload).None? then None
                         else Some((old(pendingPayload).value, old(dispatchSeq) + 1))
    {
      timer := None;
      if pendingPayload.None? {
        return None;
      }
      dispatchSeq := dispatchSeq + 1;
      var seqNo := dispatchSeq;
      var payload := pendingPayload.value;
      pendingPayload := None;
      inFlight := inFlight + 1;
      trace := trace.Sent(payload, seqNo);
      return Some((payload, seqNo));
    }

    /** The host runs a timeout that has become due. */
    method Fire(handle: nat) returns (request: Option<(P, nat)>)
      requires Enabled(View(), Event.Fire(handle))
      modifies this
      ensures View() == Step(old(View()), Event.Fire(handle), debounceMs)
      ensures request == if old(pendingPayload).None? then None
                         else Some((old(pendingPayload).value, old(dispatchSeq) + 1))
    {
      host := host.(live := host.live - {handle});
      request := Flush();
    }

    /** The promise of request `seqNo` settles; `stale` is the flag in flush's result. */
    method Settle(seqNo: nat, ok: bool) returns (stale: bool)
      requires Enabled(View(), Event.Settle(seqNo, ok))
      modifies this
      ensures View() == Step(old(View()), Event.Settle(seqNo, ok), debounceMs)
      ensures stale <==> seqNo < old(appliedSeq)
    {
      trace := trace.Settled(seqNo, ok);
      stale := seqNo < appliedSeq;
      if !stale {
        if ok {
          appliedSeq := seqNo;
          trace := trace.(applied := trace.applied + [seqNo]);
        } else {
          trace := trace.(reported := trace.reported + [seqNo]);
        }
      }
      inFlight := inFlight - 1;
    }
  }
}
