/** Fan-out of frames and audio packets to browser clients through bounded queues that drop their
    oldest entry (spectrum-ingest/app.py). Payloads are opaque. */
module IngestFanout {
  import opened Prelude

  /** The queue limit, at least 1, and whether a joining client is given the last payload. */
  datatype Config = Config(limit: nat, primes: bool)

  /** One client's history: how many payloads had been published when it joined, what its queue was
      offered, what became of the payloads that left the queue (taken or dropped), and what it took. */
  datatype Log<P> = Log(joined: nat, offered: seq<P>, taken: seq<bool>, received: seq<P>)

  /** Clients are numbered in the order of joining; `dropped` is the metric. */
  datatype State<P> = State(
    queues: seq<seq<P>>,
    logs: seq<Log<P>>,
    connected: set<nat>,
    last: Option<P>,
    dropped: nat,
    published: seq<P>)

  datatype Event<P> = Join | Publish(payload: P) | Consume(client: nat) | Leave(client: nat)

  function Init<P>(): State<P> {
    State([], [], {}, None, 0, [])
  }

  // --- Steps ---

  /** A full queue gives up its oldest entry for the new one. */
  function Offered<P>(q: seq<P>, p: P, c: Config): seq<P> {
    (if |q| >= c.limit && q != [] then q[1..] else q) + [p]
  }

  predicate Displaces<P>(q: seq<P>, c: Config) {
    |q| >= c.limit && q != []
  }

  function OfferedLog<P>(l: Log<P>, q: seq<P>, p: P, c: Config): Log<P> {
    l.(offered := l.offered + [p], taken := if Displaces(q, c) then l.taken + [false] else l.taken)
  }

  /** How many of the first k queues lose an entry to the next payload. */
  function Displaced<P>(queues: seq<seq<P>>, connected: set<nat>, c: Config, k: nat): nat
    requires k <= |queues|
  {
    if k == 0 then 0
    else
      Displaced(queues, connected, c, k - 1)
      + (if k - 1 in connected && Displaces(queues[k - 1], c) then 1 else 0)
  }

  function Filled<P>(queues: seq<seq<P>>, connected: set<nat>, p: P, c: Config): seq<seq<P>> {
    seq(|queues|, i requires 0 <= i < |queues| => if i in connected then Offered(queues[i], p, c) else queues[i])
  }

  function PublishStep<P>(s: State<P>, p: P, c: Config): State<P>
    requires |s.logs| == |s.queues|
  {
    State(
      Filled(s.queues, s.connected, p, c),
      seq(|s.queues|, i requires 0 <= i < |s.queues| =>
        if i in s.connected then OfferedLog(s.logs[i], s.queues[i], p, c) else s.logs[i]),
      s.connected, Some(p), s.dropped + Displaced(s.queues, s.connected, c, |s.queues|), s.published + [p])
  }

  function JoinStep<P>(s: State<P>, c: Config): State<P> {
    var primed := if c.primes && s.last.Some? then [s.last.value] else [];
    s.(queues := s.queues + [primed], logs := s.logs + [Log(|s.published|, primed, [], [])],
       connected := s.connected + {|s.queues|})
  }

  function ConsumeStep<P>(s: State<P>, i: nat): State<P>
    requires i < |s.queues| == |s.logs| && s.queues[i] != []
  {
    var l := s.logs[i];
    s.(queues := s.queues[i := s.queues[i][1..]],
       logs := s.logs[i := l.(taken := l.taken + [true], received := l.received + [s.queues[i][0]])])
  }

  predicate Enabled<P>(s: State<P>, e: Event<P>) {
    && |s.logs| == |s.queues|
    && (e.Consume? ==> e.client in s.connected && e.client < |s.queues| && s.queues[e.client] != [])
  }

  function Step<P>(s: State<P>, e: Event<P>, c: Config): State<P>
    requires Enabled(s, e)
  {
    match e
    case Join => JoinStep(s, c)
    case Publish(p) => PublishStep(s, p, c)
    case Consume(i) => ConsumeStep(s, i)
    case Leave(i) => s.(connected := s.connected - {i})
  }

  ghost predicate Possible<P>(s: State<P>, es: seq<Event<P>>, c: Config)
    decreases |es|
  {
    es == [] || (Enabled(s, es[0]) && Possible(Step(s, es[0], c), es[1..], c))
  }

  ghost function Run<P>(s: State<P>, es: seq<Event<P>>, c: Config): State<P>
    requires Possible(s, es, c)
    decreases |es|
  {
    if es == [] then s else Run(Step(s, es[0], c), es[1..], c)
  }

  // --- Invariant ---

  /** The payloads whose mark is true, in order. */
  function Marked<P>(payloads: seq<P>, marks: seq<bool>): seq<P>
    requires |payloads| == |marks|
  {
    if marks == [] then []
    else Marked(payloads[..|marks| - 1], marks[..|marks| - 1])
         + (if marks[|marks| - 1] then [payloads[|marks| - 1]] else [])
  }

  function Count(marks: seq<bool>, value: bool): nat {
    if marks == [] then 0
    else Count(marks[..|marks| - 1], value) + (if marks[|marks| - 1] == value then 1 else 0)
  }

  /** Where in the published payloads a client's share begins. */
  function ShareStart(joined: nat, c: Config): nat {
    if c.primes && joined > 0 then joined - 1 else joined
  }

  /** A queue is the unconsumed end of what it was offered, and an entry was dropped only when `limit`
      newer ones had been offered. */
  ghost predicate QueueInv<P>(q: seq<P>, l: Log<P>, c: Config) {
    && |q| <= c.limit
    && |l.taken| + |q| == |l.offered| && q == l.offered[|l.taken|..]
    && l.received == Marked(l.offered[..|l.taken|], l.taken)
    && forall i :: 0 <= i < |l.taken| && !l.taken[i] ==> i + c.limit < |l.offered|
  }

  /** A client is offered a stretch of the published payloads, up to the newest while it is connected. */
  ghost predicate ShareInv<P>(l: Log<P>, published: seq<P>, connected: bool, c: Config) {
    var start := ShareStart(l.joined, c);
    && start + |l.offered| <= |published|
    && l.offered == published[start..start + |l.offered|]
    && (connected ==> start + |l.offered| == |published|)
  }

  function TotalDropped<P>(logs: seq<Log<P>>): nat {
    if logs == [] then 0 else TotalDropped(logs[..|logs| - 1]) + Count(logs[|logs| - 1].taken, false)
  }

  ghost predicate ClientInv<P>(s: State<P>, i: nat, c: Config)
    requires i < |s.queues| == |s.logs|
  {
    QueueInv(s.queues[i], s.logs[i], c) && ShareInv(s.logs[i], s.published, i in s.connected, c)
  }

  ghost predicate Inv<P>(s: State<P>, c: Config) {
    && |s.logs| == |s.queues|
    && (forall i :: i in s.connected ==> i < |s.queues|)
    && s.last == (if s.published == [] then None else Some(s.published[|s.published| - 1]))
    && (forall i :: 0 <= i < |s.queues| ==> ClientInv(s, i, c))
    && s.dropped == TotalDropped(s.logs)
  }

  lemma InitInv<P>(c: Config)
    ensures Inv(Init<P>(), c)
  {
  }

  lemma MarkedMore<P>(payloads: seq<P>, marks: seq<bool>, p: P, mark: bool)
    requires |payloads| == |marks|
    ensures Marked(payloads + [p], marks + [mark]) == Marked(payloads, marks) + (if mark then [p] else [])
    ensures Count(marks + [mark], false) == Count(marks, false) + (if mark then 0 else 1)
  {
    assert (payloads + [p])[..|marks|] == payloads && (marks + [mark])[..|marks|] == marks;
  }

  lemma OfferKeepsQueueInv<P>(q: seq<P>, l: Log<P>, p: P, c: Config)
    requires c.limit >= 1 && QueueInv(q, l, c)
    ensures QueueInv(Offered(q, p, c), OfferedLog(l, q, p, c), c)
    ensures Count(OfferedLog(l, q, p, c).taken, false) == Count(l.taken, false) + (if Displaces(q, c) then 1 else 0)
  {
    var m := OfferedLog(l, q, p, c);
    var t := |l.taken|;
    assert m.offered[..t] == l.offered[..t];
    if Displaces(q, c) {
      assert m.offered[..t + 1] == l.offered[..t] + [q[0]];
      MarkedMore(l.offered[..t], l.taken, q[0], false);
    }
  }

  lemma OfferKeepsShareInv<P>(l: Log<P>, q: seq<P>, published: seq<P>, p: P, c: Config)
    requires ShareInv(l, published, true, c)
    ensures ShareInv(OfferedLog(l, q, p, c), published + [p], true, c)
  {
  }

  lemma ConsumeKeepsQueueInv<P>(q: seq<P>, l: Log<P>, c: Config)
    requires QueueInv(q, l, c) && q != []
    ensures QueueInv(q[1..], l.(taken := l.taken + [true], received := l.received + [q[0]]), c)
    ensures Count(l.taken + [true], false) == Count(l.taken, false)
  {
    var t := |l.taken|;
    assert l.offered[..t + 1] == l.offered[..t] + [q[0]];
    MarkedMore(l.offered[..t], l.taken, q[0], true);
  }

  lemma {:induction false} TotalAfterPublish<P>(s: State<P>, p: P, c: Config, k: nat)
    requires c.limit >= 1 && Inv(s, c) && k <= |s.queues|
    ensures TotalDropped(PublishStep(s, p, c).logs[..k]) ==
            TotalDropped(s.logs[..k]) + Displaced(s.queues, s.connected, c, k)
    decreases k
  {
    if k > 0 {
      var t := PublishStep(s, p, c);
      TotalAfterPublish(s, p, c, k - 1);
      assert t.logs[..k][..k - 1] == t.logs[..k - 1] && s.logs[..k][..k - 1] == s.logs[..k - 1];
      assert ClientInv(s, k - 1, c);
      OfferKeepsQueueInv(s.queues[k - 1], s.logs[k - 1], p, c);
    }
  }

  lemma PublishKeepsClient<P>(s: State<P>, p: P, c: Config, i: nat)
    requires c.limit >= 1 && i < |s.queues| == |s.logs| && ClientInv(s, i, c)
    ensures ClientInv(PublishStep(s, p, c), i, c)
  {
    if i in s.connected {
      OfferKeepsQueueInv(s.queues[i], s.logs[i], p, c);
      OfferKeepsShareInv(s.logs[i], s.queues[i], s.published, p, c);
    }
  }

  lemma PublishKeepsInv<P>(s: State<P>, p: P, c: Config)
    requires c.limit >= 1 && Inv(s, c)
    ensures Inv(PublishStep(s, p, c), c)
  {
    var t := PublishStep(s, p, c);
    forall i | 0 <= i < |t.queues|
      ensures ClientInv(t, i, c)
    {
      assert ClientInv(s, i, c);
      PublishKeepsClient(s, p, c, i);
    }
    TotalAfterPublish(s, p, c, |s.queues|);
    assert t.logs[..|s.queues|] == t.logs && s.logs[..|s.queues|] == s.logs;
  }

  lemma {:induction false} TotalUnchanged<P>(logs: seq<Log<P>>, i: nat, l: Log<P>)
    requires i < |logs| && Count(l.taken, false) == Count(logs[i].taken, false)
    ensures TotalDropped(logs[i := l]) == TotalDropped(logs)
    decreases |logs|
  {
    var n := |logs| - 1;
    if i < n {
      TotalUnchanged(logs[..n], i, l);
      assert logs[i := l][..n] == logs[..n][i := l];
    } else {
      assert logs[i := l][..n] == logs[..n];
    }
  }

  lemma ConsumeKeepsInv<P>(s: State<P>, i: nat, c: Config)
    requires Inv(s, c) && i in s.connected && s.queues[i] != []
    ensures Inv(ConsumeStep(s, i), c)
  {
    var t := ConsumeStep(s, i);
    assert ClientInv(s, i, c);
    ConsumeKeepsQueueInv(s.queues[i], s.logs[i], c);
    TotalUnchanged(s.logs, i, t.logs[i]);
    forall j | 0 <= j < |t.queues|
      ensures ClientInv(t, j, c)
    {
      assert ClientInv(s, j, c);
    }
  }

  lemma JoinKeepsInv<P>(s: State<P>, c: Config)
    requires c.limit >= 1 && Inv(s, c)
    ensures Inv(JoinStep(s, c), c)
  {
    var t := JoinStep(s, c);
    var n := |s.queues|;
    assert t.logs[..n] == s.logs;
    assert t.logs[n].taken == [];
    forall j | 0 <= j < |t.queues|
      ensures ClientInv(t, j, c)
    {
      if j < n {
        assert ClientInv(s, j, c);
      }
    }
  }

  lemma StepKeepsInv<P>(s: State<P>, e: Event<P>, c: Config)
    requires c.limit >= 1 && Inv(s, c) && Enabled(s, e)
    ensures Inv(Step(s, e, c), c)
  {
    match e
    case Join => JoinKeepsInv(s, c);
    case Publish(p) => PublishKeepsInv(s, p, c);
    case Consume(i) => ConsumeKeepsInv(s, i, c);
    case Leave(i) =>
      forall j | 0 <= j < |s.queues|
        ensures ClientInv(Step(s, e, c), j, c)
      {
        assert ClientInv(s, j, c);
      }
  }

  lemma {:induction false} RunKeepsInv<P>(s: State<P>, es: seq<Event<P>>, c: Config)
    requires c.limit >= 1 && Inv(s, c) && Possible(s, es, c)
    ensures Inv(Run(s, es, c), c)
    decreases |es|
  {
    if es != [] {
      StepKeepsInv(s, es[0], c);
      RunKeepsInv(Step(s, es[0], c), es[1..], c);
    }
  }

  // --- Consequences, for every run and every client ---

  /** A connected client's queue is bounded and holds exactly the newest published payloads. */
  lemma QueueHoldsTheNewest<P>(es: seq<Event<P>>, c: Config, i: nat)
    requires c.limit >= 1 && Possible(Init(), es, c) && i in Run(Init(), es, c).connected
    ensures var s := Run(Init(), es, c);
            && i < |s.queues| && |s.queues[i]| <= c.limit && |s.queues[i]| <= |s.published|
            && s.queues[i] == s.published[|s.published| - |s.queues[i]|..]
  {
    InitInv<P>(c);
    RunKeepsInv(Init(), es, c);
    var s := Run(Init(), es, c);
    var l := s.logs[i];
    var start := ShareStart(l.joined, c);
    assert ClientInv(s, i, c);
    assert l.offered == s.published[start..];
    assert l.offered[|l.taken|..] == s.published[start + |l.taken|..];
  }

  lemma PicksOneMore<P>(xs: seq<P>, ys: seq<P>, n: nat, at: seq<nat>)
    requires n < |ys| && PicksInOrder(xs, ys[..n], at)
    ensures PicksInOrder(xs + [ys[n]], ys, at + [n])
  {
  }

  lemma {:induction false} MarkedInOrder<P>(payloads: seq<P>, marks: seq<bool>) returns (at: seq<nat>)
    requires |payloads| == |marks|
    ensures PicksInOrder(Marked(payloads, marks), payloads, at)
    ensures |Marked(payloads, marks)| == Count(marks, true) && Count(marks, true) + Count(marks, false) == |marks|
    decreases |marks|
  {
    if marks == [] {
      at := [];
    } else {
      var n := |marks| - 1;
      at := MarkedInOrder(payloads[..n], marks[..n]);
      if marks[n] {
        PicksOneMore(Marked(payloads[..n], marks[..n]), payloads, n, at);
        at := at + [n];
      }
    }
  }

  /** What a client took is an in-order selection of what it was offered, and every payload it was
      offered is taken, dropped or still queued. */
  lemma NothingIsLostUncounted<P>(es: seq<Event<P>>, c: Config, i: nat)
    requires c.limit >= 1 && Possible(Init(), es, c) && i < |Run(Init(), es, c).queues|
    ensures var s := Run(Init(), es, c);
            && |s.logs| == |s.queues|
            && var l := s.logs[i];
               && Subsequence(l.received, l.offered)
               && |l.offered| == |l.received| + Count(l.taken, false) + |s.queues[i]|
  {
    InitInv<P>(c);
    RunKeepsInv(Init(), es, c);
    var s := Run(Init(), es, c);
    var l := s.logs[i];
    assert ClientInv(s, i, c);
    var at := MarkedInOrder(l.offered[..|l.taken|], l.taken);
    assert PicksInOrder(l.received, l.offered, at);
  }

  /** An entry is dropped only for a client that is a whole queue behind; the newest payload never is. */
  lemma DroppedOnlyWhenBehind<P>(es: seq<Event<P>>, c: Config, i: nat, k: nat)
    requires c.limit >= 1 && Possible(Init(), es, c) && i < |Run(Init(), es, c).queues|
    requires |Run(Init(), es, c).logs| == |Run(Init(), es, c).queues|
    requires var l := Run(Init(), es, c).logs[i]; k < |l.taken| && !l.taken[k]
    ensures k + c.limit < |Run(Init(), es, c).logs[i].offered|
  {
    InitInv<P>(c);
    RunKeepsInv(Init(), es, c);
    assert ClientInv(Run(Init(), es, c), i, c);
  }

  /** Publishing puts the payload at the end of every connected queue. */
  lemma PublishReachesEveryone<P>(s: State<P>, p: P, c: Config, i: nat)
    requires Inv(s, c) && i in s.connected
    ensures var q := PublishStep(s, p, c).queues[i];
            q != [] && q[|q| - 1] == p && (|s.queues[i]| < c.limit ==> q == s.queues[i] + [p])
  {
  }

  /** The metric is the number of payloads dropped over all clients that ever joined. */
  lemma MetricIsTheSum<P>(es: seq<Event<P>>, c: Config)
    requires c.limit >= 1 && Possible(Init(), es, c)
    ensures Run(Init(), es, c).dropped == TotalDropped(Run(Init(), es, c).logs)
  {
    InitInv<P>(c);
    RunKeepsInv(Init(), es, c);
  }

  // --- Who is connected ---

  function Joins<P>(es: seq<Event<P>>): nat {
    if es == [] then 0 else Joins(es[..|es| - 1]) + (if es[|es| - 1].Join? then 1 else 0)
  }

  /** Event k is the joining of client i, who does not leave in the events after it. */
  ghost predicate StaysFrom<P>(es: seq<Event<P>>, k: nat, i: nat) {
    && k < |es| && es[k].Join? && Joins(es[..k]) == i
    && forall j :: k < j < |es| ==> !(es[j].Leave? && es[j].client == i)
  }

  lemma {:induction false} RunOneMore<P>(s: State<P>, es: seq<Event<P>>, e: Event<P>, c: Config)
    requires Possible(s, es + [e], c)
    ensures Possible(s, es, c) && Enabled(Run(s, es, c), e)
    ensures Run(s, es + [e], c) == Step(Run(s, es, c), e, c)
    decreases |es|
  {
    if es == [] {
      assert es + [e] == [e];
      assert Run(Step(s, e, c), [], c) == Step(s, e, c);
    } else {
      assert (es + [e])[0] == es[0] && (es + [e])[1..] == es[1..] + [e];
      RunOneMore(Step(s, es[0], c), es[1..], e, c);
    }
  }

  lemma StaysOneMore<P>(es: seq<Event<P>>, e: Event<P>, k: nat, i: nat)
    requires k < |es|
    ensures StaysFrom(es + [e], k, i) <==> StaysFrom(es, k, i) && !(e.Leave? && e.client == i)
  {
    assert (es + [e])[..k] == es[..k];
    if StaysFrom(es + [e], k, i) {
      assert (es + [e])[|es|] == e;
      assert forall j :: k < j < |es| ==> (es + [e])[j] == es[j];
    }
  }

  /** Clients are numbered as they join, and a client is connected exactly if it has joined and not
      left since. */
  lemma {:induction false} ConnectedIff<P>(es: seq<Event<P>>, c: Config, i: nat)
    requires Possible(Init(), es, c)
    ensures |Run(Init(), es, c).queues| == Joins(es)
    ensures i in Run(Init(), es, c).connected <==> exists k: nat :: StaysFrom(es, k, i)
    decreases |es|
  {
    if es != [] {
      var n := |es| - 1;
      var e := es[n];
      assert es == es[..n] + [e];
      RunOneMore(Init(), es[..n], e, c);
      ConnectedIff(es[..n], c, i);
      forall k: nat | k < n
        ensures StaysFrom(es, k, i) <==> StaysFrom(es[..n], k, i) && !(e.Leave? && e.client == i)
      {
        StaysOneMore(es[..n], e, k, i);
      }
      assert StaysFrom(es, n, i) <==> e.Join? && Joins(es[..n]) == i;
    }
  }

  // --- Audio packets ---

  /** A packet of 2 to `largest` bytes is cut to whole 16-bit samples; others are refused. */
  function AudioPayload(data: seq<bv8>, largest: nat): (r: Option<seq<bv8>>)
    ensures r.Some? <==> 2 <= |data| <= largest
    ensures r.Some? ==> r.value <= data && r.value != [] && |r.value| % 2 == 0 && |data| - |r.value| < 2
  {
    if |data| < 2 || |data| > largest then None
    else
      var whole := if |data| % 2 == 1 then data[..|data| - 1] else data;
      if whole == [] then None else Some(whole)
  }

  // --- The object ---

  class IngestState<P> {
    const config: Config
    var queues: seq<seq<P>>
    var connected: set<nat>
    var last: Option<P>
    var dropped: nat
    ghost var logs: seq<Log<P>>
    ghost var published: seq<P>

    ghost function View(): State<P>
      reads this
    {
      State(queues, logs, connected, last, dropped, published)
    }

    ghost predicate Valid()
      reads this
    {
      config.limit >= 1 && Inv(View(), config)
    }

    constructor (limit: int, largest: nat, primes: bool)
      requires largest >= 1
      ensures Valid() && View() == Init() && config == Config(Max(1, Min(largest, limit)), primes)
    {
      config := Config(Max(1, Min(largest, limit)), primes);
      queues, connected, last, dropped, logs, published := [], {}, None, 0, [], [];
    }

    /** A socket opens: its number. */
    method Join() returns (client: nat)
      requires Valid()
      modifies this
      ensures Valid() && View() == Step(old(View()), Event.Join, config)
      ensures client == |old(queues)|
    {
      JoinKeepsInv(View(), config);
      client := |queues|;
      var queue := [];
      connected := connected + {client};
      if config.primes && last.Some? {
        queue := queue + [last.value];
        assert queue == [last.value];
      }
      logs := logs + [Log(|published|, queue, [], [])];
      queues := queues + [queue];
    }

    /** last_payload is set and the payload put into every queue. */
    method Publish(payload: P)
      requires Valid()
      modifies this
      ensures Valid() && View() == Step(old(View()), Event.Publish(payload), config)
    {
      PublishKeepsInv(View(), payload, config);
      last := Some(payload);
      FillQueues(payload);
      ghost var goal := PublishStep(old(View()), payload, config);
      logs, published := goal.logs, goal.published;
    }

    /** publish. */
    method FillQueues(payload: P)
      modifies `queues, `dropped
      ensures queues == Filled(old(queues), connected, payload, config)
      ensures dropped == old(dropped) + Displaced(old(queues), connected, config, |old(queues)|)
    {
      ghost var before := queues;
      ghost var after := Filled(queues, connected, payload, config);
      for i := 0 to |queues|
        invariant |queues| == |before|
        invariant forall j :: 0 <= j < i ==> queues[j] == after[j]
        invariant forall j :: i <= j < |queues| ==> queues[j] == before[j]
        invariant dropped == old(dropped) + Displaced(before, connected, config, i)
      {
        assert after[i] == if i in connected then Offered(before[i], payload, config) else before[i];
        if i in connected {
          var queue := queues[i];
          if |queue| >= config.limit && queue != [] {
            queue := queue[1..];
            dropped := dropped + 1;
          }
          queues := queues[i := queue + [payload]];
        }
      }
    }

    /** The socket's loop takes the next payload. */
    method Consume(client: nat) returns (payload: P)
      requires Valid() && client in connected && queues[client] != []
      modifies this
      ensures Valid() && View() == Step(old(View()), Event.Consume(client), config)
      ensures payload == old(queues[client][0])
    {
      ConsumeKeepsInv(View(), client, config);
      payload := queues[client][0];
      ghost var l := logs[client];
      logs := logs[client := l.(taken := l.taken + [true], received := l.received + [payload])];
      queues := queues[client := queues[client][1..]];
    }

    method Leave(client: nat)
      requires Valid()
      modifies this
      ensures Valid() && View() == Step(old(View()), Event.Leave(client), config)
    {
      StepKeepsInv(View(), Event.Leave(client), config);
      connected := connected - {client};
    }
  }
}
