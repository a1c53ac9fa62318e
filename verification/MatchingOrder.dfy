/** Does the order of the devices decide who is matched (reference_match.py)?  Greedy matching gives each
    device the best baseline that is left. */
module MatchingOrder {
  import opened Prelude
  import opened ReferenceMatch

  /** What a device would get if it came first: the matcher on the device and the rows alone. */
  function FirstChoice(cmp: Comparison, d: Device, rows: seq<Baseline>): Option<Match> {
    Best(cmp, d, rows, {})
  }

  function Wanted(cmp: Comparison, d: Device, rows: seq<Baseline>): Option<string> {
    IdentityAt(rows, FirstChoice(cmp, d, rows))
  }

  /** No two devices have a first choice with the same identity. */
  ghost predicate NoContention(cmp: Comparison, devices: seq<Device>, rows: seq<Baseline>) {
    forall i, j :: 0 <= i < j < |devices| && Wanted(cmp, devices[i], rows).Some? ==>
      Wanted(cmp, devices[i], rows) != Wanted(cmp, devices[j], rows)
  }

  /** A device gets its first choice as long as that is left, and nothing if it has none. */
  lemma FirstChoiceIsKept(cmp: Comparison, d: Device, rows: seq<Baseline>, used: set<string>)
    requires Wanted(cmp, d, rows).Some? ==> Wanted(cmp, d, rows).value !in used
    ensures Best(cmp, d, rows, used) == FirstChoice(cmp, d, rows)
  {
    BestIsBest(cmp, d, rows, {});
    BestIsBest(cmp, d, rows, used);
    assert forall j :: 0 <= j < |rows| ==> RowRank(cmp, d, rows[j], used) <= RowRank(cmp, d, rows[j], {});
    BestIsUnique(cmp, d, rows, used, Best(cmp, d, rows, used), FirstChoice(cmp, d, rows));
  }

  ghost predicate WantedBefore(cmp: Comparison, devices: seq<Device>, rows: seq<Baseline>, n: nat, id: string)
    requires n <= |devices|
  {
    exists j :: 0 <= j < n && Wanted(cmp, devices[j], rows) == Some(id)
  }

  lemma {:induction false} OnlyWantedIsUsed(
    cmp: Comparison, devices: seq<Device>, rows: seq<Baseline>, n: nat, id: string)
    requires NoContention(cmp, devices, rows) && n <= |devices| && id in UsedAfter(cmp, devices, rows, n)
    ensures WantedBefore(cmp, devices, rows, n, id)
    decreases n, 0
  {
    if id in UsedAfter(cmp, devices, rows, n - 1) {
      OnlyWantedIsUsed(cmp, devices, rows, n - 1, id);
    } else {
      EveryoneIsFirst(cmp, devices, rows, n - 1);
      assert Wanted(cmp, devices[n - 1], rows) == Some(id);
    }
  }

  /** Without contention every device gets its first choice. */
  lemma {:induction false} EveryoneIsFirst(cmp: Comparison, devices: seq<Device>, rows: seq<Baseline>, i: nat)
    requires NoContention(cmp, devices, rows) && i < |devices|
    ensures MatchOf(cmp, devices, rows, i) == FirstChoice(cmp, devices[i], rows)
    decreases i, 1
  {
    var wanted := Wanted(cmp, devices[i], rows);
    if wanted.Some? && wanted.value in UsedAfter(cmp, devices, rows, i) {
      OnlyWantedIsUsed(cmp, devices, rows, i, wanted.value);
      assert false;
    }
    FirstChoiceIsKept(cmp, devices[i], rows, UsedAfter(cmp, devices, rows, i));
  }

  // --- Orders ---

  ghost predicate IsOrder(order: seq<nat>, n: nat) {
    && |order| == n && (forall i :: 0 <= i < n ==> order[i] < n)
    && (forall i, j :: 0 <= i < j < n ==> order[i] != order[j])
  }

  function Reordered(devices: seq<Device>, order: seq<nat>): seq<Device>
    requires forall i :: 0 <= i < |order| ==> order[i] < |devices|
  {
    seq(|order|, i requires 0 <= i < |order| => devices[order[i]])
  }

  /** Whatever order the devices come in, each has the same match. */
  ghost predicate OrderIrrelevant(cmp: Comparison, devices: seq<Device>, rows: seq<Baseline>) {
    forall order, i :: IsOrder(order, |devices|) && 0 <= i < |devices| ==>
      MatchOf(cmp, Reordered(devices, order), rows, i) == MatchOf(cmp, devices, rows, order[i])
  }

  lemma ReorderedContention(cmp: Comparison, devices: seq<Device>, rows: seq<Baseline>, order: seq<nat>)
    requires NoContention(cmp, devices, rows) && IsOrder(order, |devices|)
    ensures NoContention(cmp, Reordered(devices, order), rows)
  {
    var other := Reordered(devices, order);
    forall i, j | 0 <= i < j < |other| && Wanted(cmp, other[i], rows).Some?
      ensures Wanted(cmp, other[i], rows) != Wanted(cmp, other[j], rows)
    {
      assert order[i] != order[j];
      assert other[i] == devices[order[i]] && other[j] == devices[order[j]];
    }
  }

  /** Devices 0 and k change places. */
  function SwapFirst(n: nat, k: nat): seq<nat>
    requires k < n
  {
    seq(n, i => if i == 0 then k else if i == k then 0 else i)
  }

  lemma ComingFirst(cmp: Comparison, devices: seq<Device>, rows: seq<Baseline>, k: nat)
    requires k < |devices| && OrderIrrelevant(cmp, devices, rows)
    ensures MatchOf(cmp, devices, rows, k) == FirstChoice(cmp, devices[k], rows)
  {
    var order := SwapFirst(|devices|, k);
    assert IsOrder(order, |devices|) && order[0] == k;
    var other := Reordered(devices, order);
    assert MatchOf(cmp, other, rows, 0) == MatchOf(cmp, devices, rows, order[0]);
    assert UsedAfter(cmp, other, rows, 0) == {};
  }

  /** The order is irrelevant exactly if no two devices want the same identity, which can be seen by
      matching every device on its own; then every device gets its first choice. */
  lemma OrderIrrelevantIff(cmp: Comparison, devices: seq<Device>, rows: seq<Baseline>)
    ensures OrderIrrelevant(cmp, devices, rows) <==> NoContention(cmp, devices, rows)
    ensures NoContention(cmp, devices, rows) ==>
              forall i :: 0 <= i < |devices| ==> MatchOf(cmp, devices, rows, i) == FirstChoice(cmp, devices[i], rows)
  {
    var n := |devices|;
    if NoContention(cmp, devices, rows) {
      forall i | 0 <= i < n
        ensures MatchOf(cmp, devices, rows, i) == FirstChoice(cmp, devices[i], rows)
      {
        EveryoneIsFirst(cmp, devices, rows, i);
      }
      forall order, i | IsOrder(order, n) && 0 <= i < n
        ensures MatchOf(cmp, Reordered(devices, order), rows, i) == MatchOf(cmp, devices, rows, order[i])
      {
        ReorderedContention(cmp, devices, rows, order);
        EveryoneIsFirst(cmp, Reordered(devices, order), rows, i);
      }
    } else if OrderIrrelevant(cmp, devices, rows) {
      var i, j :| 0 <= i < j < n && Wanted(cmp, devices[i], rows).Some?
                  && Wanted(cmp, devices[i], rows) == Wanted(cmp, devices[j], rows);
      ComingFirst(cmp, devices, rows, i);
      ComingFirst(cmp, devices, rows, j);
      NoIdentityTwice(cmp, devices, rows, i, j);
      assert false;
    }
  }

  // --- A device's own identity ---

  /** A device whose identity is in the reference gets it, with certainty, if no earlier device agrees with
      a row of that identity at medium or better. */
  lemma OwnIdentityIsKept(wifi: bool, devices: seq<Device>, rows: seq<Baseline>, i: nat, k: nat)
    requires i < |devices| && k < |rows|
    requires IdentityOf(devices[i], wifi) != "" && IdentityOf(devices[i], wifi) == rows[k].stableIdentity
    requires forall j, l :: 0 <= j < i && 0 <= l < |rows| && rows[l].stableIdentity == rows[k].stableIdentity ==>
               !Agrees(ComparisonFor(wifi), devices[j], rows[l])
    ensures var m := MatchOf(ComparisonFor(wifi), devices, rows, i);
            && m.Some? && rows[m.value.row].stableIdentity == rows[k].stableIdentity
            && m.value.candidate == Candidate(StableIdentity, Certain)
  {
    var cmp := ComparisonFor(wifi);
    if rows[k].stableIdentity in UsedAfter(cmp, devices, rows, i) {
      UsedBySomeone(cmp, devices, rows, i, rows[k].stableIdentity);
      assert false;
    }
    CertainMatchIff(cmp, wifi, devices, rows, i, k);
  }

  lemma UsedIsNotGiven(cmp: Comparison, devices: seq<Device>, rows: seq<Baseline>, n: nat, i: nat, id: string)
    requires n <= i < |devices| && id in UsedAfter(cmp, devices, rows, n)
    ensures IdentityAt(rows, MatchOf(cmp, devices, rows, i)) != Some(id)
  {
    UsedGrows(cmp, devices, rows, n, i);
    BestIsBest(cmp, devices[i], rows, UsedAfter(cmp, devices, rows, i));
  }

  /** The converse, as far as it holds: a device loses its identity if an earlier one has the same, ... */
  lemma SameIdentityLoses(wifi: bool, devices: seq<Device>, rows: seq<Baseline>, j: nat, i: nat, k: nat)
    requires j < i < |devices| && k < |rows|
    requires IdentityOf(devices[j], wifi) == IdentityOf(devices[i], wifi) == rows[k].stableIdentity != ""
    ensures IdentityAt(rows, MatchOf(ComparisonFor(wifi), devices, rows, i)) != Some(rows[k].stableIdentity)
  {
    var cmp := ComparisonFor(wifi);
    BearerUsesIt(cmp, wifi, devices, rows, j, k, i);
    UsedIsNotGiven(cmp, devices, rows, i, i, rows[k].stableIdentity);
  }

  /** ... and in some order if it is another device's first choice. */
  lemma WantedByAnotherLoses(cmp: Comparison, devices: seq<Device>, rows: seq<Baseline>, j: nat, i: nat)
    requires i < |devices| && j < |devices| && i != j && Wanted(cmp, devices[j], rows).Some?
    ensures exists order, at :: IsOrder(order, |devices|) && 0 <= at < |devices| && order[at] == i
              && IdentityAt(rows, MatchOf(cmp, Reordered(devices, order), rows, at)) != Wanted(cmp, devices[j], rows)
  {
    var order := SwapFirst(|devices|, j);
    var at := if i == 0 then j else i;
    var other := Reordered(devices, order);
    assert IsOrder(order, |devices|) && order[at] == i && at > 0 && other[0] == devices[j];
    assert MatchOf(cmp, other, rows, 0) == FirstChoice(cmp, devices[j], rows);
    if MatchOf(cmp, other, rows, at).Some? {
      NoIdentityTwice(cmp, other, rows, 0, at);
    }
  }

  /** For Bluetooth the order of the devices matters: a weaker match made first can take the baseline
      that carries a later device's own identity. */
  lemma OrderDecidesBluetooth()
    ensures var rows := [Baseline("id-1", "", Some(76), "hash", "", "", "", false)];
            var weak := Device("other", "", "", "", Some(76), "hash", "", "", "");
            var own := Device("id-1", "", "", "", None, "", "", "", "");
            && MatchOf(BluetoothCandidate, [own, weak], rows, 0).Some?
            && MatchOf(BluetoothCandidate, [own, weak], rows, 1).None?
            && MatchOf(BluetoothCandidate, [weak, own], rows, 0).Some?
            && MatchOf(BluetoothCandidate, [weak, own], rows, 1).None?
  {
    var rows := [Baseline("id-1", "", Some(76), "hash", "", "", "", false)];
    var weak := Device("other", "", "", "", Some(76), "hash", "", "", "");
    var own := Device("id-1", "", "", "", None, "", "", "", "");
    assert BluetoothCandidate(own, rows[0]) == Some(Candidate(StableIdentity, Certain));
    assert BluetoothCandidate(weak, rows[0]) == Some(Candidate(CompanyManufacturerHash, Medium));
    OnlyRowIsTaken([own, weak], rows);
    OnlyRowIsTaken([weak, own], rows);
  }

  lemma OnlyRowIsTaken(devices: seq<Device>, rows: seq<Baseline>)
    requires |devices| == 2 && |rows| == 1
    requires BluetoothCandidate(devices[0], rows[0]).Some?
    requires Promotable(BluetoothCandidate(devices[0], rows[0]).value.confidence)
    ensures MatchOf(BluetoothCandidate, devices, rows, 0).Some?
    ensures MatchOf(BluetoothCandidate, devices, rows, 1).None?
  {
    assert UsedAfter(BluetoothCandidate, devices, rows, 0) == {};
    assert RowRank(BluetoothCandidate, devices[0], rows[0], {}) > 1;
    BestIsBest(BluetoothCandidate, devices[0], rows, {});
    BestIsBest(BluetoothCandidate, devices[1], rows, UsedAfter(BluetoothCandidate, devices, rows, 1));
    assert rows[0].stableIdentity in UsedAfter(BluetoothCandidate, devices, rows, 1);
  }
}
