/** Matching observed devices against reference baselines (reference_match.py).  A missing field of
    a dictionary and an empty string are both "", which is how the source's tests treat them. */
module ReferenceMatch {
  import opened Prelude
  import Chunking

  datatype Device = Device(
    stableIdentity: string,
    bssid: string,
    mac: string,
    addressType: string,
    companyId: Option<int>,
    manufacturerHash: string,
    serviceFingerprint: string,
    deviceName: string,
    vendor: string)

  datatype Baseline = Baseline(
    stableIdentity: string,
    mac: string,
    companyId: Option<int>,
    manufacturerHash: string,
    serviceFingerprint: string,
    deviceName: string,
    vendor: string,
    ignored: bool)

  datatype Confidence = Low | Medium | High | Certain

  function Rank(c: Confidence): int {
    match c case Low => 1 case Medium => 2 case High => 3 case Certain => 4
  }

  datatype Method =
    | StableIdentity | PublicMac | CompanyManufacturerHash | ServiceUuidFingerprint | DeviceNameVendor

  datatype Candidate = Candidate(how: Method, confidence: Confidence)

  function Lower(s: string): string {
    seq(|s|, i requires 0 <= i < |s| => if 'A' <= s[i] <= 'Z' then (s[i] as int + 32) as char else s[i])
  }

  function Upper(s: string): string {
    seq(|s|, i requires 0 <= i < |s| => if 'a' <= s[i] <= 'z' then (s[i] as int - 32) as char else s[i])
  }

  /** str(value).strip().lower(). */
  function Normal(s: string): string {
    Lower(Chunking.Strip(Chunking.IsSpace, s))
  }

  function WifiCandidate(d: Device, b: Baseline): Option<Candidate> {
    var identity := if d.stableIdentity != "" then d.stableIdentity else d.bssid;
    if identity != "" && b.stableIdentity == identity then Some(Candidate(StableIdentity, Certain)) else None
  }

  function BluetoothCandidate(d: Device, b: Baseline): Option<Candidate> {
    var identity := if d.stableIdentity != "" then d.stableIdentity else d.mac;
    if identity != "" && b.stableIdentity == identity then
      Some(Candidate(StableIdentity, Certain))
    else if Normal(d.addressType) in ["public", "static"] && d.mac != "" && b.mac != ""
            && Upper(Chunking.Strip(Chunking.IsSpace, d.mac)) == Upper(Chunking.Strip(Chunking.IsSpace, b.mac)) then
      Some(Candidate(PublicMac, High))
    else if d.companyId.Some? && d.manufacturerHash != "" && d.companyId == b.companyId
            && d.manufacturerHash == b.manufacturerHash then
      Some(Candidate(CompanyManufacturerHash, Medium))
    else if d.serviceFingerprint != "" && d.serviceFingerprint == b.serviceFingerprint then
      Some(Candidate(ServiceUuidFingerprint, Medium))
    else if d.deviceName != "" && d.vendor != "" && Normal(d.deviceName) == Normal(b.deviceName)
            && Normal(d.vendor) == Normal(b.vendor) then
      Some(Candidate(DeviceNameVendor, Low))
    else None
  }

  /** How a protocol compares a device with a baseline. */
  type Comparison = (Device, Baseline) -> Option<Candidate>

  function ComparisonFor(wifi: bool): Comparison {
    if wifi then WifiCandidate else BluetoothCandidate
  }

  /** A match names the baseline by its position. */
  datatype Match = Match(row: nat, candidate: Candidate)

  predicate Promotable(c: Confidence) {
    c == Certain || c == High || c == Medium
  }

  /** The rank of a row for a device, 0 if its identity is used up or nothing agrees. */
  function RowRank(cmp: Comparison, d: Device, b: Baseline, used: set<string>): int {
    if b.stableIdentity in used || cmp(d, b).None? then 0 else Rank(cmp(d, b).value.confidence)
  }

  /** The earliest unused baseline of the greatest confidence; none if that is only low. */
  ghost predicate IsBest(cmp: Comparison, d: Device, rows: seq<Baseline>, used: set<string>, m: Option<Match>) {
    match m
    case None => forall j :: 0 <= j < |rows| ==> RowRank(cmp, d, rows[j], used) <= 1
    case Some(Match(k, c)) =>
      && k < |rows| && rows[k].stableIdentity !in used && cmp(d, rows[k]) == Some(c)
      && Promotable(c.confidence)
      && (forall j :: 0 <= j < |rows| ==> RowRank(cmp, d, rows[j], used) <= RowRank(cmp, d, rows[k], used))
      && (forall j :: 0 <= j < k ==> RowRank(cmp, d, rows[j], used) < RowRank(cmp, d, rows[k], used))
  }

  lemma BestIsUnique(
    cmp: Comparison, d: Device, rows: seq<Baseline>, used: set<string>, m: Option<Match>, n: Option<Match>)
    requires IsBest(cmp, d, rows, used, m) && IsBest(cmp, d, rows, used, n)
    ensures m == n
  {
    if m.Some? && n.Some? {
      assert m.value.row == n.value.row;
    }
  }

  method MatchWifiIdentity(d: Device, rows: seq<Baseline>, used: set<string>) returns (m: Option<Match>)
    ensures IsBest(WifiCandidate, d, rows, used, m)
  {
    var identity := if d.stableIdentity != "" then d.stableIdentity else d.bssid;
    if identity == "" {
      return None;
    }
    for i := 0 to |rows|
      invariant forall j :: 0 <= j < i ==> RowRank(WifiCandidate, d, rows[j], used) == 0
    {
      if rows[i].stableIdentity !in used && rows[i].stableIdentity == identity {
        return Some(Match(i, Candidate(StableIdentity, Certain)));
      }
    }
    return None;
  }

  method MatchBluetoothIdentity(d: Device, rows: seq<Baseline>, used: set<string>) returns (m: Option<Match>)
    ensures IsBest(BluetoothCandidate, d, rows, used, m)
  {
    m := ScanForBest(BluetoothCandidate, d, rows, used);
    if m.Some? && !Promotable(m.value.candidate.confidence) {
      m := None;
    }
  }

  /** The loop of match_bluetooth_identity, which stops at the first certain row. */
  method ScanForBest(cmp: Comparison, d: Device, rows: seq<Baseline>, used: set<string>) returns (best: Option<Match>)
    ensures match best
            case None => forall j :: 0 <= j < |rows| ==> RowRank(cmp, d, rows[j], used) == 0
            case Some(Match(k, c)) =>
              && k < |rows| && rows[k].stableIdentity !in used && cmp(d, rows[k]) == Some(c)
              && (forall j :: 0 <= j < |rows| ==> RowRank(cmp, d, rows[j], used) <= Rank(c.confidence))
              && (forall j :: 0 <= j < k ==> RowRank(cmp, d, rows[j], used) < Rank(c.confidence))
  {
    best := None;
    for i := 0 to |rows|
      invariant best.None? ==> forall j :: 0 <= j < i ==> RowRank(cmp, d, rows[j], used) == 0
      invariant best.Some? ==>
                  && best.value.row < i && rows[best.value.row].stableIdentity !in used
                  && cmp(d, rows[best.value.row]) == Some(best.value.candidate)
                  && (forall j :: 0 <= j < i ==>
                        RowRank(cmp, d, rows[j], used) <= Rank(best.value.candidate.confidence))
                  && (forall j :: 0 <= j < best.value.row ==>
                        RowRank(cmp, d, rows[j], used) < Rank(best.value.candidate.confidence))
    {
      if rows[i].stableIdentity in used {
        continue;
      }
      var candidate := cmp(d, rows[i]);
      if candidate.None? {
        continue;
      }
      if best.None? || Rank(candidate.value.confidence) > Rank(best.value.candidate.confidence) {
        best := Some(Match(i, candidate.value));
        if candidate.value.confidence == Certain {
          return;
        }
      }
    }
  }

  // --- A whole annotation run ---

  /** The first of the first `n` rows with the greatest rank, -1 if n is 0. */
  function TopRow(cmp: Comparison, d: Device, rows: seq<Baseline>, used: set<string>, n: nat): (k: int)
    requires n <= |rows|
    ensures -1 <= k < n
  {
    if n == 0 then -1
    else
      var k := TopRow(cmp, d, rows, used, n - 1);
      if k < 0 || RowRank(cmp, d, rows[n - 1], used) > RowRank(cmp, d, rows[k], used) then n - 1 else k
  }

  /** The result of matching one device, as a function. */
  function Best(cmp: Comparison, d: Device, rows: seq<Baseline>, used: set<string>): (m: Option<Match>)
    ensures m.Some? ==> m.value.row < |rows|
  {
    var k := TopRow(cmp, d, rows, used, |rows|);
    if k < 0 || RowRank(cmp, d, rows[k], used) <= 1 then None else Some(Match(k, cmp(d, rows[k]).value))
  }

  lemma {:induction false} TopRowIsTop(cmp: Comparison, d: Device, rows: seq<Baseline>, used: set<string>, n: nat)
    requires n <= |rows|
    ensures var k := TopRow(cmp, d, rows, used, n);
            && (k == -1 <==> n == 0)
            && (forall j :: 0 <= j < n ==> RowRank(cmp, d, rows[j], used) <= RowRank(cmp, d, rows[k], used))
            && (forall j :: 0 <= j < k ==> RowRank(cmp, d, rows[j], used) < RowRank(cmp, d, rows[k], used))
  {
    if n > 0 {
      TopRowIsTop(cmp, d, rows, used, n - 1);
    }
  }

  lemma BestIsBest(cmp: Comparison, d: Device, rows: seq<Baseline>, used: set<string>)
    ensures IsBest(cmp, d, rows, used, Best(cmp, d, rows, used))
  {
    TopRowIsTop(cmp, d, rows, used, |rows|);
  }

  /** The identities used up by the first `n` devices, and the match of each device. */
  ghost function UsedAfter(cmp: Comparison, devices: seq<Device>, rows: seq<Baseline>, n: nat): set<string>
    requires n <= |devices|
  {
    if n == 0 then {}
    else
      var used := UsedAfter(cmp, devices, rows, n - 1);
      var m := Best(cmp, devices[n - 1], rows, used);
      if m.Some? then used + {rows[m.value.row].stableIdentity} else used
  }

  ghost function MatchOf(cmp: Comparison, devices: seq<Device>, rows: seq<Baseline>, i: nat): Option<Match>
    requires i < |devices|
  {
    Best(cmp, devices[i], rows, UsedAfter(cmp, devices, rows, i))
  }

  lemma {:induction false} UsedGrows(cmp: Comparison, devices: seq<Device>, rows: seq<Baseline>, i: nat, n: nat)
    requires i <= n <= |devices|
    ensures UsedAfter(cmp, devices, rows, i) <= UsedAfter(cmp, devices, rows, n)
    decreases n - i
  {
    if i < n {
      UsedGrows(cmp, devices, rows, i, n - 1);
    }
  }

  /** No baseline identity is given to two devices. */
  lemma NoIdentityTwice(cmp: Comparison, devices: seq<Device>, rows: seq<Baseline>, i: nat, j: nat)
    requires i < j < |devices|
    requires MatchOf(cmp, devices, rows, i).Some? && MatchOf(cmp, devices, rows, j).Some?
    ensures rows[MatchOf(cmp, devices, rows, i).value.row].stableIdentity
         != rows[MatchOf(cmp, devices, rows, j).value.row].stableIdentity
  {
    UsedGrows(cmp, devices, rows, i + 1, j);
    BestIsBest(cmp, devices[j], rows, UsedAfter(cmp, devices, rows, j));
    assert rows[MatchOf(cmp, devices, rows, i).value.row].stableIdentity in UsedAfter(cmp, devices, rows, i + 1);
  }

  /** The matching is maximal: no device left new and baseline left unused agree at medium or better. */
  lemma MatchingIsMaximal(cmp: Comparison, devices: seq<Device>, rows: seq<Baseline>, i: nat, k: nat)
    requires i < |devices| && MatchOf(cmp, devices, rows, i).None?
    requires k < |rows| && rows[k].stableIdentity !in UsedAfter(cmp, devices, rows, |devices|)
    ensures cmp(devices[i], rows[k]).None? || cmp(devices[i], rows[k]).value.confidence == Low
  {
    UsedGrows(cmp, devices, rows, i, |devices|);
    BestIsBest(cmp, devices[i], rows, UsedAfter(cmp, devices, rows, i));
    assert RowRank(cmp, devices[i], rows[k], UsedAfter(cmp, devices, rows, i)) <= 1;
  }

  function IdentityOf(d: Device, wifi: bool): string {
    if d.stableIdentity != "" then d.stableIdentity else if wifi then d.bssid else d.mac
  }

  /** A device whose own identity is in the reference gets that baseline, with certainty, exactly when
      no earlier device has used it. */
  lemma CertainMatchIff(cmp: Comparison, wifi: bool, devices: seq<Device>, rows: seq<Baseline>, i: nat, k: nat)
    requires cmp == ComparisonFor(wifi)
    requires i < |devices| && k < |rows|
    requires IdentityOf(devices[i], wifi) != "" && IdentityOf(devices[i], wifi) == rows[k].stableIdentity
    ensures var m := MatchOf(cmp, devices, rows, i);
            rows[k].stableIdentity !in UsedAfter(cmp, devices, rows, i) <==>
              m.Some? && rows[m.value.row].stableIdentity == rows[k].stableIdentity
              && m.value.candidate == Candidate(StableIdentity, Certain)
  {
    var used := UsedAfter(cmp, devices, rows, i);
    assert cmp(devices[i], rows[k]) == Some(Candidate(StableIdentity, Certain));
    var m := MatchOf(cmp, devices, rows, i);
    BestIsBest(cmp, devices[i], rows, used);
    if rows[k].stableIdentity !in used {
      assert RowRank(cmp, devices[i], rows[k], used) == 4;
      assert m.Some? && m.value.candidate.confidence == Certain;
      CertainMeansIdentity(wifi, devices[i], rows[m.value.row]);
    }
  }

  lemma CertainMeansIdentity(wifi: bool, d: Device, b: Baseline)
    ensures var c := if wifi then WifiCandidate(d, b) else BluetoothCandidate(d, b);
            c.Some? && c.value.confidence == Certain <==>
              IdentityOf(d, wifi) != "" && b.stableIdentity == IdentityOf(d, wifi)
    ensures var c := if wifi then WifiCandidate(d, b) else BluetoothCandidate(d, b);
            c.Some? && c.value.confidence == Certain ==> c.value.how == StableIdentity
  {
  }

  // --- Who uses an identity ---

  /** A candidate good enough to be used. */
  predicate Agrees(cmp: Comparison, d: Device, b: Baseline) {
    cmp(d, b).Some? && Promotable(cmp(d, b).value.confidence)
  }

  lemma {:induction false} UsedBySomeone(
    cmp: Comparison, devices: seq<Device>, rows: seq<Baseline>, n: nat, id: string)
    requires n <= |devices| && id in UsedAfter(cmp, devices, rows, n)
    ensures exists j, k :: 0 <= j < n && 0 <= k < |rows| && rows[k].stableIdentity == id
                           && Agrees(cmp, devices[j], rows[k])
    decreases n
  {
    var used := UsedAfter(cmp, devices, rows, n - 1);
    if id in used {
      UsedBySomeone(cmp, devices, rows, n - 1, id);
    } else {
      BestIsBest(cmp, devices[n - 1], rows, used);
      assert Agrees(cmp, devices[n - 1], rows[Best(cmp, devices[n - 1], rows, used).value.row]);
    }
  }

  function IdentityAt(rows: seq<Baseline>, m: Option<Match>): Option<string>
    requires m.Some? ==> m.value.row < |rows|
  {
    if m.Some? then Some(rows[m.value.row].stableIdentity) else None
  }

  lemma AfterItsTurnUsed(cmp: Comparison, devices: seq<Device>, rows: seq<Baseline>, j: nat, id: string)
    requires j < |devices|
    requires id in UsedAfter(cmp, devices, rows, j) || IdentityAt(rows, MatchOf(cmp, devices, rows, j)) == Some(id)
    ensures id in UsedAfter(cmp, devices, rows, j + 1)
  {
  }

  /** After its turn a device's own identity is used up, by itself or by an earlier device. */
  lemma BearerUsesIt(
    cmp: Comparison, wifi: bool, devices: seq<Device>, rows: seq<Baseline>, j: nat, k: nat, n: nat)
    requires cmp == ComparisonFor(wifi) && j < n <= |devices| && k < |rows|
    requires IdentityOf(devices[j], wifi) != "" && IdentityOf(devices[j], wifi) == rows[k].stableIdentity
    ensures rows[k].stableIdentity in UsedAfter(cmp, devices, rows, n)
  {
    CertainMatchIff(cmp, wifi, devices, rows, j, k);
    AfterItsTurnUsed(cmp, devices, rows, j, rows[k].stableIdentity);
    UsedGrows(cmp, devices, rows, j + 1, n);
  }

  /** For Wi-Fi the outcome does not depend on chance: a device is in the reference exactly when its
      identity is, and no earlier device has the same identity. */
  lemma {:induction false} WifiInReferenceIff(devices: seq<Device>, rows: seq<Baseline>, i: nat)
    requires i < |devices|
    ensures MatchOf(WifiCandidate, devices, rows, i).Some? <==>
              && IdentityOf(devices[i], true) != ""
              && (exists k :: 0 <= k < |rows| && rows[k].stableIdentity == IdentityOf(devices[i], true))
              && (forall j :: 0 <= j < i ==> IdentityOf(devices[j], true) != IdentityOf(devices[i], true))
  {
    var id := IdentityOf(devices[i], true);
    var used := UsedAfter(WifiCandidate, devices, rows, i);
    WifiUsed(devices, rows, i);
    BestIsBest(WifiCandidate, devices[i], rows, used);
    if id != "" && exists k :: 0 <= k < |rows| && rows[k].stableIdentity == id {
      var k :| 0 <= k < |rows| && rows[k].stableIdentity == id;
      CertainMatchIff(WifiCandidate, true, devices, rows, i, k);
    }
  }

  /** The identities used on Wi-Fi are those that stand in the reference and belong to some device. */
  lemma WifiUsed(devices: seq<Device>, rows: seq<Baseline>, n: nat)
    requires n <= |devices|
    ensures forall id :: id in UsedAfter(WifiCandidate, devices, rows, n) <==>
              && id != "" && (exists k :: 0 <= k < |rows| && rows[k].stableIdentity == id)
              && (exists j :: 0 <= j < n && IdentityOf(devices[j], true) == id)
  {
    forall id | id in UsedAfter(WifiCandidate, devices, rows, n)
      ensures id != "" && (exists k :: 0 <= k < |rows| && rows[k].stableIdentity == id)
      ensures exists j :: 0 <= j < n && IdentityOf(devices[j], true) == id
    {
      UsedBySomeone(WifiCandidate, devices, rows, n, id);
    }
    forall j, k | 0 <= j < n && 0 <= k < |rows| && IdentityOf(devices[j], true) == rows[k].stableIdentity != ""
      ensures rows[k].stableIdentity in UsedAfter(WifiCandidate, devices, rows, n)
    {
      BearerUsesIt(WifiCandidate, true, devices, rows, j, k, n);
    }
  }

  // --- Counting ---

  /** The number of the first `n` devices that are matched. */
  ghost function Matched(cmp: Comparison, devices: seq<Device>, rows: seq<Baseline>, n: nat): nat
    requires n <= |devices|
  {
    if n == 0 then 0
    else Matched(cmp, devices, rows, n - 1) + (if MatchOf(cmp, devices, rows, n - 1).Some? then 1 else 0)
  }

  lemma {:induction false} MatchedCountsIdentities(cmp: Comparison, devices: seq<Device>, rows: seq<Baseline>, n: nat)
    requires n <= |devices|
    ensures Matched(cmp, devices, rows, n) == |UsedAfter(cmp, devices, rows, n)|
    ensures forall id :: id in UsedAfter(cmp, devices, rows, n) ==>
              exists k :: 0 <= k < |rows| && rows[k].stableIdentity == id
    decreases n
  {
    if n > 0 {
      MatchedCountsIdentities(cmp, devices, rows, n - 1);
      BestIsBest(cmp, devices[n - 1], rows, UsedAfter(cmp, devices, rows, n - 1));
    }
  }

  /** The rows that pass a test, in order. */
  function Select(rows: seq<Baseline>, p: Baseline -> bool): seq<Baseline> {
    if rows == [] then []
    else (if p(rows[0]) then [rows[0]] else []) + Select(rows[1..], p)
  }

  function Missing(used: set<string>): Baseline -> bool {
    (b: Baseline) => b.stableIdentity !in used && !b.ignored
  }

  function IgnoredUnmatched(used: set<string>): Baseline -> bool {
    (b: Baseline) => b.stableIdentity !in used && b.ignored
  }

  ghost function Identities(rows: seq<Baseline>): set<string> {
    set b | b in rows :: b.stableIdentity
  }

  function Taken(used: set<string>): Baseline -> bool {
    (b: Baseline) => b.stableIdentity in used
  }

  /** Every row is matched by identity, missing, or ignored. */
  lemma {:induction false} RowsSplit(rows: seq<Baseline>, used: set<string>)
    ensures |rows| ==
            |Select(rows, Missing(used))| + |Select(rows, IgnoredUnmatched(used))| + |Select(rows, Taken(used))|
  {
    if rows != [] {
      RowsSplit(rows[1..], used);
    }
  }

  /** No used identity stands in two rows. */
  ghost predicate UsedOnce(rows: seq<Baseline>, used: set<string>) {
    forall i, j :: 0 <= i < j < |rows| && rows[i].stableIdentity == rows[j].stableIdentity ==>
      rows[i].stableIdentity !in used
  }

  lemma ConsIdentities(row: Baseline, rows: seq<Baseline>)
    ensures Identities([row] + rows) == {row.stableIdentity} + Identities(rows)
  {
    assert forall b :: b in [row] + rows <==> b == row || b in rows;
  }

  lemma UsedOnceSplits(row: Baseline, rows: seq<Baseline>, used: set<string>)
    requires UsedOnce([row] + rows, used)
    ensures UsedOnce(rows, used) && (row.stableIdentity in used ==> row.stableIdentity !in Identities(rows))
  {
    var all := [row] + rows;
    forall i, j | 0 <= i < j < |rows| && rows[i].stableIdentity == rows[j].stableIdentity
      ensures rows[i].stableIdentity !in used
    {
      assert all[i + 1] == rows[i] && all[j + 1] == rows[j];
    }
    if row.stableIdentity in Identities(rows) {
      var j :| 0 <= j < |rows| && rows[j].stableIdentity == row.stableIdentity;
      assert all[0] == row && all[j + 1] == rows[j];
    }
  }

  lemma UsedOnceJoins(row: Baseline, rows: seq<Baseline>, used: set<string>)
    requires UsedOnce(rows, used) && (row.stableIdentity in used ==> row.stableIdentity !in Identities(rows))
    ensures UsedOnce([row] + rows, used)
  {
    var all := [row] + rows;
    forall i, j | 0 <= i < j < |all| && all[i].stableIdentity == all[j].stableIdentity
      ensures all[i].stableIdentity !in used
    {
      assert all[j] == rows[j - 1] && rows[j - 1] in rows;
      assert i > 0 ==> all[i] == rows[i - 1];
    }
  }

  /** The rows taken are at least the identities used, and exactly as many if none is used twice. */
  lemma {:induction false} TakenCount(rows: seq<Baseline>, used: set<string>)
    ensures |Select(rows, Taken(used))| >= |used * Identities(rows)|
    ensures |Select(rows, Taken(used))| == |used * Identities(rows)| <==> UsedOnce(rows, used)
  {
    if rows == [] {
      assert used * Identities(rows) == {};
    } else {
      var row, rest := rows[0], rows[1..];
      TakenCount(rest, used);
      assert rows == [row] + rest;
      OneMoreIdentity(row, rest, used);
      if UsedOnce(rows, used) {
        UsedOnceSplits(row, rest, used);
      } else if UsedOnce(rest, used) && !(row.stableIdentity in used && row.stableIdentity in Identities(rest)) {
        UsedOnceJoins(row, rest, used);
      }
    }
  }

  lemma OneMoreIdentity(row: Baseline, rows: seq<Baseline>, used: set<string>)
    ensures |used * Identities([row] + rows)| == |used * Identities(rows)|
              + (if row.stableIdentity in used && row.stableIdentity !in Identities(rows) then 1 else 0)
  {
    var id, common := row.stableIdentity, used * Identities(rows);
    ConsIdentities(row, rows);
    if id in used && id !in Identities(rows) {
      assert used * Identities([row] + rows) == {id} + common;
    } else {
      assert used * Identities([row] + rows) == common;
    }
  }

  /** Matched, missing and ignored-unmatched baselines together. */
  ghost function Counted(cmp: Comparison, devices: seq<Device>, rows: seq<Baseline>): nat {
    var used := UsedAfter(cmp, devices, rows, |devices|);
    Matched(cmp, devices, rows, |devices|) + |Select(rows, Missing(used))| + |Select(rows, IgnoredUnmatched(used))|
  }

  /** They add up to all baselines exactly if no used identity stands in two rows; otherwise a matched
      identity hides every other row that shares it. */
  lemma CountsAddUpIff(cmp: Comparison, devices: seq<Device>, rows: seq<Baseline>)
    ensures Counted(cmp, devices, rows) <= |rows|
    ensures Counted(cmp, devices, rows) == |rows| <==> UsedOnce(rows, UsedAfter(cmp, devices, rows, |devices|))
  {
    var used := UsedAfter(cmp, devices, rows, |devices|);
    MatchedCountsIdentities(cmp, devices, rows, |devices|);
    RowsSplit(rows, used);
    TakenCount(rows, used);
    assert used * Identities(rows) == used by {
      forall id | id in used
        ensures id in Identities(rows)
      {
        var k :| 0 <= k < |rows| && rows[k].stableIdentity == id;
        assert rows[k] in rows;
      }
    }
  }

  /** Some device would use a row of this identity. */
  ghost predicate Attainable(cmp: Comparison, rows: seq<Baseline>, id: string) {
    exists d, k :: 0 <= k < |rows| && rows[k].stableIdentity == id && Agrees(cmp, d, rows[k])
  }

  /** No two rows share an identity that some device would use. */
  ghost predicate NoneHidden(cmp: Comparison, rows: seq<Baseline>) {
    forall i, j :: 0 <= i < j < |rows| && rows[i].stableIdentity == rows[j].stableIdentity ==>
      !Attainable(cmp, rows, rows[i].stableIdentity)
  }

  /** Enough copies of a device use up the identity of every row it agrees with: each takes another one. */
  lemma EnoughCopies(cmp: Comparison, d: Device, rows: seq<Baseline>, k: nat)
    requires k < |rows| && Agrees(cmp, d, rows[k])
    ensures var devices := seq(|rows| + 1, i => d);
            rows[k].stableIdentity in UsedAfter(cmp, devices, rows, |devices|)
  {
    var devices := seq(|rows| + 1, i => d);
    var used := UsedAfter(cmp, devices, rows, |devices|);
    if rows[k].stableIdentity !in used {
      forall i | 0 <= i < |devices|
        ensures MatchOf(cmp, devices, rows, i).Some?
      {
        if MatchOf(cmp, devices, rows, i).None? {
          MatchingIsMaximal(cmp, devices, rows, i, k);
        }
      }
      AllMatched(cmp, devices, rows, |devices|);
      MatchedCountsIdentities(cmp, devices, rows, |devices|);
      FewIdentities(rows, used);
      assert false;
    }
  }

  lemma {:induction false} AllMatched(cmp: Comparison, devices: seq<Device>, rows: seq<Baseline>, n: nat)
    requires n <= |devices| && forall i :: 0 <= i < n ==> MatchOf(cmp, devices, rows, i).Some?
    ensures Matched(cmp, devices, rows, n) == n
    decreases n
  {
    if n > 0 {
      AllMatched(cmp, devices, rows, n - 1);
    }
  }

  /** There are no more identities than rows. */
  lemma {:induction false} FewIdentities(rows: seq<Baseline>, ids: set<string>)
    requires forall id :: id in ids ==> exists k :: 0 <= k < |rows| && rows[k].stableIdentity == id
    ensures |ids| <= |rows|
    decreases |rows|
  {
    if rows != [] {
      var rest, id := rows[1..], rows[0].stableIdentity;
      forall x | x in ids - {id}
        ensures exists k :: 0 <= k < |rest| && rest[k].stableIdentity == x
      {
        var k :| 0 <= k < |rows| && rows[k].stableIdentity == x;
        assert rest[k - 1] == rows[k];
      }
      FewIdentities(rest, ids - {id});
    } else {
      assert ids == {};
    }
  }

  /** For the rows alone: the counts add up for every list of devices exactly if no two rows share an
      identity that some device would use. */
  lemma CountsAlwaysAddUpIff(cmp: Comparison, rows: seq<Baseline>)
    ensures (forall devices :: Counted(cmp, devices, rows) == |rows|) <==> NoneHidden(cmp, rows)
  {
    if NoneHidden(cmp, rows) {
      forall devices
        ensures Counted(cmp, devices, rows) == |rows|
      {
        CountsAddUpIff(cmp, devices, rows);
        UsedIsAttainable(cmp, devices, rows);
      }
    } else {
      var i, j :| 0 <= i < j < |rows| && rows[i].stableIdentity == rows[j].stableIdentity
                  && Attainable(cmp, rows, rows[i].stableIdentity);
      var d, k :| 0 <= k < |rows| && rows[k].stableIdentity == rows[i].stableIdentity && Agrees(cmp, d, rows[k]);
      EnoughCopies(cmp, d, rows, k);
      CountsAddUpIff(cmp, seq(|rows| + 1, i => d), rows);
    }
  }

  lemma UsedIsAttainable(cmp: Comparison, devices: seq<Device>, rows: seq<Baseline>)
    ensures forall id :: id in UsedAfter(cmp, devices, rows, |devices|) ==> Attainable(cmp, rows, id)
  {
    forall id | id in UsedAfter(cmp, devices, rows, |devices|)
      ensures Attainable(cmp, rows, id)
    {
      UsedBySomeone(cmp, devices, rows, |devices|, id);
    }
  }

  /** No two rows share an identity that a device can have. */
  ghost predicate DistinctIdentities(rows: seq<Baseline>) {
    forall i, j :: 0 <= i < j < |rows| && rows[i].stableIdentity == rows[j].stableIdentity ==>
      rows[i].stableIdentity == ""
  }

  /** On Wi-Fi: exactly if no two rows share a non-empty identity. */
  lemma WifiCountsAlwaysAddUpIff(rows: seq<Baseline>)
    ensures (forall devices :: Counted(WifiCandidate, devices, rows) == |rows|) <==> DistinctIdentities(rows)
  {
    CountsAlwaysAddUpIff(WifiCandidate, rows);
    forall i | 0 <= i < |rows|
      ensures Attainable(WifiCandidate, rows, rows[i].stableIdentity) <==> rows[i].stableIdentity != ""
    {
      assert rows[i].stableIdentity != "" ==> Agrees(WifiCandidate, Bearer(rows[i].stableIdentity), rows[i]);
    }
  }

  /** A device with this identity and nothing else. */
  function Bearer(id: string): Device {
    Device(id, "", "", "", None, "", "", "", "")
  }

  /** A row that Bluetooth can recognise by other means than its identity. */
  predicate Recognisable(b: Baseline) {
    b.mac != "" || (b.companyId.Some? && b.manufacturerHash != "") || b.serviceFingerprint != ""
  }

  /** A device that shows everything by which a row can be recognised, except its identity. */
  function Double(b: Baseline): Device {
    Device("", "", b.mac, "public", b.companyId, b.manufacturerHash, b.serviceFingerprint, "", "")
  }

  lemma DoubleAgrees(b: Baseline)
    requires b.stableIdentity == "" && Recognisable(b)
    ensures Agrees(BluetoothCandidate, Double(b), b)
  {
    assert Normal("public") == "public";
  }

  /** A row is used for its identity, or, without one, for something else it is recognised by. */
  lemma BluetoothAttainableIff(rows: seq<Baseline>, id: string)
    ensures Attainable(BluetoothCandidate, rows, id) <==>
              exists k :: 0 <= k < |rows| && rows[k].stableIdentity == id && (id != "" || Recognisable(rows[k]))
  {
    forall k | 0 <= k < |rows| && rows[k].stableIdentity == id && (id != "" || Recognisable(rows[k]))
      ensures Attainable(BluetoothCandidate, rows, id)
    {
      if id != "" {
        assert Agrees(BluetoothCandidate, Bearer(id), rows[k]);
      } else {
        DoubleAgrees(rows[k]);
      }
    }
  }

  /** No two rows share a non-empty identity, and where several have none, none of them can be recognised
      by anything else. */
  ghost predicate DistinctOrUnrecognisable(rows: seq<Baseline>) {
    forall i, j, k :: 0 <= i < j < |rows| && rows[i].stableIdentity == rows[j].stableIdentity && 0 <= k < |rows|
                      && rows[k].stableIdentity == rows[i].stableIdentity ==>
      rows[k].stableIdentity == "" && !Recognisable(rows[k])
  }

  /** On Bluetooth: exactly under that condition. */
  lemma BluetoothCountsAlwaysAddUpIff(rows: seq<Baseline>)
    ensures (forall devices :: Counted(BluetoothCandidate, devices, rows) == |rows|) <==>
              DistinctOrUnrecognisable(rows)
  {
    CountsAlwaysAddUpIff(BluetoothCandidate, rows);
    forall i | 0 <= i < |rows|
      ensures Attainable(BluetoothCandidate, rows, rows[i].stableIdentity) <==>
                exists k :: 0 <= k < |rows| && rows[k].stableIdentity == rows[i].stableIdentity
                            && (rows[k].stableIdentity != "" || Recognisable(rows[k]))
    {
      BluetoothAttainableIff(rows, rows[i].stableIdentity);
    }
  }

  /** The failing input, for both protocols: one device whose identity stands in two rows. */
  lemma SharedIdentityIsHidden(wifi: bool, rows: seq<Baseline>, i: nat, j: nat)
    requires i < j < |rows| && rows[i].stableIdentity == rows[j].stableIdentity != ""
    ensures Counted(ComparisonFor(wifi), [Bearer(rows[i].stableIdentity)], rows) < |rows|
  {
    var devices := [Bearer(rows[i].stableIdentity)];
    BearerUsesIt(ComparisonFor(wifi), wifi, devices, rows, 0, i, 1);
    CountsAddUpIff(ComparisonFor(wifi), devices, rows);
  }

  // --- annotate_devices ---

  datatype Status = NotCompared | InReference | New

  datatype Item = Item(device: Device, status: Status, found: Option<Match>)

  datatype Summary = Summary(inReference: nat, newItems: nat, missing: seq<Baseline>, totalActive: nat)

  /** What annotate_devices writes into an item. */
  function Annotated(item: Item, m: Option<Match>): Item {
    item.(status := if m.Some? then InReference else New, found := m)
  }

  function Devices(items: seq<Item>): seq<Device> {
    seq(|items|, i requires 0 <= i < |items| => items[i].device)
  }

  /** Every item with the match of its device, earlier devices having used up their identities. */
  ghost function AnnotatedAll(cmp: Comparison, items: seq<Item>, devices: seq<Device>, rows: seq<Baseline>): seq<Item>
    requires devices == Devices(items)
  {
    seq(|items|, j requires 0 <= j < |items| => Annotated(items[j], MatchOf(cmp, devices, rows, j)))
  }

  /** Every item keeps its device, and is in the reference exactly if its device was matched, with that
      match; otherwise it is new. */
  lemma AnnotatedIs(cmp: Comparison, items: seq<Item>, rows: seq<Baseline>, j: nat)
    requires j < |items|
    ensures var item, m := AnnotatedAll(cmp, items, Devices(items), rows)[j], MatchOf(cmp, Devices(items), rows, j);
            && item.device == items[j].device && item.found == m
            && (item.status == InReference <==> m.Some?) && (item.status == New <==> m.None?)
  {
  }

  method AnnotateDevices(items: array<Item>, rows: seq<Baseline>, wifi: bool) returns (summary: Summary)
    modifies items
    ensures var cmp := ComparisonFor(wifi);
            var devices := Devices(old(items[..]));
            && items[..] == AnnotatedAll(cmp, old(items[..]), devices, rows)
            && summary.inReference == Matched(cmp, devices, rows, items.Length)
            && summary.newItems == items.Length - summary.inReference && summary.totalActive == items.Length
            && summary.missing == Select(rows, Missing(UsedAfter(cmp, devices, rows, items.Length)))
  {
    var used, inReference, newItems := AnnotateItems(items, Devices(items[..]), rows, wifi);
    summary := Summary(inReference, newItems, Select(rows, Missing(used)), items.Length);
  }

  /** The loop over the items. */
  method AnnotateItems(items: array<Item>, ghost devices: seq<Device>, rows: seq<Baseline>, wifi: bool)
    returns (used: set<string>, inReference: nat, newItems: nat)
    requires devices == Devices(items[..])
    modifies items
    ensures items[..] == AnnotatedAll(ComparisonFor(wifi), old(items[..]), devices, rows)
    ensures inReference == Matched(ComparisonFor(wifi), devices, rows, items.Length)
    ensures newItems == items.Length - inReference
    ensures used == UsedAfter(ComparisonFor(wifi), devices, rows, items.Length)
  {
    ghost var cmp, before := ComparisonFor(wifi), items[..];
    used, inReference, newItems := {}, 0, 0;
    ProgressStarts(cmp, before, rows);
    for i := 0 to items.Length
      invariant Progress(cmp, before, rows, i, items[..], used, inReference, newItems)
    {
      used, inReference, newItems := AnnotateNext(items, before, rows, wifi, i, used, inReference, newItems);
    }
    ProgressEnds(cmp, before, rows, items[..], used, inReference, newItems);
  }

  lemma ProgressStarts(cmp: Comparison, before: seq<Item>, rows: seq<Baseline>)
    ensures Progress(cmp, before, rows, 0, before, {}, 0, 0)
  {
    var after := AnnotatedAll(cmp, before, Devices(before), rows);
    assert after[..0] + before[0..] == before;
  }

  lemma ProgressEnds(
    cmp: Comparison, before: seq<Item>, rows: seq<Baseline>, current: seq<Item>, used: set<string>, inReference: nat,
    newItems: nat)
    requires Progress(cmp, before, rows, |before|, current, used, inReference, newItems)
    ensures current == AnnotatedAll(cmp, before, Devices(before), rows)
  {
    assert current[..|before|] == current;
  }

  /** The first i items are annotated and counted. */
  ghost predicate Progress(
    cmp: Comparison, before: seq<Item>, rows: seq<Baseline>, i: nat, current: seq<Item>, used: set<string>,
    inReference: nat, newItems: nat)
  {
    && i <= |before| && PartlyAnnotated(cmp, before, rows, i, current)
    && TalliedUp(cmp, Devices(before), rows, i, used, inReference) && newItems == i - inReference
  }

  ghost predicate PartlyAnnotated(cmp: Comparison, before: seq<Item>, rows: seq<Baseline>, i: nat, current: seq<Item>)
    requires i <= |before|
  {
    current == AnnotatedAll(cmp, before, Devices(before), rows)[..i] + before[i..]
  }

  ghost predicate TalliedUp(
    cmp: Comparison, devices: seq<Device>, rows: seq<Baseline>, i: nat, used: set<string>, inReference: nat)
    requires i <= |devices|
  {
    used == UsedAfter(cmp, devices, rows, i) && inReference == Matched(cmp, devices, rows, i)
  }

  /** The loop body. */
  method AnnotateNext(
    items: array<Item>, ghost before: seq<Item>, rows: seq<Baseline>, wifi: bool, i: nat, used: set<string>,
    inReference: nat, newItems: nat)
    returns (used': set<string>, inReference': nat, newItems': nat)
    requires i < items.Length
    requires Progress(ComparisonFor(wifi), before, rows, i, items[..], used, inReference, newItems)
    modifies items
    ensures Progress(ComparisonFor(wifi), before, rows, i + 1, items[..], used', inReference', newItems')
  {
    assert items[..][i] == before[i];
    var m := MatchIdentity(items[i].device, rows, used, wifi);
    items[i] := Annotated(items[i], m);
    AfterOneDevice(ComparisonFor(wifi), Devices(before), rows, i, m);
    OneMoreAnnotated(before, AnnotatedAll(ComparisonFor(wifi), before, Devices(before), rows), i);
    used', inReference', newItems' := used, inReference, newItems;
    if m.Some? {
      used' := used' + {rows[m.value.row].stableIdentity};
      inReference' := inReference' + 1;
    } else {
      newItems' := newItems' + 1;
    }
  }

  lemma OneMoreAnnotated(before: seq<Item>, after: seq<Item>, i: nat)
    requires |before| == |after| && i < |before|
    ensures (after[..i] + before[i..])[i := after[i]] == after[..i + 1] + before[i + 1..]
  {
  }

  lemma AfterOneDevice(cmp: Comparison, devices: seq<Device>, rows: seq<Baseline>, i: nat, m: Option<Match>)
    requires i < |devices| && m == Best(cmp, devices[i], rows, UsedAfter(cmp, devices, rows, i))
    ensures m == MatchOf(cmp, devices, rows, i)
    ensures UsedAfter(cmp, devices, rows, i + 1) ==
              if m.Some? then UsedAfter(cmp, devices, rows, i) + {rows[m.value.row].stableIdentity}
              else UsedAfter(cmp, devices, rows, i)
    ensures Matched(cmp, devices, rows, i + 1) == Matched(cmp, devices, rows, i) + (if m.Some? then 1 else 0)
    ensures m.Some? ==> m.value.row < |rows|
  {
  }

  /** The choice of matcher by protocol. */
  method MatchIdentity(d: Device, rows: seq<Baseline>, used: set<string>, wifi: bool) returns (m: Option<Match>)
    ensures m == Best(ComparisonFor(wifi), d, rows, used)
  {
    if wifi {
      m := MatchWifiIdentity(d, rows, used);
    } else {
      m := MatchBluetoothIdentity(d, rows, used);
    }
    BestIsBest(ComparisonFor(wifi), d, rows, used);
    BestIsUnique(ComparisonFor(wifi), d, rows, used, m, Best(ComparisonFor(wifi), d, rows, used));
  }
}
