/** What makes a Bluetooth device agree with a baseline (reference_match.py:52-106), method by method and
    character by character, and what that means for the match a device gets. */
module BluetoothAgreement {
  import opened Prelude
  import opened ReferenceMatch
  import Chunking

  // --- The same text up to case and surrounding whitespace ---

  predicate SameLetter(a: char, b: char) {
    || a == b
    || ('a' <= a <= 'z' && b as int == a as int - 32)
    || ('A' <= a <= 'Z' && b as int == a as int + 32)
  }

  ghost predicate BlankFrom(s: string, i: int, j: int)
    requires 0 <= i <= j <= |s|
  {
    forall x :: i <= x < j ==> Chunking.IsSpace(s[x])
  }

  /** The characters from i up to j are what is left of `s` without the whitespace around it. */
  ghost predicate IsCore(s: string, i: int, j: int) {
    && 0 <= i <= j <= |s| && BlankFrom(s, 0, i) && BlankFrom(s, j, |s|)
    && (i < j ==> !Chunking.IsSpace(s[i]) && !Chunking.IsSpace(s[j - 1]))
  }

  ghost predicate SameLetters(a: string, b: string) {
    |a| == |b| && forall m :: 0 <= m < |a| ==> SameLetter(a[m], b[m])
  }

  ghost predicate SameSpelling(a: string, b: string) {
    exists i, j, k, l :: IsCore(a, i, j) && IsCore(b, k, l) && SameLetters(a[i..j], b[k..l])
  }

  function Stripped(s: string): string {
    Chunking.Strip(Chunking.IsSpace, s)
  }

  lemma LeadAndTrail(s: string) returns (lead: nat, trail: nat)
    ensures lead <= |s| && trail <= |s| && BlankFrom(s, 0, lead) && BlankFrom(s, trail, |s|)
    ensures lead < |s| ==> !Chunking.IsSpace(s[lead])
    ensures trail > 0 ==> !Chunking.IsSpace(s[trail - 1])
    ensures Stripped(s) == if lead <= trail then s[lead..trail] else []
  {
    Chunking.LeadIsBlank(Chunking.IsSpace, s);
    Chunking.TrailIsBlank(Chunking.IsSpace, s);
    lead, trail := Chunking.Lead(Chunking.IsSpace, s), Chunking.Trail(Chunking.IsSpace, s);
  }

  lemma StripIsCore(s: string) returns (i: int, j: int)
    ensures IsCore(s, i, j) && s[i..j] == Stripped(s)
  {
    i, j := LeadAndTrail(s);
    if i > j {
      i, j := |s|, |s|;
    }
  }

  /** There is only one core, wherever an empty one is put. */
  lemma CoreIsUnique(s: string, i: int, j: int, k: int, l: int)
    requires IsCore(s, i, j) && IsCore(s, k, l)
    ensures s[i..j] == s[k..l]
  {
    if i < j && k < l {
      assert i == k && j == l;
    }
  }

  lemma SameUpper(a: string, b: string)
    ensures Upper(a) == Upper(b) <==> SameLetters(a, b)
  {
    if Upper(a) == Upper(b) {
      forall m | 0 <= m < |a|
        ensures SameLetter(a[m], b[m])
      {
        assert Upper(a)[m] == Upper(b)[m];
      }
    }
  }

  lemma SameLower(a: string, b: string)
    ensures Lower(a) == Lower(b) <==> SameLetters(a, b)
  {
    if Lower(a) == Lower(b) {
      forall m | 0 <= m < |a|
        ensures SameLetter(a[m], b[m])
      {
        assert Lower(a)[m] == Lower(b)[m];
      }
    }
  }

  lemma SpellingIff(a: string, b: string)
    ensures SameSpelling(a, b) <==> SameLetters(Stripped(a), Stripped(b))
  {
    var i, j := StripIsCore(a);
    var k, l := StripIsCore(b);
    if SameSpelling(a, b) {
      var i', j', k', l' :| IsCore(a, i', j') && IsCore(b, k', l') && SameLetters(a[i'..j'], b[k'..l']);
      CoreIsUnique(a, i, j, i', j');
      CoreIsUnique(b, k, l, k', l');
    }
  }

  /** Both normalisations of the source compare spelling. */
  lemma NormalIff(a: string, b: string)
    ensures Normal(a) == Normal(b) <==> SameSpelling(a, b)
    ensures Upper(Stripped(a)) == Upper(Stripped(b)) <==> SameSpelling(a, b)
  {
    SpellingIff(a, b);
    SameLower(Stripped(a), Stripped(b));
    SameUpper(Stripped(a), Stripped(b));
  }

  // --- The five agreements ---

  predicate SameIdentity(d: Device, b: Baseline) {
    if d.stableIdentity != "" then b.stableIdentity == d.stableIdentity else d.mac != "" && b.stableIdentity == d.mac
  }

  /** Only these addresses stay with a device. */
  ghost predicate FixedAddress(d: Device) {
    SameSpelling(d.addressType, "public") || SameSpelling(d.addressType, "static")
  }

  ghost predicate SameAddress(d: Device, b: Baseline) {
    FixedAddress(d) && d.mac != "" && b.mac != "" && SameSpelling(d.mac, b.mac)
  }

  predicate SameManufacturerData(d: Device, b: Baseline) {
    && d.companyId.Some? && b.companyId == d.companyId
    && d.manufacturerHash != "" && b.manufacturerHash == d.manufacturerHash
  }

  predicate SameServices(d: Device, b: Baseline) {
    d.serviceFingerprint != "" && b.serviceFingerprint == d.serviceFingerprint
  }

  ghost predicate SameNames(d: Device, b: Baseline) {
    && d.deviceName != "" && d.vendor != ""
    && SameSpelling(d.deviceName, b.deviceName) && SameSpelling(d.vendor, b.vendor)
  }

  lemma FixedAddressIff(d: Device)
    ensures FixedAddress(d) <==> Normal(d.addressType) in ["public", "static"]
  {
    NormalIff(d.addressType, "public");
    NormalIff(d.addressType, "static");
    assert Normal("public") == "public" && Normal("static") == "static";
  }

  /** The first of the five that holds decides, and with it the confidence: certain, high, twice medium,
      and low. */
  lemma AgreementIs(d: Device, b: Baseline)
    ensures BluetoothCandidate(d, b) ==
            if SameIdentity(d, b) then Some(Candidate(StableIdentity, Certain))
            else if SameAddress(d, b) then Some(Candidate(PublicMac, High))
            else if SameManufacturerData(d, b) then Some(Candidate(CompanyManufacturerHash, Medium))
            else if SameServices(d, b) then Some(Candidate(ServiceUuidFingerprint, Medium))
            else if SameNames(d, b) then Some(Candidate(DeviceNameVendor, Low))
            else None
  {
    FixedAddressIff(d);
    NormalIff(d.mac, b.mac);
    NormalIff(d.deviceName, b.deviceName);
    NormalIff(d.vendor, b.vendor);
  }

  // --- What a match tells ---

  /** A match by address is one of a public or static address, equal up to case and blanks. */
  lemma AddressMatchIsFixed(d: Device, rows: seq<Baseline>, used: set<string>)
    ensures var m := Best(BluetoothCandidate, d, rows, used);
            m.Some? && m.value.candidate.how == PublicMac ==>
              FixedAddress(d) && d.mac != "" && SameSpelling(d.mac, rows[m.value.row].mac)
  {
    BestIsBest(BluetoothCandidate, d, rows, used);
    var m := Best(BluetoothCandidate, d, rows, used);
    if m.Some? {
      AgreementIs(d, rows[m.value.row]);
    }
  }

  /** A device with an identity of its own and any other type of address gets the same match whatever the
      address is. */
  lemma RandomAddressIsIrrelevant(d: Device, mac: string, rows: seq<Baseline>, used: set<string>)
    requires d.stableIdentity != "" && !FixedAddress(d)
    ensures Best(BluetoothCandidate, d.(mac := mac), rows, used) == Best(BluetoothCandidate, d, rows, used)
  {
    var e := d.(mac := mac);
    forall k | 0 <= k < |rows|
      ensures BluetoothCandidate(d, rows[k]) == BluetoothCandidate(e, rows[k])
    {
      AgreementIs(d, rows[k]);
      AgreementIs(e, rows[k]);
    }
    BestIsBest(BluetoothCandidate, d, rows, used);
    BestIsBest(BluetoothCandidate, e, rows, used);
    assert forall k :: 0 <= k < |rows| ==>
                         RowRank(BluetoothCandidate, d, rows[k], used) == RowRank(BluetoothCandidate, e, rows[k], used);
    BestIsUnique(BluetoothCandidate, d, rows, used, Best(BluetoothCandidate, d, rows, used),
                 Best(BluetoothCandidate, e, rows, used));
  }

  /** A device of which nothing is known but a public or static address. */
  ghost predicate OnlyAddress(d: Device, rows: seq<Baseline>) {
    && FixedAddress(d) && d.mac != "" && d.stableIdentity == "" && d.companyId.None? && d.serviceFingerprint == ""
    && d.deviceName == "" && forall k :: 0 <= k < |rows| ==> rows[k].stableIdentity != d.mac
  }

  ghost predicate AddressFree(d: Device, rows: seq<Baseline>, used: set<string>, k: nat)
    requires k < |rows|
  {
    rows[k].stableIdentity !in used && rows[k].mac != "" && SameSpelling(d.mac, rows[k].mac)
  }

  /** It gets the earliest unused baseline of the same address, with high confidence, and none if there is
      none. */
  lemma AddressDecides(d: Device, rows: seq<Baseline>, used: set<string>)
    requires OnlyAddress(d, rows)
    ensures match Best(BluetoothCandidate, d, rows, used)
            case None => forall k :: 0 <= k < |rows| ==> !AddressFree(d, rows, used, k)
            case Some(m) =>
              && m.candidate == Candidate(PublicMac, High) && AddressFree(d, rows, used, m.row)
              && forall k :: 0 <= k < m.row ==> !AddressFree(d, rows, used, k)
  {
    forall k | 0 <= k < |rows|
      ensures RowRank(BluetoothCandidate, d, rows[k], used) == if AddressFree(d, rows, used, k) then 3 else 0
      ensures AddressFree(d, rows, used, k) ==> BluetoothCandidate(d, rows[k]) == Some(Candidate(PublicMac, High))
    {
      AgreementIs(d, rows[k]);
    }
    BestIsBest(BluetoothCandidate, d, rows, used);
  }

  /** How strongly an unused baseline agrees: names alone never count. */
  ghost predicate Free(rows: seq<Baseline>, used: set<string>, k: nat)
    requires k < |rows|
  {
    rows[k].stableIdentity !in used
  }

  /** The strongest agreement wins: no unused baseline has the device's identity unless the match is by
      identity, none its address unless the match is by identity or address, and a device without a match
      shares neither these nor manufacturer data or services with any. */
  lemma StrongestAgreementWins(d: Device, rows: seq<Baseline>, used: set<string>, k: nat)
    requires k < |rows| && Free(rows, used, k)
    ensures var m := Best(BluetoothCandidate, d, rows, used);
            && (SameIdentity(d, rows[k]) ==> m.Some? && m.value.candidate == Candidate(StableIdentity, Certain))
            && (SameAddress(d, rows[k]) ==> m.Some? && m.value.candidate.how in {StableIdentity, PublicMac})
            && (SameManufacturerData(d, rows[k]) || SameServices(d, rows[k]) ==> m.Some?)
            && (m.Some? ==> m.value.candidate.how != DeviceNameVendor)
  {
    BestIsBest(BluetoothCandidate, d, rows, used);
    AgreementIs(d, rows[k]);
    var m := Best(BluetoothCandidate, d, rows, used);
    if m.Some? {
      AgreementIs(d, rows[m.value.row]);
      assert RowRank(BluetoothCandidate, d, rows[k], used) <= RowRank(BluetoothCandidate, d, rows[m.value.row], used);
    }
  }

  /** A random address that happens to be a baseline's does not make the device known. */
  lemma RandomAddressIsNoMatch()
    ensures var d := Device("", "", "AA", "random", None, "", "", "", "");
            var rows := [Baseline("id-1", "AA", None, "", "", "", "", false)];
            Best(BluetoothCandidate, d, rows, {}) == None
  {
    var d := Device("", "", "AA", "random", None, "", "", "", "");
    var rows := [Baseline("id-1", "AA", None, "", "", "", "", false)];
    assert Normal("random") == "random";
    assert "random"[0] == 'r' && "public"[0] == 'p' && "static"[0] == 's';
    assert "id-1"[0] == 'i' && "AA"[0] == 'A';
    assert BluetoothCandidate(d, rows[0]) == None;
    BestIsBest(BluetoothCandidate, d, rows, {});
  }
}
