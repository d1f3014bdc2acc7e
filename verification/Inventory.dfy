/** What a BMC reports about its machine, and the MAC addresses found there
    (internal/sync/mapping.go:170-200). */
module Inventory {
  import opened Text
  import opened Wrappers

  datatype NicPort = NicPort(mac: string)
  datatype Nic = Nic(ports: seq<Option<NicPort>>)
  datatype Device = Device(vendor: string, serial: string, nics: seq<Option<Nic>>, drives: seq<Option<string>>)

  predicate IsHex(c: char) {
    '0' <= c <= '9' || 'a' <= c <= 'f'
  }

  /** Six lowercase hex pairs, joined by colons. */
  predicate ValidMac(s: string) {
    |s| == 17 && forall i | 0 <= i < 17 :: if i % 3 == 2 then s[i] == ':' else IsHex(s[i])
  }

  /** The MACs of a NIC's ports, as reported, in order. */
  function PortMacs(ports: seq<Option<NicPort>>): seq<string> {
    if ports == [] then []
    else PortMacs(ports[..|ports| - 1]) + match ports[|ports| - 1] case None => [] case Some(p) => [Lower(p.mac)]
  }

  function AllMacs(nics: seq<Option<Nic>>): seq<string> {
    if nics == [] then []
    else AllMacs(nics[..|nics| - 1]) + match nics[|nics| - 1] case None => [] case Some(n) => PortMacs(n.ports)
  }

  /** The first occurrence of each valid MAC, in order. */
  function Distinct(macs: seq<string>): seq<string> {
    if macs == [] then []
    else
      var rest, mac := Distinct(macs[..|macs| - 1]), macs[|macs| - 1];
      if ValidMac(mac) && mac !in rest then rest + [mac] else rest
  }

  function InbandMacs(dev: Device): seq<string> {
    Distinct(AllMacs(dev.nics))
  }

  function PrimaryMac(dev: Device): string {
    if InbandMacs(dev) == [] then "" else InbandMacs(dev)[0]
  }

  lemma {:induction false} DistinctAppend(a: seq<string>, b: seq<string>, mac: string)
    ensures Distinct(a + (b + [mac])) ==
            if ValidMac(mac) && mac !in Distinct(a + b) then Distinct(a + b) + [mac] else Distinct(a + b)
  {
    assert (a + (b + [mac]))[..|a + b|] == a + b;
  }

  /** Exactly the valid MACs, each once. */
  lemma {:induction false} DistinctSpec(macs: seq<string>)
    ensures forall mac :: mac in Distinct(macs) <==> mac in macs && ValidMac(mac)
    ensures forall i, j | 0 <= i < j < |Distinct(macs)| :: Distinct(macs)[i] != Distinct(macs)[j]
  {
    if macs != [] {
      var front := macs[..|macs| - 1];
      DistinctSpec(front);
      assert forall m :: m in macs <==> m in front || m == macs[|macs| - 1];
    }
  }

  ghost predicate FirstValid(macs: seq<string>, mac: string, i: int) {
    0 <= i < |macs| && macs[i] == mac && ValidMac(mac) && forall j | 0 <= j < i :: !ValidMac(macs[j])
  }

  lemma {:induction false} DistinctFirst(macs: seq<string>)
    ensures Distinct(macs) == [] <==> forall j | 0 <= j < |macs| :: !ValidMac(macs[j])
    ensures Distinct(macs) != [] ==> exists i :: FirstValid(macs, Distinct(macs)[0], i)
  {
    if macs != [] {
      var front, last := macs[..|macs| - 1], macs[|macs| - 1];
      DistinctFirst(front);
      assert forall j | 0 <= j < |front| :: macs[j] == front[j];
      if Distinct(front) != [] {
        var i :| FirstValid(front, Distinct(front)[0], i);
        assert FirstValid(macs, Distinct(macs)[0], i);
      } else {
        forall j | 0 <= j < |front| ensures !ValidMac(macs[j]) {
          assert macs[j] == front[j];
        }
        assert ValidMac(last) ==> FirstValid(macs, Distinct(macs)[0], |front|);
      }
    }
  }

  // ------------------------------------------------------------- as the ports report them

  ghost predicate HexPair(p: string) {
    |p| == 2 && forall i | 0 <= i < 2 :: '0' <= p[i] <= '9' || 'a' <= p[i] <= 'f'
  }

  ghost predicate SixPairs(pairs: seq<string>) {
    |pairs| == 6 && forall i | 0 <= i < 6 :: HexPair(pairs[i])
  }

  /** Where the pairs stand in their join. */
  lemma {:induction false} JoinPairs(pairs: seq<string>, i: nat)
    requires pairs != [] && forall p | p in pairs :: |p| == 2
    ensures |Join(pairs, ':')| == 3 * |pairs| - 1
    ensures i < 3 * |pairs| - 1 ==> Join(pairs, ':')[i] == if i % 3 == 2 then ':' else pairs[i / 3][i % 3]
  {
    assert pairs[0] in pairs;
    if |pairs| > 1 {
      assert forall p | p in pairs[1..] :: p in pairs;
      JoinPairs(pairs[1..], if i < 3 then 0 else i - 3);
    }
  }

  /** A MAC is six lower-case hex pairs joined by colons. */
  lemma MacExactly(s: string)
    ensures ValidMac(s) <==> exists pairs :: SixPairs(pairs) && s == Join(pairs, ':')
  {
    forall pairs | SixPairs(pairs) ensures ValidMac(Join(pairs, ':')) {
      PairsAreMac(pairs);
    }
    if ValidMac(s) {
      var pairs := MacHasPairs(s);
    }
  }

  lemma PairsAreMac(pairs: seq<string>)
    requires SixPairs(pairs)
    ensures ValidMac(Join(pairs, ':'))
  {
    JoinPairs(pairs, 0);
    forall i | 0 <= i < 17 ensures var c := Join(pairs, ':')[i]; if i % 3 == 2 then c == ':' else IsHex(c) {
      JoinPairs(pairs, i);
      assert HexPair(pairs[i / 3]);
    }
  }

  lemma MacHasPairs(s: string) returns (pairs: seq<string>)
    requires ValidMac(s)
    ensures SixPairs(pairs) && s == Join(pairs, ':')
  {
    pairs := seq(6, k requires 0 <= k < 6 => [s[3 * k], s[3 * k + 1]]);
    forall k | 0 <= k < 6 ensures HexPair(pairs[k]) {
      assert (3 * k) % 3 == 0 && (3 * k + 1) % 3 == 1;
    }
    JoinPairs(pairs, 0);
    forall i | 0 <= i < 17 ensures s[i] == Join(pairs, ':')[i] {
      JoinPairs(pairs, i);
      assert i == 3 * (i / 3) + i % 3;
    }
  }

  /** Port `j` of NIC `i` reports `mac`, in lower case. */
  ghost predicate Reports(dev: Device, i: int, j: int, mac: string) {
    && 0 <= i < |dev.nics| && dev.nics[i].Some? && 0 <= j < |dev.nics[i].value.ports|
    && dev.nics[i].value.ports[j].Some? && mac == Lower(dev.nics[i].value.ports[j].value.mac)
  }

  ghost predicate Earlier(i: int, j: int, i': int, j': int) {
    i < i' || (i == i' && j < j')
  }

  /** The first port that reports a valid MAC. */
  ghost predicate FirstPort(dev: Device, i: int, j: int, mac: string) {
    && Reports(dev, i, j, mac) && ValidMac(mac)
    && forall i', j', m | Reports(dev, i', j', m) && Earlier(i', j', i, j) :: !ValidMac(m)
  }

  lemma {:induction false} PortMacsFrom(ports: seq<Option<NicPort>>, mac: string)
    requires mac in PortMacs(ports)
    ensures exists j :: 0 <= j < |ports| && ports[j].Some? && mac == Lower(ports[j].value.mac)
  {
    var front := ports[..|ports| - 1];
    if mac in PortMacs(front) {
      PortMacsFrom(front, mac);
      var j :| 0 <= j < |front| && front[j].Some? && mac == Lower(front[j].value.mac);
      assert ports[j] == front[j];
    }
  }

  lemma {:induction false} AllMacsFrom(dev: Device, k: nat, mac: string)
    requires k <= |dev.nics| && mac in AllMacs(dev.nics[..k])
    ensures exists i, j :: i < k && Reports(dev, i, j, mac)
  {
    assert k > 0 && dev.nics[..k][..k - 1] == dev.nics[..k - 1];
    if mac in AllMacs(dev.nics[..k - 1]) {
      AllMacsFrom(dev, k - 1, mac);
    } else {
      var ports := dev.nics[k - 1].value.ports;
      PortMacsFrom(ports, mac);
      var j :| 0 <= j < |ports| && ports[j].Some? && mac == Lower(ports[j].value.mac);
      assert Reports(dev, k - 1, j, mac);
    }
  }

  lemma {:induction false} PortMacsHold(ports: seq<Option<NicPort>>, j: nat)
    requires j < |ports| && ports[j].Some?
    ensures PortMacs(ports[..j]) + [Lower(ports[j].value.mac)] <= PortMacs(ports)
  {
    var front := ports[..|ports| - 1];
    if j < |ports| - 1 {
      PortMacsHold(front, j);
      assert front[..j] == ports[..j];
    }
  }

  lemma {:induction false} AllMacsHold(nics: seq<Option<Nic>>, i: nat)
    requires i < |nics| && nics[i].Some?
    ensures AllMacs(nics[..i]) + PortMacs(nics[i].value.ports) <= AllMacs(nics)
  {
    var front := nics[..|nics| - 1];
    if i < |nics| - 1 {
      AllMacsHold(front, i);
      assert front[..i] == nics[..i];
    }
  }

  /** The primary MAC is the one the first such port reports, and missing exactly when there is none. */
  lemma PrimaryMacExactly(dev: Device)
    ensures forall i, j, mac | FirstPort(dev, i, j, mac) :: PrimaryMac(dev) == mac
    ensures PrimaryMac(dev) == "" <==> forall i, j, mac | Reports(dev, i, j, mac) :: !ValidMac(mac)
  {
    var macs := AllMacs(dev.nics);
    PrimaryMacSpec(dev);
    assert dev.nics[..|dev.nics|] == dev.nics;
    forall i, j, mac | Reports(dev, i, j, mac) ensures mac in macs {
      ReportedAt(dev, i, j, mac);
    }
    if PrimaryMac(dev) != "" {
      var p :| FirstValid(macs, PrimaryMac(dev), p);
      AllMacsFrom(dev, |dev.nics|, macs[p]);
      assert exists i, j :: Reports(dev, i, j, macs[p]);
    }
    forall i, j, mac | FirstPort(dev, i, j, mac) ensures PrimaryMac(dev) == mac {
      FirstPortIsPrimary(dev, i, j, mac);
    }
  }

  /** Where a port's MAC stands among all those reported. */
  lemma ReportedAt(dev: Device, i: int, j: int, mac: string)
    requires Reports(dev, i, j, mac)
    ensures var before := AllMacs(dev.nics[..i]) + PortMacs(dev.nics[i].value.ports[..j]);
            before + [mac] <= AllMacs(dev.nics) && mac in AllMacs(dev.nics)
  {
    var ports := dev.nics[i].value.ports;
    AllMacsHold(dev.nics, i);
    PortMacsHold(ports, j);
    var before := AllMacs(dev.nics[..i]) + PortMacs(ports[..j]);
    assert before + [mac] == AllMacs(dev.nics[..i]) + (PortMacs(ports[..j]) + [mac]);
    assert AllMacs(dev.nics)[|before|] == mac;
  }

  lemma FirstPortIsPrimary(dev: Device, i: int, j: int, mac: string)
    requires FirstPort(dev, i, j, mac)
    ensures PrimaryMac(dev) == mac
  {
    var macs, ports := AllMacs(dev.nics), dev.nics[i].value.ports;
    var before := AllMacs(dev.nics[..i]) + PortMacs(ports[..j]);
    ReportedAt(dev, i, j, mac);
    PrimaryMacSpec(dev);
    forall m | m in before ensures !ValidMac(m) {
      if m in AllMacs(dev.nics[..i]) {
        AllMacsFrom(dev, i, m);
      } else {
        PortMacsFrom(ports[..j], m);
        var j' :| 0 <= j' < j && ports[..j][j'].Some? && m == Lower(ports[..j][j'].value.mac);
        assert Reports(dev, i, j', m);
      }
    }
    assert macs[|before|] == mac && forall x | 0 <= x < |before| :: macs[x] == before[x] && before[x] in before;
    var p :| FirstValid(macs, PrimaryMac(dev), p);
    assert p == |before|;
  }

  /** The primary MAC is the first valid one reported; it is missing exactly when none is. */
  lemma PrimaryMacSpec(dev: Device)
    ensures var macs := AllMacs(dev.nics);
            && (PrimaryMac(dev) == "" <==> forall j | 0 <= j < |macs| :: !ValidMac(macs[j]))
            && (PrimaryMac(dev) != "" ==> exists i :: FirstValid(macs, PrimaryMac(dev), i))
  {
    var macs := AllMacs(dev.nics);
    DistinctFirst(macs);
    if Distinct(macs) != [] {
      var i :| FirstValid(macs, Distinct(macs)[0], i);
      assert ValidMac(macs[i]);
    }
  }

  /** `inbandMACs` (mapping.go:181-200): nested loops over ports, with a set of those seen. */
  method ListInbandMacs(dev: Device) returns (macs: seq<string>)
    ensures macs == InbandMacs(dev)
  {
    macs := [];
    var seen: set<string> := {};
    var i := 0;
    while i < |dev.nics|
      invariant 0 <= i <= |dev.nics|
      invariant macs == Distinct(AllMacs(dev.nics[..i]))
      invariant forall x :: x in seen <==> x in macs
    {
      assert dev.nics[..i + 1][..i] == dev.nics[..i];
      match dev.nics[i] {
        case None =>
          assert AllMacs(dev.nics[..i]) + [] == AllMacs(dev.nics[..i]);
        case Some(nic) =>
          macs, seen := ListPortMacs(nic.ports, macs, seen, AllMacs(dev.nics[..i]));
      }
      i := i + 1;
    }
    assert dev.nics[..i] == dev.nics;
  }

  /** The inner loop. */
  method ListPortMacs(ports: seq<Option<NicPort>>, before: seq<string>, seenBefore: set<string>, ghost reported: seq<string>)
    returns (macs: seq<string>, seen: set<string>)
    requires before == Distinct(reported) && forall x :: x in seenBefore <==> x in before
    ensures macs == Distinct(reported + PortMacs(ports)) && forall x :: x in seen <==> x in macs
  {
    macs, seen := before, seenBefore;
    assert reported + PortMacs([]) == reported;
    var j := 0;
    while j < |ports|
      invariant 0 <= j <= |ports|
      invariant macs == Distinct(reported + PortMacs(ports[..j]))
      invariant forall x :: x in seen <==> x in macs
    {
      assert ports[..j + 1][..j] == ports[..j];
      match ports[j] {
        case None =>
          assert PortMacs(ports[..j]) + [] == PortMacs(ports[..j]);
        case Some(port) =>
          var mac := Lower(port.mac);
          DistinctAppend(reported, PortMacs(ports[..j]), mac);
          if ValidMac(mac) && mac !in seen {
            seen := seen + {mac};
            macs := macs + [mac];
          }
      }
      j := j + 1;
    }
    assert ports[..j] == ports;
  }
}
