/** The sender and receiver of a virtual sensor: scans cut into packets, packets put back into partial
    scans, and the bounded, sorted list of partial scans from which complete ones are grabbed.  */
module ScanList {
  import opened Common

  datatype LidarRawSample = LidarRawSample(angle: nat, dist: nat, quality: int)

  type Samples = seq<LidarRawSample>

  /** The wire header; `packetId` and `nodesPerPacket` are 8 bits wide, `totalNodes` 16. */
  datatype ScanHeader = ScanHeader(isEnv: bool, seqNr: nat, packetId: nat, nodesPerPacket: nat, totalNodes: nat)

  datatype Packet = Packet(header: ScanHeader, payload: Samples)

  const NODES_PER_PACKET: nat := 128
  const MAX_ENTRIES: nat := 17
  const MAX_FAILURES: nat := 15
  const ZERO_SAMPLE := LidarRawSample(0, 0, 0)

  function NumPackets(totalNodes: nat, nodesPerPacket: nat): nat
    requires nodesPerPacket > 0
  {
    var n := totalNodes / nodesPerPacket;
    if n == 0 || totalNodes % nodesPerPacket > 0 then n + 1 else n
  }

  function NodesInPacket(packetId: nat, nodesPerPacket: nat, totalNodes: nat): nat
    requires nodesPerPacket > 0
  {
    if (packetId + 1) * nodesPerPacket > totalNodes then totalNodes % nodesPerPacket else nodesPerPacket
  }

  /** A packet's share never reaches past the end of the scan. */
  lemma PacketFits(i: nat, per: nat, total: nat)
    requires per > 0 && i < NumPackets(total, per)
    ensures i * per + NodesInPacket(i, per, total) <= total
  {
    var q, r := total / per, total % per;
    assert total == q * per + r;
    if i == q {
    } else {
      assert i + 1 <= q;
      Monotone(i + 1, q, per);
    }
  }

  lemma Monotone(a: nat, b: nat, c: nat)
    requires a <= b
    ensures a * c <= b * c
  {
    assert b * c == a * c + (b - a) * c;
    NonNegativeProduct(b - a, c);
  }

  lemma NonNegativeProduct(a: nat, b: nat)
    ensures 0 <= a * b
  {
  }

  /** The i-th packet of a scan, with the truncations of the header fields. */
  function ScanMsg(isEnv: bool, seqNr: nat, i: nat, nodes: Samples): Packet
    requires i < NumPackets(|nodes|, NODES_PER_PACKET)
  {
    PacketFits(i, NODES_PER_PACKET, |nodes|);
    var start := i * NODES_PER_PACKET;
    Packet(ScanHeader(isEnv, seqNr, i % 256, NODES_PER_PACKET, |nodes| % 65536),
           nodes[start..start + NodesInPacket(i, NODES_PER_PACKET, |nodes|)])
  }

  function Packets(isEnv: bool, seqNr: nat, nodes: Samples): (packets: seq<Packet>)
    ensures |packets| == NumPackets(|nodes|, NODES_PER_PACKET)
    ensures forall i :: 0 <= i < |packets| ==> packets[i] == ScanMsg(isEnv, seqNr, i, nodes)
  {
    seq(NumPackets(|nodes|, NODES_PER_PACKET),
        i requires 0 <= i < NumPackets(|nodes|, NODES_PER_PACKET) => ScanMsg(isEnv, seqNr, i, nodes))
  }

  // ---- one partial scan ----

  datatype Entry = Entry(seqNr: nat, nodes: Samples, received: seq<bool>) {
    predicate Complete() {
      received != [] && forall i :: 0 <= i < |received| ==> received[i]
    }
  }

  function Resized(nodes: Samples, n: nat): (r: Samples)
    ensures |r| == n
  {
    seq(n, i requires 0 <= i < n => if i < |nodes| then nodes[i] else ZERO_SAMPLE)
  }

  /** What a copy of `n` samples out of a datagram reads: past its end, whatever lies there. */
  function Copied(payload: Samples, n: nat, stray: nat -> LidarRawSample): (r: Samples)
    ensures |r| == n
  {
    seq(n, i requires 0 <= i < n => if i < |payload| then payload[i] else stray(i))
  }

  function Opened(e: Entry, h: ScanHeader): Entry
    requires h.nodesPerPacket > 0
  {
    if e.received == []
    then Entry(h.seqNr, Resized(e.nodes, h.totalNodes), seq(NumPackets(h.totalNodes, h.nodesPerPacket), _ => false))
    else e
  }

  predicate Accepts(h: ScanHeader)
    requires h.nodesPerPacket > 0
  {
    h.packetId < NumPackets(h.totalNodes, h.nodesPerPacket)
  }

  /** The entry is laid out for this packet: a packet whose scan has another layout writes out of bounds. */
  predicate LaidOutFor(e: Entry, h: ScanHeader)
    requires h.nodesPerPacket > 0
  {
    e.received != [] ==>
      h.packetId < |e.received| &&
      h.packetId * h.nodesPerPacket + NodesInPacket(h.packetId, h.nodesPerPacket, h.totalNodes) <= |e.nodes|
  }

  function Overwritten(nodes: Samples, start: nat, part: Samples): (r: Samples)
    requires start + |part| <= |nodes|
    ensures |r| == |nodes|
    ensures forall m :: 0 <= m < |nodes| ==>
      r[m] == if start <= m < start + |part| then part[m - start] else nodes[m]
  {
    nodes[..start] + part + nodes[start + |part|..]
  }

  function Added(e: Entry, p: Packet, stray: nat -> LidarRawSample): Entry
    requires p.header.nodesPerPacket > 0
    requires Accepts(p.header) ==> LaidOutFor(e, p.header)
  {
    var h := p.header;
    if !Accepts(h) then e
    else
      PacketFits(h.packetId, h.nodesPerPacket, h.totalNodes);
      var o := Opened(e, h);
      var n := NodesInPacket(h.packetId, h.nodesPerPacket, h.totalNodes);
      Entry(o.seqNr, Overwritten(o.nodes, h.packetId * h.nodesPerPacket, Copied(p.payload, n, stray)),
            o.received[h.packetId := true])
  }

  class LidarScanData {
    var seqNr: nat
    var nodes: Samples
    var packetsReceived: seq<bool>

    function Value(): Entry
      reads this
    {
      Entry(seqNr, nodes, packetsReceived)
    }

    constructor (seqNr: nat)
      ensures Value() == Entry(seqNr, [], [])
    {
      this.seqNr, nodes, packetsReceived := seqNr, [], [];
    }

    method Complete() returns (complete: bool)
      ensures complete == Value().Complete()
    {
      if |packetsReceived| == 0 {
        return false;
      }
      var i := |packetsReceived|;
      while i > 0
        invariant 0 <= i <= |packetsReceived|
        invariant forall k :: i <= k < |packetsReceived| ==> packetsReceived[k]
      {
        i := i - 1;
        if !packetsReceived[i] {
          return false;
        }
      }
      return true;
    }

    method AddData(p: Packet, stray: nat -> LidarRawSample)
      requires p.header.nodesPerPacket > 0
      requires Accepts(p.header) ==> LaidOutFor(Value(), p.header)
      modifies this
      ensures Value() == Added(old(Value()), p, stray)
    {
      var h := p.header;
      var numPackets := h.totalNodes / h.nodesPerPacket;
      if numPackets == 0 || h.totalNodes % h.nodesPerPacket > 0 {
        numPackets := numPackets + 1;
      }
      if h.packetId >= numPackets {
        return;
      }
      PacketFits(h.packetId, h.nodesPerPacket, h.totalNodes);
      if |packetsReceived| == 0 {
        packetsReceived := seq(numPackets, _ => false);
        seqNr := h.seqNr;
        nodes := Resized(nodes, h.totalNodes);
      }
      packetsReceived := packetsReceived[h.packetId := true];
      var nodesInPacket := h.nodesPerPacket;
      if (h.packetId + 1) * h.nodesPerPacket > h.totalNodes {
        nodesInPacket := h.totalNodes % h.nodesPerPacket;
      }
      if nodesInPacket > 0 {
        nodes := Overwritten(nodes, h.packetId * h.nodesPerPacket, Copied(p.payload, nodesInPacket, stray));
      } else {
        assert Overwritten(nodes, h.packetId * h.nodesPerPacket, Copied(p.payload, 0, stray)) == nodes;
      }
    }
  }

  // ---- the list of partial scans ----

  ghost predicate Sorted(list: seq<Entry>) {
    forall i, j :: 0 <= i < j < |list| ==> list[i].seqNr < list[j].seqNr
  }

  /** The last entry of a scan, or -1. */
  function Position(list: seq<Entry>, seqNr: nat): (k: int)
    ensures -1 <= k < |list|
    ensures k >= 0 ==> list[k].seqNr == seqNr
    ensures forall i :: k < i < |list| ==> list[i].seqNr != seqNr
  {
    if list == [] then -1
    else if list[|list| - 1].seqNr == seqNr then |list| - 1
    else Position(list[..|list| - 1], seqNr)
  }

  /** Behind the last entry with a smaller number. */
  function InsertPosition(list: seq<Entry>, seqNr: nat): (k: nat)
    ensures k <= |list|
    ensures k > 0 ==> list[k - 1].seqNr < seqNr
    ensures forall i :: k <= i < |list| ==> list[i].seqNr >= seqNr
  {
    if list == [] then 0
    else if list[|list| - 1].seqNr < seqNr then |list|
    else InsertPosition(list[..|list| - 1], seqNr)
  }

  function Evicted(list: seq<Entry>): seq<Entry> {
    if |list| > MAX_ENTRIES - 1 then list[1..] else list
  }

  /** The list in which an entry for `seqNr` exists. */
  function WithEntry(list: seq<Entry>, seqNr: nat): seq<Entry> {
    if Position(list, seqNr) >= 0 then list
    else
      var l := Evicted(list);
      var k := InsertPosition(l, seqNr);
      l[..k] + [Entry(seqNr, [], [])] + l[k..]
  }

  function EntryIndex(list: seq<Entry>, seqNr: nat): (k: nat)
    ensures k < |WithEntry(list, seqNr)| && WithEntry(list, seqNr)[k].seqNr == seqNr
  {
    var p := Position(list, seqNr);
    if p >= 0 then p else InsertPosition(Evicted(list), seqNr)
  }

  lemma WithEntryCases(list: seq<Entry>, seqNr: nat)
    ensures Position(list, seqNr) >= 0 ==>
      WithEntry(list, seqNr) == list && EntryIndex(list, seqNr) == Position(list, seqNr)
    ensures Position(list, seqNr) < 0 ==>
      var l := Evicted(list); var k := InsertPosition(l, seqNr);
      WithEntry(list, seqNr) == l[..k] + [Entry(seqNr, [], [])] + l[k..] && EntryIndex(list, seqNr) == k
  {
  }

  lemma InsertedMembers<T>(l: seq<T>, k: nat, x: T)
    requires k <= |l|
    ensures forall y :: y in l[..k] + [x] + l[k..] <==> y in l || y == x
  {
    assert l[..k] + l[k..] == l;
  }

  lemma InsertedIsSorted(l: seq<Entry>, k: nat, x: Entry)
    requires Sorted(l) && k <= |l|
    requires forall i :: 0 <= i < k ==> l[i].seqNr < x.seqNr
    requires forall i :: k <= i < |l| ==> l[i].seqNr > x.seqNr
    ensures Sorted(l[..k] + [x] + l[k..])
  {
    var w := l[..k] + [x] + l[k..];
    forall i, j | 0 <= i < j < |w| ensures w[i].seqNr < w[j].seqNr {
      assert w[i] == if i < k then l[i] else if i == k then x else l[i - 1];
      assert w[j] == if j < k then l[j] else if j == k then x else l[j - 1];
    }
  }

  lemma EvictedIsSorted(list: seq<Entry>, seqNr: nat)
    requires Sorted(list) && |list| <= MAX_ENTRIES && Position(list, seqNr) < 0
    ensures Sorted(Evicted(list)) && |Evicted(list)| < MAX_ENTRIES
    ensures forall i :: 0 <= i < |Evicted(list)| ==> Evicted(list)[i].seqNr != seqNr
  {
    hide Position;
    var l := Evicted(list);
    var d := |list| - |l|;
    forall i | 0 <= i < |l| ensures l[i] == list[i + d] && l[i].seqNr != seqNr {
    }
    forall i, j | 0 <= i < j < |l| ensures l[i].seqNr < l[j].seqNr {
      assert list[i + d].seqNr < list[j + d].seqNr;
    }
  }

  lemma InsertPositionSplits(l: seq<Entry>, seqNr: nat)
    requires Sorted(l) && forall i :: 0 <= i < |l| ==> l[i].seqNr != seqNr
    ensures var k := InsertPosition(l, seqNr);
      (forall i :: 0 <= i < k ==> l[i].seqNr < seqNr) && forall i :: k <= i < |l| ==> l[i].seqNr > seqNr
  {
  }

  /** The list stays strictly sorted and never grows beyond 17 entries. */
  lemma WithEntryIsSorted(list: seq<Entry>, seqNr: nat)
    requires Sorted(list) && |list| <= MAX_ENTRIES
    ensures Sorted(WithEntry(list, seqNr)) && |WithEntry(list, seqNr)| <= MAX_ENTRIES
  {
    hide Sorted, Position, InsertPosition, Evicted;
    if Position(list, seqNr) < 0 {
      var l := Evicted(list);
      EvictedIsSorted(list, seqNr);
      InsertPositionSplits(l, seqNr);
      InsertedIsSorted(l, InsertPosition(l, seqNr), Entry(seqNr, [], []));
    }
  }

  /** What the list held is kept, except that a full list gives up its oldest entry for a new scan; the
      only new entry is an empty one. */
  lemma WithEntryMembers(list: seq<Entry>, seqNr: nat)
    ensures forall e :: e in WithEntry(list, seqNr) ==>
      e in list || (e == Entry(seqNr, [], []) && Position(list, seqNr) < 0)
    ensures forall e :: e in list ==> e in WithEntry(list, seqNr) || (|list| >= MAX_ENTRIES && e == list[0])
  {
    if Position(list, seqNr) < 0 {
      var l := Evicted(list);
      InsertedMembers(l, InsertPosition(l, seqNr), Entry(seqNr, [], []));
      if |list| > MAX_ENTRIES - 1 {
        assert list == [list[0]] + l;
      }
    }
  }

  /** The entry a packet is for is laid out for it. */
  ghost predicate Receivable(list: seq<Entry>, p: Packet) {
    p.header.nodesPerPacket > 0 &&
    (Accepts(p.header) ==> LaidOutFor(WithEntry(list, p.header.seqNr)[EntryIndex(list, p.header.seqNr)], p.header))
  }

  /** The list after a packet has been added to the entry of its scan. */
  ghost function Received(list: seq<Entry>, p: Packet, stray: nat -> LidarRawSample): seq<Entry>
    requires Receivable(list, p)
  {
    var l, k := WithEntry(list, p.header.seqNr), EntryIndex(list, p.header.seqNr);
    l[k := Added(l[k], p, stray)]
  }

  datatype Grabbed = Grabbed(kept: seq<Entry>, currentSeqNr: nat, failures: int, got: Option<Entry>)

  predicate Discards(e: Entry, currentSeqNr: nat, failures: int) {
    e.seqNr < currentSeqNr && failures + 1 < MAX_FAILURES
  }

  /** What a grab does to the rest of a list: complete scans leave it, stale ones are thrown away until
      the fifteenth, the others are delivered - only the first, or each in turn so that the last one counts. */
  function Grab(list: seq<Entry>, currentSeqNr: nat, failures: int, latest: bool): Grabbed {
    if list == [] then Grabbed([], currentSeqNr, failures, None)
    else
      var e := list[0];
      if !e.Complete() then
        var r := Grab(list[1..], currentSeqNr, failures, latest);
        r.(kept := [e] + r.kept)
      else if Discards(e, currentSeqNr, failures) then
        Grab(list[1..], currentSeqNr, failures + 1, latest)
      else if !latest then
        Grabbed(list[1..], e.seqNr, 0, Some(e))
      else
        var r := Grab(list[1..], e.seqNr, 0, latest);
        if r.got.Some? then r else r.(got := Some(e))
  }

  /** A grab that has dealt with the first i entries of `v` and delivered `got` so far. */
  ghost function Resumed(v: seq<Entry>, i: nat, currentSeqNr: nat, failures: int, latest: bool,
                         got: Option<Entry>): Grabbed
    requires i <= |v|
  {
    var r := Grab(v[i..], currentSeqNr, failures, latest);
    Grabbed(v[..i] + r.kept, r.currentSeqNr, r.failures, if r.got.Some? then r.got else got)
  }

  lemma ResumedEnds(v: seq<Entry>, currentSeqNr: nat, failures: int, latest: bool, got: Option<Entry>)
    ensures Resumed(v, 0, currentSeqNr, failures, latest, None) == Grab(v, currentSeqNr, failures, latest)
    ensures Resumed(v, |v|, currentSeqNr, failures, latest, got) == Grabbed(v, currentSeqNr, failures, got)
  {
    assert v[0..] == v;
  }

  lemma ResumedSteps(v: seq<Entry>, i: nat, currentSeqNr: nat, failures: int, latest: bool, got: Option<Entry>)
    requires i < |v|
    ensures var e := v[i]; var rest := v[..i] + v[i + 1..];
      Resumed(v, i, currentSeqNr, failures, latest, got) ==
        if !e.Complete() then Resumed(v, i + 1, currentSeqNr, failures, latest, got)
        else if Discards(e, currentSeqNr, failures) then Resumed(rest, i, currentSeqNr, failures + 1, latest, got)
        else if latest then Resumed(rest, i, e.seqNr, 0, latest, Some(e))
        else Grabbed(rest, e.seqNr, 0, Some(e))
  {
    var rest := v[..i] + v[i + 1..];
    assert v[i..][0] == v[i] && v[i..][1..] == v[i + 1..];
    assert rest[..i] == v[..i] && rest[i..] == v[i + 1..];
    var r := Grab(v[i + 1..], currentSeqNr, failures, latest);
    assert v[..i + 1] + r.kept == v[..i] + ([v[i]] + r.kept);
  }

  ghost function ValuesOf(es: seq<LidarScanData>): (r: seq<Entry>)
    reads es
    ensures |r| == |es|
  {
    if es == [] then [] else ValuesOf(es[..|es| - 1]) + [es[|es| - 1].Value()]
  }

  lemma {:induction false} ValuesAt(es: seq<LidarScanData>, i: nat)
    requires i < |es|
    ensures ValuesOf(es)[i] == es[i].Value()
  {
    if i < |es| - 1 {
      ValuesAt(es[..|es| - 1], i);
    }
  }

  lemma {:induction false} ValuesConcat(a: seq<LidarScanData>, b: seq<LidarScanData>)
    ensures ValuesOf(a + b) == ValuesOf(a) + ValuesOf(b)
  {
    if b == [] {
      assert a + b == a;
    } else {
      assert (a + b)[..|a + b| - 1] == a + b[..|b| - 1];
      ValuesConcat(a, b[..|b| - 1]);
    }
  }

  lemma ValuesSplit(es: seq<LidarScanData>, k: nat)
    requires k <= |es|
    ensures ValuesOf(es[..k]) == ValuesOf(es)[..k] && ValuesOf(es[k..]) == ValuesOf(es)[k..]
  {
    hide ValuesOf;
    assert es[..k] + es[k..] == es;
    ValuesConcat(es[..k], es[k..]);
    PartsOfSum(ValuesOf(es[..k]), ValuesOf(es[k..]));
  }

  lemma PartsOfSum<T>(a: seq<T>, b: seq<T>)
    ensures (a + b)[..|a|] == a && (a + b)[|a|..] == b
  {
  }

  class LidarScanDataList {
    var entries: seq<LidarScanData>
    var currentSeqNr: nat
    var seqFailureCount: int

    ghost predicate Valid()
      reads this
    {
      forall i, j :: 0 <= i < j < |entries| ==> entries[i] != entries[j]
    }

    ghost function Values(): (r: seq<Entry>)
      reads this, entries
      ensures |r| == |entries|
    {
      ValuesOf(entries)
    }

    /** The failure counter starts as it happens to be. */
    constructor (uninitialised: int)
      ensures Valid() && entries == [] && currentSeqNr == 0 && seqFailureCount == uninitialised
    {
      entries, currentSeqNr, seqFailureCount := [], 0, uninitialised;
    }

    method GetScanData(seqNr: nat) returns (data: LidarScanData)
      requires Valid()
      modifies this`entries
      ensures Valid() && Values() == WithEntry(old(Values()), seqNr)
      ensures EntryIndex(old(Values()), seqNr) < |entries| && data == entries[EntryIndex(old(Values()), seqNr)]
      ensures forall k :: 0 <= k < |entries| ==> entries[k] in old(entries) || fresh(entries[k])
    {
      hide ValuesOf, WithEntry, EntryIndex, Evicted, Position, InsertPosition;
      WithEntryCases(Values(), seqNr);
      var i := FindData(seqNr);
      if i >= 0 {
        return entries[i];
      }
      EvictOldest();
      i := FindPlace(seqNr);
      data := new LidarScanData(seqNr);
      InsertData(i, data);
    }

    /** From the newest entry down, the one of this scan. */
    method FindData(seqNr: nat) returns (k: int)
      requires Valid()
      ensures k == Position(Values(), seqNr)
    {
      hide ValuesOf;
      ghost var was := Values();
      k := |entries|;
      assert was[..k] == was;
      while k > 0
        invariant 0 <= k <= |entries|
        invariant Position(was, seqNr) == Position(was[..k], seqNr)
      {
        k := k - 1;
        assert was[..k + 1][..k] == was[..k];
        ValuesAt(entries, k);
        if entries[k].seqNr == seqNr {
          return;
        }
      }
      k := -1;
    }

    /** From the newest entry down, the place behind the first one with a smaller number. */
    method FindPlace(seqNr: nat) returns (k: int)
      requires Valid()
      ensures k == InsertPosition(Values(), seqNr)
    {
      hide ValuesOf;
      ghost var l := Values();
      k := |entries|;
      assert l[..k] == l;
      while k > 0
        invariant 0 <= k <= |entries|
        invariant InsertPosition(l, seqNr) == InsertPosition(l[..k], seqNr)
      {
        assert l[..k][..k - 1] == l[..k - 1];
        ValuesAt(entries, k - 1);
        if entries[k - 1].seqNr < seqNr {
          break;
        }
        k := k - 1;
      }
    }

    /** Room for one more entry. */
    method EvictOldest()
      requires Valid()
      modifies this`entries
      ensures Valid() && Values() == Evicted(old(Values()))
      ensures forall k :: 0 <= k < |entries| ==> entries[k] in old(entries)
    {
      hide ValuesOf;
      if |entries| > 16 {
        ValuesSplit(entries, 1);
        entries := entries[1..];
      }
    }

    method InsertData(i: nat, data: LidarScanData)
      requires Valid() && i <= |entries| && data !in entries
      modifies this`entries
      ensures Valid() && entries == old(entries)[..i] + [data] + old(entries)[i..]
      ensures Values() == old(Values())[..i] + [data.Value()] + old(Values())[i..]
    {
      hide ValuesOf;
      ValuesSplit(entries, i);
      ValuesConcat(entries[..i], [data]);
      ValuesConcat(entries[..i] + [data], entries[i..]);
      ValuesAt([data], 0);
      assert ValuesOf([data]) == [data.Value()];
      entries := entries[..i] + [data] + entries[i..];
    }

    method EraseData(i: nat)
      requires Valid() && i < |entries|
      modifies this`entries
      ensures Valid() && entries == old(entries)[..i] + old(entries)[i + 1..]
      ensures Values() == old(Values())[..i] + old(Values())[i + 1..]
    {
      hide ValuesOf;
      ValuesSplit(entries, i);
      ValuesSplit(entries, i + 1);
      ValuesConcat(entries[..i], entries[i + 1..]);
      entries := entries[..i] + entries[i + 1..];
    }

    /** A packet from the wire: find or make the entry of its scan and add the packet to it. */
    method Receive(p: Packet, stray: nat -> LidarRawSample)
      requires Valid() && Receivable(Values(), p)
      modifies this`entries, entries
      ensures Valid() && Values() == Received(old(Values()), p, stray)
      ensures forall k :: 0 <= k < |entries| ==> entries[k] in old(entries) || fresh(entries[k])
    {
      hide ValuesOf, WithEntry, EntryIndex, Added;
      ghost var k := EntryIndex(Values(), p.header.seqNr);
      var data := GetScanData(p.header.seqNr);
      ghost var l := Values();
      forall i | 0 <= i < |entries| ensures l[i] == entries[i].Value() {
        ValuesAt(entries, i);
      }
      data.AddData(p, stray);
      forall i | 0 <= i < |entries| ensures Values()[i] == if i == k then Added(l[k], p, stray) else l[i] {
        ValuesAt(entries, i);
      }
    }

    method GrabScanData(grabLatest: bool) returns (success: bool, nodes: Samples)
      requires Valid()
      modifies this
      ensures Valid()
      ensures var r := Grab(old(Values()), old(currentSeqNr), old(seqFailureCount), grabLatest);
        && Values() == r.kept && currentSeqNr == r.currentSeqNr && seqFailureCount == r.failures
        && success == r.got.Some? && (success ==> nodes == r.got.value.nodes)
      ensures forall k :: 0 <= k < |entries| ==> entries[k] in old(entries)
    {
      hide ValuesOf, Grab, Resumed;
      success, nodes := false, [];
      ghost var goal := Grab(Values(), currentSeqNr, seqFailureCount, grabLatest);
      ghost var got: Option<Entry> := None;
      ResumedEnds(Values(), currentSeqNr, seqFailureCount, grabLatest, got);
      var i := 0;
      while i < |entries|
        invariant 0 <= i <= |entries| && Valid()
        invariant forall k :: 0 <= k < |entries| ==> entries[k] in old(entries)
        invariant success == got.Some? && (success ==> nodes == got.value.nodes)
        invariant goal == Resumed(Values(), i, currentSeqNr, seqFailureCount, grabLatest, got)
        decreases |entries| - i
      {
        var scanData := entries[i];
        ValuesAt(entries, i);
        ResumedSteps(Values(), i, currentSeqNr, seqFailureCount, grabLatest, got);
        var complete := scanData.Complete();
        if complete {
          var stale := false;
          if scanData.seqNr < currentSeqNr {
            seqFailureCount := seqFailureCount + 1;
            stale := seqFailureCount < 15;
          }
          if stale {
            EraseData(i);
          } else {
            seqFailureCount := 0;
            nodes := scanData.nodes;
            currentSeqNr := scanData.seqNr;
            success := true;
            got := Some(scanData.Value());
            EraseData(i);
            if !grabLatest {
              return;
            }
          }
        } else {
          i := i + 1;
        }
      }
      ResumedEnds(Values(), currentSeqNr, seqFailureCount, grabLatest, got);
    }
  }
}
