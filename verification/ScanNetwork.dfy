/** A virtual sensor end to end: a sender, a network that loses, repeats and reorders packets, and a
    receiver.  Steps of all three interleave freely; the invariant says what every partial scan and
    every grabbed scan has to do with what was sent.  */
module ScanNetwork {
  import opened Common
  import opened ScanList

  datatype Scan = Scan(isEnv: bool, nodes: Samples)

  /** A list of partial scans with what an outside observer remembers about it: the packets each entry
      has taken since it was created, the last scan delivered and whether a peer has connected since, and
      how many complete scans were thrown away since. */
  datatype Inbox = Inbox(entries: seq<Entry>, currentSeqNr: nat, failures: int,
                         arrived: map<nat, set<nat>>, lastDelivered: nat, reset: bool, thrown: nat)

  datatype Net = Net(senderSeqNr: nat, sent: map<nat, Scan>, wire: set<Packet>, scans: Inbox, envs: Inbox)

  datatype Step =
    | Send(isEnv: bool, nodes: Samples)
    | Restart
    | Lose(p: Packet)
    | Deliver(q: Packet, stray: nat -> LidarRawSample)
    | Connect
    | GrabScan(fromEnv: bool, latest: bool)

  ghost function SeqNrs(list: seq<Entry>): set<nat> {
    set e | e in list :: e.seqNr
  }

  // ---- receiving ----

  ghost function TakenIds(p: Packet): set<nat>
    requires p.header.nodesPerPacket > 0
  {
    if Accepts(p.header) then {p.header.packetId} else {}
  }

  ghost function Known(arrived: map<nat, set<nat>>, s: nat): set<nat> {
    if s in arrived then arrived[s] else {}
  }

  ghost function BoxReceived(b: Inbox, p: Packet, stray: nat -> LidarRawSample): Inbox
    requires Receivable(b.entries, p)
  {
    var list := Received(b.entries, p, stray);
    b.(entries := list,
       arrived := map s | s in SeqNrs(list) ::
         Known(b.arrived, s) + if s == p.header.seqNr then TakenIds(p) else {})
  }

  ghost function NumComplete(list: seq<Entry>): nat {
    if list == [] then 0 else (if list[0].Complete() then 1 else 0) + NumComplete(list[1..])
  }

  ghost function BoxGrabbed(b: Inbox, latest: bool): Inbox {
    var r := Grab(b.entries, b.currentSeqNr, b.failures, latest);
    var lost := NumComplete(b.entries) - NumComplete(r.kept);
    Inbox(r.kept, r.currentSeqNr, r.failures, map s | s in SeqNrs(r.kept) :: Known(b.arrived, s),
          if r.got.Some? then r.got.value.seqNr else b.lastDelivered,
          if r.got.Some? then false else b.reset,
          if r.got.Some? || lost < 0 then 0 else b.thrown + lost)
  }

  // ---- the network ----

  /** A scan number may be used when it is new, or, after the sender restarted, once nothing of its
      former scan is left on the wire or at the receiver. */
  ghost predicate Usable(s: Net, n: nat) {
    n !in s.sent ||
    ((forall p :: p in s.wire ==> p.header.seqNr != n) && n !in SeqNrs(s.scans.entries) && n !in SeqNrs(s.envs.entries))
  }

  ghost predicate Enabled(s: Net, step: Step) {
    match step
    case Send(_, _) => Usable(s, s.senderSeqNr + 1)
    case Restart => true
    case Lose(p) => p in s.wire
    case Deliver(p, _) => p in s.wire && Receivable(if p.header.isEnv then s.envs.entries else s.scans.entries, p)
    case Connect => true
    case GrabScan(_, _) => true
  }

  ghost function After(s: Net, step: Step): Net
    requires Enabled(s, step)
  {
    match step
    case Send(isEnv, nodes) =>
      var n := s.senderSeqNr + 1;
      s.(senderSeqNr := n, sent := s.sent[n := Scan(isEnv, nodes)],
         wire := s.wire + set p | p in Packets(isEnv, n, nodes))
    case Restart => s.(senderSeqNr := 0)
    case Lose(p) => s.(wire := s.wire - {p})
    case Deliver(p, stray) =>
      // the packet stays on the wire: it may arrive again
      if p.header.isEnv then s.(envs := BoxReceived(s.envs, p, stray)) else s.(scans := BoxReceived(s.scans, p, stray))
    case Connect => s.(scans := s.scans.(currentSeqNr := 0, reset := true))
    case GrabScan(fromEnv, latest) =>
      if fromEnv then s.(envs := BoxGrabbed(s.envs, latest)) else s.(scans := BoxGrabbed(s.scans, latest))
  }

  ghost predicate Initial(s: Net) {
    s.senderSeqNr == 0 && s.sent == map[] && s.wire == {} && NewBox(s.scans) && NewBox(s.envs)
  }

  /** The failure counter of a new list is whatever memory held. */
  ghost predicate NewBox(b: Inbox) {
    b.entries == [] && b.currentSeqNr == 0 && b.arrived == map[] && b.lastDelivered == 0 && !b.reset && b.thrown == 0
  }

  // ---- the invariant ----

  /** Header fields as they come out of the 16-bit `totalNodes`. */
  ghost function SeenNodes(nodes: Samples): nat {
    |nodes| % 65536
  }

  ghost function SeenPackets(nodes: Samples): nat {
    NumPackets(SeenNodes(nodes), NODES_PER_PACKET)
  }

  /** An 8-bit packet id can name every packet of the scan. */
  predicate Addressable(nodes: Samples) {
    |nodes| <= 32768
  }

  ghost predicate EntryOk(e: Entry, nodes: Samples, arrived: set<nat>) {
    && (forall k :: k in arrived ==> k < 256)
    && (e.received == [] ==> e.nodes == [] && arrived == {})
    && (e.received != [] ==>
          && |e.received| == SeenPackets(nodes) && |e.nodes| == SeenNodes(nodes)
          && (forall k: nat :: k in arrived <==> k < |e.received| && e.received[k])
          && (Addressable(nodes) ==>
                forall m :: 0 <= m < |e.nodes| && e.received[m / NODES_PER_PACKET] ==> e.nodes[m] == nodes[m]))
  }

  ghost predicate BoxOk(b: Inbox, isEnv: bool, sent: map<nat, Scan>) {
    && Sorted(b.entries) && |b.entries| <= MAX_ENTRIES
    && b.arrived.Keys == SeqNrs(b.entries)
    && (forall e :: e in b.entries ==>
          && e.seqNr in sent && sent[e.seqNr].isEnv == isEnv
          && e.seqNr in b.arrived && EntryOk(e, sent[e.seqNr].nodes, b.arrived[e.seqNr]))
    && (b.currentSeqNr > 0 ==> b.thrown == b.failures)
    && b.thrown < MAX_FAILURES
    && (!b.reset ==> b.currentSeqNr == b.lastDelivered)
  }

  ghost predicate FromSent(p: Packet, sent: map<nat, Scan>) {
    p.header.seqNr in sent &&
    var scan := sent[p.header.seqNr];
    exists i: nat :: i < NumPackets(|scan.nodes|, NODES_PER_PACKET) &&
      p == ScanMsg(scan.isEnv, p.header.seqNr, i, scan.nodes)
  }

  ghost predicate Inv(s: Net) {
    && (forall p :: p in s.wire ==> FromSent(p, s.sent))
    && BoxOk(s.scans, false, s.sent) && BoxOk(s.envs, true, s.sent)
  }

  // ---- one entry ----

  lemma AddressablePacket(isEnv: bool, seqNr: nat, i: nat, nodes: Samples)
    requires Addressable(nodes) && i < NumPackets(|nodes|, NODES_PER_PACKET)
    ensures var p := ScanMsg(isEnv, seqNr, i, nodes);
      && p.header.packetId == i && p.header.totalNodes == |nodes| && Accepts(p.header) && i < 256
      && p.payload == nodes[i * NODES_PER_PACKET..i * NODES_PER_PACKET + NodesInPacket(i, NODES_PER_PACKET, |nodes|)]
  {
  }

  lemma OpenedIsOk(e: Entry, nodes: Samples, arrived: set<nat>, h: ScanHeader)
    requires EntryOk(e, nodes, arrived) && h.seqNr == e.seqNr
    requires h.nodesPerPacket == NODES_PER_PACKET && h.totalNodes == SeenNodes(nodes)
    ensures EntryOk(Opened(e, h), nodes, arrived) && Opened(e, h).received != [] && Opened(e, h).seqNr == e.seqNr
  {
  }

  /** Marking packet `id` and copying its samples in keeps a laid-out entry in order. */
  lemma OverwrittenIsOk(o: Entry, nodes: Samples, arrived: set<nat>, id: nat, part: Samples)
    requires EntryOk(o, nodes, arrived) && o.received != [] && id < |o.received| && id < 256
    requires |part| == NodesInPacket(id, NODES_PER_PACKET, SeenNodes(nodes))
    requires id * NODES_PER_PACKET + |part| <= |o.nodes|
    requires Addressable(nodes) ==> part == nodes[id * NODES_PER_PACKET..id * NODES_PER_PACKET + |part|]
    ensures EntryOk(Entry(o.seqNr, Overwritten(o.nodes, id * NODES_PER_PACKET, part), o.received[id := true]),
                    nodes, arrived + {id})
  {
    hide Overwritten, NodesInPacket;
    var a := Entry(o.seqNr, Overwritten(o.nodes, id * NODES_PER_PACKET, part), o.received[id := true]);
    if Addressable(nodes) {
      forall m | 0 <= m < |a.nodes| && a.received[m / NODES_PER_PACKET] ensures a.nodes[m] == nodes[m] {
        assert m / NODES_PER_PACKET != id ==> o.nodes[m] == nodes[m];
        OverwrittenSample(o.nodes, nodes, id, part, m);
      }
    }
  }

  lemma OverwrittenSample(before: Samples, nodes: Samples, id: nat, part: Samples, m: nat)
    requires m < |before| == SeenNodes(nodes) == |nodes|
    requires |part| == NodesInPacket(id, NODES_PER_PACKET, |nodes|) && id * NODES_PER_PACKET + |part| <= |nodes|
    requires part == nodes[id * NODES_PER_PACKET..id * NODES_PER_PACKET + |part|]
    requires m / NODES_PER_PACKET != id ==> before[m] == nodes[m]
    ensures Overwritten(before, id * NODES_PER_PACKET, part)[m] == nodes[m]
  {
    hide Overwritten;
    if m / NODES_PER_PACKET == id {
      OwnSample(id, m, |nodes|);
    }
  }

  /** A sample of packet `id` lies in the range the packet carries. */
  lemma OwnSample(id: nat, m: nat, total: nat)
    requires m < total && m / NODES_PER_PACKET == id
    ensures id * NODES_PER_PACKET <= m < id * NODES_PER_PACKET + NodesInPacket(id, NODES_PER_PACKET, total)
  {
    if (id + 1) * NODES_PER_PACKET > total {
      assert total / NODES_PER_PACKET == id;
    }
  }

  /** Taking a packet of its own scan keeps an entry in order, whatever came before. */
  lemma AddedIsOk(e: Entry, isEnv: bool, i: nat, nodes: Samples, arrived: set<nat>, stray: nat -> LidarRawSample)
    requires EntryOk(e, nodes, arrived) && i < NumPackets(|nodes|, NODES_PER_PACKET)
    ensures var p := ScanMsg(isEnv, e.seqNr, i, nodes);
      && (Accepts(p.header) ==> LaidOutFor(e, p.header))
      && Added(e, p, stray).seqNr == e.seqNr
      && EntryOk(Added(e, p, stray), nodes, arrived + TakenIds(p))
  {
    hide EntryOk, Overwritten;
    var p := ScanMsg(isEnv, e.seqNr, i, nodes);
    var id := p.header.packetId;
    if Accepts(p.header) {
      PacketFits(id, NODES_PER_PACKET, SeenNodes(nodes));
      var o := Opened(e, p.header);
      OpenedIsOk(e, nodes, arrived, p.header);
      LayoutOf(o, nodes, arrived);
      var n := NodesInPacket(id, NODES_PER_PACKET, SeenNodes(nodes));
      var part := Copied(p.payload, n, stray);
      if Addressable(nodes) {
        AddressablePacket(isEnv, e.seqNr, i, nodes);
        assert part == p.payload;
      }
      OverwrittenIsOk(o, nodes, arrived, id, part);
    } else {
      assert arrived + TakenIds(p) == arrived;
    }
  }

  lemma LayoutOf(e: Entry, nodes: Samples, arrived: set<nat>)
    requires EntryOk(e, nodes, arrived) && e.received != []
    ensures |e.received| == SeenPackets(nodes) && |e.nodes| == SeenNodes(nodes)
  {
  }

  ghost predicate AllArrived(nodes: Samples, arrived: set<nat>) {
    forall k: nat :: k < SeenPackets(nodes) ==> k in arrived
  }

  /** An entry is complete iff every packet index of its scan has arrived since the entry was created. */
  lemma CompleteIffAllArrived(e: Entry, nodes: Samples, arrived: set<nat>)
    requires EntryOk(e, nodes, arrived)
    ensures e.Complete() <==> AllArrived(nodes, arrived)
  {
    assert AllArrived(nodes, arrived) ==> 0 in arrived;
  }

  /** A complete entry holds exactly the scan that was sent iff packet ids can name all its packets; a scan
      of more than 32768 but less than 65536 samples never completes. */
  lemma CompleteIsSent(e: Entry, nodes: Samples, arrived: set<nat>)
    requires EntryOk(e, nodes, arrived) && e.Complete()
    ensures e.nodes == nodes <==> Addressable(nodes)
    ensures Addressable(nodes) || |nodes| >= 65536
  {
    assert 256 !in arrived;
    if Addressable(nodes) {
      assert |e.nodes| == |nodes|;
      forall m | 0 <= m < |e.nodes| ensures e.nodes[m] == nodes[m] {
        assert m / NODES_PER_PACKET < |e.received|;
      }
    }
  }

  // ---- grabbing ----

  ghost function Stale(list: seq<Entry>, currentSeqNr: nat): nat {
    if list == [] then 0
    else (if list[0].Complete() && list[0].seqNr < currentSeqNr then 1 else 0) + Stale(list[1..], currentSeqNr)
  }

  ghost function Incomplete(list: seq<Entry>): seq<Entry> {
    if list == [] then [] else (if list[0].Complete() then [] else [list[0]]) + Incomplete(list[1..])
  }

  lemma {:induction false} NothingStale(list: seq<Entry>, n: nat)
    requires forall i :: 0 <= i < |list| ==> list[i].seqNr >= n
    ensures Stale(list, n) == 0
  {
    if list != [] {
      NothingStale(list[1..], n);
    }
  }

  ghost predicate AnyCurrent(list: seq<Entry>, currentSeqNr: nat) {
    list != [] && ((list[0].Complete() && list[0].seqNr >= currentSeqNr) || AnyCurrent(list[1..], currentSeqNr))
  }

  lemma {:induction false} AnyCurrentMeans(list: seq<Entry>, currentSeqNr: nat)
    ensures AnyCurrent(list, currentSeqNr) <==>
      exists i :: 0 <= i < |list| && list[i].Complete() && list[i].seqNr >= currentSeqNr
  {
    if list != [] {
      AnyCurrentMeans(list[1..], currentSeqNr);
      assert forall i :: 0 < i < |list| ==> list[i] == list[1..][i - 1];
      assert forall i :: 0 <= i < |list| - 1 ==> list[1..][i] == list[i + 1];
    }
  }

  /** Grabbing the latest scan leaves no complete entry; something is delivered iff a complete scan is current
      or the stale ones reach the fifteenth; without a delivery every stale scan has been counted. */
  lemma {:induction false} GrabLatestIs(list: seq<Entry>, currentSeqNr: nat, failures: int)
    requires Sorted(list)
    ensures var r := Grab(list, currentSeqNr, failures, true);
      && r.kept == Incomplete(list)
      && (r.got.Some? <==>
            AnyCurrent(list, currentSeqNr) ||
            (Stale(list, currentSeqNr) > 0 && failures + Stale(list, currentSeqNr) >= MAX_FAILURES))
      && (r.got.None? ==> r.currentSeqNr == currentSeqNr && r.failures == failures + Stale(list, currentSeqNr))
  {
    if list != [] {
      var e, rest := list[0], list[1..];
      if !e.Complete() {
        GrabLatestIs(rest, currentSeqNr, failures);
      } else if Discards(e, currentSeqNr, failures) {
        GrabLatestIs(rest, currentSeqNr, failures + 1);
      } else {
        GrabLatestIs(rest, e.seqNr, 0);
        NothingStale(rest, e.seqNr);
      }
    }
  }

  /** What is then delivered is the newest complete scan of the list. */
  lemma {:induction false} GrabLatestIsNewest(list: seq<Entry>, currentSeqNr: nat, failures: int, i: nat)
    requires Sorted(list) && i < |list| && list[i].Complete()
    requires Grab(list, currentSeqNr, failures, true).got.Some?
    ensures list[i].seqNr <= Grab(list, currentSeqNr, failures, true).got.value.seqNr
  {
    var e, rest := list[0], list[1..];
    if !e.Complete() {
      GrabLatestIsNewest(rest, currentSeqNr, failures, i - 1);
    } else if Discards(e, currentSeqNr, failures) {
      GrabDeliversMember(rest, currentSeqNr, failures + 1, true);
      if i > 0 {
        GrabLatestIsNewest(rest, currentSeqNr, failures + 1, i - 1);
      }
    } else {
      GrabDeliversMember(rest, e.seqNr, 0, true);
      GrabLatestIs(rest, e.seqNr, 0);
      if i > 0 {
        AnyCurrentMeans(rest, e.seqNr);
        assert rest[i - 1] == list[i];
        GrabLatestIsNewest(rest, e.seqNr, 0, i - 1);
      }
    }
  }

  ghost predicate AnyComplete(list: seq<Entry>) {
    exists i :: 0 <= i < |list| && list[i].Complete()
  }

  lemma {:induction false} GrabNextAfterConnect(list: seq<Entry>, failures: int)
    requires Sorted(list)
    ensures var r := Grab(list, 0, failures, false);
      && (r.got.Some? <==> AnyComplete(list))
      && (r.got.Some? ==> forall i :: 0 <= i < |list| && list[i].Complete() ==> r.got.value.seqNr <= list[i].seqNr)
  {
    if list != [] && !list[0].Complete() {
      var rest := list[1..];
      GrabNextAfterConnect(rest, failures);
      assert forall i :: 0 < i < |list| ==> list[i] == rest[i - 1];
      assert forall i :: 0 <= i < |rest| ==> rest[i] == list[i + 1];
    }
  }

  /** After a connect, which sets the current number back, no complete scan is held back as stale: a grab delivers iff
      some scan is complete, and then the newest one or, if all are wanted in turn, the oldest.  */
  lemma ConnectForgetsStale(list: seq<Entry>, failures: int, latest: bool)
    requires Sorted(list)
    ensures var r := Grab(list, 0, failures, latest);
      && (r.got.Some? <==> AnyComplete(list))
      && (r.got.Some? ==> forall i :: 0 <= i < |list| && list[i].Complete() ==>
            if latest then list[i].seqNr <= r.got.value.seqNr else r.got.value.seqNr <= list[i].seqNr)
  {
    hide Sorted;
    if latest {
      GrabLatestIs(list, 0, failures);
      AnyCurrentMeans(list, 0);
      NothingStale(list, 0);
      if Grab(list, 0, failures, true).got.Some? {
        forall i | 0 <= i < |list| && list[i].Complete()
          ensures list[i].seqNr <= Grab(list, 0, failures, true).got.value.seqNr
        {
          GrabLatestIsNewest(list, 0, failures, i);
        }
      }
    } else {
      GrabNextAfterConnect(list, failures);
    }
  }

  lemma {:induction false} GrabKeeps(list: seq<Entry>, currentSeqNr: nat, failures: int, latest: bool)
    requires Sorted(list)
    ensures var kept := Grab(list, currentSeqNr, failures, latest).kept;
      Sorted(kept) && |kept| <= |list| && forall e :: e in kept ==> e in list
  {
    if list != [] {
      var e, rest := list[0], list[1..];
      assert list == [e] + rest;
      if !e.Complete() {
        GrabKeeps(rest, currentSeqNr, failures, latest);
        var kept := Grab(rest, currentSeqNr, failures, latest).kept;
        forall j | 0 <= j < |kept| ensures kept[j].seqNr > e.seqNr {
          assert kept[j] in rest;
        }
      } else if Discards(e, currentSeqNr, failures) {
        GrabKeeps(rest, currentSeqNr, failures + 1, latest);
      } else {
        GrabKeeps(rest, e.seqNr, 0, latest);
      }
    }
  }

  /** What any grab delivers is a complete entry of the list. */
  lemma {:induction false} GrabDeliversMember(list: seq<Entry>, currentSeqNr: nat, failures: int, latest: bool)
    ensures var r := Grab(list, currentSeqNr, failures, latest);
      r.got.Some? ==>
        (exists i :: 0 <= i < |list| && list[i] == r.got.value) && r.got.value.Complete()
  {
    if list != [] {
      var e, rest := list[0], list[1..];
      assert forall i :: 0 <= i < |rest| ==> rest[i] == list[i + 1];
      if !e.Complete() {
        GrabDeliversMember(rest, currentSeqNr, failures, latest);
      } else if Discards(e, currentSeqNr, failures) {
        GrabDeliversMember(rest, currentSeqNr, failures + 1, latest);
      } else {
        GrabDeliversMember(rest, e.seqNr, 0, latest);
      }
    }
  }

  /** A delivery is out of order only as the fifteenth stale scan; a grab without one has thrown away every
      complete scan of the list, and fewer than fifteen in all. */
  lemma {:induction false} GrabCounts(list: seq<Entry>, currentSeqNr: nat, failures: int, latest: bool)
    requires Sorted(list)
    ensures var r := Grab(list, currentSeqNr, failures, latest);
      && (r.got.Some? && r.got.value.seqNr < currentSeqNr ==> failures + Stale(list, currentSeqNr) >= MAX_FAILURES)
      && (r.got.None? ==>
            && r.currentSeqNr == currentSeqNr && r.failures == failures + Stale(list, currentSeqNr)
            && (Stale(list, currentSeqNr) == 0 || r.failures < MAX_FAILURES)
            && NumComplete(r.kept) == 0 && NumComplete(list) == Stale(list, currentSeqNr))
  {
    if list != [] {
      var e, rest := list[0], list[1..];
      if !e.Complete() {
        GrabCounts(rest, currentSeqNr, failures, latest);
        var r := Grab(rest, currentSeqNr, failures, latest);
        assert ([e] + r.kept)[1..] == r.kept;
      } else if Discards(e, currentSeqNr, failures) {
        GrabCounts(rest, currentSeqNr, failures + 1, latest);
      } else {
        GrabCounts(rest, e.seqNr, 0, latest);
        NothingStale(rest, e.seqNr);
        GrabDeliversMember(rest, e.seqNr, 0, latest);
      }
    }
  }

  /** The number of what is delivered becomes the current one, and counting starts over. */
  lemma {:induction false} GrabSetsCurrent(list: seq<Entry>, currentSeqNr: nat, failures: int, latest: bool)
    requires Sorted(list)
    ensures var r := Grab(list, currentSeqNr, failures, latest);
      r.got.Some? ==> r.currentSeqNr == r.got.value.seqNr && r.failures == 0
  {
    if list != [] {
      var e, rest := list[0], list[1..];
      if !e.Complete() {
        GrabSetsCurrent(rest, currentSeqNr, failures, latest);
      } else if Discards(e, currentSeqNr, failures) {
        GrabSetsCurrent(rest, currentSeqNr, failures + 1, latest);
      } else {
        GrabSetsCurrent(rest, e.seqNr, 0, latest);
        GrabCounts(rest, e.seqNr, 0, latest);
        NothingStale(rest, e.seqNr);
      }
    }
  }

  // ---- every step keeps the invariant ----

  lemma SeqNrsOf(list: seq<Entry>, e: Entry)
    requires e in list
    ensures e.seqNr in SeqNrs(list)
  {
  }

  /** The entry a packet of a sent scan is added to is laid out for it and takes it in order. */
  lemma TargetIsOk(b: Inbox, isEnv: bool, sent: map<nat, Scan>, p: Packet, stray: nat -> LidarRawSample)
    requires BoxOk(b, isEnv, sent) && FromSent(p, sent)
    ensures Receivable(b.entries, p)
    ensures var e := WithEntry(b.entries, p.header.seqNr)[EntryIndex(b.entries, p.header.seqNr)];
      && e.seqNr == p.header.seqNr && Added(e, p, stray).seqNr == e.seqNr
      && EntryOk(Added(e, p, stray), sent[e.seqNr].nodes, Known(b.arrived, e.seqNr) + TakenIds(p))
  {
    hide EntryOk, Added;
    var n := p.header.seqNr;
    var list, k := WithEntry(b.entries, n), EntryIndex(b.entries, n);
    var e, scan := list[k], sent[n];
    var i: nat :| i < NumPackets(|scan.nodes|, NODES_PER_PACKET) && p == ScanMsg(scan.isEnv, n, i, scan.nodes);
    WithEntryCases(b.entries, n);
    if Position(b.entries, n) >= 0 {
      assert e in b.entries;
    } else {
      assert e == Entry(n, [], []);
      EmptyIsOk(n, scan.nodes);
      assert n !in b.arrived by {
        assert forall x :: x in b.entries ==> x.seqNr != n;
      }
    }
    AddedIsOk(e, scan.isEnv, i, scan.nodes, Known(b.arrived, n), stray);
  }

  lemma EmptyIsOk(n: nat, nodes: Samples)
    ensures EntryOk(Entry(n, [], []), nodes, {})
  {
  }

  lemma ReplacedMembers(l: seq<Entry>, k: nat, x: Entry)
    requires Sorted(l) && k < |l| && x.seqNr == l[k].seqNr
    ensures Sorted(l[k := x]) && SeqNrs(l[k := x]) == SeqNrs(l)
    ensures forall e :: e in l[k := x] ==> e == x || (e in l && e.seqNr != x.seqNr)
  {
    var w := l[k := x];
    assert forall i :: 0 <= i < |l| ==> w[i].seqNr == l[i].seqNr;
    forall s | s in SeqNrs(l) ensures s in SeqNrs(w) {
      var e :| e in l && e.seqNr == s;
      var i :| 0 <= i < |l| && l[i] == e;
      assert w[i] in w;
    }
  }

  lemma ReceivingKeepsBox(b: Inbox, isEnv: bool, sent: map<nat, Scan>, p: Packet, stray: nat -> LidarRawSample)
    requires BoxOk(b, isEnv, sent) && FromSent(p, sent) && sent[p.header.seqNr].isEnv == isEnv
    ensures Receivable(b.entries, p) && BoxOk(BoxReceived(b, p, stray), isEnv, sent)
  {
    hide EntryOk, Added, TakenIds, WithEntry, EntryIndex, Sorted, FromSent;
    var n := p.header.seqNr;
    SentKind(p, sent);
    TargetIsOk(b, isEnv, sent, p, stray);
    WithEntryIsSorted(b.entries, n);
    WithEntryMembers(b.entries, n);
    var l, k := WithEntry(b.entries, n), EntryIndex(b.entries, n);
    var x := Added(l[k], p, stray);
    ReplacedMembers(l, k, x);
    var c := BoxReceived(b, p, stray);
    forall e | e in c.entries
      ensures e.seqNr in sent && sent[e.seqNr].isEnv == isEnv && e.seqNr in c.arrived
      ensures EntryOk(e, sent[e.seqNr].nodes, c.arrived[e.seqNr])
    {
      SeqNrsOf(c.entries, e);
      if e != x {
        assert e in l && e.seqNr != n;
        assert e in b.entries;
        assert c.arrived[e.seqNr] == b.arrived[e.seqNr] + {};
        assert b.arrived[e.seqNr] + {} == b.arrived[e.seqNr];
      }
    }
  }

  lemma GrabbingKeepsBox(b: Inbox, isEnv: bool, sent: map<nat, Scan>, latest: bool)
    requires BoxOk(b, isEnv, sent)
    ensures BoxOk(BoxGrabbed(b, latest), isEnv, sent)
  {
    hide EntryOk, Sorted, Grab, NumComplete, Stale;
    GrabbingCounts(b, isEnv, sent, latest);
    GrabKeeps(b.entries, b.currentSeqNr, b.failures, latest);
    var c := BoxGrabbed(b, latest);
    forall e | e in c.entries
      ensures e.seqNr in sent && sent[e.seqNr].isEnv == isEnv && e.seqNr in c.arrived
      ensures EntryOk(e, sent[e.seqNr].nodes, c.arrived[e.seqNr])
    {
      SeqNrsOf(c.entries, e);
      assert e in b.entries;
    }
  }

  lemma GrabbingCounts(b: Inbox, isEnv: bool, sent: map<nat, Scan>, latest: bool)
    requires BoxOk(b, isEnv, sent)
    ensures var c := BoxGrabbed(b, latest);
      && (c.currentSeqNr > 0 ==> c.thrown == c.failures) && c.thrown < MAX_FAILURES
      && (!c.reset ==> c.currentSeqNr == c.lastDelivered)
  {
    hide EntryOk, Sorted, Grab, NumComplete, Stale;
    GrabSetsCurrent(b.entries, b.currentSeqNr, b.failures, latest);
    GrabCounts(b.entries, b.currentSeqNr, b.failures, latest);
    if b.currentSeqNr == 0 {
      NothingStale(b.entries, 0);
    }
  }

  lemma SendingKeepsBox(b: Inbox, isEnv: bool, sent: map<nat, Scan>, n: nat, scan: Scan)
    requires BoxOk(b, isEnv, sent) && (n !in sent || n !in SeqNrs(b.entries))
    ensures BoxOk(b, isEnv, sent[n := scan])
  {
    hide EntryOk;
    forall e | e in b.entries ensures e.seqNr != n {
      SeqNrsOf(b.entries, e);
    }
  }

  lemma SendingKeepsWire(s: Net, isEnv: bool, nodes: Samples)
    requires Inv(s) && Enabled(s, Send(isEnv, nodes))
    ensures var t := After(s, Send(isEnv, nodes)); forall p :: p in t.wire ==> FromSent(p, t.sent)
  {
    hide BoxOk;
    var n := s.senderSeqNr + 1;
    var t := After(s, Send(isEnv, nodes));
    forall p | p in t.wire ensures FromSent(p, t.sent) {
      if p in s.wire {
        assert FromSent(p, s.sent) && p.header.seqNr != n;
      } else {
        var packets := Packets(isEnv, n, nodes);
        var i :| 0 <= i < |packets| && packets[i] == p;
        assert p == ScanMsg(isEnv, n, i, nodes);
      }
    }
  }

  /** A packet on the wire never writes outside the entry it belongs to, so it can always be received. */
  lemma DeliveryIsSafe(s: Net, p: Packet, stray: nat -> LidarRawSample)
    requires Inv(s) && p in s.wire
    ensures Enabled(s, Deliver(p, stray))
  {
    assert FromSent(p, s.sent);
    if p.header.isEnv {
      TargetIsOk(s.envs, true, s.sent, p, stray);
    } else {
      TargetIsOk(s.scans, false, s.sent, p, stray);
    }
  }

  lemma StepKeepsInv(s: Net, step: Step)
    requires Inv(s) && Enabled(s, step)
    ensures Inv(After(s, step))
  {
    hide BoxOk, FromSent, BoxReceived, BoxGrabbed;
    match step
    case Send(isEnv, nodes) =>
      SendingKeepsWire(s, isEnv, nodes);
      SendingKeepsBox(s.scans, false, s.sent, s.senderSeqNr + 1, Scan(isEnv, nodes));
      SendingKeepsBox(s.envs, true, s.sent, s.senderSeqNr + 1, Scan(isEnv, nodes));
    case Restart =>
    case Lose(p) =>
    case Deliver(p, stray) =>
      SentKind(p, s.sent);
      if p.header.isEnv {
        ReceivingKeepsBox(s.envs, true, s.sent, p, stray);
      } else {
        ReceivingKeepsBox(s.scans, false, s.sent, p, stray);
      }
    case Connect =>
      ConnectKeepsBox(s.scans, s.sent);
    case GrabScan(fromEnv, latest) =>
      if fromEnv {
        GrabbingKeepsBox(s.envs, true, s.sent, latest);
      } else {
        GrabbingKeepsBox(s.scans, false, s.sent, latest);
      }
  }

  lemma SentKind(p: Packet, sent: map<nat, Scan>)
    requires FromSent(p, sent)
    ensures p.header.seqNr in sent && sent[p.header.seqNr].isEnv == p.header.isEnv
  {
  }

  lemma ConnectKeepsBox(b: Inbox, sent: map<nat, Scan>)
    requires BoxOk(b, false, sent)
    ensures BoxOk(b.(currentSeqNr := 0, reset := true), false, sent)
  {
    hide EntryOk;
  }

  // ---- every run ----

  ghost predicate IsRun(states: seq<Net>, steps: seq<Step>) {
    && |states| == |steps| + 1 && Initial(states[0])
    && forall k :: 0 <= k < |steps| ==> Enabled(states[k], steps[k]) && states[k + 1] == After(states[k], steps[k])
  }

  lemma {:induction false} RunsKeepInv(states: seq<Net>, steps: seq<Step>, k: nat)
    requires IsRun(states, steps) && k < |states|
    ensures Inv(states[k])
    decreases k
  {
    if k == 0 {
      assert SeqNrs([]) == {};
    } else {
      RunsKeepInv(states, steps, k - 1);
      StepKeepsInv(states[k - 1], steps[k - 1]);
      assert states[k] == After(states[k - 1], steps[k - 1]);
    }
  }

  ghost function BoxOf(s: Net, isEnv: bool): Inbox {
    if isEnv then s.envs else s.scans
  }

  /** In every state of every run: both lists are strictly sorted with at most 17 entries, each entry belongs
      to a sent scan of its kind, and it is complete iff all packet indexes of that scan have arrived since
      the entry was created. */
  lemma EntriesTrackArrivals(states: seq<Net>, steps: seq<Step>, k: nat, isEnv: bool, e: Entry)
    requires IsRun(states, steps) && k < |states|
    ensures var b := BoxOf(states[k], isEnv); Sorted(b.entries) && |b.entries| <= MAX_ENTRIES
    ensures var b := BoxOf(states[k], isEnv); e in b.entries ==>
      && e.seqNr in states[k].sent && states[k].sent[e.seqNr].isEnv == isEnv && e.seqNr in b.arrived
      && (e.Complete() <==> AllArrived(states[k].sent[e.seqNr].nodes, b.arrived[e.seqNr]))
  {
    hide Sorted, EntryOk;
    RunsKeepInv(states, steps, k);
    var b := BoxOf(states[k], isEnv);
    if e in b.entries {
      CompleteIffAllArrived(e, states[k].sent[e.seqNr].nodes, b.arrived[e.seqNr]);
    }
  }

  /** Whatever the network did, a grabbed scan is the scan that was sent under its number - exactly when the
      scan has at most 32768 samples. */
  lemma GrabReturnsWhatWasSent(states: seq<Net>, steps: seq<Step>, k: nat, isEnv: bool, latest: bool)
    requires IsRun(states, steps) && k < |states|
    ensures var b := BoxOf(states[k], isEnv); var r := Grab(b.entries, b.currentSeqNr, b.failures, latest);
      r.got.Some? ==>
        && r.got.value.seqNr in states[k].sent && states[k].sent[r.got.value.seqNr].isEnv == isEnv
        && (r.got.value.nodes == states[k].sent[r.got.value.seqNr].nodes <==>
              Addressable(states[k].sent[r.got.value.seqNr].nodes))
  {
    hide Sorted, EntryOk;
    RunsKeepInv(states, steps, k);
    var b := BoxOf(states[k], isEnv);
    GrabDeliversMember(b.entries, b.currentSeqNr, b.failures, latest);
    var r := Grab(b.entries, b.currentSeqNr, b.failures, latest);
    if r.got.Some? {
      var e := r.got.value;
      CompleteIsSent(e, states[k].sent[e.seqNr].nodes, b.arrived[e.seqNr]);
    }
  }

  /** How many complete scans a grab throws away before it delivers one, if it does. */
  ghost function Tossed(list: seq<Entry>, currentSeqNr: nat, failures: int): nat {
    if list == [] then 0
    else if !list[0].Complete() then Tossed(list[1..], currentSeqNr, failures)
    else if Discards(list[0], currentSeqNr, failures) then 1 + Tossed(list[1..], currentSeqNr, failures + 1)
    else 0
  }

  lemma {:induction false} TossedIsBounded(list: seq<Entry>, currentSeqNr: nat, failures: int, latest: bool)
    ensures Tossed(list, currentSeqNr, failures) == 0 || failures + Tossed(list, currentSeqNr, failures) < MAX_FAILURES
    ensures currentSeqNr == 0 ==> Tossed(list, currentSeqNr, failures) == 0
    ensures Grab(list, currentSeqNr, failures, latest).got.None? ==>
      Tossed(list, currentSeqNr, failures) == NumComplete(list)
  {
    if list != [] {
      TossedIsBounded(list[1..], currentSeqNr, failures, latest);
      TossedIsBounded(list[1..], currentSeqNr, failures + 1, latest);
    }
  }

  /** Deliveries never go back in number, unless a peer has connected since the last one or fifteen stale
      scans have piled up; fewer than fifteen complete scans are ever thrown away between deliveries. */
  lemma DeliveriesAdvance(states: seq<Net>, steps: seq<Step>, k: nat, isEnv: bool, latest: bool)
    requires IsRun(states, steps) && k < |states|
    ensures var b := BoxOf(states[k], isEnv); b.thrown + Tossed(b.entries, b.currentSeqNr, b.failures) <= 14
    ensures var b := BoxOf(states[k], isEnv); var r := Grab(b.entries, b.currentSeqNr, b.failures, latest);
      r.got.Some? && r.got.value.seqNr < b.lastDelivered ==>
        b.reset || b.thrown + Stale(b.entries, b.lastDelivered) >= MAX_FAILURES
  {
    hide Sorted, EntryOk;
    RunsKeepInv(states, steps, k);
    var b := BoxOf(states[k], isEnv);
    GrabCounts(b.entries, b.currentSeqNr, b.failures, latest);
    TossedIsBounded(b.entries, b.currentSeqNr, b.failures, latest);
  }
}
