/** The driver object of a virtual sensor: it numbers and sends scans, and sorts what it receives into one
    list for scans and one for environment scans.  */
module VirtualDriver {
  import opened Common
  import opened ScanList

  class LidarVirtualDriver {
    const scanDataList: LidarScanDataList
    const envDataList: LidarScanDataList
    var connected: bool
    var seqNr: nat

    ghost predicate Valid()
      reads this, scanDataList, envDataList
    {
      && scanDataList != envDataList && scanDataList.Valid() && envDataList.Valid()
      && (forall d :: d in scanDataList.entries ==> d !in envDataList.entries)
    }

    constructor (uninitialised: int)
      ensures Valid() && fresh(scanDataList) && fresh(envDataList) && seqNr == 0 && !connected
      ensures scanDataList.Values() == [] && envDataList.Values() == []
      ensures scanDataList.currentSeqNr == 0 && envDataList.currentSeqNr == 0
    {
      scanDataList := new LidarScanDataList(uninitialised);
      envDataList := new LidarScanDataList(uninitialised);
      connected, seqNr := false, 0;
    }

    /** Cuts a scan into packets under the next number; without a peer nothing happens. */
    method SendScanData(nodes: Samples, isEnv: bool) returns (sent: seq<Packet>)
      modifies this`seqNr
      ensures !connected ==> seqNr == old(seqNr) && sent == []
      ensures connected ==> seqNr == old(seqNr) + 1 && sent == Packets(isEnv, seqNr, nodes)
    {
      sent := [];
      if !connected {
        return;
      }
      seqNr := seqNr + 1;
      var count := |nodes|;
      var numPackets := count / NODES_PER_PACKET;
      if count == 0 || count % NODES_PER_PACKET != 0 {
        numPackets := numPackets + 1;
      }
      var i := 0;
      while i < numPackets
        invariant 0 <= i <= numPackets == NumPackets(|nodes|, NODES_PER_PACKET) && |sent| == i
        invariant forall k :: 0 <= k < i ==> sent[k] == ScanMsg(isEnv, seqNr, k, nodes)
      {
        sent := sent + [ScanMsg(isEnv, seqNr, i, nodes)];
        i := i + 1;
      }
    }

    /** A connecting peer starts its numbers again. */
    method ReceiveConnect()
      modifies scanDataList`currentSeqNr
      ensures scanDataList.currentSeqNr == 0
    {
      scanDataList.currentSeqNr := 0;
    }

    /** A data packet goes to the list of its kind; one that names no nodes per packet is dropped. */
    method ReceivePacket(p: Packet, stray: nat -> LidarRawSample)
      requires Valid()
      requires p.header.nodesPerPacket > 0 && p.header.totalNodes < 500000 ==>
        Receivable(if p.header.isEnv then envDataList.Values() else scanDataList.Values(), p)
      modifies scanDataList`entries, envDataList`entries, scanDataList.entries, envDataList.entries
      ensures Valid()
      ensures scanDataList.Values() ==
        if p.header.nodesPerPacket > 0 && p.header.totalNodes < 500000 && !p.header.isEnv
        then Received(old(scanDataList.Values()), p, stray) else old(scanDataList.Values())
      ensures envDataList.Values() ==
        if p.header.nodesPerPacket > 0 && p.header.totalNodes < 500000 && p.header.isEnv
        then Received(old(envDataList.Values()), p, stray) else old(envDataList.Values())
    {
      hide Received;
      if p.header.nodesPerPacket > 0 && p.header.totalNodes < 500000 {
        ghost var scans, envs := scanDataList.entries, envDataList.entries;
        if p.header.isEnv {
          envDataList.Receive(p, stray);
          assert forall i :: 0 <= i < |scans| ==> scans[i] in scanDataList.entries;
          assert unchanged(scans);
        } else {
          scanDataList.Receive(p, stray);
          assert forall i :: 0 <= i < |envs| ==> envs[i] in envDataList.entries;
          assert unchanged(envs);
        }
      }
    }

    method GrabScanData(grabLatest: bool) returns (success: bool, nodes: Samples)
      requires Valid()
      modifies scanDataList
      ensures Valid()
      ensures var l := scanDataList;
        var r := Grab(old(l.Values()), old(l.currentSeqNr), old(l.seqFailureCount), grabLatest);
        && l.Values() == r.kept && l.currentSeqNr == r.currentSeqNr && l.seqFailureCount == r.failures
        && success == r.got.Some? && (success ==> nodes == r.got.value.nodes)
    {
      success, nodes := scanDataList.GrabScanData(grabLatest);
    }

    /** Of the environment scans only the latest counts. */
    method GrabEnvData() returns (success: bool, nodes: Samples)
      requires Valid()
      modifies envDataList
      ensures Valid()
      ensures var l := envDataList; var r := Grab(old(l.Values()), old(l.currentSeqNr), old(l.seqFailureCount), true);
        && l.Values() == r.kept && l.currentSeqNr == r.currentSeqNr && l.seqFailureCount == r.failures
        && success == r.got.Some? && (success ==> nodes == r.got.value.nodes)
    {
      success, nodes := envDataList.GrabScanData(true);
    }
  }
}
