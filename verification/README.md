# Verification of the lidar tool

This project models seven parts of a tool that tracks people with several lidar sensors, and proves what each of
them is for. It is written in Dafny; `dafny verify dfyconfig.toml` verifies all of it.

- **Affine matrices** (`Affine`): the geometry library's 4x3 matrices, over the reals, form a group that acts on
  points.
- **Sensors** (`Device`): whatever matrices are set on a device, every cached coordinate is the image of what it
  measured.
- **Registration** (`Walks`, `Registration`): measured pairwise matrices are closed under composition by ten passes
  of a Floyd-Warshall that runs in i, j, k order. Ten passes are exact for up to 1025 sensors.
- **Virtual sensors** (`ScanList`, `ScanNetwork`, `VirtualDriver`): scans are cut into packets, sent over a network
  that loses, repeats and reorders them, and reassembled in a bounded, sorted list.
- **Object grouping** (`Candidates`, `UnionForest`, `ObjectGroups`, `ObjectLosses`, `ObjectSplit`, `ObjectSizes`,
  `SingleStage`): close objects are united in a forest, and groups that are too large are split again.
- **Tracking** (`Matching`, `StageMerge`, `Tracker`, `TrackerHosts`, `TrackerLending`, `TrackerIds`, `TrackerLife`,
  `TrackerRuns`, `TrackerStarts`, `TrackerFrames`, `TrackerStage`): layers are merged, objects matched from frame to
  frame, put on probation, activated, dropped, and their ids lent to neighbours.
- **Regions** (`Regions`, `Observer`, `RegionRuns`, `RegionCounters`, `ObserverRuns`, `SessionTotals`,
  `RegionObjects`, `TrackableObserver`, `ObserverList`): what enters, moves in and leaves a region, the counters
  kept about it, and how a stage starts, feeds, empties and stops its observers.
- **Packed logs** (`PackedLog`, `PackedSync`, `PackedFile`): the byte format of recorded sessions, reading it back,
  and finding the next record from the middle of a file.

The code updates its state in place, and so do the classes here: their methods have the loops of the source and are
proved against functions on values, and the theorems about whole runs are lemmas about those functions.
`Common` holds what the modules share.

## What the proofs found

The properties below do not hold of the code as it stands; each has its exact condition.

- A scan of more than 32768 samples never comes out as it was sent: packet ids have 8 bits, the sample count 16
  (`ScanNetwork.CompleteIsSent`).
- When an object that has already collected others is linked under another one, only the object itself moves, and
  what it had collected is lost (`ObjectLosses.MergingConservesIff`, `ObjectGroups.AnObjectIsLost`).
- The pass that hands a young object's match to an older one reads the map at the wrong index; the two maps stay
  inverse only when the indexes happen to coincide (`Matching.PassKeepsInverse`). What is proved about tracking does
  not depend on it: which objects were matched enters the frame as an input.
- A split whose spread ratio is exactly 1, and that is no hull, returns the probability that means "done", and its
  group disappears (`ObjectSplit.SplitPartitions`).
- Starting a stage resets the id counter even if frames were tracked before the first start, and then ids in use are
  given out again (`TrackerStarts.StartIsSafeIff`, `TrackerStarts.StartingLateDuplicates`).
- Reclaiming a latent id also takes the ids of other hosts that are looked at before the one that is used, and these
  are lost (`TrackerHosts.ReclaimingLosesNothingIff`, `TrackerHosts.ReclaimingLosesAnId`).
- Uniting trackables in a single stage mixes them with the whole-number quotient of two weights. Nothing is averaged,
  and a survivor can be moved away from all trackables it stands for (`SingleStage.NothingIsMovedAwayIff`,
  `SingleStage.ASurvivorIsMovedAway`).
- Resetting an observer takes objects out of its regions without a Leave; if one is seen there again it enters a
  second time (`RegionRuns.ResetsInterrupt`).
- The uuid of a session ends in a zero word. A frame whose first object has an id with low byte 1 or 2 looks like it
  contains a header, and seeking stops inside it (`PackedSync.SessionFrameIsCleanIff`,
  `PackedSync.FirstIdMisleads`).
- A frame of 65536 objects or more is written with a truncated count (`PackedLog.FrameRoundTripsIff`).

## Model

| member | source | states |
|---|---|---|
| `Affine.MulIsGeneral` | lidartool/Trackable/Vector.cpp:1279-1294 | the product is the general affine product whether or not the zero-translation shortcut is taken |
| `Affine.MulActs` | lidartool/Trackable/Vector.cpp:1159-1168 | applying a product to a point is applying its factors one after the other |
| `Affine.MulAssociative` | lidartool/Trackable/Vector.cpp:1247-1297 | the product is associative |
| `Affine.IdentityIsNeutral` | lidartool/Trackable/Vector.cpp:1247-1297 | the identity matrix is neutral on both sides |
| `Affine.InverseIsTwoSided` | lidartool/Trackable/Vector.cpp:1305-1339 | `inverse` is a two-sided inverse whenever the determinant is not zero |
| `Affine.DetMultiplies` | lidartool/Trackable/Vector.cpp:1310-1312 | the determinant of a product is, up to the sign convention of the code, the product of the determinants |
| `Affine.InvertiblesFormAGroup` | lidartool/Trackable/Vector.cpp:1247-1339 | invertible matrices are closed under product and inverse, and a product is inverted factor by factor in reverse order |
| `Affine.InverseIsUnique` | lidartool/Trackable/Vector.cpp:1305-1339 | any right inverse is the computed one |
| `Device.MoveSamples` | lidartool/cpp/lidarKit.cpp:1692-1702 | a sample buffer multiplied in place holds the image of every sample, the identity shortcut included |
| `Device.MovedTwice` | lidartool/cpp/lidarKit.cpp:4088-4089 | moving placed samples by a matrix places them by the product |
| `Device.MidpointMoves` | lidartool/cpp/lidarKit.cpp:4057-4079 | recomputing the centre of a moved object gives the moved centre |
| `Device.MidpointIsHalfway` | lidartool/cpp/lidarKit.cpp:4057-4079 | the centre of an object is as far from one corner as from the other |
| `Device.LidarDevice.StoreSample` | lidartool/cpp/lidarKit.cpp:4470 | a measured coordinate enters a buffer as its image under the composed matrix, keeping the device valid |
| `Device.LidarDevice.MultiplyBy` | lidartool/cpp/lidarKit.cpp:4057-4079 | all buffers, objects, the matrix and its inverse move together; the early return changes nothing |
| `Device.LidarDevice.SetMatrix` | lidartool/cpp/lidarKit.cpp:4082-4093 | afterwards the matrix is the given one, its inverse is cached, and every cached coordinate is matrix times the local coordinate |
| `Device.LidarDevice.SetDeviceMatrix` | lidartool/cpp/lidarKit.cpp:4096-4104 | keeps matrix = view * device, the cached inverse and all cached coordinates, the early return included |
| `Device.LidarDevice.SetViewMatrix` | lidartool/cpp/lidarKit.cpp:4107-4115 | the same for the view matrix, so the relation holds after any sequence of both calls |
| `Device.LidarDevice.WriteEnv` | lidartool/cpp/lidarKit.cpp:4710-4712 | what is written are the local coordinates of the environment, and the buffer, valid or not, ends as it was |
| `Walks.JoinedWalks` | lidartool/cpp/lidarKit.cpp:6210-6230 | costs and matrices add up and compose when walks are joined |
| `Walks.BackwardsWalk` | lidartool/cpp/lidarKit.cpp:6228-6230 | a walk taken backwards costs the same and composes to the inverse |
| `Walks.ShortWalk` | lidartool/cpp/lidarKit.cpp:6190-6236 | two sensors joined by a walk are joined by one without repetition that costs no more |
| `Walks.Doubling` | lidartool/cpp/lidarKit.cpp:6194-6235 | a pass over a table that covers walks of h hops yields one that covers 2h hops |
| `Walks.CheapestWalks` | lidartool/cpp/lidarKit.cpp:6190-6236 | a sound table that covers all loop-free walks holds exactly the least costs |
| `Walks.DerivedAgree` | lidartool/cpp/lidarKit.cpp:6225-6230 | when all measurements agree with some true poses, so does every derived matrix |
| `Registration.StepKeeps` | lidartool/cpp/lidarKit.cpp:6204-6231 | one update keeps validity and error symmetric, matrices mutually inverse, soundness, and never raises an error |
| `Registration.UpperTriangleSuffices` | lidartool/cpp/lidarKit.cpp:6194-6198 | visiting only pairs i < j relaxes all pairs, although the loops run in i, j, k order |
| `Registration.LidarDevices.InitBasisChanges` | lidartool/cpp/lidarKit.cpp:6144-6161 | a fresh table: every sensor knows itself, nothing else |
| `Registration.LidarDevices.LinkMeasurements` | lidartool/cpp/lidarKit.cpp:6318-6356 | the table of measurements of one run, each entered in both directions |
| `Registration.LinkedPairs` | lidartool/cpp/lidarKit.cpp:6326-6349 | two sensors are linked, in both directions, iff both are ready and their markers match closely enough; the error is the square of the marker distance |
| `Registration.MarkersAgree` | lidartool/cpp/lidarKit.cpp:6333-6347 | when the markers are seen as sensors with some poses see them, the table of measurements agrees with the poses |
| `Registration.LidarDevices.RelaxPair` | lidartool/cpp/lidarKit.cpp:6200-6233 | all detours of one pair in order, against the specification of one step |
| `Registration.LidarDevices.Relax` | lidartool/cpp/lidarKit.cpp:6194-6235 | one pass: what was covered by h hops is covered by 2h |
| `Registration.OnlyBetterReplaces` | lidartool/cpp/lidarKit.cpp:6205-6219 | a detour replaces an entry iff there was none or it costs strictly less |
| `Registration.LidarDevices.BasisChangesComplete` | lidartool/cpp/lidarKit.cpp:6163-6183 | true iff every pair is valid |
| `Registration.LidarDevices.CalculateBasisChanges` | lidartool/cpp/lidarKit.cpp:6185-6273 | after ten passes entries are walks over the measurements, every walk of at most 1024 hops is matched or beaten, and the result says whether all pairs are valid, that is, for up to 1025 sensors, whether all are connected |
| `Registration.LidarDevices.PlaceDevices` | lidartool/cpp/lidarKit.cpp:6368-6380 | each sensor is placed by its first valid basis change |
| `Registration.LidarDevices.CalculateRegistration` | lidartool/cpp/lidarKit.cpp:6299-6381 | a whole calibration: link, relax, place; without sensors nothing changes; and whenever the markers of all linked pairs are seen as sensors with some poses see them, every sensor ends at its true pose, seen from the sensor in whose frame it was placed |
| `Registration.RegistrationIsExact` | lidartool/cpp/lidarKit.cpp:6190-6238 | for up to 1025 sensors an entry is valid iff its sensors are connected, and its error is the least cost of a walk between them |
| `Registration.AllValidIffConnected` | lidartool/cpp/lidarKit.cpp:6163-6183 | for up to 1025 sensors the calculation reports that it is complete iff all sensors are connected |
| `Registration.FramesAreComponents` | lidartool/cpp/lidarKit.cpp:6369-6380 | a sensor is placed in the frame of the lowest sensor of its component, so two share a frame iff they are connected |
| `Registration.PlacementIsTrue` | lidartool/cpp/lidarKit.cpp:6369-6380 | with measurements that agree with true poses every sensor ends at its true pose relative to the sensor whose frame it is in |
| `ScanList.PacketFits` | lidartool/cpp/lidarVirtDriver.cpp:216-229 | no packet's share reaches past the end of the scan |
| `ScanList.Packets` | lidartool/cpp/lidarVirtDriver.cpp:451-474 | a sender cuts a scan into as many packets as it needs, each with its header and its share |
| `ScanList.LidarScanData.Complete` | lidartool/cpp/lidarVirtDriver.cpp:178-189 | true iff there are packets and all are marked |
| `ScanList.LidarScanData.AddData` | lidartool/cpp/lidarVirtDriver.cpp:191-233 | a packet marks its index and overwrites its share; an index past the last is ignored |
| `ScanList.WithEntryIsSorted` | lidartool/cpp/lidarVirtDriver.cpp:241-264 | the list stays strictly sorted with at most 17 entries |
| `ScanList.WithEntryMembers` | lidartool/cpp/lidarVirtDriver.cpp:244-263 | only the oldest entry is ever given up, and only for a new empty one |
| `ScanList.LidarScanDataList.GetScanData` | lidartool/cpp/lidarVirtDriver.cpp:241-264 | the entry of a scan, found or created in its place, against the list specification |
| `ScanList.LidarScanDataList.Receive` | lidartool/cpp/lidarVirtDriver.cpp:545-560 | a packet reaches the entry of its scan, against the list specification |
| `ScanList.LidarScanDataList.GrabScanData` | lidartool/cpp/lidarVirtDriver.cpp:267-303 | the erase-while-iterating loop computes the specified grab: list, current number, failure count and result |
| `ScanNetwork.AddedIsOk` | lidartool/cpp/lidarVirtDriver.cpp:203-229 | an entry that takes a packet of its scan stays in order, whatever arrived before |
| `ScanNetwork.CompleteIffAllArrived` | lidartool/cpp/lidarVirtDriver.cpp:178-233 | an entry is complete iff every packet index of its scan has arrived since the entry was created |
| `ScanNetwork.CompleteIsSent` | lidartool/cpp/lidarVirtDriver.cpp:151-233 | a complete entry is the scan that was sent iff 8-bit packet ids can name all its packets |
| `ScanNetwork.GrabLatestIs` | lidartool/cpp/lidarVirtDriver.cpp:267-303 | a latest-grab leaves no complete entry and delivers iff a complete scan is current or the stale ones reach the fifteenth |
| `ScanNetwork.GrabLatestIsNewest` | lidartool/cpp/lidarVirtDriver.cpp:267-303 | what it delivers is the complete scan with the largest number |
| `ScanNetwork.GrabCounts` | lidartool/cpp/lidarVirtDriver.cpp:280-288 | an out-of-order delivery is the fifteenth stale scan; a grab without delivery has discarded fewer than fifteen complete scans |
| `ScanNetwork.StepKeepsInv` | lidartool/cpp/lidarVirtDriver.cpp:241-303 | every step of sender, network and receiver keeps the protocol invariant |
| `ScanNetwork.DeliveryIsSafe` | lidartool/cpp/lidarVirtDriver.cpp:219-229 | a packet on the wire never writes outside the entry it belongs to |
| `ScanNetwork.RunsKeepInv` | lidartool/cpp/lidarVirtDriver.cpp:241-303 | the invariant holds over every run with loss, duplication, reordering, evictions and reconnects |
| `ScanNetwork.EntriesTrackArrivals` | lidartool/cpp/lidarVirtDriver.cpp:178-264 | in every reachable state both lists are sorted and bounded and each entry is complete iff all its packets arrived since it was created |
| `ScanNetwork.GrabReturnsWhatWasSent` | lidartool/cpp/lidarVirtDriver.cpp:267-303 | a grabbed scan is the sequence of samples sent under its number, exactly when the scan has at most 32768 samples |
| `ScanNetwork.DeliveriesAdvance` | lidartool/cpp/lidarVirtDriver.cpp:280-289 | delivered numbers never decrease except after a connect or as the fifteenth stale scan |
| `VirtualDriver.LidarVirtualDriver.SendScanData` | lidartool/cpp/lidarVirtDriver.cpp:451-474 | numbers a scan and sends its packets; without a peer nothing happens |
| `ScanNetwork.ConnectForgetsStale` | lidartool/cpp/lidarVirtDriver.cpp:519-527 | after a connect no complete scan is held back as stale: a grab delivers iff some scan is complete, the newest one or, if all are wanted in turn, the oldest |
| `VirtualDriver.LidarVirtualDriver.ReceivePacket` | lidartool/cpp/lidarVirtDriver.cpp:534-565 | a packet goes to the list of its kind unless it is implausible |
| `VirtualDriver.LidarVirtualDriver.GrabScanData` | lidartool/cpp/lidarVirtDriver.cpp:607 | grabs from the scan list and touches nothing of the list for environment scans |
| `VirtualDriver.LidarVirtualDriver.GrabEnvData` | lidartool/cpp/lidarVirtDriver.cpp:596-600 | grabs the latest environment scan alone |
| `Candidates.CollectCrossPairs` | lidartool/Trackable/Trackable.h:900-909 | exactly the pairs of one thing of each kind within the distance |
| `Candidates.CollectInnerPairs` | lidartool/Trackable/Trackable.h:977-984 | exactly the unordered pairs within the distance |
| `Candidates.SortByDistance` | lidartool/Trackable/Trackable.h:911-912 | the same candidates in order of distance |
| `UnionForest.RootOf` | lidartool/Trackable/Trackable.h:1005-1006 | the walk to the root ends, at a root |
| `UnionForest.LinkCandidate` | lidartool/Trackable/Trackable.h:993-1020 | one candidate: the forest stays acyclic, its trees chained, and the pair settled |
| `UnionForest.TakingKeepsForest` | lidartool/Trackable/Trackable.h:998-1018 | linking keeps the forest acyclic |
| `UnionForest.TreesAreChained` | lidartool/Trackable/Trackable.h:992-1021 | two nodes of one tree are joined by a chain of candidate pairs |
| `UnionForest.RootsAreSeparated` | lidartool/Trackable/Trackable.h:992-1021 | no two final roots form a candidate pair |
| `UnionForest.TakingJoins` | lidartool/Trackable/Trackable.h:998-1018 | after each candidate, the members of all so far are in one tree or both linked |
| `UnionForest.CloseAreJoined` | lidartool/Trackable/Trackable.h:992-1021 | so two that are close end in one tree, or both are linked to others |
| `SingleStage.UniteInSingleStage` | lidartool/Trackable/Trackable.h:958-1028 | survivors are the roots in their old order, pairwise farther apart than the limit; close ones are in one tree or both linked; weights count what was linked directly, and every trackable is where mixing the candidates in order puts it |
| `SingleStage.LinkAll` | lidartool/Trackable/Trackable.h:992-1021 | the loop over the candidates computes the forest, places and weights specified |
| `SingleStage.JointIs` | lidartool/Trackable/Trackable.h:1015-1016 | nothing is averaged: a survivor takes the place of a linked one that weighs no more, keeps its own, or moves away from the linked one at least as far as that is off |
| `SingleStage.NothingIsMovedAwayIff` | lidartool/Trackable/Trackable.h:992-1021 | wherever the trackables of a frame are, all stay at places where one of their tree was iff no candidate links one that weighs twice as much as the one that stays, counted up |
| `SingleStage.ASurvivorIsMovedAway` | lidartool/Trackable/Trackable.h:1015-1016 | five trackables of which the survivor ends where none of them was |
| `SingleStage.FarFromAllFive` | lidartool/Trackable/Trackable.h:1015-1016 | and farther from all five than the distance within which they were united |
| `SingleStage.EraseLinked` | lidartool/Trackable/Trackable.h:1023-1025 | erasing from the back leaves exactly the roots in order |
| `ObjectGroups.GroupObjects` | lidartool/cpp/lidarTrack.cpp:455-567 | the forest of the objects and the group of each, against the forest specification |
| `ObjectGroups.EmittedCounts` | lidartool/cpp/lidarTrack.cpp:577-581 | an object is emitted at most once, and iff it is a root or its parent is one |
| `ObjectGroups.GroupsAreDisjoint` | lidartool/cpp/lidarTrack.cpp:540-581 | emitted groups are disjoint; a root's group is the root and everything whose mixedIndex is that root |
| `ObjectGroups.EmittingConserves` | lidartool/cpp/lidarTrack.cpp:560-564 | all objects are emitted once iff no linked object has collected others |
| `ObjectGroups.AnObjectIsLost` | lidartool/cpp/lidarTrack.cpp:540-564 | four objects of which three pairs are close: grouping these candidates in order of distance emits one object no more |
| `ObjectGroups.CreateTrackables` | lidartool/cpp/lidarTrack.cpp:577-581 | the groups of the roots from the last object down, each split as specified, wherever the splits that are met are defined |
| `ObjectGroups.MergeObjects` | lidartool/cpp/lidarTrack.cpp:455-581 | grouping and splitting together: groups are close, roots apart, close objects in one tree or both linked, the trackables are those specified, and each was reached by cutting groups that had to be cut and has not to be cut itself |
| `ObjectGroups.FramesAreDefined` | lidartool/cpp/lidarTrack.cpp:414-452 | without a size limit, or with distinct centres, all splits that a frame can lead to are defined |
| `ObjectGroups.MergingConserves` | lidartool/cpp/lidarTrack.cpp:455-581 | every object gets exactly one trackable iff no linked object had collected others and no oversized group vanishes |
| `ObjectLosses.LinkedAreAloneIff` | lidartool/cpp/lidarTrack.cpp:540-567 | no linked object has collected others iff, in the order of the candidates, none links an object that was the partner of an earlier link |
| `ObjectLosses.MergingConservesIff` | lidartool/cpp/lidarTrack.cpp:455-581 | so objects are conserved iff no candidate does so and no oversized group vanishes |
| `ObjectSplit.ScanIsFarthest` | lidartool/cpp/lidarTrack.cpp:351-362 | the scan over pairs ends with one whose distance no other exceeds |
| `ObjectSplit.FarthestIsProper` | lidartool/cpp/lidarTrack.cpp:351-362 | the pair is set iff two centres of the group differ; it is then a farthest one and its members differ |
| `ObjectSplit.FindFarthest` | lidartool/cpp/lidarTrack.cpp:351-362 | the nested loops compute that pair |
| `ObjectSplit.CollectSides` | lidartool/cpp/lidarTrack.cpp:364-375 | the objects nearer to one end and the others, from the last to the first |
| `ObjectSplit.HalvesAreProper` | lidartool/cpp/lidarTrack.cpp:351-375 | whenever the pair is set both halves are not empty, strictly smaller, and together the group |
| `ObjectSizes.ApartIsDistance` | lidartool/cpp/lidarTrack.cpp:354 | the distance is that of space: along the axes it adds up as squares |
| `ObjectSizes.FirstFarthest` | lidartool/cpp/lidarTrack.cpp:351-362 | among several farthest pairs the one the loops come to first |
| `ObjectSizes.HalvesAreNearest` | lidartool/cpp/lidarTrack.cpp:364-375 | every object goes with the one of two farthest objects it is nearer to |
| `ObjectSizes.CutsAsItHasTo` | lidartool/cpp/lidarTrack.cpp:435-445 | a group that fits is left whole; one with several objects, too large and falling apart is replaced by what its halves leave |
| `ObjectSizes.NothingLeftHasToBeCut` | lidartool/cpp/lidarTrack.cpp:348-445 | every group left was reached by cutting groups that had to be cut, and sizes are not limited, or it is one object, or no larger than allowed, or does not fall apart |
| `ObjectSizes.SizesAtOneTime` | lidartool/cpp/lidarTrack.cpp:435-445 | with all objects seen at one time a trackable is one object, or no larger than the limit, or does not fall apart |
| `ObjectSizes.ReportedProbability` | lidartool/cpp/lidarTrack.cpp:393-404 | what is reported for a large group that is not cut is the reciprocal of its spread ratio, at most one |
| `ObjectSplit.SplitIsDefined` | lidartool/cpp/lidarTrack.cpp:435-445 | every split that can be met is defined without a size limit, or with distinct centres |
| `ObjectSplit.SplitPartitions` | lidartool/cpp/lidarTrack.cpp:348-452 | the recursive split ends, never duplicates an object, and partitions the group iff no part vanishes on the way |
| `ObjectSplit.Merged.AddObjects` | lidartool/cpp/lidarTrack.cpp:406-452 | appends the groups of the specification to the shared list |
| `ObjectSplit.Merged.SplitObjects` | lidartool/cpp/lidarTrack.cpp:348-404 | the same for the cut, with the probability it returns |
| `Matching.AssignClosest` | lidartool/Trackable/Trackable.h:1273-1291 | the greedy matching of a frame: one to one, below the distance, without blocking pair |
| `Matching.ProgressStep` | lidartool/Trackable/Trackable.h:1282-1291 | each step keeps the maps inverse and no candidate seen so far blocks |
| `Matching.GreedyIsMaximal` | lidartool/Trackable/Trackable.h:1282-1291 | a pair below the limit always has a matched end |
| `Matching.MatchedWithinLimit` | lidartool/Trackable/Trackable.h:1282-1291 | matched pairs are within the limit, and no two left over are |
| `Matching.GreedyDeterminesTheMatching` | lidartool/Trackable/Trackable.h:1282-1291 | with distinct distances the matching is the only one without blocking pair |
| `Matching.ClaimKeepsInverse` | lidartool/Trackable/Trackable.h:1308-1314 | one take-over by an older object keeps the maps inverse iff the previous owner's index equals the merged index |
| `Matching.PassKeepsInverse` | lidartool/Trackable/Trackable.h:1293-1319 | the whole pass keeps the maps inverse, and writes within them, iff that is so for every take-over: no later one repairs what one has broken |
| `Matching.PassesToTheOlder` | lidartool/Trackable/Trackable.h:1298-1309 | a merged object passes from a tracked one that is not public to a public one that is known longer and had none, and in no other case |
| `Matching.TakeOver` | lidartool/Trackable/Trackable.h:1293-1319 | the loop of the pass computes the specified maps, or stops where it would write outside |
| `Matching.ClaimExamples` | lidartool/Trackable/Trackable.h:1311-1314 | an input on which it does and one on which it writes outside |
| `StageMerge.Layer.AbsorbMatched` | lidartool/Trackable/Trackable.h:914-929 | mixing the sorted candidates realises a greedy matching and the layer specified for it |
| `StageMerge.Layer.MergeStage` | lidartool/Trackable/Trackable.h:890-944 | one stage merged in: matched pairs, all within the distance, are mixed, the rest appended, of which none was within the distance of one left over in the layer |
| `StageMerge.PartnersAreNear` | lidartool/Trackable/Trackable.h:899-917 | what is mixed is within the distance of each other, what finds no partner is not, by the distances of the trackables themselves |
| `StageMerge.Layer.MergeSubStages` | lidartool/Trackable/Trackable.h:952-956 | from an empty layer: every sub-stage trackable contributes once, the weights add up to their number, and every trackable is at the average of its contributions described above |
| `StageMerge.AbsorbedWeight` | lidartool/Trackable/Trackable.h:924 | the weight grows by one for each matched pair |
| `StageMerge.StageKeepsLayer` | lidartool/Trackable/Trackable.h:890-944 | merging a stage conserves weight and contributions and keeps every hull |
| `StageMerge.WeightIsAtMostStages` | lidartool/Trackable/Trackable.h:919-927 | no trackable takes two contributions from one stage, so its weight is at least one and at most the number of stages merged |
| `StageMerge.AbsorbStaysInHull` | lidartool/Trackable/Trackable.h:380-398 | a mixed coordinate stays between the least and the greatest of its contributors |
| `StageMerge.MixedIsAt` | lidartool/Trackable/Trackable.h:390-398 | after the k-th contribution a trackable is a k-th of the way from that to where it was |
| `StageMerge.AbsorbIsWeighted` | lidartool/Trackable/Trackable.h:924-925 | so each coordinate is the average of the contributions in which the k-th weighs (k - 1) * (k - 1)!, the first one 1 |
| `StageMerge.SharesAddUp` | lidartool/Trackable/Trackable.h:924-925 | these weights add up to n! |
| `StageMerge.ThreeContributions` | lidartool/Trackable/Trackable.h:924-925 | with three: a sixth of the first, a sixth of the second, two thirds of the third |
| `TrackerLending.PutAdds` | lidartool/Trackable/Trackable.h:64-72 | a new latent id is entered with its time, one that is there stays as it was |
| `TrackerLending.RemoveTakes` | lidartool/Trackable/Trackable.h:74-76 | exactly the entries of an id are removed |
| `TrackerLending.PutKeepsOrder` | lidartool/Trackable/Trackable.h:60-72 | latent ids stay in the dictionary order of their decimal representations |
| `TrackerLending.GetIsOldest` | lidartool/Trackable/Trackable.h:84-102 | the id asked for has been latent longest, the first in order among several |
| `TrackerLending.UntimedHides` | lidartool/Trackable/Trackable.h:89-97 | an id with the time zero hides itself and all those before it |
| `TrackerLending.ForgottenIff` | lidartool/Trackable/Trackable.h:111-124 | an id is forgotten iff it has been latent for longer than the life time |
| `TrackerLending.AgeStandsStill` | lidartool/Trackable/Trackable.h:420-424 | while the host may be two, an id does not grow older |
| `TrackerLending.HostsAfterAFrame` | lidartool/Trackable/Trackable.h:415-428 | both over a whole frame, with the probability it brings |
| `TrackerLending.LendingIs` | lidartool/Trackable/Trackable.h:1097-1127 | an id is lent iff a neighbour is within the limit; the chosen one then holds it since the time of the frame, and nothing else changes but that an object without an id gets one |
| `TrackerLending.DroppedIdSurvives` | lidartool/Trackable/Trackable.h:1097-1127 | while ids are distinct, the id of a public object that is dropped stays in use, held by the chosen neighbour, iff a neighbour is within the limit; else it is lost |
| `TrackerLending.ActivatedIdIs` | lidartool/Trackable/Trackable.h:1478-1507 | an object that comes of age takes over the oldest id of the last host chosen, without a new one being issued; outside portals it gets a new one iff no host within the limit offers any |
| `TrackerLending.IdIsHandedOver` | lidartool/Trackable/Trackable.h:1383-1530 | in one frame the id of a dropped object passes by way of its neighbour to the new object beside that |
| `TrackerHosts.HostIsChosen` | lidartool/Trackable/Trackable.h:1112-1120 | an id is lent iff an active neighbour is nearer than the limit and what the speeds of both add to it; the host is the last that was nearer than the limit in force when it was looked at |
| `TrackerHosts.HostIsNearest` | lidartool/Trackable/Trackable.h:1108-1120 | in particular, while nothing moves, the host is a nearest neighbour |
| `TrackerHosts.ReclaimingTakesFrom` | lidartool/Trackable/Trackable.h:1142-1159 | every host that was nearer than the limit in force when it was looked at loses its oldest id; the id of the last of them is used, and there is one iff an offering host is within the limit |
| `TrackerHosts.LonelyIffOnlyOne` | lidartool/Trackable/Trackable.h:1032-1048 | at most one host is chosen iff none in front of the first within the limit is within the distance of that one, its speed allowed for |
| `TrackerHosts.ReclaimingLosesNothingIff` | lidartool/Trackable/Trackable.h:1142-1159 | while ids are distinct, reclaiming loses no id but the one it returns iff no other offering host is within the distance of the first within the limit |
| `TrackerHosts.ReclaimingAtRest` | lidartool/Trackable/Trackable.h:1142-1159 | in particular, while nothing moves, the id of a nearest host is used, and exactly the hosts nearer than the limit and all offering hosts behind them lose one |
| `TrackerHosts.ReclaimingLosesAnId` | lidartool/Trackable/Trackable.h:1142-1159 | two hosts, the nearer one in front: both ids are taken, one is used |
| `TrackerFrames.MergedAreTakenUpOnce` | lidartool/Trackable/Trackable.h:1321-1424 | for inverse maps a tracked object is up to date after a frame iff it was matched, and every merged object brings one tracked object up to date or is new |
| `TrackerFrames.NewObjects` | lidartool/Trackable/Trackable.h:1402-1424 | merged objects without a partner start without an id, not public, seen since the frame, with the probability they bring |
| `TrackerFrames.NothingNewIsNearThePassedOver` | lidartool/Trackable/Trackable.h:1273-1424 | after the greedy matching no tracked object that was passed over is within the distance of a merged one that becomes a new object |
| `TrackerIds.LendingKeepsWorld` | lidartool/Trackable/Trackable.h:1381-1400 | lending and dropping keeps ids distinct |
| `TrackerIds.ReclaimingCounts` | lidartool/Trackable/Trackable.h:1144-1159 | taking ids back makes none more frequent, and the one returned is free |
| `TrackerIds.ActivatingKeepsWorld` | lidartool/Trackable/Trackable.h:1478-1507 | a newly active object carries a free id, reclaimed or new |
| `TrackerIds.SweepKeepsWorld` | lidartool/Trackable/Trackable.h:1466-1530 | the activation loop keeps ids distinct |
| `TrackerIds.FrameKeepsStage` | lidartool/Trackable/Trackable.h:1199-1580 | a frame keeps the invariant of the stage, whatever was matched |
| `TrackerIds.RunKeepsStage` | lidartool/Trackable/Trackable.h:710-749 | so does every sequence of frames, starts, stops, clears and resets |
| `TrackerIds.IdsAreDistinct` | lidartool/Trackable/Trackable.h:323-349 | over every run of a new stage, frames before the first start included: while no start was unsafe and fewer than 2^31 ids were issued every id, active or latent, is in use once |
| `TrackerIds.SessionIdsAreDistinct` | lidartool/Trackable/Trackable.h:710-749 | so it is over every session that begins with a start, whatever frames, clears, resets, stops and starts follow |
| `TrackerStarts.StartIsSafeIff` | lidartool/Trackable/Trackable.h:710-720 | a start is safe - whatever follows, no id is in use twice while fewer than 2^31 are issued - iff the stage is started already or nothing that is tracked uses an id |
| `TrackerStarts.UnsafeStartDuplicates` | lidartool/Trackable/Trackable.h:710-720 | after any other start two frames give an id that is in use out again, at any times far enough apart and, if ids are not lent, anywhere |
| `TrackerStarts.StartingLateDuplicates` | lidartool/Trackable/Trackable.h:710-720 | a run of a new stage: two frames, a start, two frames, and two objects have the id 1, the only one issued |
| `TrackerIds.ObservedIsComplete` | lidartool/Trackable/Trackable.h:1544-1575 | the map for the observers has one entry for each shown object and each latent id it hosts |
| `TrackerIds.EntriesAreOwn` | lidartool/Trackable/Trackable.h:1560-1571 | each entry is the one of its own object or host: `emplace` never refuses |
| `TrackerIds.ObserversMissNothing` | lidartool/Trackable/Trackable.h:1544-1578 | so in every reachable state observers get every shown object and latent id under its own id and nothing else |
| `TrackerLife.LivesAreIndependent` | lidartool/Trackable/Trackable.h:1381-1530 | after a frame the tracked objects are the old ones that live on, each by its own fate, then the new ones |
| `TrackerLife.PublishedIsActive` | lidartool/Trackable/Trackable.h:1466-1530 | `latest` holds exactly the active objects that are not masked, in order |
| `TrackerLife.ActiveIffCameOfAge` | lidartool/Trackable/Trackable.h:1474-1507 | an object on probation became active iff in some frame it was matched and older than minActiveTime, having been fresh in every frame up to then |
| `TrackerLife.ActiveUntilOverdue` | lidartool/Trackable/Trackable.h:1383-1400 | an active object is lost in a frame iff it is unmatched in it and has been for keepTime |
| `TrackerRuns.RunKeepsTidy` | lidartool/Trackable/Trackable.h:738-749 | over any run nothing is marked between frames, a stopped stage tracks nothing, and tracked objects keep different identities |
| `TrackerRuns.ActiveWasActivated` | lidartool/Trackable/Trackable.h:1466-1530 | over any run, what is active became so in one frame: it was on probation or new before it, matched in it and more than minActiveTime old, and fresh in every frame up to then |
| `TrackerRuns.ProbationIsFresh` | lidartool/Trackable/Trackable.h:1474-1477 | after every frame of any run, those before the first start included, whatever is on probation is at most minActiveTime*minActiveFraction stale |
| `TrackerRuns.ActiveStays` | lidartool/Trackable/Trackable.h:1383-1430 | whatever happens next, at any time of any run, an active object stays active unless the stage is emptied or it is unmatched for keepTime |
| `TrackerRuns.PublishedAre` | lidartool/Trackable/Trackable.h:1510-1530 | what is published are the active objects that are not in an occluded region |
| `TrackerRuns.ShownArePublished` | lidartool/Trackable/Trackable.h:1544-1556 | observers are shown exactly what is published |
| `TrackerRuns.OtherCalls` | lidartool/Trackable/Trackable.h:710-749 | clearing, stopping and resetting leave nothing tracked and keep ids and clock; only a reset forgets what was published |
| `TrackerIds.IdsRepeatIff` | lidartool/Trackable/Trackable.h:323-332 | zero is never given out, and an id comes again iff a multiple of 2^32 - 1 ids were issued since |
| `TrackerStage.TrackableMultiStage.NewId` | lidartool/Trackable/Trackable.h:323-332 | an id is never zero nor the one before, and is the number of ids issued as long as the counter did not go round |
| `TrackerStage.TrackableMultiStage.LendId` | lidartool/Trackable/Trackable.h:1097-1127 | the loop over neighbours lends as specified |
| `TrackerStage.TrackableMultiStage.ReclaimId` | lidartool/Trackable/Trackable.h:1130-1162 | the loop over hosts reclaims as specified |
| `TrackerStage.TrackableMultiStage.MarkOverdue` | lidartool/Trackable/Trackable.h:1383-1400 | the loop from the back marks and lends as specified |
| `TrackerStage.TrackableMultiStage.AddUnseen` | lidartool/Trackable/Trackable.h:1402-1424 | unmatched merged objects join with fresh identities |
| `TrackerStage.TrackableMultiStage.EraseMarked` | lidartool/Trackable/Trackable.h:1426-1430 | erasing from the back leaves exactly the unmarked objects in order |
| `TrackerStage.TrackableMultiStage.Transfer` | lidartool/Trackable/Trackable.h:1466-1530 | the erase-while-iterating activation loop computes the specified sweep |
| `TrackerStage.TrackableMultiStage.Cleanup` | lidartool/Trackable/Trackable.h:415-428 | latent ids age and expire as specified |
| `TrackerStage.TrackableMultiStage.Unite` | lidartool/Trackable/Trackable.h:1199-1580 | a whole frame against its specification |
| `Regions.ContainsPoint` | lidartool/Trackable/TrackableObserver.h:739-762 | inside one region, or inside the union where the first shape that holds the point decides |
| `Regions.UnionOfPlainRegions` | lidartool/Trackable/TrackableObserver.h:754-758 | without inverted regions the union is the union |
| `Regions.InsideTheEllipse` | lidartool/Trackable/TrackableObserver.h:628-632 | the scaled circle test is the equation of the ellipse |
| `Regions.CountedCrossings` | lidartool/Trackable/TrackableObserver.h:764-791 | a crossing counts iff the region watches the side on which the point lies, by inequalities on its coordinates |
| `Regions.CountedEdges` | lidartool/Trackable/TrackableObserver.h:764-791 | an edge counts iff it is the one the region watches |
| `Regions.SidesDivideThePlane` | lidartool/Trackable/TrackableObserver.h:646-664 | left and right are the sectors in which a point is farther aside than up or down, the diagonals belong to top and bottom; every point is on exactly one side |
| `Regions.ReportedCrossings` | lidartool/Trackable/TrackableObserver.h:764-777 | the side that is reported is that on which the point lies, unless the region watches another one or several regions are united |
| `Regions.RegionsAreAsked` | lidartool/Trackable/TrackableObserver.h:690-703 | regions that stand for themselves are asked one by one; united ones, or none, are one region |
| `Regions.InsideTheRectangle` | lidartool/Trackable/TrackableObserver.h:619-625 | a rectangle holds what is at most half its width and height away from its middle |
| `Regions.FlatEllipses` | lidartool/Trackable/TrackableObserver.h:628-632 | ellipses without height or with a negative width hold nothing, without width the line through their middle |
| `Regions.EachRegionItself` | lidartool/Trackable/TrackableObserver.h:739-752 | a region that stands for itself holds its shape, an inverted one everything else; united ones hold what their union holds |
| `Regions.FirstRegionDecides` | lidartool/Trackable/TrackableObserver.h:754-758 | of united regions the first whose shape holds the point decides |
| `Observer.HoldsWhatIsInside` | lidartool/Trackable/TrackableObserver.h:1706-1800 | after a frame a region holds exactly the visible objects inside it, and validCount counts them |
| `Observer.ObservingKeepsRegion` | lidartool/Trackable/TrackableObserver.h:1726-1778 | size, gate and sums of a region stay consistent |
| `Observer.EmptyFrameDrains` | lidartool/Trackable/TrackableObserver.h:1750-1800 | a frame without objects makes everything leave |
| `Observer.LatentObjectsAreHidden` | lidartool/Trackable/TrackableObserver.h:1712 | latent objects are seen only by observers that ask for them |
| `Observer.EnterReports` | lidartool/Trackable/TrackableObserver.h:1717-1735 | one that comes in is reported where it is and counted for where it was before |
| `Observer.LeaveReports` | lidartool/Trackable/TrackableObserver.h:1750-1760 | one that leaves is counted for where it is now, or was last reported if it is gone from the frame |
| `Observer.MoveReports` | lidartool/Trackable/TrackableObserver.h:1736-1741 | one that stays crosses nothing, and is reported on the way between its last report and where it is, as far as the smoothing says |
| `Observer.GateIsSurplus` | lidartool/Trackable/TrackableObserver.h:1725-1727 | the gate shows how many more have come in than gone out, and nothing if more have gone |
| `Observer.RegionsRemember` | lidartool/Trackable/TrackableObserver.h:800-822 | a region remembers how many objects were in it before the frame; what a restart and a reset forget |
| `RegionObjects.PassesReport` | lidartool/Trackable/TrackableObserver.h:1706-1776 | marking, following and departing give each object its report |
| `RegionObjects.ObsvObjects.FollowFrame` | lidartool/Trackable/TrackableObserver.h:1709-1746 | the loop over the frame, in any order: entering, moving, enter count and gate |
| `RegionObjects.ObsvObjects.Depart` | lidartool/Trackable/TrackableObserver.h:1748-1776 | the loop over the region, in any order: leaving, leave count, gate and lifespans |
| `RegionObjects.ObsvObjects.Update` | lidartool/Trackable/TrackableObserver.h:1691-1784 | one frame of one region against its specification |
| `RegionObjects.ObsvObjects.EraseLeft` | lidartool/Trackable/TrackableObserver.h:1789-1800 | exactly what left is erased |
| `RegionRuns.ReportsAlternate` | lidartool/Trackable/TrackableObserver.h:1706-1800 | over any run the reports of an object since the last reset form (Enter Move* Leave)*, the last visit possibly unfinished, and it is stored iff that is so |
| `RegionRuns.ResetsInterrupt` | lidartool/Trackable/TrackableObserver.h:2458-2478 | over the whole run, resets included, they form visits iff nothing is reported of the object any more after a reset found it in the region |
| `RegionRuns.EntersAreAccountedFor` | lidartool/Trackable/TrackableObserver.h:1706-1800 | over the whole run Enters are as many as Leaves, resets that found the object in the region, and an unfinished visit together |
| `RegionRuns.EntersEqualLeaves` | lidartool/Trackable/TrackableObserver.h:1721-1755 | such reports have as many Enters as Leaves but for an unfinished visit |
| `RegionRuns.VisitsAreMeasured` | lidartool/Trackable/TrackableObserver.h:1722-1743 | timestamp_enter and timestamp_touched are the times of the Enter and of the last touch of the visit |
| `RegionRuns.LifespanOfAVisit` | lidartool/Trackable/TrackableObserver.h:1770 | the lifespan of a Leave is that difference without underflow |
| `RegionCounters.CountersCountReports` | lidartool/Trackable/TrackableObserver.h:1764-1772 | the counters equal the numbers of reported Enters, Leaves and lifespans since the last restart, and gateCount is the positive difference |
| `RegionCounters.SwitchMeasuresOccupation` | lidartool/Trackable/TrackableObserver.h:1700-1701 | over any run switchDurationSum is the occupied time less the current occupation, an occupation that a restart fell into left out |
| `RegionCounters.SwitchStep` | lidartool/Trackable/TrackableObserver.h:1780-1783 | one frame keeps the switch fields equal to the occupied time so far |
| `TrackableObserver.TrackableObserver.Observe` | lidartool/Trackable/TrackableObserver.h:1667-1805 | rejected frames change nothing; accepted ones update, report and erase all regions as specified |
| `TrackableObserver.TrackableObserver.Start` | lidartool/Trackable/TrackableObserver.h:2371-2416 | starts once, restarting the counters when asked |
| `ObserverRuns.StoppedSeesNothing` | lidartool/Trackable/TrackableObserver.h:2418-2456 | an observer that was stopped and is not always on takes no frame, not even a forced one, until it is started again |
| `TrackableObserver.TrackableObserver.ResetAll` | lidartool/Trackable/TrackableObserver.h:2458-2478 | empties the regions and stays started |
| `TrackableObserver.TrackableObserver.Resume` | lidartool/Trackable/TrackableObserver.h:2358-2369 | restarts the counters of a stalled observer |
| `ObserverRuns.FastFramesAreDropped` | lidartool/Trackable/TrackableObserver.h:1672-1675 | a frame that is not forced is dropped iff it comes sooner than the frame rate allows |
| `ObserverRuns.OtherFramesAreTaken` | lidartool/Trackable/TrackableObserver.h:1667-1675 | frames that are forced, not later than the last one, or without a limit are taken by a started observer, by others none |
| `ObserverRuns.FramesAreShown` | lidartool/Trackable/TrackableObserver.h:1667-1800 | a frame that is taken is shown to all regions and its time kept; one that is not changes nothing |
| `ObserverRuns.StartsAndStops` | lidartool/Trackable/TrackableObserver.h:2371-2456 | what starting and stopping leave of clock and counts; reporting observers take the time of the call as that of their last frame |
| `ObserverRuns.ResetsAndResumes` | lidartool/Trackable/TrackableObserver.h:2358-2478 | a reset empties all regions and leaves an observer started iff it was; only a stalled one resumes |
| `ObserverRuns.RegionsRunAlike` | lidartool/Trackable/TrackableObserver.h:1680-1800 | all regions of an observer run over the same accepted frames |
| `ObserverRuns.VisitsOfAnObserver` | lidartool/Trackable/TrackableObserver.h:1667-1805 | whatever calls an observer gets, reports since the last reset form visits in every region, and all reports do iff none of the object follows a reset that found it there |
| `ObserverRuns.StageDrivesObserver` | lidartool/Trackable/Trackable.h:710-749 | the observers of a stage run over exactly the calls the stage makes |
| `ObserverRuns.StageCalls` | lidartool/Trackable/Trackable.h:712-748 | a stage and its list start and stop together, only the first call of two counts, and only frames move the clock of the stage |
| `ObserverRuns.StoppingDrains` | lidartool/Trackable/Trackable.h:738-749 | stopping a stage empties every started observer, also one that is always on |
| `ObserverRuns.EveryVisitEnds` | lidartool/Trackable/Trackable.h:1585-1597 | whenever an observer is not in use - its stage is stopped or, unless it is always on, not yet started - Enters equal Leaves for every object in every region since the last reset, and over the whole run apart from visits a reset cut off |
| `SessionTotals.ClockIsKept` | lidartool/Trackable/Trackable.h:1544-1597 | frames in order of time reach observers in order of time, the empty ones that drain them included |
| `SessionTotals.TotalsOfASession` | lidartool/Trackable/Trackable.h:738-749 | whenever an observer is not in use, counters and lifespans count all that was reported and switchDurationSum is the whole occupied time |
| `ObserverList.TrackableMultiObserver.Observe` | lidartool/Trackable/TrackableObserver.h:2517-2524 | frames go to observers that are started or always on, and only to those |
| `ObserverList.TrackableMultiObserver.Start` | lidartool/Trackable/TrackableObserver.h:2548-2557 | starts all observers once |
| `ObserverList.TrackableMultiObserver.Stop` | lidartool/Trackable/TrackableObserver.h:2566-2575 | stops all observers once |
| `ObserverList.ObservedStage.Clear` | lidartool/Trackable/Trackable.h:1585-1597 | hands an empty frame to all observers by force |
| `ObserverList.ObservedStage.Stop` | lidartool/Trackable/Trackable.h:738-749 | empties, then stops, all observers, each as specified |
| `PackedLog.HeaderRoundTrip` | lidartool/Trackable/PackedTrackable.h:48-74 | the 16 bytes of a header give the header back |
| `PackedLog.BinaryRoundTrip` | lidartool/Trackable/PackedTrackable.h:89-96 | the 12 bytes of an object give the object back, negative coordinates included |
| `PackedLog.FourBytes` | lidartool/Trackable/PackedTrackable.h:48-74 | numbers are written with the lowest byte first |
| `PackedLog.HeaderLayout` | lidartool/Trackable/PackedTrackable.h:48-60 | where the fields of a header are in its sixteen bytes |
| `PackedLog.BinaryLayout` | lidartool/Trackable/PackedTrackable.h:88-96 | where the fields of an object are in its twelve bytes, coordinates in two's complement |
| `PackedLog.FrameLayout` | lidartool/Trackable/PackedTrackable.h:199-212 | where header, uuid and each object of a frame are |
| `PackedLog.NewHeaderIs` | lidartool/Trackable/PackedTrackable.h:55-60 | a new header has the type it is given, the version, and the timestamp moved on by one only if its low word is zero |
| `PackedLog.StoredCentimetres` | lidartool/Trackable/PackedTrackable.h:113-118 | coordinates are stored in whole centimetres, cut towards zero; less than one is stored as one |
| `PackedLog.RoundTrip` | lidartool/Trackable/PackedTrackable.h:199-249 | any list of headers and frames of fewer than 65536 objects comes back in order |
| `PackedLog.FrameRoundTripsIff` | lidartool/Trackable/PackedTrackable.h:201 | a frame comes back iff it has fewer than 65536 objects; otherwise with as many as the remainder |
| `PackedLog.NewBinary` | lidartool/Trackable/PackedTrackable.h:113-118 | the fields of an object fit their widths and are not zero |
| `PackedLog.DecodedPrecision` | lidartool/Trackable/PackedTrackable.h:113-140 | decoded x, y and size are off by less than 0.02; the id survives iff it fits in 16 bits |
| `PackedSync.HeaderByWords` | lidartool/Trackable/PackedTrackable.h:447-449 | only a zero word before a word with low byte 1 or 2 looks like a header |
| `PackedSync.HeadersOfLog` | lidartool/Trackable/PackedTrackable.h:447-449 | what looks like a header in a log is one, or is one of the listed exceptions |
| `PackedSync.SyncIsExactIff` | lidartool/Trackable/PackedTrackable.h:431-464 | from every 4-aligned position `sync` stops exactly at the next frame or start, iff the log is clean |
| `PackedSync.NewRecordsAreMade` | lidartool/Trackable/PackedTrackable.h:55-60 | the constructors establish the low timestamp word, version and fields the scan relies on |
| `PackedSync.NonzeroWordsAreClean` | lidartool/Trackable/PackedTrackable.h:113-120 | timestamps of at least 2^32, nonzero ids and nonzero uuid words make a record clean |
| `PackedSync.SessionFrameIsCleanIff` | lidartool/Trackable/Trackable.h:718 | frames under a session uuid are clean iff the low byte of the first id is neither 1 nor 2 and no object with id zero has such an x |
| `PackedSync.FirstIdMisleads` | lidartool/Trackable/Trackable.h:718 | a session with one object of id 1: the scan from its second word stops inside the uuid although no record follows |
| `PackedSync.SessionUuidLayout` | lidartool/Trackable/UUID.h:78-86 | the bytes of such a uuid: letters, start time with the lowest byte first, id with the highest first |
| `PackedFile.OFile.PutFrame` | lidartool/Trackable/PackedTrackable.h:199-212 | header with the truncated count, uuid and objects are appended |
| `PackedFile.OFile.PutAll` | lidartool/Trackable/PackedTrackable.h:181-212 | records appended one after another are the encoded list |
| `PackedFile.IFile.Read` | lidartool/Trackable/PackedTrackable.h:406-425 | at most the wanted bytes from the position, which advances by them; of a file the end is noticed exactly when a read comes short |
| `PackedFile.IFile.GetHeader` | lidartool/Trackable/PackedTrackable.h:214-218 | succeeds iff sixteen bytes are left and the first word is zero |
| `PackedFile.IFile.GetFrame` | lidartool/Trackable/PackedTrackable.h:231-249 | the uuid and as many objects as the header says, or failure at the end of the file |
| `PackedFile.IFile.PlayNext` | lidartool/cpp/packedPlayer.cpp:1098-1165 | one turn of a player against the specification of playing: skipped words, records cut off and the end of the file included |
| `PackedFile.IFile.Play` | lidartool/cpp/packedPlayer.cpp:1096-1165 | the loop of a player over a file yields the parsed records without headers that have no flags |
| `PackedFile.PlayedIsParsed` | lidartool/cpp/packedPlayer.cpp:1096-1165 | from a file a player plays what the bytes parse into, a header that ends the file included, except headers without flags |
| `PackedFile.WrittenIsHeard` | lidartool/Trackable/PackedTrackable.h:280-282 | of any log that was written a player plays all records in order, except headers without flags and, only in the buffered mode, one that ends the log |
| `PackedFile.AllIsHeardIff` | lidartool/Trackable/PackedTrackable.h:280-282 | all of it is played iff every header has flags and, in the buffered mode, the log ends with a frame |
| `PackedFile.IFile.Sync` | lidartool/Trackable/PackedTrackable.h:431-464 | the word-by-word loop stops where the specification says and sets the time |
| `PackedFile.IFile.OpenBuffer` | lidartool/Trackable/PackedTrackable.h:305-335 | the log begins at the first timestamp that is not zero among the headers found one after another from the start |
| `PackedFile.IFile.Open` | lidartool/Trackable/PackedTrackable.h:338-375 | the same for a file; it is opened iff there is such a timestamp |
| `PackedFile.BeginOfLog` | lidartool/Trackable/PackedTrackable.h:328-330 | for a log that was written that is its first header with a time, if only headers precede it |
| `PackedFile.WriteAndPlay` | lidartool/Trackable/PackedTrackable.h:199-249 | what a writer appended is what a player plays, all of it iff every header has flags; records made by the constructors are always played back in full |

## Left out

- Floating point: coordinates, errors, distances and times in seconds are reals, so rounding, overflow and NaN are
  not modelled; an object whose height is unknown is treated like any other.
- Machine integers: counters of type `int` are unbounded, and sequence numbers of 64 bits do not wrap. Timestamps of
  64 bits, the 32-bit id counter and all widths of the packet and log formats are modelled.
- Clocks, sockets, locks, threads and files: times are parameters, a datagram is a value, a file is its bytes.
- Sorting: candidates at equal distances may come in any order, as with the library's sort.
- Registration.LidarDevices.LinkMeasurements: the matrices found by matching markers are inputs and must be
  invertible; the marker search itself is not modelled, and all devices are running.
- Device.LidarDevice.MultiplyBy: requires an invertible matrix; the code divides by a zero determinant. The two
  environment buffers and the accumulated one are moved and tracked as the flags of the device say.
- ScanList.LidarScanData.AddData: requires that a packet fits the entry it is added to. `ScanNetwork.DeliveryIsSafe`
  proves it for everything a sender puts on the wire; for other packets the code writes out of bounds.
- ScanNetwork.RunsKeepInv: one sender, which uses each sequence number for one scan.
- ObjectSplit.FindFarthest: requires that two centres differ; where a group that is too large has all its centres in
  one place the code reads indexes it never set, and `ObjectSplit.Merged.AddObjects` and `ObjectGroups.MergeObjects`
  require that no such group is met.
- ObjectSplit.SplitPartitions: sizes, spread ratios and hull tests of a group are inputs.
- ObjectGroups.MergeObjects: the weighted distances between objects are inputs.
- Matching.AssignClosest: `TrackerFrames` makes a frame of `Tracker` from its result; what is proved about runs
  holds for frames with any outcome of the matching, also those of the pass in which an older object takes over.
- SingleStage.UniteInSingleStage: distances between trackables are inputs.
- TrackerStage.TrackableMultiStage.Unite: motion prediction, smoothing, private and immobile flags and uuids are
  left out. Trackables are values that carry an identity, so `latest` lists identities where the code shares
  references, and an object changed after it was published is not seen through the list.
- TrackerIds.IdsAreDistinct: does not cover a session with 2^31 ids or more, in which the counter can wrap around,
  nor what follows an unsafe start, for which see `TrackerStarts.StartIsSafeIff`.
- TrackerStarts.StartIsSafeIff: requires settings under which an object can become active at all within the range of
  a clock.
- TrackableObserver.TrackableObserver.Observe: the averages, alive flags and centres of a region are left out, and
  so is what observers do with a report. Objects in a frame have coordinates; `validCount` starts at zero, which the
  constructor of the code leaves unset.
- RegionCounters.SwitchMeasuresOccupation: requires timestamps that do not decrease and are positive in frames with
  objects.
- ObserverRuns.EveryVisitEnds: takes for granted, for observers that are always on, that a stopped stage hands out
  empty frames; a stopped stage tracks nothing (`TrackerRuns.RunKeepsTidy`).
- PackedLog.BinaryRoundTrip: objects of the first version of the format, which are read but no longer written, are
  left out.
- PackedLog.NewBinary: requires values in the range of the format; outside it the conversion is undefined in C++.
- PackedFile.IFile.Play: `sync` to a play time and what a player does with a record are left out; `sync` bisects
  real positions and ends only because doubles run out of precision. The loop runs on files; the buffered mode, in
  which a header that ends the log is passed over, is used by nothing that plays records.
- Drivers, motor control, web and admin interfaces, the other observers, images, masks, marker search, curvature and
  hull tests: hardware, libraries, or formulas with tuned constants.
- Key-value files, filters and command lines: they would add only easy members.
