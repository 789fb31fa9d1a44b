/** Finding the next record from somewhere inside a log. */
module PackedSync {
  import opened Common
  import opened PackedLog

  predicate Mark(b: byte) {
    b == FRAME_HEADER || b == START_HEADER
  }

  /** Some bytes look like the header of a frame or of a start. */
  predicate LooksLikeHeader(s: seq<byte>) {
    && |s| >= HEADER_SIZE && HeaderAt(s).zero == 0
    && (HeaderAt(s).flags % 256 == FRAME_HEADER || HeaderAt(s).flags % 256 == START_HEADER)
  }

  /** The position where the scan from p stops, word by word; -1 when the bytes run out. */
  function SyncFrom(s: seq<byte>, p: nat): int
    requires p <= |s|
    decreases |s| - p
  {
    if p + HEADER_SIZE > |s| then -1
    else if LooksLikeHeader(s[p..]) then p
    else SyncFrom(s, p + 4)
  }

  predicate Zero4(w: seq<byte>) {
    |w| == 4 && w[0] == 0 && w[1] == 0 && w[2] == 0 && w[3] == 0
  }

  /** Only a zero word before a mark looks like a header. */
  lemma HeaderByWords(w: seq<byte>, s: seq<byte>)
    requires |w| == 4
    ensures LooksLikeHeader(w + s) <==> Zero4(w) && |s| >= 12 && Mark(s[0])
  {
    var t := w + s;
    if |s| >= 12 {
      assert t[..4] == w && t[4..6] == [s[0], s[1]];
      ZeroBytes(w);
      assert [s[0], s[1]][1..] == [s[1]] && [s[1]][1..] == [];
      assert Number([s[1]]) == s[1];
      var low: int, high: int := s[0], s[1];
      assert Number(t[4..6]) == low + 256 * high;
    }
  }

  lemma WordIsZero(n: nat)
    requires n < U32
    ensures Zero4(Bytes4(n)) <==> n == 0
  {
    NumberOfFour(n);
    ZeroBytes(Bytes4(n));
  }

  lemma PairIsZero(a: nat, b: nat)
    requires a < U16 && b < U16
    ensures Zero4(Bytes2(a) + Bytes2(b)) <==> a == 0 && b == 0
    ensures (Bytes2(a) + Bytes2(b))[0] == a % 256
  {
  }

  // ---- records as their constructors make them ----

  predicate MadeObject(b: Binary) {
    BinaryFits(b) && b.x != 0 && b.y != 0 && b.size != 0
  }

  /** Frames, starts and stops with the version set, the low word of the timestamp and the fields of objects not
      zero. */
  predicate Made(r: Record) {
    && RecordFits(r) && Counts(r)
    && match r
       case HeaderRecord(h) => (h.flags % 256 == START_HEADER || h.flags % 256 == STOP_HEADER) && h.flags >= 256 &&
         h.timestamp % U32 != 0
       case FrameRecord(flags, timestamp, _, objects) =>
         flags >= 256 && timestamp % U32 != 0 && forall k :: 0 <= k < |objects| ==> MadeObject(objects[k])
  }

  /** Records where the scan ought to stop. */
  predicate Opens(r: Record) {
    r.FrameRecord? || r.header.flags % 256 == START_HEADER
  }

  /** The scan would stop at offset q within a record, though no header begins there.  `more` tells whether another
      record follows. */
  predicate Misleads(r: Record, q: nat, more: bool)
    requires Made(r)
  {
    r.FrameRecord? &&
    var u, n := r.uuid, |r.objects|;
    if q == 12 then r.timestamp / U32 == 0 && Mark(u[0])
    else if q == 16 then Zero4(u[..4]) && Mark(u[4])
    else if q == 20 then Zero4(u[4..8]) && Mark(u[8]) && (more || n > 0)
    else if q == 24 then Zero4(u[8..12]) && Mark(u[12]) && (more || n > 0)
    else if q == 28 then Zero4(u[12..16]) && n > 0 && Mark(r.objects[0].tid % 256)
    else q >= 32 && (q - 32) % 12 == 0 && (q - 32) / 12 < n && ObjectMisleads(r.objects, (q - 32) / 12, more)
  }

  predicate ObjectMisleads(objects: seq<Binary>, k: nat, more: bool)
    requires k < |objects|
  {
    objects[k].tid == 0 && Mark(Unsigned(objects[k].x) % 256) && (more || k + 1 < |objects|)
  }

  /** What may follow a record: nothing, or a record, which begins with a zero word. */
  predicate Follows(s: seq<byte>) {
    s == [] || (|s| >= HEADER_SIZE && s[0] == 0)
  }

  lemma HeaderSuffixes(h: Header, s: seq<byte>)
    requires HeaderFits(h)
    ensures var t := HeaderBytes(h) + s;
      && t[0..] == Bytes4(h.zero) + (Bytes2(h.flags) + t[6..])
      && t[4..] == (Bytes2(h.flags) + Bytes2(h.size)) + t[8..]
      && t[8..] == Bytes4(h.timestamp % U32) + t[12..]
      && t[12..] == Bytes4(h.timestamp / U32) + s
  {
    hide Bytes2, Bytes4;
    var t := HeaderBytes(h) + s;
    assert t == Bytes4(h.zero) + (Bytes2(h.flags) + Bytes2(h.size)) +
      (Bytes4(h.timestamp % U32) + Bytes4(h.timestamp / U32)) + s;
    assert t[4..6] == Bytes2(h.flags) && t[6..8] == Bytes2(h.size);
  }

  /** Within the header of a record nothing else looks like a header, except perhaps its last word. */
  lemma InsideHeader(h: Header, s: seq<byte>, q: nat)
    requires HeaderFits(h) && h.zero == 0 && h.flags >= 256 && h.timestamp % U32 != 0 && q % 4 == 0 && q < HEADER_SIZE
    ensures q == 0 && |s| >= 0 ==> (LooksLikeHeader((HeaderBytes(h) + s)[q..]) <==> Mark(h.flags % 256))
    ensures q == 4 || q == 8 ==> !LooksLikeHeader((HeaderBytes(h) + s)[q..])
    ensures q == 12 ==> (LooksLikeHeader((HeaderBytes(h) + s)[q..]) <==>
                         h.timestamp / U32 == 0 && |s| >= 12 && Mark(s[0]))
  {
    hide LooksLikeHeader, HeaderBytes, Bytes4;
    HeaderSuffixes(h, s);
    var t := HeaderBytes(h) + s;
    if q == 0 {
      HeaderByWords(Bytes4(h.zero), Bytes2(h.flags) + t[6..]);
      WordIsZero(h.zero);
    } else if q == 4 {
      HeaderByWords(Bytes2(h.flags) + Bytes2(h.size), t[8..]);
      PairIsZero(h.flags, h.size);
    } else if q == 8 {
      HeaderByWords(Bytes4(h.timestamp % U32), t[12..]);
      WordIsZero(h.timestamp % U32);
    } else {
      HeaderByWords(Bytes4(h.timestamp / U32), s);
      WordIsZero(h.timestamp / U32);
    }
  }

  lemma InsideUuid(u: seq<byte>, s: seq<byte>, q: nat)
    requires |u| == UUID_SIZE && q % 4 == 0 && q < UUID_SIZE
    ensures LooksLikeHeader((u + s)[q..]) <==>
      Zero4(u[q..q + 4]) && 16 - q - 4 + |s| >= 12 && Mark(if q < 12 then u[q + 4] else s[0])
  {
    hide LooksLikeHeader;
    assert (u + s)[q..] == u[q..q + 4] + (u[q + 4..] + s);
    HeaderByWords(u[q..q + 4], u[q + 4..] + s);
  }

  lemma {:induction false} ObjectsSuffix(objects: seq<Binary>, k: nat)
    requires k <= |objects|
    ensures ObjectsBytes(objects)[BINARY_SIZE * k..] == ObjectsBytes(objects[k..])
  {
    hide BinaryBytes;
    if k == 0 {
      assert objects[0..] == objects;
    } else {
      ObjectsSuffix(objects[1..], k - 1);
      assert objects[1..][k - 1..] == objects[k..];
      assert ObjectsBytes(objects)[BINARY_SIZE * k..] == ObjectsBytes(objects[1..])[BINARY_SIZE * (k - 1)..];
    }
  }

  lemma InsideObject(b: Binary, s: seq<byte>, j: nat)
    requires MadeObject(b) && j % 4 == 0 && j < BINARY_SIZE
    ensures LooksLikeHeader((BinaryBytes(b) + s)[j..]) <==>
      j == 0 && b.tid == 0 && |s| >= 4 && Mark(Unsigned(b.x) % 256)
  {
    hide LooksLikeHeader, Bytes2, Bytes4;
    var xy, sf := Bytes2(Unsigned(b.x)) + Bytes2(Unsigned(b.y)), Bytes2(b.size) + Bytes2(b.flags);
    var t := BinaryBytes(b) + s;
    PairIsZero(Unsigned(b.x), Unsigned(b.y));
    PairIsZero(b.size, b.flags);
    WordIsZero(b.tid);
    if j == 0 {
      assert t[0..] == Bytes4(b.tid) + (xy + (sf + s));
      HeaderByWords(Bytes4(b.tid), xy + (sf + s));
    } else if j == 4 {
      assert t[4..] == xy + (sf + s);
      HeaderByWords(xy, sf + s);
    } else {
      assert t[8..] == sf + s;
      HeaderByWords(sf, s);
    }
  }

  lemma ObjectSuffix(objects: seq<Binary>, k: nat, s: seq<byte>, j: nat)
    requires k < |objects| && j < BINARY_SIZE
    ensures (ObjectsBytes(objects) + s)[BINARY_SIZE * k + j..] ==
      (BinaryBytes(objects[k]) + (ObjectsBytes(objects[k + 1..]) + s))[j..]
  {
    hide BinaryBytes, ObjectsBytes;
    ObjectsSuffix(objects, k);
    FirstObject(objects, k);
    var b, rest := BinaryBytes(objects[k]), ObjectsBytes(objects[k + 1..]);
    assert BINARY_SIZE * k + j <= BINARY_SIZE * |objects| == |ObjectsBytes(objects)|;
    DropTwice(ObjectsBytes(objects), s, BINARY_SIZE * k, j);
    Regroup(b, rest, s);
  }

  lemma Regroup(a: seq<byte>, b: seq<byte>, c: seq<byte>)
    ensures a + b + c == a + (b + c)
  {
  }

  lemma FirstObject(objects: seq<Binary>, k: nat)
    requires k < |objects|
    ensures ObjectsBytes(objects[k..]) == BinaryBytes(objects[k]) + ObjectsBytes(objects[k + 1..])
  {
    assert objects[k..][1..] == objects[k + 1..];
  }

  lemma DropTwice(t: seq<byte>, s: seq<byte>, a: nat, j: nat)
    requires a <= |t| && a + j <= |t|
    ensures (t + s)[a + j..] == (t[a..] + s)[j..]
  {
  }

  lemma InsideObjects(objects: seq<Binary>, s: seq<byte>, k: nat, j: nat)
    requires k < |objects| && MadeObject(objects[k]) && Follows(s)
    requires j % 4 == 0 && j < BINARY_SIZE
    ensures LooksLikeHeader((ObjectsBytes(objects) + s)[BINARY_SIZE * k + j..]) <==>
      j == 0 && ObjectMisleads(objects, k, s != [])
  {
    hide LooksLikeHeader, BinaryBytes, ObjectsBytes, BinaryFits, Mark, Unsigned;
    ObjectSuffix(objects, k, s, j);
    var rest := ObjectsBytes(objects[k + 1..]) + s;
    InsideObject(objects[k], rest, j);
    assert |rest| == BINARY_SIZE * (|objects| - k - 1) + |s|;
  }

  // ---- one record ----

  lemma InsideRecord(r: Record, s: seq<byte>, q: nat)
    requires Made(r) && Follows(s) && q % 4 == 0 && q < |Put(r)|
    ensures LooksLikeHeader((Put(r) + s)[q..]) <==> (q == 0 && Opens(r)) || Misleads(r, q, s != [])
  {
    hide LooksLikeHeader, HeaderBytes;
    if r.HeaderRecord? {
      InsideHeader(r.header, s, q);
    } else {
      InsideFrame(r, s, q);
    }
  }

  lemma FrameLayout(r: Record, s: seq<byte>)
    requires r.FrameRecord? && |r.uuid| == UUID_SIZE
    ensures var body := ObjectsBytes(r.objects) + s; var t := Put(r) + s;
      && |Put(r)| == 32 + BINARY_SIZE * |r.objects|
      && t == HeaderBytes(FrameHeaderOf(r)) + (r.uuid + body)
      && (forall q :: 16 <= q <= |t| ==> t[q..] == (r.uuid + body)[q - 16..])
      && (forall q :: 32 <= q <= |t| ==> t[q..] == body[q - 32..])
  {
    hide HeaderBytes, ObjectsBytes;
    Regroup(HeaderBytes(FrameHeaderOf(r)), r.uuid + ObjectsBytes(r.objects), s);
    Regroup(r.uuid, ObjectsBytes(r.objects), s);
  }

  lemma InsideFrame(r: Record, s: seq<byte>, q: nat)
    requires Made(r) && r.FrameRecord? && Follows(s) && q % 4 == 0 && q < |Put(r)|
    ensures LooksLikeHeader((Put(r) + s)[q..]) <==> q == 0 || Misleads(r, q, s != [])
  {
    hide LooksLikeHeader, Put, HeaderBytes, ObjectsBytes, Misleads, MadeObject, BinaryFits;
    FrameLayout(r, s);
    if q < 16 {
      HeaderBeforeUuid(r, s, q);
    } else if q < 32 {
      UuidBeforeObjects(r, s, q);
    } else {
      ObjectsAtTheEnd(r, s, q);
    }
  }

  lemma HeaderBeforeUuid(r: Record, s: seq<byte>, q: nat)
    requires Made(r) && r.FrameRecord? && q % 4 == 0 && q < HEADER_SIZE
    ensures LooksLikeHeader((HeaderBytes(FrameHeaderOf(r)) + (r.uuid + (ObjectsBytes(r.objects) + s)))[q..]) <==>
      q == 0 || Misleads(r, q, s != [])
  {
    hide LooksLikeHeader, HeaderBytes, ObjectsBytes, MadeObject, BinaryFits;
    InsideHeader(FrameHeaderOf(r), r.uuid + (ObjectsBytes(r.objects) + s), q);
  }

  lemma ObjectsAtTheEnd(r: Record, s: seq<byte>, q: nat)
    requires Made(r) && r.FrameRecord? && Follows(s) && q % 4 == 0 && 32 <= q < 32 + BINARY_SIZE * |r.objects|
    ensures LooksLikeHeader((ObjectsBytes(r.objects) + s)[q - 32..]) <==> Misleads(r, q, s != [])
  {
    hide LooksLikeHeader, ObjectsBytes, Misleads, MadeObject, BinaryFits, ObjectMisleads;
    var k, j := (q - 32) / 12, (q - 32) % 12;
    assert q - 32 == BINARY_SIZE * k + j && k < |r.objects| && j % 4 == 0;
    assert MadeObject(r.objects[k]);
    InsideObjects(r.objects, s, k, j);
    MisleadsAmongObjects(r, k, j, s != []);
  }

  lemma MisleadsAmongObjects(r: Record, k: nat, j: nat, more: bool)
    requires Made(r) && r.FrameRecord? && k < |r.objects| && j < BINARY_SIZE
    ensures Misleads(r, 32 + BINARY_SIZE * k + j, more) <==> j == 0 && ObjectMisleads(r.objects, k, more)
  {
    hide Zero4, Mark, ObjectMisleads, RecordFits, MadeObject;
    assert (BINARY_SIZE * k + j) / 12 == k && (BINARY_SIZE * k + j) % 12 == j;
  }

  lemma UuidBeforeObjects(r: Record, s: seq<byte>, q: nat)
    requires Made(r) && r.FrameRecord? && Follows(s) && q % 4 == 0 && 16 <= q < 32
    ensures LooksLikeHeader((r.uuid + (ObjectsBytes(r.objects) + s))[q - 16..]) <==> Misleads(r, q, s != [])
  {
    hide LooksLikeHeader, ObjectsBytes, Zero4, Unsigned, MadeObject, BinaryFits, ObjectMisleads;
    var u, n, body := r.uuid, |r.objects|, ObjectsBytes(r.objects) + s;
    InsideUuid(u, body, q - 16);
    if q == 16 {
      assert u[0..4] == u[..4];
    } else if q == 28 {
      if n > 0 {
        FirstByte(r.objects, s);
      } else if s != [] {
        assert body[0] == s[0] == 0;
      }
    }
  }

  lemma FirstByte(objects: seq<Binary>, s: seq<byte>)
    requires objects != []
    ensures (ObjectsBytes(objects) + s)[0] == objects[0].tid % 256
  {
    hide Bytes4, Bytes2, Unsigned;
    FirstOfFour(objects[0].tid);
    assert ObjectsBytes(objects)[0] == BinaryBytes(objects[0])[0] == Bytes4(objects[0].tid)[0];
  }

  lemma FirstOfFour(n: nat)
    ensures Bytes4(n)[0] == n % 256
  {
    assert Bytes4(n)[0] == n % U16 % 256;
  }

  /** Nothing in the body of a record misleads the scan. */
  predicate Clean(r: Record, more: bool)
    requires Made(r)
  {
    r.FrameRecord? ==>
      var u, n := r.uuid, |r.objects|;
      && !(r.timestamp / U32 == 0 && Mark(u[0]))
      && !(Zero4(u[..4]) && Mark(u[4]))
      && !(Zero4(u[4..8]) && Mark(u[8]) && (more || n > 0))
      && !(Zero4(u[8..12]) && Mark(u[12]) && (more || n > 0))
      && !(Zero4(u[12..16]) && n > 0 && Mark(r.objects[0].tid % 256))
      && forall k :: 0 <= k < n ==> !ObjectMisleads(r.objects, k, more)
  }

  lemma CleanNowhereMisleads(r: Record, more: bool, q: nat)
    requires Made(r) && Clean(r, more)
    ensures !Misleads(r, q, more)
  {
    hide Zero4, Mark, Unsigned, ObjectMisleads, RecordFits, Counts;
  }

  lemma NowhereMisleadsIsClean(r: Record, more: bool)
    requires Made(r) && forall q: nat :: q % 4 == 0 ==> !Misleads(r, q, more)
    ensures Clean(r, more)
  {
    hide Zero4, Mark, Unsigned, ObjectMisleads, RecordFits, Counts;
    if r.FrameRecord? {
      assert !Misleads(r, 12, more) && !Misleads(r, 16, more) && !Misleads(r, 20, more) && !Misleads(r, 24, more);
      assert !Misleads(r, 28, more);
      forall k | 0 <= k < |r.objects| ensures !ObjectMisleads(r.objects, k, more) {
        assert !Misleads(r, 32 + 12 * k, more);
      }
    }
  }

  lemma CleanIff(r: Record, more: bool)
    requires Made(r)
    ensures Clean(r, more) <==> forall q: nat :: q % 4 == 0 ==> !Misleads(r, q, more)
  {
    hide Clean, Misleads, Made;
    if Clean(r, more) {
      forall q: nat | q % 4 == 0 ensures !Misleads(r, q, more) {
        CleanNowhereMisleads(r, more, q);
      }
    } else if forall q: nat :: q % 4 == 0 ==> !Misleads(r, q, more) {
      NowhereMisleadsIsClean(r, more);
    }
  }

  lemma MisleadsInside(r: Record, q: nat, more: bool)
    requires Made(r) && Misleads(r, q, more)
    ensures 0 < q < |Put(r)| && q % 4 == 0
  {
    hide Zero4, Mark, Unsigned, HeaderBytes, ObjectsBytes, BinaryFits, MadeObject, ObjectMisleads;
  }

  // ---- a whole log ----

  ghost predicate AllMade(records: seq<Record>) {
    forall k :: 0 <= k < |records| ==> Made(records[k])
  }

  /** A record that the scan ought to stop at begins at p. */
  predicate StartsAt(records: seq<Record>, p: nat) {
    records != [] &&
    if p < |Put(records[0])| then p == 0 && Opens(records[0]) else StartsAt(records[1..], p - |Put(records[0])|)
  }

  ghost predicate MisleadsAt(records: seq<Record>, p: nat)
    requires AllMade(records)
  {
    records != [] &&
    if p < |Put(records[0])| then Misleads(records[0], p, |records| > 1)
    else MisleadsAt(records[1..], p - |Put(records[0])|)
  }

  lemma LogFollows(records: seq<Record>)
    requires AllMade(records)
    ensures Follows(Encoded(records)) && (Encoded(records) == [] <==> records == [])
  {
    if records != [] {
      var r := records[0];
      assert Encoded(records)[0] == Put(r)[0];
      assert Put(r)[0] == 0;
    }
  }

  /** What looks like a header in a log, at a word boundary, is one, or misleads. */
  lemma {:induction false} HeadersOfLog(records: seq<Record>, p: nat)
    requires AllMade(records) && p % 4 == 0 && p <= |Encoded(records)|
    ensures LooksLikeHeader(Encoded(records)[p..]) <==> StartsAt(records, p) || MisleadsAt(records, p)
    ensures !(StartsAt(records, p) && MisleadsAt(records, p))
  {
    hide Put, LooksLikeHeader, Misleads, Opens, Made;
    if records == [] {
      NothingLooksLikeHeader(Encoded(records)[p..]);
    } else {
      var r, rest := records[0], Encoded(records[1..]);
      assert records[0] in records;
      assert forall k :: 0 <= k < |records| - 1 ==> records[1..][k] == records[k + 1];
      LogFollows(records[1..]);
      PutIsWords(r);
      if p < |Put(r)| {
        InsideRecord(r, rest, p);
        if Misleads(r, p, |records| > 1) {
          MisleadsInside(r, p, |records| > 1);
        }
      } else {
        assert (Put(r) + rest)[p..] == rest[p - |Put(r)|..];
        HeadersOfLog(records[1..], p - |Put(r)|);
      }
    }
  }

  lemma NothingLooksLikeHeader(s: seq<byte>)
    requires s == []
    ensures !LooksLikeHeader(s)
  {
  }

  lemma PutIsWords(r: Record)
    requires Made(r)
    ensures |Put(r)| % 4 == 0
  {
    hide Put, MadeObject, BinaryFits;
    PutSize(r);
    if r.FrameRecord? {
      assert |Put(r)| == 4 * (8 + 3 * |r.objects|);
    }
  }

  lemma PutSize(r: Record)
    ensures |Put(r)| == HEADER_SIZE + if r.FrameRecord? then |r.uuid| + BINARY_SIZE * |r.objects| else 0
  {
    hide HeaderBytes, ObjectsBytes;
  }

  ghost predicate CleanLog(records: seq<Record>)
    requires AllMade(records)
  {
    forall k :: 0 <= k < |records| ==> Clean(records[k], k + 1 < |records|)
  }

  ghost predicate NothingMisleads(records: seq<Record>)
    requires AllMade(records)
  {
    forall p: nat :: p % 4 == 0 && p <= |Encoded(records)| ==> !MisleadsAt(records, p)
  }

  lemma {:induction false} CleanLogIff(records: seq<Record>)
    requires AllMade(records)
    ensures CleanLog(records) <==> NothingMisleads(records)
  {
    hide Put, Misleads, Made, Clean, NothingMisleads;
    if records == [] {
      NothingToMislead(records);
    } else {
      assert Made(records[0]);
      CleanLogIff(records[1..]);
      CleanIff(records[0], |records| > 1);
      CleanLogSplits(records);
      MisleadingSplits(records);
    }
  }

  lemma NothingToMislead(records: seq<Record>)
    requires records == []
    ensures NothingMisleads(records)
  {
  }

  /** Where a log misleads, in terms of its first record and the others. */
  lemma MisleadsUnfolds(records: seq<Record>, p: nat)
    requires AllMade(records) && records != [] && AllMade(records[1..])
    ensures p < |Put(records[0])| ==> MisleadsAt(records, p) == Misleads(records[0], p, |records| > 1)
    ensures p >= |Put(records[0])| ==> MisleadsAt(records, p) == MisleadsAt(records[1..], p - |Put(records[0])|)
    ensures |Put(records[0])| % 4 == 0 && |Encoded(records)| == |Put(records[0])| + |Encoded(records[1..])|
  {
    hide Put, Misleads, Made;
    assert Made(records[0]);
    PutIsWords(records[0]);
  }

  lemma MisleadingIsInherited(records: seq<Record>)
    requires AllMade(records) && records != [] && AllMade(records[1..]) && NothingMisleads(records)
    ensures (forall q: nat :: q % 4 == 0 ==> !Misleads(records[0], q, |records| > 1)) && NothingMisleads(records[1..])
  {
    hide Put, Encoded, Misleads, MisleadsAt;
    var r, rest := records[0], records[1..];
    forall q: nat | q % 4 == 0 ensures !Misleads(r, q, |records| > 1) {
      if Misleads(r, q, |records| > 1) {
        MisleadsInside(r, q, |records| > 1);
        MisleadsUnfolds(records, q);
        assert MisleadsAt(records, q);
      }
    }
    forall p: nat | p % 4 == 0 && p <= |Encoded(rest)| ensures !MisleadsAt(rest, p) {
      MisleadsUnfolds(records, |Put(r)| + p);
      assert !MisleadsAt(records, |Put(r)| + p);
    }
  }

  lemma MisleadingSplits(records: seq<Record>)
    requires AllMade(records) && records != [] && AllMade(records[1..])
    ensures NothingMisleads(records) <==>
      (forall q: nat :: q % 4 == 0 ==> !Misleads(records[0], q, |records| > 1)) && NothingMisleads(records[1..])
  {
    hide Put, Encoded, Misleads, MisleadsAt;
    if NothingMisleads(records) {
      MisleadingIsInherited(records);
    } else {
      var p: nat :| p % 4 == 0 && p <= |Encoded(records)| && MisleadsAt(records, p);
      MisleadsUnfolds(records, p);
    }
  }

  lemma CleanLogSplits(records: seq<Record>)
    requires AllMade(records) && records != []
    ensures CleanLog(records) <==> Clean(records[0], |records| > 1) && CleanLog(records[1..])
  {
    hide Clean;
    var rest := records[1..];
    assert forall k :: 0 <= k < |rest| ==> rest[k] == records[k + 1];
    if Clean(records[0], |records| > 1) && CleanLog(rest) {
      forall k | 0 <= k < |records| ensures Clean(records[k], k + 1 < |records|) {
        if k > 0 {
          assert Clean(rest[k - 1], k - 1 + 1 < |rest|);
        }
      }
    }
    if CleanLog(records) {
      forall k | 0 <= k < |rest| ensures Clean(rest[k], k + 1 < |rest|) {
        assert Clean(records[k + 1], k + 1 + 1 < |records|);
      }
    }
  }

  // ---- the scan ----

  /** q is the first place from p on where the scan ought to stop; -1 when there is none. */
  ghost predicate IsNextStart(records: seq<Record>, p: nat, q: int) {
    if q < 0 then q == -1 && forall o: nat :: o >= p ==> !StartsAt(records, o)
    else q >= p && StartsAt(records, q) && forall o: nat :: p <= o < q ==> !StartsAt(records, o)
  }

  lemma {:induction false} StartsAreAligned(records: seq<Record>, p: nat)
    requires AllMade(records) && StartsAt(records, p)
    ensures p % 4 == 0 && p + HEADER_SIZE <= |Encoded(records)|
  {
    hide Put, Made, Opens;
    var r := records[0];
    assert Made(r);
    PutIsWords(r);
    if p >= |Put(r)| {
      StartsAreAligned(records[1..], p - |Put(r)|);
    }
  }

  /** Where headers look like headers and nothing else does, the scan finds the next one. */
  lemma {:induction false} ScanFinds(records: seq<Record>, p: nat)
    requires AllMade(records) && p % 4 == 0 && p <= |Encoded(records)|
    requires forall o: nat :: o >= p && o % 4 == 0 && o <= |Encoded(records)| ==> !MisleadsAt(records, o)
    ensures IsNextStart(records, p, SyncFrom(Encoded(records), p))
    decreases |Encoded(records)| - p
  {
    hide Encoded, StartsAt, MisleadsAt, LooksLikeHeader, Made;
    var s := Encoded(records);
    forall o: nat | StartsAt(records, o) ensures o % 4 == 0 && o + HEADER_SIZE <= |s| {
      StartsAreAligned(records, o);
    }
    HeadersOfLog(records, p);
    if p + HEADER_SIZE <= |s| && !LooksLikeHeader(s[p..]) {
      ScanFinds(records, p + 4);
    }
  }

  /** The scan stops exactly at the next frame or start from every word boundary, iff the log is clean. */
  lemma SyncIsExactIff(records: seq<Record>)
    requires AllMade(records)
    ensures CleanLog(records) <==>
      forall p: nat :: p % 4 == 0 && p <= |Encoded(records)| ==> IsNextStart(records, p, SyncFrom(Encoded(records), p))
  {
    hide Encoded, StartsAt, MisleadsAt, LooksLikeHeader, Made, CleanLog, IsNextStart;
    CleanLogIff(records);
    if CleanLog(records) {
      forall p: nat | p % 4 == 0 && p <= |Encoded(records)|
        ensures IsNextStart(records, p, SyncFrom(Encoded(records), p))
      {
        ScanFinds(records, p);
      }
    } else {
      var p: nat :| p % 4 == 0 && p <= |Encoded(records)| && MisleadsAt(records, p);
      ScanIsMisled(records, p);
    }
  }

  lemma ScanIsMisled(records: seq<Record>, p: nat)
    requires AllMade(records) && p % 4 == 0 && p <= |Encoded(records)| && MisleadsAt(records, p)
    ensures SyncFrom(Encoded(records), p) == p && !IsNextStart(records, p, p)
  {
    hide Encoded, StartsAt, MisleadsAt, Made;
    HeadersOfLog(records, p);
  }

  // ---- logs as the tracker writes them ----

  /** The uuid of a session, or of object tid in it: the application, the time it started, and the id, highest byte
      first. */
  function SessionUuid(startTime: nat, tid: nat): (s: seq<byte>)
    ensures |s| == UUID_SIZE
  {
    [84, 82, 65, 67, 75, 0] + (Bytes2(startTime % U16) + Bytes4(startTime / U16 % U32)) +
    [tid / 0x1_000_000 % 256, tid / 0x1_0000 % 256, tid / 256 % 256, tid % 256]
  }

  /** The bytes of such a uuid: the letters TRACK and a zero, the start in six bytes with the lowest first, the id in
      four with the highest first. */
  lemma SessionUuidLayout(startTime: nat, tid: nat)
    requires startTime < 0x1_0000_0000_0000 && tid < U32
    ensures var s := SessionUuid(startTime, tid);
      && s[0] as int == 'T' as int && s[1] as int == 'R' as int && s[2] as int == 'A' as int
      && s[3] as int == 'C' as int && s[4] as int == 'K' as int && s[5] == 0
      && s[6..8] == Bytes2(startTime % 0x1_0000) && s[8..12] == Bytes4(startTime / 0x1_0000)
      && tid == 0x1_000_000 * s[12] as int + 0x1_0000 * s[13] as int + 256 * s[14] as int + s[15] as int
  {
    hide Bytes2, Bytes4;
    HighestFirst(tid);
  }

  lemma HighestFirst(n: nat)
    requires n < U32
    ensures n ==
      0x1_000_000 * (n / 0x1_000_000 % 256) + 0x1_0000 * (n / 0x1_0000 % 256) + 256 * (n / 256 % 256) + n % 256
  {
    var a, b, c := n / 256, n / 0x1_0000, n / 0x1_000_000;
    assert n == 256 * a + n % 256;
    assert a == 256 * b + a % 256;
    assert b == 256 * c + b % 256;
  }

  function NewFrame(timestamp: nat, uuid: seq<byte>, objects: seq<Binary>): Record {
    var h := NewHeader(timestamp, FRAME_HEADER);
    FrameRecord(h.flags, h.timestamp, uuid, objects)
  }

  /** What the constructors build has the form the scan relies on. */
  lemma NewRecordsAreMade(timestamp: nat, uuid: seq<byte>, objects: seq<Binary>)
    requires timestamp < U64 && |uuid| == UUID_SIZE && |objects| < U16
    requires forall k :: 0 <= k < |objects| ==> MadeObject(objects[k])
    ensures Made(HeaderRecord(NewHeader(timestamp, START_HEADER))) &&
      Made(HeaderRecord(NewHeader(timestamp, STOP_HEADER)))
    ensures Made(NewFrame(timestamp, uuid, objects))
  {
    hide BinaryFits;
  }

  /** No record misleads the scan when timestamps reach over 32 bits and neither ids nor the words of uuids are zero. */
  lemma NonzeroWordsAreClean(r: Record, more: bool)
    requires Made(r)
    requires r.FrameRecord? ==>
      && r.timestamp >= U32
      && !Zero4(r.uuid[..4]) && !Zero4(r.uuid[4..8]) && !Zero4(r.uuid[8..12]) && !Zero4(r.uuid[12..16])
      && forall k :: 0 <= k < |r.objects| ==> r.objects[k].tid != 0
    ensures Clean(r, more)
  {
    hide Zero4, Mark, Unsigned;
    if r.FrameRecord? {
      assert r.timestamp / U32 > 0;
    }
  }

  /** The uuid of a session ends in a zero word.  Its frames mislead the scan iff the first object has an id whose low
      byte is 1 or 2, or an object has no id and its x begins with such a byte. */
  lemma SessionFrameIsCleanIff(timestamp: nat, startTime: nat, objects: seq<Binary>, more: bool)
    requires timestamp < U64 && |objects| < U16 && forall k :: 0 <= k < |objects| ==> MadeObject(objects[k])
    ensures var r := NewFrame(timestamp, SessionUuid(startTime, 0), objects);
      Made(r) && (Clean(r, more) <==>
        && (objects != [] ==> !Mark(objects[0].tid % 256))
        && forall k :: 0 <= k < |objects| ==> !ObjectMisleads(objects, k, more))
  {
    hide Bytes2, Bytes4, Unsigned;
    NewRecordsAreMade(timestamp, SessionUuid(startTime, 0), objects);
    var u := SessionUuid(startTime, 0);
    assert u[0] == 84 && u[4] == 75 && u[8..12][0] == u[8] && u[12] == 0 && Zero4(u[12..16]);
    assert !Mark(u[0]) && !Mark(u[4]) && !Mark(u[12]) && !Zero4(u[4..8]);
  }

  /** The scan passes over words that are neither headers nor misleading. */
  lemma {:induction false} ScanSkips(records: seq<Record>, p: nat, q: nat)
    requires AllMade(records) && p % 4 == 0 && q % 4 == 0 && p <= q && q + HEADER_SIZE <= |Encoded(records)|
    requires forall o: nat :: p <= o < q && o % 4 == 0 ==> !StartsAt(records, o) && !MisleadsAt(records, o)
    ensures SyncFrom(Encoded(records), p) == SyncFrom(Encoded(records), q)
    decreases q - p
  {
    hide Encoded, StartsAt, MisleadsAt, LooksLikeHeader, Made;
    if p < q {
      HeadersOfLog(records, p);
      ScanSkips(records, p + 4, q);
    }
  }

  /** A session with one tracked object under the first id: although no other record follows, the scan from the second
      word of the frame stops, inside the uuid. */
  lemma FirstIdMisleads(timestamp: nat, startTime: nat, b: Binary)
    requires timestamp < U64 && MadeObject(b) && b.tid == 1
    ensures var log := [NewFrame(timestamp, SessionUuid(startTime, 0), [b])];
      SyncFrom(Encoded(log), 4) == 28 && forall o: nat :: o >= 4 ==> !StartsAt(log, o)
  {
    hide LooksLikeHeader, SessionUuid, Put, Misleads, Made, Zero4, Mark;
    var u := SessionUuid(startTime, 0);
    NewRecordsAreMade(timestamp, u, [b]);
    var r := NewFrame(timestamp, u, [b]);
    OnlyMisleadsAtTheEnd(r, startTime);
    MisleadsInside(r, 28, false);
    assert AllMade([r]) && |Encoded([r])| >= |Put(r)|;
    assert MisleadsAt([r], 28);
    PutIsLong(r);
    forall o: nat | 4 <= o < 28 && o % 4 == 0 ensures !StartsAt([r], o) && !MisleadsAt([r], o) {
      assert o == 4 || o == 8 || o == 12 || o == 16 || o == 20 || o == 24;
    }
    ScanSkips([r], 4, 28);
    ScanIsMisled([r], 28);
  }

  lemma PutIsLong(r: Record)
    requires r.FrameRecord? && |r.objects| == 1 && |r.uuid| == UUID_SIZE
    ensures |Put(r)| == 44
  {
    hide HeaderBytes, BinaryBytes;
    assert r.objects[1..] == [];
  }

  lemma OnlyMisleadsAtTheEnd(r: Record, startTime: nat)
    requires Made(r) && r.FrameRecord? && r.uuid == SessionUuid(startTime, 0) && |r.objects| == 1 &&
      r.objects[0].tid == 1
    ensures Misleads(r, 28, false)
    ensures !Misleads(r, 4, false) && !Misleads(r, 8, false) && !Misleads(r, 12, false)
    ensures !Misleads(r, 16, false) && !Misleads(r, 20, false) && !Misleads(r, 24, false)
  {
    hide Bytes2, Bytes4, RecordFits, Counts;
    var u := r.uuid;
    SessionUuidEnds(startTime);
    assert u[0] == 84 && u[4] == 75 && u[12] == 0 && !Zero4(u[..4]) && !Zero4(u[4..8]);
  }

  lemma SessionUuidEnds(startTime: nat)
    ensures Zero4(SessionUuid(startTime, 0)[12..16])
  {
  }
}
