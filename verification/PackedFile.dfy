/** Log files as objects: records are appended to one, and read from a position in another. */
module PackedFile {
  import opened Common
  import opened PackedLog
  import opened PackedSync

  class OFile {
    var contents: seq<byte>

    constructor ()
      ensures contents == []
    {
      contents := [];
    }

    method Write(buffer: seq<byte>)
      modifies this
      ensures contents == old(contents) + buffer
    {
      contents := contents + buffer;
    }

    method PutHeader(h: Header)
      modifies this
      ensures contents == old(contents) + Put(HeaderRecord(h))
    {
      Write(HeaderBytes(h));
    }

    /** A frame is written in parts: its header with the number of objects, its uuid, its objects. */
    method PutFrame(flags: nat, timestamp: nat, uuid: seq<byte>, objects: seq<Binary>)
      modifies this
      ensures contents == old(contents) + Put(FrameRecord(flags, timestamp, uuid, objects))
    {
      hide HeaderBytes, ObjectsBytes;
      var header := HeaderBytes(Header(0, flags, |objects| % U16, timestamp));
      Write(header);
      Write(uuid);
      Joined(old(contents), header, uuid);
      Joined(old(contents), header + uuid, ObjectsBytes(objects));
      Joined(header, uuid, ObjectsBytes(objects));
      if |objects| == 0 {
        return;
      }
      Write(ObjectsBytes(objects));
    }

    /** Records written one after another. */
    method PutAll(records: seq<Record>)
      modifies this
      ensures contents == old(contents) + Encoded(records)
    {
      hide Encoded, Put;
      NothingEncoded();
      for i := 0 to |records|
        invariant contents == old(contents) + Encoded(records[..i])
      {
        match records[i] {
          case HeaderRecord(h) => PutHeader(h);
          case FrameRecord(flags, timestamp, uuid, objects) => PutFrame(flags, timestamp, uuid, objects);
        }
        EncodedAppends(records[..i], records[i]);
        assert records[..i + 1] == records[..i] + [records[i]];
      }
      assert records[..|records|] == records;
    }
  }

  /** A log opened for reading, as a file or, when it is buffered, as a copy in memory. */
  class IFile {
    var isBuffered: bool
    var isOpen: bool
    var contents: seq<byte>
    var position: nat
    /** What `feof` says: a read of the file came short, and there was no seek since. */
    var cameShort: bool
    var beginTime: nat
    var currentTime: nat

    ghost predicate Valid()
      reads this
    {
      position <= |contents| && (isOpen && cameShort ==> position == |contents|)
    }

    ghost function Rest(): seq<byte>
      requires Valid()
      reads this
    {
      if isOpen then contents[position..] else []
    }

    constructor (buffered: bool)
      ensures Valid() && !isOpen && isBuffered == buffered
    {
      isBuffered, isOpen, contents, position, cameShort := buffered, false, [], 0, false;
      beginTime, currentTime := 0, 0;
    }

    predicate IsEof()
      reads this
    {
      !isOpen || if isBuffered then position >= |contents| else cameShort
    }

    /** From a position past the end nothing can be read either, so the position stays within the log. */
    method Seek(pos: nat)
      requires Valid()
      modifies this`position, this`cameShort
      ensures Valid()
      ensures if isOpen then position == Min(pos, |contents|) && !cameShort
              else position == old(position) && cameShort == old(cameShort)
    {
      if isOpen {
        position := if pos < |contents| then pos else |contents|;
        cameShort := false;
      }
    }

    /** At most `size` bytes; none when the log is closed or at its end. */
    method Read(size: nat) returns (bytes: seq<byte>)
      requires Valid()
      modifies this`position, this`cameShort
      ensures Valid()
      ensures bytes == old(Rest())[..Min(size, |old(Rest())|)]
      ensures Rest() == old(Rest())[|bytes|..]
      ensures isOpen && !isBuffered ==> (cameShort <==> old(cameShort) || |bytes| < size)
    {
      if !isOpen {
        return [];
      }
      // The position in a file is kept by the library; here it counts as -1.
      var at := if isBuffered then position else -1;
      var n := size;
      if at + n > |contents| {
        n := |contents| - at;
      }
      if n <= 0 {
        return [];
      }
      if !isBuffered {
        bytes := ReadFile(n);
        return;
      }
      bytes := contents[position..position + n];
      position := position + n;
    }

    /** What the library's `fread` does. */
    method ReadFile(n: nat) returns (bytes: seq<byte>)
      requires Valid() && isOpen
      modifies this`position, this`cameShort
      ensures Valid()
      ensures bytes == old(Rest())[..Min(n, |old(Rest())|)] && Rest() == old(Rest())[|bytes|..]
      ensures cameShort <==> old(cameShort) || |bytes| < n
    {
      var end := if position + n < |contents| then position + n else |contents|;
      bytes := contents[position..end];
      position := end;
      if |bytes| < n {
        cameShort := true;
      }
    }

    method GetHeader() returns (ok: bool, zero: nat, header: Header)
      requires Valid()
      modifies this`position, this`cameShort
      ensures Valid()
      ensures zero == ZeroField(old(Rest()))
      ensures ok <==> |old(Rest())| >= HEADER_SIZE && zero == 0
      ensures ok ==> header == HeaderAt(old(Rest()))
      ensures Rest() == old(Rest())[Min(HEADER_SIZE, |old(Rest())|)..]
      ensures isOpen && !isBuffered ==> (cameShort <==> old(cameShort) || |old(Rest())| < HEADER_SIZE)
    {
      var bytes := Read(HEADER_SIZE);
      assert bytes[..Min(4, |bytes|)] == old(Rest())[..Min(4, |old(Rest())|)];
      zero := ZeroField(bytes);
      ok := |bytes| == HEADER_SIZE && zero == 0;
      header := if |bytes| == HEADER_SIZE then HeaderAt(bytes) else Header(0, 0, 0, 0);
      if |bytes| == HEADER_SIZE {
        SameHeader(old(Rest()));
      }
    }

    /** The uuid and the objects of a frame whose header was read; a frame that is cut off uses up the file. */
    method GetFrame(header: Header) returns (ok: bool, uuid: seq<byte>, objects: seq<Binary>)
      requires Valid()
      modifies this`position, this`cameShort
      ensures Valid()
      ensures ok <==> |old(Rest())| >= UUID_SIZE + BINARY_SIZE * header.size
      ensures ok ==> uuid == old(Rest())[..UUID_SIZE] && objects == ObjectsAt(old(Rest())[UUID_SIZE..], header.size)
      ensures Rest() == if ok then old(Rest())[UUID_SIZE + BINARY_SIZE * header.size..] else []
    {
      hide BinaryAt, ObjectsAt, Number;
      objects := [];
      uuid := Read(UUID_SIZE);
      ok := |uuid| == UUID_SIZE;
      if !ok {
        return;
      }
      ghost var all := Rest();
      NoObjects(all);
      assert all == old(Rest())[UUID_SIZE..];
      for i := 0 to header.size
        invariant Valid() && |all| >= BINARY_SIZE * i && ok
        invariant objects == ObjectsAt(all, i) && Rest() == all[BINARY_SIZE * i..]
      {
        var bytes := Read(BINARY_SIZE);
        if |bytes| != BINARY_SIZE {
          assert |all| < BINARY_SIZE * header.size;
          ok := false;
          return;
        }
        NextObject(all, i);
        assert bytes == all[BINARY_SIZE * i..][..BINARY_SIZE];
        objects := objects + [BinaryAt(bytes)];
      }
    }

    /** One turn of a player: a header alone, a whole frame, or nothing when a word is skipped, a record is cut off, a
        header has no flags, or the end has come. */
    method PlayNext() returns (found: seq<Record>)
      requires Valid() && !IsEof()
      modifies this`position, this`cameShort
      ensures Valid() && (|Rest()| < |old(Rest())| || (Rest() == old(Rest()) && IsEof()))
      ensures Played(old(Rest()), isBuffered) == found + Played(Rest(), isBuffered)
    {
      hide HeaderAt, ObjectsAt, ZeroField, Played;
      found := [];
      var pos := position;
      ghost var rest := Rest();
      var ok, zero, header := GetHeader();
      PlayedTurn(rest, isBuffered);
      if !ok {
        if zero != 0 {
          ZeroOfNothing(rest);
          Seek(pos + 4);
          assert Rest() == rest[Min(4, |rest|)..];
        }
      } else if header.flags != 0 && !IsEof() {
        if header.flags % 256 != FRAME_HEADER {
          found := [HeaderRecord(header)];
        } else {
          var whole, uuid, objects := GetFrame(header);
          if whole {
            found := [FrameRecord(header.flags, header.timestamp, uuid, objects)];
          }
        }
      }
    }

    /** The loop of a player: it plays what the log parses into, except headers without flags and, only when the log is
        buffered, a header that ends it. */
    method Play() returns (records: seq<Record>)
      requires Valid()
      modifies this`position, this`cameShort
      ensures Valid()
      ensures records == Played(old(Rest()), isBuffered)
      ensures !isBuffered ==> records == Heard(Parsed(old(Rest())), false)
    {
      hide Played, Parsed, Heard;
      records := [];
      while !IsEof()
        invariant Valid() && records + Played(Rest(), isBuffered) == Played(old(Rest()), isBuffered)
        decreases |Rest()|, if IsEof() then 0 else 1
      {
        var found := PlayNext();
        Joined(records, found, Played(Rest(), isBuffered));
        records := records + found;
      }
      assert Rest() == [];
      NothingIsPlayed(isBuffered);
      assert records + [] == records;
      PlayedIsParsed(old(Rest()));
    }

    /** The next frame or start from the position on; its time since the beginning of the log, or zero. */
    method Sync() returns (time: nat)
      requires Valid() && beginTime < U64
      modifies this`position, this`cameShort, this`currentTime
      ensures Valid()
      ensures !isOpen ==> time == 0 && position == old(position)
      ensures isOpen ==>
        var p := SyncFrom(contents, old(position));
        if p < 0 then time == 0
        else
          p <= |contents| - HEADER_SIZE && position == p &&
          time == currentTime == (HeaderAt(contents[p..]).timestamp - beginTime) % U64
    {
      hide HeaderAt;
      if !isOpen {
        return 0;
      }
      var timestamp := 0;
      while true
        invariant Valid()
        invariant SyncFrom(contents, old(position)) == SyncFrom(contents, position)
        decreases |contents| - position
      {
        var pos := position;
        var bytes := Read(HEADER_SIZE);
        if |bytes| != HEADER_SIZE {
          return 0;
        }
        var header := HeaderAt(bytes);
        SameHeader(contents[pos..]);
        if header.zero == 0 && (header.flags % 256 == FRAME_HEADER || header.flags % 256 == START_HEADER) {
          timestamp := header.timestamp;
          Seek(pos);
          break;
        }
        // A whole header was read, so the next word is still in the log and the end has not come.
        Seek(pos + 4);
      }
      currentTime := (timestamp - beginTime) % U64;
      return currentTime;
    }

    /** The time of the first header that has one, headers being looked for one after another from the start. */
    method FindBegin() returns (success: bool)
      requires Valid() && isOpen && position == 0
      modifies this`position, this`cameShort, this`beginTime
      ensures Valid() && position == 0 && !cameShort
      ensures beginTime == BeginOf(contents) && (success <==> BeginOf(contents) != 0)
    {
      hide HeaderAt, ZeroField;
      beginTime, success := 0, true;
      while beginTime == 0 && success
        invariant Valid()
        invariant BeginOf(contents) == if beginTime == 0 && success then BeginOf(Rest()) else beginTime
        invariant beginTime != 0 ==> success
        decreases success, |Rest()|
      {
        var header;
        var zero;
        success, zero, header := GetHeader();
        if success {
          beginTime := header.timestamp;
        }
      }
      Seek(0);
    }

    /** Opens a log held in memory; it begins at the first timestamp that is not zero. */
    method OpenBuffer(bytes: seq<byte>) returns (ok: bool)
      modifies this
      ensures Valid() && ok == isOpen == (bytes != [])
      ensures ok ==> isBuffered && contents == bytes && position == 0 && beginTime == BeginOf(bytes)
      ensures !ok ==> isBuffered == old(isBuffered) && beginTime == old(beginTime)
    {
      isOpen, contents, position, cameShort := false, [], 0, false;
      if |bytes| == 0 {
        return false;
      }
      isBuffered, contents, isOpen := true, bytes, true;
      var success := FindBegin();
      return true;
    }

    /** Opens a file that may be missing; without a timestamp that is not zero it counts as not opened, though it can
        be read. */
    method Open(file: Option<seq<byte>>) returns (ok: bool)
      modifies this
      ensures Valid() && isBuffered == old(isBuffered) && (isOpen <==> file.Some?)
      ensures ok <==> file.Some? && BeginOf(file.value) != 0
      ensures file.Some? ==> contents == file.value && position == 0 && !cameShort && beginTime == BeginOf(file.value)
    {
      isOpen, contents, position, cameShort := false, [], 0, false;
      if file.None? {
        return false;
      }
      contents, isOpen := file.value, true;
      ok := FindBegin();
    }
  }

  // ---- where a log begins ----

  /** The time of the first of the headers at the start that has one. */
  function BeginOf(s: seq<byte>): nat
    decreases |s|
  {
    if |s| < HEADER_SIZE || ZeroField(s) != 0 then 0
    else if HeaderAt(s).timestamp != 0 then HeaderAt(s).timestamp
    else BeginOf(s[HEADER_SIZE..])
  }

  function TimeOf(r: Record): nat {
    match r
    case HeaderRecord(h) => h.timestamp
    case FrameRecord(_, timestamp, _, _) => timestamp
  }

  /** A log that was written begins at its first header with a time, if only headers precede it. */
  lemma {:induction false} BeginOfLog(records: seq<Record>, k: nat)
    requires k < |records| && forall i :: 0 <= i <= k ==> RecordFits(records[i])
    requires forall i :: 0 <= i < k ==> records[i].HeaderRecord? && TimeOf(records[i]) == 0
    requires TimeOf(records[k]) != 0
    ensures BeginOf(Encoded(records)) == TimeOf(records[k])
  {
    hide HeaderAt, HeaderBytes, ZeroField, ObjectsAt, ObjectsBytes;
    var r, more := records[0], Encoded(records[1..]);
    if r.HeaderRecord? {
      HeaderRoundTrip(r.header, more);
      assert (HeaderBytes(r.header) + more)[HEADER_SIZE..] == more;
    } else {
      FrameParts(r, more);
    }
    if k > 0 {
      BeginOfLog(records[1..], k - 1);
    }
  }

  // ---- what a player plays ----

  /** What a player makes of some bytes: it parses them, but takes no notice of a header whose flags are zero, nor of
      one that ends a buffered log. */
  function Played(s: seq<byte>, buffered: bool): seq<Record>
    decreases |s|
  {
    if s == [] then []
    else if ZeroField(s) != 0 then Played(s[Min(4, |s|)..], buffered)
    else if |s| < HEADER_SIZE then []
    else
      var h, rest := HeaderAt(s), s[HEADER_SIZE..];
      if h.flags == 0 || (buffered && rest == []) then Played(rest, buffered)
      else if h.flags % 256 != FRAME_HEADER then [HeaderRecord(h)] + Played(rest, buffered)
      else if |rest| < UUID_SIZE + BINARY_SIZE * h.size then []
      else [FrameAt(h, rest)] + Played(rest[UUID_SIZE + BINARY_SIZE * h.size..], buffered)
  }

  function FrameAt(h: Header, rest: seq<byte>): Record
    requires |rest| >= UUID_SIZE + BINARY_SIZE * h.size
  {
    FrameRecord(h.flags, h.timestamp, rest[..UUID_SIZE], ObjectsAt(rest[UUID_SIZE..], h.size))
  }

  /** One turn of a player on bytes that are left. */
  lemma PlayedTurn(s: seq<byte>, buffered: bool)
    ensures ZeroField(s) != 0 ==> Played(s, buffered) == Played(s[Min(4, |s|)..], buffered)
    ensures ZeroField(s) == 0 && |s| < HEADER_SIZE ==> Played(s, buffered) == []
    ensures Played([], buffered) == []
    ensures ZeroField(s) == 0 && |s| >= HEADER_SIZE ==> HeaderIsPlayed(s, buffered)
  {
    hide HeaderAt, ObjectsAt;
    if s == [] {
      ZeroOfNothing(s);
    } else if ZeroField(s) == 0 && |s| >= HEADER_SIZE {
      HeaderTurn(s, buffered);
    }
  }

  predicate HeaderIsPlayed(s: seq<byte>, buffered: bool)
    requires |s| >= HEADER_SIZE
  {
    var h, rest := HeaderAt(s), s[HEADER_SIZE..];
    Played(s, buffered) ==
      if h.flags == 0 || (buffered && rest == []) then Played(rest, buffered)
      else if h.flags % 256 != FRAME_HEADER then [HeaderRecord(h)] + Played(rest, buffered)
      else if |rest| < UUID_SIZE + BINARY_SIZE * h.size then []
      else [FrameAt(h, rest)] + Played(rest[UUID_SIZE + BINARY_SIZE * h.size..], buffered)
  }

  lemma HeaderTurn(s: seq<byte>, buffered: bool)
    requires |s| >= HEADER_SIZE && ZeroField(s) == 0
    ensures HeaderIsPlayed(s, buffered)
  {
    hide HeaderAt, ZeroField, ObjectsAt;
  }

  lemma ZeroOfNothing(s: seq<byte>)
    ensures ZeroField(s) != 0 ==> s != []
  {
  }

  lemma NothingIsPlayed(buffered: bool)
    ensures Played([], buffered) == []
  {
  }

  /** A record is passed over if it is a header without flags, or one that ends a buffered log. */
  predicate PassedOver(r: Record, ends: bool) {
    r.HeaderRecord? && (r.header.flags == 0 || ends)
  }

  function Heard(records: seq<Record>, buffered: bool): seq<Record> {
    if records == [] then []
    else
      (if PassedOver(records[0], buffered && |records| == 1) then [] else [records[0]]) + Heard(records[1..], buffered)
  }

  /** From a file a player plays every header and frame the bytes parse into, the last one included, except headers
      without flags. */
  lemma {:induction false} PlayedIsParsed(s: seq<byte>)
    ensures Played(s, false) == Heard(Parsed(s), false)
    decreases |s|
  {
    hide HeaderAt, ZeroField, ObjectsAt;
    if s != [] {
      if ZeroField(s) != 0 {
        PlayedIsParsed(s[Min(4, |s|)..]);
      } else if |s| >= HEADER_SIZE {
        var h, rest := HeaderAt(s), s[HEADER_SIZE..];
        if h.flags % 256 != FRAME_HEADER {
          PlayedIsParsed(rest);
          HeardFirst(HeaderRecord(h), Parsed(rest));
        } else if |rest| >= UUID_SIZE + BINARY_SIZE * h.size {
          PlayedIsParsed(rest[UUID_SIZE + BINARY_SIZE * h.size..]);
          HeardFirst(FrameAt(h, rest), Parsed(rest[UUID_SIZE + BINARY_SIZE * h.size..]));
        }
      }
    }
  }

  lemma HeardFirst(r: Record, records: seq<Record>)
    ensures Heard([r] + records, false) == (if PassedOver(r, false) then [] else [r]) + Heard(records, false)
  {
    assert ([r] + records)[1..] == records;
  }

  lemma PutIsPlayed(r: Record, more: seq<byte>, buffered: bool)
    requires RecordFits(r) && Counts(r)
    ensures Played(Put(r) + more, buffered) ==
      (if PassedOver(r, buffered && more == []) then [] else [r]) + Played(more, buffered)
  {
    hide HeaderAt, HeaderBytes, ZeroField, ObjectsAt, ObjectsBytes, Played;
    var s := Put(r) + more;
    if r.HeaderRecord? {
      HeaderRoundTrip(r.header, more);
      HeaderTurn(s, buffered);
      assert s[HEADER_SIZE..] == more;
      assert [] + Played(more, buffered) == Played(more, buffered);
    } else {
      FrameParts(r, more);
      HeaderTurn(s, buffered);
      assert r.objects[..|r.objects|] == r.objects;
    }
  }

  /** Of a log that was written a player plays all records in order, except headers without flags and, only when the log
      is buffered, a header that ends it. */
  lemma {:induction false} WrittenIsHeard(records: seq<Record>, buffered: bool)
    requires forall k :: 0 <= k < |records| ==> RecordFits(records[k]) && Counts(records[k])
    ensures Played(Encoded(records), buffered) == Heard(records, buffered)
  {
    hide Put, Played;
    if records == [] {
      NothingIsPlayed(buffered);
    } else {
      PutIsPlayed(records[0], Encoded(records[1..]), buffered);
      WrittenIsHeard(records[1..], buffered);
    }
  }

  /** All of it is played iff every header has flags and the log, if it is buffered, ends with a frame. */
  lemma {:induction false} AllIsHeardIff(records: seq<Record>, buffered: bool)
    ensures |Heard(records, buffered)| <= |records|
    ensures Heard(records, buffered) == records <==>
      (forall k :: 0 <= k < |records| && records[k].HeaderRecord? ==> records[k].header.flags != 0) &&
      (buffered && records != [] ==> records[|records| - 1].FrameRecord?)
  {
    if records != [] {
      var rest := records[1..];
      AllIsHeardIff(rest, buffered);
      assert records == [records[0]] + rest;
    }
  }

  lemma Joined<T>(a: seq<T>, b: seq<T>, c: seq<T>)
    ensures a + b + c == a + (b + c)
  {
  }

  lemma NothingEncoded()
    ensures Encoded([]) == []
  {
  }

  lemma NoObjects(s: seq<byte>)
    ensures ObjectsAt(s, 0) == []
  {
  }

  lemma SameHeader(s: seq<byte>)
    requires |s| >= HEADER_SIZE
    ensures HeaderAt(s[..HEADER_SIZE]) == HeaderAt(s)
  {
    hide Number;
    var t := s[..HEADER_SIZE];
    assert t[..4] == s[..4] && t[4..6] == s[4..6] && t[6..8] == s[6..8] && t[8..16] == s[8..16];
  }

  lemma {:induction false} NextObject(s: seq<byte>, n: nat)
    requires |s| >= BINARY_SIZE * (n + 1)
    ensures ObjectsAt(s, n + 1) == ObjectsAt(s, n) + [BinaryAt(s[BINARY_SIZE * n..][..BINARY_SIZE])]
    ensures s[BINARY_SIZE * n..][BINARY_SIZE..] == s[BINARY_SIZE * (n + 1)..]
  {
    hide BinaryAt;
    if n == 0 {
      SameObject(s);
    } else {
      var rest := s[BINARY_SIZE..];
      NextObject(rest, n - 1);
      assert rest[BINARY_SIZE * (n - 1)..] == s[BINARY_SIZE * n..];
    }
  }

  lemma SameObject(s: seq<byte>)
    requires |s| >= BINARY_SIZE
    ensures BinaryAt(s[..BINARY_SIZE]) == BinaryAt(s) && s[BINARY_SIZE * 0..] == s
  {
    hide Number;
    var t := s[..BINARY_SIZE];
    assert t[..4] == s[..4] && t[4..6] == s[4..6] && t[6..8] == s[6..8] && t[8..10] == s[8..10] &&
      t[10..12] == s[10..12];
  }

  /** What was appended to an empty file is played back by a player that opens it: all of it, the header that ends it
      included, if every header has flags.  An empty log, or one that does not begin with a time, is not opened; what
      the constructors make always is. */
  method WriteAndPlay(records: seq<Record>) returns (ok: bool, back: seq<Record>)
    requires forall k :: 0 <= k < |records| ==> RecordFits(records[k]) && Counts(records[k])
    ensures ok <==> BeginOf(Encoded(records)) != 0
    ensures ok ==> (back == records <==>
              forall k :: 0 <= k < |records| && records[k].HeaderRecord? ==> records[k].header.flags != 0)
    ensures (forall k :: 0 <= k < |records| ==> Made(records[k])) ==> back == records && (ok <==> records != [])
  {
    hide Made, BeginOf, Played, Parsed, Heard;
    var output := new OFile();
    output.PutAll(records);
    WrittenIsHeard(records, false);
    AllIsHeardIff(records, false);
    MadeIsOpened(records);
    assert [] + Encoded(records) == Encoded(records);
    var input := new IFile(false);
    ok := input.Open(Some(output.contents));
    back := [];
    if ok {
      back := input.Play();
    }
  }

  lemma MadeIsOpened(records: seq<Record>)
    ensures (forall k :: 0 <= k < |records| ==> Made(records[k])) ==>
      && (BeginOf(Encoded(records)) != 0 <==> records != [])
      && (forall k :: 0 <= k < |records| && records[k].HeaderRecord? ==> records[k].header.flags != 0)
  {
    hide HeaderAt, ZeroField, Put;
    if records != [] && Made(records[0]) {
      BeginOfLog(records, 0);
    }
  }
}
