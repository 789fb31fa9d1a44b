/** The packed binary log: how records are laid out in bytes, and how they are read back. */
module PackedLog {
  import opened Common

  const FRAME_HEADER := 1
  const START_HEADER := 2
  const STOP_HEADER := 3
  const VERSION2 := 0x100
  const HEADER_SIZE := 16
  const UUID_SIZE := 16
  const BINARY_SIZE := 12

  type byte = b: int | 0 <= b < 256

  datatype Header = Header(zero: nat, flags: nat, size: nat, timestamp: nat)

  datatype Binary = Binary(tid: nat, x: int, y: int, size: nat, flags: nat)

  /** What is written to a log: a header that stands alone, or a frame with its objects. */
  datatype Record =
    | HeaderRecord(header: Header)
    | FrameRecord(flags: nat, timestamp: nat, uuid: seq<byte>, objects: seq<Binary>)

  // ---- numbers in bytes, the lowest first ----

  function Bytes2(n: nat): (s: seq<byte>)
    ensures |s| == 2
  {
    [n % 256, n / 256 % 256]
  }

  function Bytes4(n: nat): (s: seq<byte>)
    ensures |s| == 4
  {
    Bytes2(n % U16) + Bytes2(n / U16)
  }

  function Bytes8(n: nat): (s: seq<byte>)
    ensures |s| == 8
  {
    Bytes4(n % U32) + Bytes4(n / U32)
  }

  function Number(s: seq<byte>): nat {
    if s == [] then 0 else s[0] + 256 * Number(s[1..])
  }

  lemma NumberOfTwo(n: nat)
    requires n < U16
    ensures Number(Bytes2(n)) == n
  {
    var s := Bytes2(n);
    assert s[1..][1..] == [];
    assert Number(s[1..]) == s[1];
  }

  lemma {:induction false} NumberOfBoth(s: seq<byte>, t: seq<byte>)
    ensures Number(s + t) == Number(s) + Power(|s|) * Number(t)
  {
    if s == [] {
      assert s + t == t;
    } else {
      assert (s + t)[1..] == s[1..] + t;
      NumberOfBoth(s[1..], t);
      Distribute(Number(s[1..]), Power(|s| - 1), Number(t));
    }
  }

  function Power(k: nat): nat {
    if k == 0 then 1 else 256 * Power(k - 1)
  }

  lemma Distribute(a: nat, p: nat, b: nat)
    ensures 256 * (a + p * b) == 256 * a + (256 * p) * b
  {
  }

  lemma NumberOfFour(n: nat)
    requires n < U32
    ensures Number(Bytes4(n)) == n
  {
    NumberOfTwo(n % U16);
    NumberOfTwo(n / U16);
    NumberOfBoth(Bytes2(n % U16), Bytes2(n / U16));
    assert Power(2) == U16;
  }

  lemma NumberOfEight(n: nat)
    requires n < U64
    ensures Number(Bytes8(n)) == n
  {
    NumberOfFour(n % U32);
    NumberOfFour(n / U32);
    NumberOfBoth(Bytes4(n % U32), Bytes4(n / U32));
    assert Power(4) == U32 by {
      assert Power(3) == 256 * Power(2);
    }
  }

  /** A number is zero when all its bytes are. */
  lemma {:induction false} ZeroBytes(s: seq<byte>)
    ensures Number(s) == 0 <==> forall k :: 0 <= k < |s| ==> s[k] == 0
  {
    if s != [] {
      ZeroBytes(s[1..]);
      assert forall k :: 1 <= k < |s| ==> s[k] == s[1..][k - 1];
    }
  }

  /** Two's complement in 16 bits. */
  function Unsigned(v: int): nat {
    v % U16
  }

  function Signed(n: nat): int {
    if n < U16 / 2 then n else n - U16
  }

  // ---- writing ----

  function HeaderBytes(h: Header): (s: seq<byte>)
    ensures |s| == HEADER_SIZE
  {
    Bytes4(h.zero) + (Bytes2(h.flags) + Bytes2(h.size)) + Bytes8(h.timestamp)
  }

  function BinaryBytes(b: Binary): (s: seq<byte>)
    ensures |s| == BINARY_SIZE
  {
    Bytes4(b.tid) + (Bytes2(Unsigned(b.x)) + Bytes2(Unsigned(b.y))) + (Bytes2(b.size) + Bytes2(b.flags))
  }

  function ObjectsBytes(objects: seq<Binary>): (s: seq<byte>)
    ensures |s| == BINARY_SIZE * |objects|
  {
    if objects == [] then [] else BinaryBytes(objects[0]) + ObjectsBytes(objects[1..])
  }

  /** The header of a frame has 16 bits for the number of objects. */
  function FrameHeaderOf(r: Record): Header
    requires r.FrameRecord?
  {
    Header(0, r.flags, |r.objects| % U16, r.timestamp)
  }

  function Put(r: Record): (s: seq<byte>)
    ensures |s| >= HEADER_SIZE
  {
    match r
    case HeaderRecord(h) => HeaderBytes(h)
    case FrameRecord(_, _, uuid, objects) => HeaderBytes(FrameHeaderOf(r)) + (uuid + ObjectsBytes(objects))
  }

  function Encoded(records: seq<Record>): seq<byte> {
    if records == [] then [] else Put(records[0]) + Encoded(records[1..])
  }

  lemma {:induction false} EncodedAppends(records: seq<Record>, r: Record)
    ensures Encoded(records + [r]) == Encoded(records) + Put(r)
  {
    hide Put;
    if records == [] {
      assert records + [r] == [r] && [r][1..] == [];
      assert Encoded([r]) == Put(r) + Encoded([]);
    } else {
      EncodedAppends(records[1..], r);
      assert (records + [r])[1..] == records[1..] + [r];
      assert Put(records[0]) + (Encoded(records[1..]) + Put(r)) == Put(records[0]) + Encoded(records[1..]) + Put(r);
    }
  }

  // ---- reading ----

  function HeaderAt(s: seq<byte>): Header
    requires |s| >= HEADER_SIZE
  {
    Header(Number(s[..4]), Number(s[4..6]), Number(s[6..8]), Number(s[8..16]))
  }

  function BinaryAt(s: seq<byte>): Binary
    requires |s| >= BINARY_SIZE
  {
    Binary(Number(s[..4]), Signed(Number(s[4..6])), Signed(Number(s[6..8])), Number(s[8..10]), Number(s[10..12]))
  }

  function ObjectsAt(s: seq<byte>, n: nat): (r: seq<Binary>)
    requires |s| >= BINARY_SIZE * n
    ensures |r| == n
  {
    if n == 0 then [] else [BinaryAt(s)] + ObjectsAt(s[BINARY_SIZE..], n - 1)
  }

  function Min(a: nat, b: nat): nat {
    if a < b then a else b
  }

  /** The first field of a header of which fewer bytes may be left: missing bytes are zero. */
  function ZeroField(s: seq<byte>): nat {
    Number(s[..Min(4, |s|)])
  }

  /** The records found in some bytes: a word that is not zero is skipped, a record that is cut off ends the log. */
  function Parsed(s: seq<byte>): seq<Record>
    decreases |s|
  {
    if s == [] then []
    else if ZeroField(s) != 0 then Parsed(s[Min(4, |s|)..])
    else if |s| < HEADER_SIZE then []
    else
      var h, rest := HeaderAt(s), s[HEADER_SIZE..];
      if h.flags % 256 != FRAME_HEADER then [HeaderRecord(h)] + Parsed(rest)
      else if |rest| < UUID_SIZE + BINARY_SIZE * h.size then []
      else
        [FrameRecord(h.flags, h.timestamp, rest[..UUID_SIZE], ObjectsAt(rest[UUID_SIZE..], h.size))] +
        Parsed(rest[UUID_SIZE + BINARY_SIZE * h.size..])
  }

  // ---- round trips ----

  predicate HeaderFits(h: Header) {
    h.zero < U32 && h.flags < U16 && h.size < U16 && h.timestamp < U64
  }

  predicate BinaryFits(b: Binary) {
    b.tid < U32 && -0x8000 <= b.x < 0x8000 && -0x8000 <= b.y < 0x8000 && b.size < U16 && b.flags < U16
  }

  lemma HeaderRoundTrip(h: Header, more: seq<byte>)
    requires HeaderFits(h)
    ensures HeaderAt(HeaderBytes(h) + more) == h
    ensures h.zero == 0 ==> ZeroField(HeaderBytes(h) + more) == 0
  {
    hide Number, Bytes2, Bytes4, Bytes8;
    var s := HeaderBytes(h) + more;
    NumberOfFour(h.zero);
    NumberOfTwo(h.flags);
    NumberOfTwo(h.size);
    NumberOfEight(h.timestamp);
    assert s[..4] == Bytes4(h.zero) && s[4..6] == Bytes2(h.flags) && s[6..8] == Bytes2(h.size) &&
      s[8..16] == Bytes8(h.timestamp);
  }

  lemma BinaryRoundTrip(b: Binary, more: seq<byte>)
    requires BinaryFits(b)
    ensures BinaryAt(BinaryBytes(b) + more) == b
  {
    hide Number, Bytes2, Bytes4;
    var s := BinaryBytes(b) + more;
    NumberOfFour(b.tid);
    NumberOfTwo(Unsigned(b.x));
    NumberOfTwo(Unsigned(b.y));
    NumberOfTwo(b.size);
    NumberOfTwo(b.flags);
    assert s[..4] == Bytes4(b.tid) && s[4..6] == Bytes2(Unsigned(b.x)) && s[6..8] == Bytes2(Unsigned(b.y));
    assert s[8..10] == Bytes2(b.size) && s[10..12] == Bytes2(b.flags);
  }

  lemma {:induction false} ObjectsRoundTrip(objects: seq<Binary>, n: nat, more: seq<byte>)
    requires n <= |objects| && forall k :: 0 <= k < |objects| ==> BinaryFits(objects[k])
    ensures ObjectsAt(ObjectsBytes(objects) + more, n) == objects[..n]
  {
    hide BinaryAt, BinaryBytes;
    if n > 0 {
      var rest := ObjectsBytes(objects[1..]) + more;
      BinaryRoundTrip(objects[0], rest);
      assert ObjectsBytes(objects) + more == BinaryBytes(objects[0]) + rest;
      assert (BinaryBytes(objects[0]) + rest)[BINARY_SIZE..] == rest;
      ObjectsRoundTrip(objects[1..], n - 1, more);
      assert objects[..n] == [objects[0]] + objects[1..][..n - 1];
    }
  }

  /** A record whose fields have the width of the format; nothing is said about the number of objects. */
  predicate RecordFits(r: Record) {
    match r
    case HeaderRecord(h) => HeaderFits(h) && h.zero == 0 && h.flags % 256 != FRAME_HEADER
    case FrameRecord(flags, timestamp, uuid, objects) =>
      && flags < U16 && flags % 256 == FRAME_HEADER && timestamp < U64 && |uuid| == UUID_SIZE
      && forall k :: 0 <= k < |objects| ==> BinaryFits(objects[k])
  }

  predicate Counts(r: Record) {
    r.FrameRecord? ==> |r.objects| < U16
  }

  lemma FrameParses(r: Record, s: seq<byte>)
    requires RecordFits(r) && r.FrameRecord?
    requires |s| >= HEADER_SIZE && ZeroField(s) == 0 && HeaderAt(s) == FrameHeaderOf(r)
    requires var n, rest := |r.objects| % U16, s[HEADER_SIZE..];
      |rest| >= UUID_SIZE + BINARY_SIZE * n && rest[..UUID_SIZE] == r.uuid &&
        ObjectsAt(rest[UUID_SIZE..], n) == r.objects[..n]
    ensures var n := |r.objects| % U16;
      Parsed(s) == [r.(objects := r.objects[..n])] + Parsed(s[HEADER_SIZE..][UUID_SIZE + BINARY_SIZE * n..])
  {
    hide HeaderAt, ObjectsAt, ZeroField, BinaryFits;
  }

  /** Where the parts of a written frame are found again. */
  lemma FrameParts(r: Record, more: seq<byte>)
    requires RecordFits(r) && r.FrameRecord?
    ensures var s, n := Put(r) + more, |r.objects| % U16; var rest := s[HEADER_SIZE..];
      && ZeroField(s) == 0 && HeaderAt(s) == FrameHeaderOf(r)
      && |rest| >= UUID_SIZE + BINARY_SIZE * n && rest[..UUID_SIZE] == r.uuid
      && ObjectsAt(rest[UUID_SIZE..], n) == r.objects[..n]
      && rest[UUID_SIZE + BINARY_SIZE * |r.objects|..] == more
  {
    hide HeaderAt, HeaderBytes, ObjectsAt, ObjectsBytes, ZeroField;
    var h, n := FrameHeaderOf(r), |r.objects| % U16;
    var body := ObjectsBytes(r.objects) + more;
    HeaderRoundTrip(h, r.uuid + body);
    ObjectsRoundTrip(r.objects, n, more);
    assert Put(r) + more == HeaderBytes(h) + (r.uuid + body);
    assert (HeaderBytes(h) + (r.uuid + body))[HEADER_SIZE..] == r.uuid + body;
    assert (r.uuid + body)[..UUID_SIZE] == r.uuid && (r.uuid + body)[UUID_SIZE..] == body;
    assert (r.uuid + body)[UUID_SIZE + BINARY_SIZE * |r.objects|..] == body[BINARY_SIZE * |r.objects|..] == more;
  }

  lemma HeaderParses(r: Record, more: seq<byte>)
    requires RecordFits(r) && r.HeaderRecord?
    ensures Parsed(Put(r) + more) == [r] + Parsed(more)
  {
    hide HeaderAt, HeaderBytes, ZeroField, ObjectsAt;
    HeaderRoundTrip(r.header, more);
    assert (HeaderBytes(r.header) + more)[HEADER_SIZE..] == more;
  }

  lemma PutParses(r: Record, more: seq<byte>)
    requires RecordFits(r) && Counts(r)
    ensures Parsed(Put(r) + more) == [r] + Parsed(more)
  {
    hide Put, Parsed, HeaderAt, ObjectsAt, ZeroField;
    if r.HeaderRecord? {
      HeaderParses(r, more);
    } else {
      FrameParts(r, more);
      FrameParses(r, Put(r) + more);
      assert r.objects[..|r.objects|] == r.objects;
    }
  }

  /** Whatever list of records was written, reading it back gives the same records in order. */
  lemma {:induction false} RoundTrip(records: seq<Record>)
    requires forall k :: 0 <= k < |records| ==> RecordFits(records[k]) && Counts(records[k])
    ensures Parsed(Encoded(records)) == records
  {
    hide Put, Parsed;
    if records != [] {
      PutParses(records[0], Encoded(records[1..]));
      RoundTrip(records[1..]);
    } else {
      NothingParses();
    }
  }

  lemma NothingParses()
    ensures Parsed([]) == []
  {
  }

  /** A frame comes back as it was iff its number of objects fits in 16 bits; of a larger one only so many objects
      come back as the remainder says. */
  lemma FrameRoundTripsIff(r: Record, more: seq<byte>)
    requires RecordFits(r) && r.FrameRecord?
    ensures var p := Parsed(Put(r) + more);
      && p != [] && p[0] == r.(objects := r.objects[..|r.objects| % U16])
      && (p[0] == r <==> |r.objects| < U16)
  {
    hide Put, Parsed, HeaderAt, ObjectsAt, ZeroField;
    FrameParts(r, more);
    FrameParses(r, Put(r) + more);
    if |r.objects| < U16 {
      assert r.objects[..|r.objects|] == r.objects;
    }
  }

  // ---- what the constructors make ----

  /** The flags with the version set; a timestamp whose low word is zero is made odd. */
  function NewHeader(timestamp: nat, flags: nat): Header {
    Header(0, if flags / 256 % 2 == 1 then flags else flags + VERSION2, 0,
           if timestamp % U32 == 0 then timestamp + 1 else timestamp)
  }

  /** The conversion of a float to an integer drops the fraction. */
  function Truncated(v: real): int {
    if v >= 0.0 then v.Floor else -((-v).Floor)
  }

  function NotZero(v: int): int {
    if v == 0 then 1 else v
  }

  predicate InRange(v: real) {
    -32769.0 < v * 100.0 < 32768.0
  }

  predicate SizeInRange(v: real) {
    -1.0 < v * 100.0 < 65536.0
  }

  /** An object added to a frame; its id passes through a 16-bit parameter. */
  function NewBinary(tid: nat, x: real, y: real, size: real, flags: nat): (b: Binary)
    requires InRange(x) && InRange(y) && SizeInRange(size) && flags < U16
    ensures BinaryFits(b) && b.x != 0 && b.y != 0 && b.size != 0
  {
    Binary(tid % U16, NotZero(Truncated(x * 100.0)), NotZero(Truncated(y * 100.0)), NotZero(Truncated(size * 100.0)),
           flags)
  }

  function Decoded(v: int): real {
    v as real / 100.0
  }

  function Distance(a: real, b: real): real {
    if a < b then b - a else a - b
  }

  lemma CoordinatePrecision(v: real)
    ensures var d := Decoded(NotZero(Truncated(v * 100.0)));
      && Distance(v, d) < 0.02 && d != 0.0
      && (Distance(v, 0.0) >= 0.01 ==> Distance(v, d) < 0.01)
  {
    var n := Truncated(v * 100.0);
    if v >= 0.0 {
      assert n as real <= v * 100.0 < (n + 1) as real;
    } else {
      assert n as real - 1.0 < v * 100.0 <= n as real;
    }
  }

  /** Decoded coordinates and sizes are off by less than two centimetres, by less than one unless the value was that
      small itself; they are never zero.  The id survives iff it fits in 16 bits. */
  lemma DecodedPrecision(tid: nat, x: real, y: real, size: real, flags: nat, more: seq<byte>)
    requires InRange(x) && InRange(y) && SizeInRange(size) && flags < U16
    ensures var b := BinaryAt(BinaryBytes(NewBinary(tid, x, y, size, flags)) + more);
      && Distance(x, Decoded(b.x)) < 0.02 && Distance(y, Decoded(b.y)) < 0.02 && Distance(size, Decoded(b.size)) < 0.02
      && b.flags == flags && (b.tid == tid <==> tid < U16)
  {
    BinaryRoundTrip(NewBinary(tid, x, y, size, flags), more);
    CoordinatePrecision(x);
    CoordinatePrecision(y);
    CoordinatePrecision(size);
  }

  // ---- where everything is ----

  /** Two bytes, the lowest first. */
  lemma TwoBytes(n: nat)
    requires n < U16
    ensures Bytes2(n)[0] == n % 256 && Bytes2(n)[1] == n / 256
  {
  }

  /** Four bytes, the lowest first. */
  lemma FourBytes(n: nat)
    requires n < U32
    ensures Bytes4(n)[0] == n % 256 && Bytes4(n)[1] == n / 256 % 256
    ensures Bytes4(n)[2] == n / 0x1_0000 % 256 && Bytes4(n)[3] == n / 0x100_0000
  {
    Digits(n);
  }

  lemma Digits(n: nat)
    requires n < U32
    ensures n % U16 % 256 == n % 256 && n % U16 / 256 == n / 256 % 256 && n / U16 / 256 == n / 0x100_0000
  {
  }

  /** The bytes of a header: a zero word, the flags and the size in two bytes each, the low and the high word of the
      timestamp. */
  lemma HeaderLayout(h: Header)
    requires HeaderFits(h)
    ensures var s := HeaderBytes(h);
      && s[..4] == Bytes4(h.zero) && s[4..6] == Bytes2(h.flags) && s[6..8] == Bytes2(h.size)
      && s[8..12] == Bytes4(h.timestamp % U32) && s[12..16] == Bytes4(h.timestamp / U32)
  {
    hide Bytes4, Bytes2;
  }

  /** The bytes of an object: its id in four, then x and y in two's complement, the size and the flags in two each. */
  lemma BinaryLayout(b: Binary)
    requires BinaryFits(b)
    ensures var s := BinaryBytes(b);
      && s[..4] == Bytes4(b.tid) && s[8..10] == Bytes2(b.size) && s[10..12] == Bytes2(b.flags)
      && s[4..6] == Bytes2(if b.x < 0 then b.x + 0x1_0000 else b.x)
      && s[6..8] == Bytes2(if b.y < 0 then b.y + 0x1_0000 else b.y)
  {
    hide Bytes2, Bytes4, Unsigned;
    TwosComplement(b.x);
    TwosComplement(b.y);
  }

  lemma TwosComplement(v: int)
    requires -0x8000 <= v < 0x8000
    ensures Unsigned(v) == if v < 0 then v + 0x1_0000 else v
  {
  }

  /** The bytes of a frame: its header with the number of objects, its uuid, its objects. */
  lemma FrameLayout(r: Record, k: nat)
    requires r.FrameRecord? && |r.uuid| == UUID_SIZE && |r.objects| < U16 && k < |r.objects|
    ensures var s, at := Put(r), HEADER_SIZE + UUID_SIZE + BINARY_SIZE * k;
      && s[..HEADER_SIZE] == HeaderBytes(Header(0, r.flags, |r.objects|, r.timestamp))
      && s[HEADER_SIZE..HEADER_SIZE + UUID_SIZE] == r.uuid
      && at + BINARY_SIZE <= |s| && s[at..at + BINARY_SIZE] == BinaryBytes(r.objects[k])
  {
    hide HeaderBytes, BinaryBytes;
    ObjectLayout(r.objects, k);
    var s, all := Put(r), ObjectsBytes(r.objects);
    var at := HEADER_SIZE + UUID_SIZE + BINARY_SIZE * k;
    assert s[HEADER_SIZE + UUID_SIZE..] == all;
    assert s[at..at + BINARY_SIZE] == all[BINARY_SIZE * k..BINARY_SIZE * (k + 1)];
  }

  lemma {:induction false} ObjectLayout(objects: seq<Binary>, k: nat)
    requires k < |objects|
    ensures ObjectsBytes(objects)[BINARY_SIZE * k..BINARY_SIZE * (k + 1)] == BinaryBytes(objects[k])
  {
    hide BinaryBytes;
    if k > 0 {
      ObjectLayout(objects[1..], k - 1);
      var rest := ObjectsBytes(objects[1..]);
      assert ObjectsBytes(objects)[BINARY_SIZE * k..BINARY_SIZE * (k + 1)] ==
        rest[BINARY_SIZE * (k - 1)..BINARY_SIZE * k];
    }
  }

  /** A new header carries the type it is given and the version, in bit 8 of the flags, has no size, and a timestamp
      that is moved on by one only if its low word is zero. */
  lemma NewHeaderIs(timestamp: nat, flags: nat)
    requires flags < U16
    ensures var h := NewHeader(timestamp, flags);
      && h.zero == 0 && h.size == 0
      && h.flags % 256 == flags % 256 && h.flags / 256 % 2 == 1 && h.flags / 512 == flags / 512
      && (timestamp % 0x1_0000_0000 != 0 ==> h.timestamp == timestamp)
      && (timestamp % 0x1_0000_0000 == 0 ==> h.timestamp == timestamp + 1)
  {
  }

  /** Coordinates are stored in whole centimetres, the fraction dropped towards zero; what would be none is stored as
      one. */
  lemma StoredCentimetres(v: real)
    ensures var n := NotZero(Truncated(v * 100.0));
      && (v >= 0.01 ==> n as real <= v * 100.0 < n as real + 1.0)
      && (v <= -0.01 ==> n as real - 1.0 < v * 100.0 <= n as real)
      && (-0.01 < v < 0.01 ==> n == 1)
  {
  }
}
