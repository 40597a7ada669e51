/** The JTV guide format: a ZIP archive holding, per channel, a `.pdt`
    file of titles and a `.ndx` file of start times (Windows FILETIMEs). */
module Jtv {
  import opened Wrappers
  import opened Text
  import opened Programmes

  newtype byte = x: int | 0 <= x < 256
  type Bytes = seq<byte>

  /** The exceptions that escape `parse_jtv`. */
  datatype JtvError =
    | NotAZipFile                    // zipfile.BadZipFile
    | InvalidJtvFormat               // a `.pdt` file without a JTV header
    | TruncatedLength                // struct.error: fewer than two bytes left for a u16
    | UndecodableTitle               // UnicodeDecodeError from the cp1251 codec
    | TimeOutOfRange                 // OverflowError: a FILETIME past year 9999
    | MissingTitles(chan: string)    // KeyError 'titles': a `.ndx` without a `.pdt`
    | MissingSchedules(chan: string) // KeyError 'schedules': titles without start times
    | ScheduleIndex(chan: string)    // IndexError: more titles than start times

  /** The three single-byte code pages involved, as character tables;
      encoding to cp437 and decoding cp1251 can fail, decoding cp866 cannot. */
  datatype Codecs = Codecs(
    encodeCp437: char -> Option<byte>,
    decodeCp866: byte -> char,
    decodeCp1251: byte -> Option<char>)

  /** The host-dependent part of `filetime_to_datetime`: `epoch` is
      `datetime(1601, 1, 1).timestamp()` in whole seconds and `zoneShift`
      is `3600 * settings["timezone"]`. */
  datatype Clock = Clock(epoch: int, zoneShift: int)

  /** One member of the archive: its (cp437-decoded) name and its bytes. */
  datatype ZipEntry = ZipEntry(name: string, data: Bytes)

  function Min(a: int, b: int): int {
    if a <= b then a else b
  }

  /** `data[0:n]` */
  function Take(data: Bytes, n: nat): Bytes {
    data[..Min(n, |data|)]
  }

  /** `data[n:]` */
  function Drop(data: Bytes, n: nat): Bytes {
    data[Min(n, |data|)..]
  }

  /** A list result with `p` put in front, errors passed through. */
  function Prefixed<T>(p: seq<T>, r: Result<seq<T>, JtvError>): Result<seq<T>, JtvError> {
    match r
    case Ok(v) => Ok(p + v)
    case Err(e) => Err(e)
  }

  lemma PrefixedNil<T>(r: Result<seq<T>, JtvError>)
    ensures Prefixed([], r) == r
  {
    if r.Ok? {
      assert [] + r.value == r.value;
    }
  }

  lemma PrefixedAppend<T>(p: seq<T>, q: seq<T>, r: Result<seq<T>, JtvError>)
    ensures Prefixed(p, Prefixed(q, r)) == Prefixed(p + q, r)
  {
    if r.Ok? {
      assert p + (q + r.value) == (p + q) + r.value;
    }
  }

  // ---------------------------------------------------------------------
  // Integers and time
  // ---------------------------------------------------------------------

  /** The unsigned little-endian integer held by `bs` (`struct.unpack('<H')`, `'<Q'`). */
  function LittleEndian(bs: Bytes): nat
    decreases |bs|
  {
    if bs == [] then 0 else bs[0] as nat + 256 * LittleEndian(bs[1..])
  }

  /** Python's `round(a / d)`: the nearest integer, ties to the even one. */
  function RoundHalfEven(a: int, d: int): (r: int)
    requires d > 0
    ensures -d <= 2 * (a - d * r) <= d
    ensures (2 * (a - d * r) == d || 2 * (a - d * r) == -d) ==> r % 2 == 0
  {
    var q := a / d;
    var m := a % d;
    assert a == d * q + m;
    assert d * (q + 1) == d * q + d;
    if 2 * m < d then q
    else if 2 * m > d then q + 1
    else if q % 2 == 0 then q
    else q + 1
  }

  /** Of two smaller-or-equal values, the nearest multiples of `d` are in
      the same order. */
  lemma NearestMonotone(a: int, b: int, d: int, ra: int, rb: int)
    requires d > 0 && a < b
    requires -d <= 2 * (a - d * ra) && 2 * (b - d * rb) <= d
    ensures ra <= rb
  {
    if ra > rb {
      var k := ra - rb;
      assert d * ra == d * (rb + k);
      Distribute(d, rb, k);
      MulAtLeast(d, k);
    }
  }

  lemma Distribute(d: int, x: int, y: int)
    ensures d * (x + y) == d * x + d * y
  {}

  lemma {:induction false} MulAtLeast(d: int, k: int)
    requires d > 0
    ensures k >= 1 ==> d * k >= d
    decreases k
  {
    if k > 1 {
      MulAtLeast(d, k - 1);
      Distribute(d, k - 1, 1);
    }
  }

  lemma RoundHalfEvenMonotone(a: int, b: int, d: int)
    requires d > 0 && a <= b
    ensures RoundHalfEven(a, d) <= RoundHalfEven(b, d)
  {
    if a < b {
      NearestMonotone(a, b, d, RoundHalfEven(a, d), RoundHalfEven(b, d));
    }
  }

  /** Microseconds from 1601-01-01 00:00 to 9999-12-31 23:59:59.999999,
      the last instant a `datetime` can hold. */
  const MAX_OFFSET_US: int := 265046774399999999

  /** `filetime_to_datetime`: 0 for anything but 8 bytes; otherwise the
      little-endian count of 100 ns ticks since 1601-01-01, rounded to
      microseconds by `timedelta`, turned into seconds since the Unix epoch,
      shifted by the timezone setting and rounded to whole seconds. */
  function FiletimeToTimestamp(time: Bytes, clock: Clock): (r: Result<int, JtvError>)
    ensures |time| != 8 ==> r == Ok(0)
    ensures r.Err? ==> r.error == TimeOutOfRange
  {
    if |time| != 8 then Ok(0)
    else
      var us := RoundHalfEven(LittleEndian(time), 10);
      if us > MAX_OFFSET_US then Err(TimeOutOfRange)
      else Ok(RoundHalfEven((clock.epoch + clock.zoneShift) * 1000000 + us, 1000000))
  }

  /** For one timezone setting, a later FILETIME never gives an earlier
      timestamp, and a FILETIME below one in range is in range. */
  lemma FiletimeMonotone(a: Bytes, b: Bytes, clock: Clock)
    requires |a| == 8 && |b| == 8 && LittleEndian(a) <= LittleEndian(b)
    requires FiletimeToTimestamp(b, clock).Ok?
    ensures FiletimeToTimestamp(a, clock).Ok?
    ensures FiletimeToTimestamp(a, clock).value <= FiletimeToTimestamp(b, clock).value
  {
    RoundHalfEvenMonotone(LittleEndian(a), LittleEndian(b), 10);
    var base := (clock.epoch + clock.zoneShift) * 1000000;
    RoundHalfEvenMonotone(base + RoundHalfEven(LittleEndian(a), 10),
                          base + RoundHalfEven(LittleEndian(b), 10), 1000000);
  }

  /** A FILETIME of exactly `k` seconds is the epoch plus `k` plus the shift. */
  lemma FiletimeWholeSeconds(time: Bytes, clock: Clock, k: nat)
    requires |time| == 8 && LittleEndian(time) == 10000000 * k
    requires 1000000 * k <= MAX_OFFSET_US
    ensures FiletimeToTimestamp(time, clock) == Ok(clock.epoch + k + clock.zoneShift)
  {
    RoundExact(10000000 * k, 10, 1000000 * k);
    var total := (clock.epoch + clock.zoneShift) * 1000000 + 1000000 * k;
    RoundExact(total, 1000000, clock.epoch + k + clock.zoneShift);
  }

  /** A multiple of `d` needs no rounding. */
  lemma RoundExact(a: int, d: int, q: int)
    requires d > 0 && a == d * q
    ensures RoundHalfEven(a, d) == q
  {
    var r := RoundHalfEven(a, d);
    var e := q - r;
    assert a - d * r == d * e;
    MulAtLeast(d, e);
    MulAtLeast(d, -e);
    assert d * -e == -(d * e);
  }

  // ---------------------------------------------------------------------
  // Titles: the .pdt file
  // ---------------------------------------------------------------------

  /** "JTV 3.x TV Program Data" in ASCII. */
  const JTV_SIGNATURE: Bytes :=
    [74, 84, 86, 32, 51, 46, 120, 32, 84, 86, 32,
     80, 114, 111, 103, 114, 97, 109, 32, 68, 97, 116, 97]
  const HEADER_LENGTH: nat := 26
  /** The two accepted 26-byte headers. */
  const JTV_HEADERS: seq<Bytes> :=
    [JTV_SIGNATURE + [0x0A, 0x0A, 0x0A], JTV_SIGNATURE + [0xA0, 0xA0, 0xA0]]

  /** `bs.decode(...)` for a single-byte code page: None where a byte has
      no character. */
  function DecodeBytes(bs: Bytes, table: byte -> Option<char>): (r: Option<string>)
    ensures r.Some? <==> forall i :: 0 <= i < |bs| ==> table(bs[i]).Some?
    ensures r.Some? ==> |r.value| == |bs| && forall i :: 0 <= i < |bs| ==> table(bs[i]) == Some(r.value[i])
    decreases |bs|
  {
    if bs == [] then Some([])
    else
      match table(bs[0])
      case None => None
      case Some(c) =>
        match DecodeBytes(bs[1..], table)
        case None =>
          assert exists i :: 0 <= i < |bs[1..]| && table(bs[1..][i]).None?;
          None
        case Some(t) => Some([c] + t)
  }

  /** The records after the header: a u16 length, then that many bytes of
      title text (fewer when the data ends first). */
  function TitleRecords(data: Bytes, table: byte -> Option<char>): Result<seq<string>, JtvError>
    decreases |data|
  {
    if data == [] then Ok([])
    else if |data| < 2 then Err(TruncatedLength)
    else
      var length := LittleEndian(data[..2]);
      var rest := data[2..];
      match DecodeBytes(Take(rest, length), table)
      case None => Err(UndecodableTitle)
      case Some(t) => Prefixed([t], TitleRecords(Drop(rest, length), table))
  }

  /** The first 26 bytes are one of the two headers (`data[0:26] in
      jtv_headers`; a shorter slice never equals a 26-byte header). */
  predicate HasHeader(data: Bytes) {
    |data| >= HEADER_LENGTH && data[..HEADER_LENGTH] in JTV_HEADERS
  }

  /** `parse_titles` */
  function TitlesOf(data: Bytes, table: byte -> Option<char>): Result<seq<string>, JtvError> {
    if !HasHeader(data) then Err(InvalidJtvFormat)
    else TitleRecords(data[HEADER_LENGTH..], table)
  }

  method ParseTitles(data: Bytes, table: byte -> Option<char>) returns (r: Result<seq<string>, JtvError>)
    ensures r == TitlesOf(data, table)
  {
    if !HasHeader(data) {
      return Err(InvalidJtvFormat);
    }
    var rest := data[HEADER_LENGTH..];
    var titles: seq<string> := [];
    PrefixedNil(TitleRecords(rest, table));
    while rest != []
      invariant TitlesOf(data, table) == Prefixed(titles, TitleRecords(rest, table))
      decreases |rest|
    {
      if |rest| < 2 {
        return Err(TruncatedLength);
      }
      var length := LittleEndian(rest[..2]);
      var body := rest[2..];
      var title := DecodeBytes(Take(body, length), table);
      if title.None? {
        return Err(UndecodableTitle);
      }
      PrefixedAppend(titles, [title.value], TitleRecords(Drop(body, length), table));
      rest := Drop(body, length);
      titles := titles + [title.value];
    }
    assert titles + [] == titles;
    return Ok(titles);
  }

  /** Only the header decides `'Invalid JTV format'`. */
  lemma {:induction false} RecordsNeverInvalid(data: Bytes, table: byte -> Option<char>)
    ensures TitleRecords(data, table) != Err(InvalidJtvFormat)
    decreases |data|
  {
    if |data| >= 2 {
      var rest := data[2..];
      RecordsNeverInvalid(Drop(rest, LittleEndian(data[..2])), table);
    }
  }

  lemma TitlesHeaderCheck(data: Bytes, table: byte -> Option<char>)
    ensures TitlesOf(data, table) == Err(InvalidJtvFormat) <==> !HasHeader(data)
  {
    if HasHeader(data) {
      RecordsNeverInvalid(data[HEADER_LENGTH..], table);
    }
  }

  /** The two little-endian bytes of a u16. */
  function U16Bytes(n: nat): (r: Bytes)
    requires n < 65536
    ensures |r| == 2 && LittleEndian(r) == n
  {
    var r: Bytes := [(n % 256) as byte, (n / 256) as byte];
    assert r[1..][1..] == [];
    assert LittleEndian(r[1..]) == n / 256;
    r
  }

  predicate ShortBodies(bodies: seq<Bytes>) {
    forall i :: 0 <= i < |bodies| ==> |bodies[i]| < 65536
  }

  /** The record part of a `.pdt` file holding the given title bodies. */
  function Records(bodies: seq<Bytes>): Bytes
    requires ShortBodies(bodies)
    decreases |bodies|
  {
    if bodies == [] then [] else U16Bytes(|bodies[0]|) + bodies[0] + Records(bodies[1..])
  }

  function DecodeAll(bodies: seq<Bytes>, table: byte -> Option<char>): Option<seq<string>>
    decreases |bodies|
  {
    if bodies == [] then Some([])
    else
      match DecodeBytes(bodies[0], table)
      case None => None
      case Some(t) =>
        match DecodeAll(bodies[1..], table)
        case None => None
        case Some(ts) => Some([t] + ts)
  }

  lemma {:induction false} TitleRecordsRoundTrip(bodies: seq<Bytes>, table: byte -> Option<char>)
    requires ShortBodies(bodies) && DecodeAll(bodies, table).Some?
    ensures TitleRecords(Records(bodies), table) == Ok(DecodeAll(bodies, table).value)
    decreases |bodies|
  {
    if bodies != [] {
      var b := bodies[0];
      var data := Records(bodies);
      var rest := Records(bodies[1..]);
      assert data == U16Bytes(|b|) + (b + rest);
      assert data[..2] == U16Bytes(|b|);
      assert data[2..] == b + rest;
      assert Take(b + rest, |b|) == b;
      assert Drop(b + rest, |b|) == rest;
      TitleRecordsRoundTrip(bodies[1..], table);
    }
  }

  /** `parse_titles` returns, in order, the decoded titles of a `.pdt` file
      built from a header and title records. */
  lemma TitlesRoundTrip(header: Bytes, bodies: seq<Bytes>, table: byte -> Option<char>)
    requires header in JTV_HEADERS && ShortBodies(bodies) && DecodeAll(bodies, table).Some?
    ensures TitlesOf(header + Records(bodies), table) == Ok(DecodeAll(bodies, table).value)
  {
    var data := header + Records(bodies);
    assert |header| == HEADER_LENGTH;
    assert data[..HEADER_LENGTH] == header;
    assert data[HEADER_LENGTH..] == Records(bodies);
    TitleRecordsRoundTrip(bodies, table);
  }

  // ---------------------------------------------------------------------
  // Start times: the .ndx file
  // ---------------------------------------------------------------------

  const RECORD_LENGTH: nat := 12

  /** `record[2:-2]`: the 8 bytes in the middle of a full 12-byte record,
      fewer (and so a 0 timestamp) for a truncated one. */
  function RecordTime(record: Bytes): Bytes {
    if |record| > 4 then record[2..|record| - 2] else []
  }

  /** The `count` records after the u16 count. */
  function ScheduleRecords(data: Bytes, count: nat, clock: Clock): Result<seq<int>, JtvError>
    decreases count
  {
    if count == 0 then Ok([])
    else
      match FiletimeToTimestamp(RecordTime(Take(data, RECORD_LENGTH)), clock)
      case Err(e) => Err(e)
      case Ok(t) => Prefixed([t], ScheduleRecords(Drop(data, RECORD_LENGTH), count - 1, clock))
  }

  /** `parse_schedule` */
  function ScheduleOf(data: Bytes, clock: Clock): Result<seq<int>, JtvError> {
    if |data| < 2 then Err(TruncatedLength)
    else ScheduleRecords(data[2..], LittleEndian(data[..2]), clock)
  }

  method ParseSchedule(data: Bytes, clock: Clock) returns (r: Result<seq<int>, JtvError>)
    ensures r == ScheduleOf(data, clock)
  {
    if |data| < 2 {
      return Err(TruncatedLength);
    }
    var recordsNum := LittleEndian(data[..2]);
    var rest := data[2..];
    var schedules: seq<int> := [];
    var i := 0;
    PrefixedNil(ScheduleRecords(rest, recordsNum, clock));
    while i < recordsNum
      invariant 0 <= i <= recordsNum
      invariant ScheduleOf(data, clock) == Prefixed(schedules, ScheduleRecords(rest, recordsNum - i, clock))
    {
      i := i + 1;
      var record := Take(rest, RECORD_LENGTH);
      var t := FiletimeToTimestamp(RecordTime(record), clock);
      if t.Err? {
        return Err(t.error);
      }
      PrefixedAppend(schedules, [t.value], ScheduleRecords(Drop(rest, RECORD_LENGTH), recordsNum - i, clock));
      rest := Drop(rest, RECORD_LENGTH);
      schedules := schedules + [t.value];
    }
    assert schedules + [] == schedules;
    return Ok(schedules);
  }

  /** Exactly `count` start times come out. */
  lemma {:induction false} ScheduleRecordsCount(data: Bytes, count: nat, clock: Clock)
    requires ScheduleRecords(data, count, clock).Ok?
    ensures |ScheduleRecords(data, count, clock).value| == count
    decreases count
  {
    if count > 0 {
      ScheduleRecordsCount(Drop(data, RECORD_LENGTH), count - 1, clock);
    }
  }

  /** A record cut short by the end of the data gives the timestamp 0. */
  lemma {:induction false} ScheduleRecordsShort(data: Bytes, count: nat, clock: Clock)
    requires ScheduleRecords(data, count, clock).Ok?
    ensures var v := ScheduleRecords(data, count, clock).value;
            |v| == count
            && forall i :: 0 <= i < count && RECORD_LENGTH * i + RECORD_LENGTH > |data| ==> v[i] == 0
    decreases count
  {
    if count > 0 {
      var rest := Drop(data, RECORD_LENGTH);
      ScheduleRecordsCount(data, count, clock);
      ScheduleRecordsShort(rest, count - 1, clock);
      var v := ScheduleRecords(data, count, clock).value;
      var w := ScheduleRecords(rest, count - 1, clock).value;
      assert v == [v[0]] + w;
      if |data| < RECORD_LENGTH {
        assert |RecordTime(Take(data, RECORD_LENGTH))| != 8;
      }
      forall i | 1 <= i < count && RECORD_LENGTH * i + RECORD_LENGTH > |data| ensures v[i] == 0 {
        assert v[i] == w[i - 1];
      }
    }
  }

  /** A whole record gives the FILETIME held in its middle eight bytes. */
  lemma {:induction false} ScheduleRecordsWhole(data: Bytes, count: nat, clock: Clock)
    requires ScheduleRecords(data, count, clock).Ok?
    ensures var v := ScheduleRecords(data, count, clock).value;
            |v| == count
            && forall i :: 0 <= i < count && RECORD_LENGTH * i + RECORD_LENGTH <= |data| ==>
              Ok(v[i]) == FiletimeToTimestamp(data[RECORD_LENGTH * i + 2..RECORD_LENGTH * i + 10], clock)
    decreases count
  {
    ScheduleRecordsCount(data, count, clock);
    if count > 0 && |data| >= RECORD_LENGTH {
      var rest := Drop(data, RECORD_LENGTH);
      ScheduleRecordsHead(data, count, clock);
      ScheduleRecordsWhole(rest, count - 1, clock);
      var v := ScheduleRecords(data, count, clock).value;
      var w := ScheduleRecords(rest, count - 1, clock).value;
      forall i | 0 <= i < count && RECORD_LENGTH * i + RECORD_LENGTH <= |data|
        ensures Ok(v[i]) == FiletimeToTimestamp(data[RECORD_LENGTH * i + 2..RECORD_LENGTH * i + 10], clock)
      {
        if i > 0 {
          assert v[i] == w[i - 1];
          RecordShift(data, i);
        }
      }
    }
  }

  /** A whole first record gives the first time, and the rest of the
      records the rest. */
  lemma ScheduleRecordsHead(data: Bytes, count: nat, clock: Clock)
    requires count > 0 && |data| >= RECORD_LENGTH && ScheduleRecords(data, count, clock).Ok?
    ensures var v := ScheduleRecords(data, count, clock).value;
            var rest := ScheduleRecords(Drop(data, RECORD_LENGTH), count - 1, clock);
            rest.Ok? && |v| >= 1 && v == [v[0]] + rest.value
            && Ok(v[0]) == FiletimeToTimestamp(data[2..10], clock)
  {
    assert RecordTime(Take(data, RECORD_LENGTH)) == data[2..10];
  }

  /** The time field of record `i` is that of record `i - 1` past the
      first record. */
  lemma RecordShift(data: Bytes, i: nat)
    requires 1 <= i && RECORD_LENGTH * i + RECORD_LENGTH <= |data|
    ensures Drop(data, RECORD_LENGTH)[RECORD_LENGTH * (i - 1) + 2..RECORD_LENGTH * (i - 1) + 10]
            == data[RECORD_LENGTH * i + 2..RECORD_LENGTH * i + 10]
  {
  }


  /** `parse_schedule` returns as many timestamps as its leading u16 count. */
  lemma ScheduleCount(data: Bytes, clock: Clock)
    requires ScheduleOf(data, clock).Ok?
    ensures |data| >= 2 && |ScheduleOf(data, clock).value| == LittleEndian(data[..2])
  {
    ScheduleRecordsCount(data[2..], LittleEndian(data[..2]), clock);
  }

  // ---------------------------------------------------------------------
  // Archive member names
  // ---------------------------------------------------------------------

  function EncodeChars(s: string, table: char -> Option<byte>): (r: Option<Bytes>)
    ensures r.Some? <==> forall i :: 0 <= i < |s| ==> table(s[i]).Some?
    ensures r.Some? ==> |r.value| == |s| && forall i :: 0 <= i < |s| ==> table(s[i]) == Some(r.value[i])
    decreases |s|
  {
    if s == [] then Some([])
    else
      match table(s[0])
      case None => None
      case Some(b) =>
        match EncodeChars(s[1..], table)
        case None =>
          assert exists i :: 0 <= i < |s[1..]| && table(s[1..][i]).None?;
          None
        case Some(t) => Some([b] + t)
  }

  function DecodeTotal(bs: Bytes, table: byte -> char): (r: string)
    ensures |r| == |bs| && forall i :: 0 <= i < |bs| ==> r[i] == table(bs[i])
    decreases |bs|
  {
    if bs == [] then [] else [table(bs[0])] + DecodeTotal(bs[1..], table)
  }

  /** `fix_zip_filename`: a name that cp437 can encode is re-read as cp866,
      character for character; any other name is kept. */
  function FixZipFilename(name: string, codecs: Codecs): (r: string)
    ensures |r| == |name|
    ensures (exists i :: 0 <= i < |name| && codecs.encodeCp437(name[i]).None?) ==> r == name
    ensures (forall i :: 0 <= i < |name| ==> codecs.encodeCp437(name[i]).Some?) ==>
              forall i :: 0 <= i < |name| ==> r[i] == codecs.decodeCp866(codecs.encodeCp437(name[i]).value)
  {
    match EncodeChars(name, codecs.encodeCp437)
    case None => name
    case Some(bs) => DecodeTotal(bs, codecs.decodeCp866)
  }

  /** Both code pages agree with ASCII on its first 128 characters, so a
      plain ASCII name is kept as it is. */
  lemma AsciiNameKept(name: string, codecs: Codecs)
    requires forall c: char :: c as int < 128 ==> codecs.encodeCp437(c) == Some(c as int as byte)
    requires forall b: byte :: b < 128 ==> codecs.decodeCp866(b) == b as int as char
    requires forall i :: 0 <= i < |name| ==> name[i] as int < 128
    ensures FixZipFilename(name, codecs) == name
  {
    var r := FixZipFilename(name, codecs);
    forall i | 0 <= i < |name| ensures r[i] == name[i] {
      assert codecs.encodeCp437(name[i]) == Some(name[i] as int as byte);
    }
  }

  /** `fn[0:-4].replace('_', ' ')`: the channel a `.pdt` or `.ndx` member
      belongs to; it never holds an underscore. */
  function ChannelKey(fn: string): (r: string)
    requires |fn| >= 4
    ensures '_' !in r
    ensures |r| == |fn| - 4
    ensures forall i :: 0 <= i < |r| ==> r[i] == if fn[i] == '_' then ' ' else fn[i]
  {
    ReplaceRemovesChar(fn[..|fn| - 4], '_', " ");
    ReplaceCharByChar(fn[..|fn| - 4], '_', ' ');
    Replace(fn[..|fn| - 4], "_", " ")
  }

  /** The titles and the start times of one stem land under one key. */
  lemma SameStemSameKey(stem: string)
    ensures ChannelKey(stem + ".pdt") == ChannelKey(stem + ".ndx")
  {
    assert (stem + ".pdt")[..|stem|] == stem;
    assert (stem + ".ndx")[..|stem|] == stem;
  }

  // ---------------------------------------------------------------------
  // The archive
  // ---------------------------------------------------------------------

  /** `array[n]`: what the `.pdt` and `.ndx` members of one channel gave. */
  datatype Slot = Slot(titles: Option<seq<string>>, schedules: Option<seq<int>>)

  /** `array`: its keys in insertion order and their slots. */
  datatype Catalog = Catalog(keys: seq<string>, slots: map<string, Slot>)

  const EmptyCatalog: Catalog := Catalog([], map[])

  ghost predicate ValidCatalog(c: Catalog) {
    (forall k :: k in c.slots <==> k in c.keys)
    && (forall i, j :: 0 <= i < j < |c.keys| ==> c.keys[i] != c.keys[j])
  }

  /** `if not n in array: array[n] = {}` */
  function Touch(c: Catalog, key: string): (r: Catalog)
    requires ValidCatalog(c)
    ensures ValidCatalog(r) && key in r.slots
    ensures key in c.slots ==> r == c
    ensures key !in c.slots ==> r.keys == c.keys + [key] && r.slots == c.slots[key := Slot(None, None)]
  {
    if key in c.slots then c else Catalog(c.keys + [key], c.slots[key := Slot(None, None)])
  }

  function SetTitles(c: Catalog, key: string, ts: seq<string>): (r: Catalog)
    requires ValidCatalog(c)
    ensures ValidCatalog(r)
  {
    var d := Touch(c, key);
    d.(slots := d.slots[key := d.slots[key].(titles := Some(ts))])
  }

  function SetSchedules(c: Catalog, key: string, ss: seq<int>): (r: Catalog)
    requires ValidCatalog(c)
    ensures ValidCatalog(r)
  {
    var d := Touch(c, key);
    d.(slots := d.slots[key := d.slots[key].(schedules := Some(ss))])
  }

  /** The loop body of the first pass of `parse_jtv` for one member. */
  function AddEntry(c: Catalog, e: ZipEntry, codecs: Codecs, clock: Clock): (r: Result<Catalog, JtvError>)
    requires ValidCatalog(c)
    ensures r.Ok? ==> ValidCatalog(r.value)
  {
    var fn := FixZipFilename(e.name, codecs);
    if EndsWith(fn, ".pdt") then
      match TitlesOf(e.data, codecs.decodeCp1251)
      case Err(err) => Err(err)
      case Ok(ts) => Ok(SetTitles(c, ChannelKey(fn), ts))
    else if EndsWith(fn, ".ndx") then
      match ScheduleOf(e.data, clock)
      case Err(err) => Err(err)
      case Ok(ss) => Ok(SetSchedules(c, ChannelKey(fn), ss))
    else Ok(c)
  }

  /** The first pass of `parse_jtv` over the members in archive order. */
  function Collect(entries: seq<ZipEntry>, codecs: Codecs, clock: Clock): (r: Result<Catalog, JtvError>)
    ensures r.Ok? ==> ValidCatalog(r.value)
    decreases |entries|
  {
    if entries == [] then Ok(EmptyCatalog)
    else CollectStep(Collect(entries[..|entries| - 1], codecs, clock), entries[|entries| - 1], codecs, clock)
  }

  /** One more member, after the earlier ones gave `prev`. */
  function CollectStep(prev: Result<Catalog, JtvError>, e: ZipEntry, codecs: Codecs, clock: Clock): (r: Result<Catalog, JtvError>)
    requires prev.Ok? ==> ValidCatalog(prev.value)
    ensures r.Ok? ==> ValidCatalog(r.value)
  {
    match prev
    case Err(err) => Err(err)
    case Ok(c) => AddEntry(c, e, codecs, clock)
  }

  /** The channel a member files its data under, if it is a `.pdt` or
      a `.ndx` file once its name is repaired. */
  function MemberKey(e: ZipEntry, codecs: Codecs): Option<string> {
    var fn := FixZipFilename(e.name, codecs);
    if EndsWith(fn, ".pdt") || EndsWith(fn, ".ndx") then Some(ChannelKey(fn)) else None
  }

  /** Some member of `entries` files its data under `k`. */
  ghost predicate Named(entries: seq<ZipEntry>, codecs: Codecs, k: string) {
    exists i :: 0 <= i < |entries| && MemberKey(entries[i], codecs) == Some(k)
  }

  lemma NamedSnoc(init: seq<ZipEntry>, e: ZipEntry, codecs: Codecs, k: string)
    ensures Named(init + [e], codecs, k) <==> Named(init, codecs, k) || MemberKey(e, codecs) == Some(k)
  {
    var entries := init + [e];
    if Named(init, codecs, k) {
      var i :| 0 <= i < |init| && MemberKey(init[i], codecs) == Some(k);
      assert entries[i] == init[i];
    }
    if MemberKey(e, codecs) == Some(k) {
      assert entries[|init|] == e;
    }
    if Named(entries, codecs, k) {
      var i :| 0 <= i < |entries| && MemberKey(entries[i], codecs) == Some(k);
      if i < |init| {
        assert init[i] == entries[i];
      }
    }
  }

  /** One member adds its own channel, if any, and no other. */
  lemma AddEntryKeys(c: Catalog, e: ZipEntry, codecs: Codecs, clock: Clock)
    requires ValidCatalog(c) && AddEntry(c, e, codecs, clock).Ok?
    ensures forall k :: k in AddEntry(c, e, codecs, clock).value.slots <==>
              k in c.slots || MemberKey(e, codecs) == Some(k)
  {}

  /** The channels of the catalog are exactly the keys of the guide members. */
  lemma {:induction false} CollectKeys(entries: seq<ZipEntry>, codecs: Codecs, clock: Clock)
    requires Collect(entries, codecs, clock).Ok?
    ensures forall k :: k in Collect(entries, codecs, clock).value.slots <==> Named(entries, codecs, k)
    decreases |entries|
  {
    if entries != [] {
      var init := entries[..|entries| - 1];
      var e := entries[|entries| - 1];
      assert entries == init + [e];
      CollectKeys(init, codecs, clock);
      var c := Collect(init, codecs, clock).value;
      AddEntryKeys(c, e, codecs, clock);
      forall k ensures k in Collect(entries, codecs, clock).value.slots <==> Named(entries, codecs, k) {
        NamedSnoc(init, e, codecs, k);
      }
    }
  }

  /** The first `n` entries of a channel's guide: entry i runs from start
      time i to start time i + 1 under title i. */
  function Pairs(ts: seq<string>, ss: seq<int>, n: int): (r: seq<Programme>)
    requires n <= |ts| && n < |ss|
    ensures |r| == if n < 0 then 0 else n
  {
    seq(if n < 0 then 0 else n, i requires 0 <= i < n && n <= |ts| && n < |ss| =>
      Programme(ss[i], ss[i + 1], Some(ts[i]), Some(" "), None))
  }

  /** The guide entries of one channel: as many as there are titles, less
      one when titles and start times are equally many; with more titles
      than start times the lookup of a missing start time raises. */
  function ChannelProgrammes(chan: string, slot: Slot): Result<seq<Programme>, JtvError> {
    match slot.titles
    case None => Err(MissingTitles(chan))
    case Some(ts) =>
      if ts == [] then Ok([])
      else
        match slot.schedules
        case None => Err(MissingSchedules(chan))
        case Some(ss) =>
          if |ts| > |ss| then Err(ScheduleIndex(chan))
          else Ok(Pairs(ts, ss, Min(|ts|, |ss| - 1)))
  }

  /** The inner loop of the second pass, with its index counter `ic`. */
  method PairProgrammes(chan: string, slot: Slot) returns (r: Result<seq<Programme>, JtvError>)
    ensures r == ChannelProgrammes(chan, slot)
  {
    if slot.titles.None? {
      return Err(MissingTitles(chan));
    }
    var titles := slot.titles.value;
    if titles == [] {
      return Ok([]);
    }
    // the first pass through the loop looks the start times up
    if slot.schedules.None? {
      return Err(MissingSchedules(chan));
    }
    var schedules := slot.schedules.value;
    var out: seq<Programme> := [];
    var ic := 0;
    while ic < |titles|
      invariant 0 <= ic <= |titles| && ic <= |schedules|
      invariant out == Pairs(titles, schedules, Min(ic, |schedules| - 1))
    {
      if ic >= |schedules| {
        return Err(ScheduleIndex(chan));
      }
      var dt := schedules[ic];
      if ic + 1 < |schedules| {
        out := out + [Programme(dt, schedules[ic + 1], Some(titles[ic]), Some(" "), None)];
      }
      ic := ic + 1;
    }
    return Ok(out);
  }

  /** The second pass: the channels in catalog order, the first failing one raising. */
  function GuideOf(keys: seq<string>, slots: map<string, Slot>): Result<Guide, JtvError>
    requires forall k :: k in keys ==> k in slots
    decreases |keys|
  {
    if keys == [] then Ok(map[])
    else
      var chan := keys[|keys| - 1];
      GuideStep(GuideOf(keys[..|keys| - 1], slots), chan, slots[chan])
  }

  /** One more channel, after the earlier ones gave `prev`. */
  function GuideStep(prev: Result<Guide, JtvError>, chan: string, slot: Slot): Result<Guide, JtvError> {
    match prev
    case Err(e) => Err(e)
    case Ok(g) =>
      match ChannelProgrammes(chan, slot)
      case Err(e) => Err(e)
      case Ok(ps) => Ok(g[chan := ps])
  }

  lemma {:induction false} GuideOfSpec(keys: seq<string>, slots: map<string, Slot>)
    requires forall k :: k in keys ==> k in slots
    requires GuideOf(keys, slots).Ok?
    ensures var g := GuideOf(keys, slots).value;
            (forall k :: k in g <==> k in keys)
            && forall k :: k in keys ==> ChannelProgrammes(k, slots[k]) == Ok(g[k])
    decreases |keys|
  {
    if keys != [] {
      GuideOfSpec(keys[..|keys| - 1], slots);
      forall k | k in keys[..|keys| - 1] ensures k in keys {}
      assert keys == keys[..|keys| - 1] + [keys[|keys| - 1]];
    }
  }

  /** `parse_jtv` */
  function JtvSpec(zip: Option<seq<ZipEntry>>, codecs: Codecs, clock: Clock): Result<Guide, JtvError> {
    match zip
    case None => Err(NotAZipFile)
    case Some(entries) =>
      match Collect(entries, codecs, clock)
      case Err(e) => Err(e)
      case Ok(c) => GuideOf(c.keys, c.slots)
  }

  /** One pass of the first loop of `parse_jtv`. */
  method AddMember(catalog: Catalog, e: ZipEntry, codecs: Codecs, clock: Clock) returns (r: Result<Catalog, JtvError>)
    requires ValidCatalog(catalog)
    ensures r == AddEntry(catalog, e, codecs, clock)
  {
    var fn := FixZipFilename(e.name, codecs);
    if EndsWith(fn, ".pdt") {
      var ts := ParseTitles(e.data, codecs.decodeCp1251);
      if ts.Err? {
        return Err(ts.error);
      }
      return Ok(SetTitles(catalog, ChannelKey(fn), ts.value));
    }
    if EndsWith(fn, ".ndx") {
      var ss := ParseSchedule(e.data, clock);
      if ss.Err? {
        return Err(ss.error);
      }
      return Ok(SetSchedules(catalog, ChannelKey(fn), ss.value));
    }
    return Ok(catalog);
  }

  lemma CollectSnoc(entries: seq<ZipEntry>, n: nat, codecs: Codecs, clock: Clock)
    requires n < |entries|
    ensures Collect(entries[..n + 1], codecs, clock) == CollectStep(Collect(entries[..n], codecs, clock), entries[n], codecs, clock)
  {
    assert entries[..n + 1][..n] == entries[..n];
  }

  /** Once a member raises, the whole pass raises that exception. */
  lemma {:induction false} CollectErrSticky(entries: seq<ZipEntry>, n: nat, codecs: Codecs, clock: Clock)
    requires n <= |entries| && Collect(entries[..n], codecs, clock).Err?
    ensures Collect(entries, codecs, clock) == Collect(entries[..n], codecs, clock)
    decreases |entries| - n
  {
    if n < |entries| {
      CollectSnoc(entries, n, codecs, clock);
      CollectErrSticky(entries, n + 1, codecs, clock);
    } else {
      assert entries[..n] == entries;
    }
  }

  lemma GuideSnoc(keys: seq<string>, slots: map<string, Slot>, j: nat)
    requires j < |keys| && forall k :: k in keys ==> k in slots
    ensures forall k :: k in keys[..j] ==> k in slots
    ensures GuideOf(keys[..j + 1], slots) == GuideStep(GuideOf(keys[..j], slots), keys[j], slots[keys[j]])
  {
    assert keys[..j + 1][..j] == keys[..j];
    assert forall k :: k in keys[..j] ==> k in keys;
  }

  /** Once a channel raises, the whole pass raises that exception. */
  lemma {:induction false} GuideErrSticky(keys: seq<string>, slots: map<string, Slot>, j: nat)
    requires j <= |keys| && forall k :: k in keys ==> k in slots
    requires forall k :: k in keys[..j] ==> k in slots
    requires GuideOf(keys[..j], slots).Err?
    ensures GuideOf(keys, slots) == GuideOf(keys[..j], slots)
    decreases |keys| - j
  {
    if j < |keys| {
      GuideSnoc(keys, slots, j);
      assert forall k :: k in keys[..j + 1] ==> k in keys;
      GuideErrSticky(keys, slots, j + 1);
    } else {
      assert keys[..j] == keys;
    }
  }

  /** The first loop of `parse_jtv`, filling `array` member by member. */
  method CollectMembers(entries: seq<ZipEntry>, codecs: Codecs, clock: Clock) returns (r: Result<Catalog, JtvError>)
    ensures r == Collect(entries, codecs, clock)
  {
    var catalog := EmptyCatalog;
    var n := 0;
    while n < |entries|
      invariant 0 <= n <= |entries|
      invariant Collect(entries[..n], codecs, clock) == Ok(catalog)
      invariant ValidCatalog(catalog)
    {
      CollectSnoc(entries, n, codecs, clock);
      var next := AddMember(catalog, entries[n], codecs, clock);
      if next.Err? {
        CollectErrSticky(entries, n + 1, codecs, clock);
        return Err(next.error);
      }
      catalog := next.value;
      n := n + 1;
    }
    assert entries[..n] == entries;
    return Ok(catalog);
  }

  /** The second loop of `parse_jtv`, filling `array_out` channel by channel. */
  method BuildGuide(catalog: Catalog) returns (r: Result<Guide, JtvError>)
    requires ValidCatalog(catalog)
    ensures r == GuideOf(catalog.keys, catalog.slots)
  {
    var guide: Guide := map[];
    var j := 0;
    while j < |catalog.keys|
      invariant 0 <= j <= |catalog.keys|
      invariant forall k :: k in catalog.keys[..j] ==> k in catalog.slots
      invariant GuideOf(catalog.keys[..j], catalog.slots) == Ok(guide)
    {
      GuideSnoc(catalog.keys, catalog.slots, j);
      var chan := catalog.keys[j];
      var ps := PairProgrammes(chan, catalog.slots[chan]);
      if ps.Err? {
        GuideErrSticky(catalog.keys, catalog.slots, j + 1);
        return Err(ps.error);
      }
      guide := guide[chan := ps.value];
      j := j + 1;
    }
    assert catalog.keys[..j] == catalog.keys;
    return Ok(guide);
  }

  method ParseJtv(zip: Option<seq<ZipEntry>>, codecs: Codecs, clock: Clock) returns (r: Result<Guide, JtvError>)
    ensures r == JtvSpec(zip, codecs, clock)
  {
    if zip.None? {
      return Err(NotAZipFile);
    }
    var catalog := CollectMembers(zip.value, codecs, clock);
    if catalog.Err? {
      return Err(catalog.error);
    }
    r := BuildGuide(catalog.value);
  }

  /** A parsed archive has a guide entry for exactly the channels named by
      its `.pdt`/`.ndx` members, each the pairing of that channel's titles
      with its start times. */
  lemma JtvGuide(zip: Option<seq<ZipEntry>>, codecs: Codecs, clock: Clock)
    requires JtvSpec(zip, codecs, clock).Ok?
    ensures zip.Some? && Collect(zip.value, codecs, clock).Ok?
    ensures var g := JtvSpec(zip, codecs, clock).value;
            var c := Collect(zip.value, codecs, clock).value;
            (forall k :: k in g <==> Named(zip.value, codecs, k))
            && forall k :: k in g ==> k in c.slots && ChannelProgrammes(k, c.slots[k]) == Ok(g[k])
  {
    var c := Collect(zip.value, codecs, clock).value;
    CollectKeys(zip.value, codecs, clock);
    GuideOfSpec(c.keys, c.slots);
  }
}
