/** The board EEPROM: a chain of records, each with its own CRC. */
module Eeprom {
  import opened Crc
  import opened Octets

  const HEADER_LEN := 12
  const RECORD_HEADER_LEN := 8
  const CRC_LEN := 2

  datatype Record = Record(id: nat, typ: nat, payload: Bytes)

  datatype Fault =
    | NoMagic
    | BadVersion(version: nat)
    | NoRecords
    | HeaderOutside(record: nat, offset: nat)
    | BodyOutside(record: nat, size: nat, offset: nat)
    | CrcMismatch(record: nat, offset: nat)

  datatype Parsed = Ok(records: seq<Record>) | Err(fault: Fault)

  // ---- numbers in bytes ----

  function Word(lo: byte, hi: byte): (w: nat)
    ensures w < 0x1_0000
  {
    lo + 256 * hi
  }

  function LowOf(n: nat): byte
    requires n < 0x1_0000
  {
    n % 256
  }

  function HighOf(n: nat): byte
    requires n < 0x1_0000
  {
    n / 256
  }

  lemma WordOf(n: nat)
    requires n < 0x1_0000
    ensures Word(LowOf(n), HighOf(n)) == n
  {
  }

  function WordAt(data: Bytes, k: nat): (w: nat)
    requires k + 2 <= |data|
    ensures w < 0x1_0000
  {
    Word(data[k], data[k + 1])
  }

  // ---- the parser ----

  predicate HasMagic(data: Bytes) {
    |data| >= HEADER_LEN && data[..4] == [0x52, 0x41, 0x44, 0x58]
  }

  /** Where the record starting at `off` ends. */
  function EndOf(data: Bytes, off: nat): nat
    requires off + RECORD_HEADER_LEN <= |data|
  {
    off + RECORD_HEADER_LEN + WordAt(data, off + 4)
  }

  /** The record at `off` lies inside the data. */
  predicate Fits(data: Bytes, off: nat) {
    off + RECORD_HEADER_LEN <= |data| && WordAt(data, off + 4) >= CRC_LEN && EndOf(data, off) <= |data|
  }

  /** The bytes of the record at `off`. */
  function RecordBytes(data: Bytes, off: nat): (rec: Bytes)
    requires Fits(data, off)
    ensures |rec| == EndOf(data, off) - off >= RECORD_HEADER_LEN + CRC_LEN
  {
    data[off..EndOf(data, off)]
  }

  function Decoded(rec: Bytes): Record
    requires |rec| >= RECORD_HEADER_LEN + CRC_LEN
  {
    Record(WordAt(rec, 0), WordAt(rec, 2), rec[RECORD_HEADER_LEN..|rec| - 2])
  }

  predicate Intact(data: Bytes, off: nat)
    requires Fits(data, off)
  {
    Sealed(RecordBytes(data, off))
  }

  function RecordAt(data: Bytes, off: nat): Record
    requires Fits(data, off)
  {
    Decoded(RecordBytes(data, off))
  }

  function Check(data: Bytes, i: nat, off: nat): (fault: seq<Fault>)
    ensures fault == [] <==> Fits(data, off) && Intact(data, off)
  {
    if off + RECORD_HEADER_LEN > |data| then [HeaderOutside(i + 1, off)]
    else if !Fits(data, off) then [BodyOutside(i + 1, WordAt(data, off + 4), off)]
    else if !Intact(data, off) then [CrcMismatch(i + 1, off)]
    else []
  }

  function Prepend(front: seq<Record>, rest: Parsed): Parsed {
    if rest.Ok? then Ok(front + rest.records) else rest
  }

  /** Records `i` to `count` of the chain, the first of them at `off`. */
  function ParseFrom(data: Bytes, count: nat, i: nat, off: nat): Parsed
    requires i <= count
    decreases count - i
  {
    if i == count then Ok([])
    else if Check(data, i, off) != [] then Err(Check(data, i, off)[0])
    else Prepend([RecordAt(data, off)], ParseFrom(data, count, i + 1, EndOf(data, off)))
  }

  function Parse(data: Bytes): Parsed {
    if !HasMagic(data) then Err(NoMagic)
    else if WordAt(data, 4) != 1 then Err(BadVersion(WordAt(data, 4)))
    else if WordAt(data, 6) == 0 then Err(NoRecords)
    else ParseFrom(data, WordAt(data, 6), 0, HEADER_LEN)
  }

  /** One record: its two length tests and its CRC test. */
  method CheckRecord(data: Bytes, i: nat, off: nat) returns (fault: seq<Fault>)
    ensures fault == Check(data, i, off)
  {
    if off + RECORD_HEADER_LEN > |data| {
      return [HeaderOutside(i + 1, off)];
    }
    var hdr := data[off..off + RECORD_HEADER_LEN];
    var size := Word(hdr[4], hdr[5]);
    if size < CRC_LEN || off + RECORD_HEADER_LEN + size > |data| {
      return [BodyOutside(i + 1, size, off)];
    }
    var body := data[off + RECORD_HEADER_LEN..off + RECORD_HEADER_LEN + size];
    var payload := body[..size - CRC_LEN];
    var want := Join(Bits(body[size - CRC_LEN]), Bits(body[size - CRC_LEN + 1]));
    var got := Crc16Arc([hdr, payload]);
    TwoParts(hdr, payload);
    PartsOfRecord(data, off, hdr, body);
    return if got != want then [CrcMismatch(i + 1, off)] else [];
  }

  lemma PartsOfRecord(data: Bytes, off: nat, hdr: Bytes, body: Bytes)
    requires Fits(data, off)
    requires hdr == data[off..off + RECORD_HEADER_LEN] && body == data[off + RECORD_HEADER_LEN..EndOf(data, off)]
    ensures |body| >= 2
    ensures Intact(data, off) <==> Matches(hdr + body[..|body| - 2], body[|body| - 2], body[|body| - 1])
  {
    JoinParts(data, off, off + RECORD_HEADER_LEN, EndOf(data, off), 2);
  }

  lemma JoinParts<T>(a: seq<T>, lo: nat, mid: nat, hi: nat, tail: nat)
    requires lo <= mid <= hi <= |a| && 2 <= tail <= hi - mid
    ensures a[lo..hi][..hi - lo - tail] == a[lo..mid] + a[mid..hi][..hi - mid - tail]
    ensures a[lo..hi][hi - lo - 2] == a[mid..hi][hi - mid - 2]
    ensures a[lo..hi][hi - lo - 1] == a[mid..hi][hi - mid - 1]
  {
    var x := a[lo..hi][..hi - lo - tail];
    var front, back := a[lo..mid], a[mid..hi][..hi - mid - tail];
    assert |x| == |front + back|;
    forall k | 0 <= k < |x| ensures x[k] == (front + back)[k] {
      assert x[k] == a[lo + k];
      if k < mid - lo { assert front[k] == a[lo + k]; } else { assert back[k - (mid - lo)] == a[mid + (k - (mid - lo))]; }
    }
  }

  lemma TwoParts(a: Bytes, b: Bytes)
    ensures Flatten([a, b]) == a + b
  {
    assert [a, b][..1] == [a] && [a][..0] == [];
    assert Flatten([a]) == Flatten([]) + a == a;
    assert Flatten([a, b]) == Flatten([a, b][..1]) + b;
  }

  method ParseEeprom(data: Bytes) returns (r: Parsed)
    ensures r == Parse(data)
  {
    if |data| < HEADER_LEN || data[..4] != [0x52, 0x41, 0x44, 0x58] {
      return Err(NoMagic);
    }
    var version := Word(data[4], data[5]);
    if version != 1 {
      return Err(BadVersion(version));
    }
    var count := Word(data[6], data[7]);
    if count == 0 {
      return Err(NoRecords);
    }
    var records: seq<Record> := [];
    var off: nat := HEADER_LEN;
    for i := 0 to count
      invariant ParseFrom(data, count, 0, HEADER_LEN) == Prepend(records, ParseFrom(data, count, i, off))
    {
      var fault := CheckRecord(data, i, off);
      if fault != [] {
        return Err(fault[0]);
      }
      var record := RecordAt(data, off);
      PrependTwice(records, [record], ParseFrom(data, count, i + 1, EndOf(data, off)));
      records := records + [record];
      off := EndOf(data, off);
    }
    return Ok(records);
  }

  lemma PrependTwice(a: seq<Record>, b: seq<Record>, rest: Parsed)
    ensures Prepend(a, Prepend(b, rest)) == Prepend(a + b, rest)
  {
    if rest.Ok? { assert a + (b + rest.records) == (a + b) + rest.records; }
  }

  // ---- what a parse means ----

  /** Where record `i` starts, by the lengths of the records before it. */
  function Offset(records: seq<Record>, i: nat): nat
    requires i <= |records|
  {
    if i == 0 then HEADER_LEN else Offset(records, i - 1) + RECORD_HEADER_LEN + |records[i - 1].payload| + CRC_LEN
  }

  /** Record `i` sits whole and intact at its place in the data. */
  predicate Placed(data: Bytes, records: seq<Record>, i: nat)
    requires i < |records|
  {
    var off := Offset(records, i);
    Fits(data, off) && Intact(data, off) && RecordAt(data, off) == records[i]
  }

  predicate Laid(data: Bytes, records: seq<Record>) {
    && HasMagic(data) && WordAt(data, 4) == 1
    && WordAt(data, 6) == |records| > 0
    && forall i :: 0 <= i < |records| ==> Placed(data, records, i)
  }

  lemma {:induction false} ParsedIsPlaced(data: Bytes, count: nat, i: nat, off: nat, before: seq<Record>)
    requires |before| == i <= count && off == Offset(before, i)
    requires ParseFrom(data, count, i, off).Ok?
    ensures var all := before + ParseFrom(data, count, i, off).records;
      |all| == count && forall k :: i <= k < count ==> Placed(data, all, k)
    decreases count - i
  {
    if i < count {
      var r := RecordAt(data, off);
      var rest := ParseFrom(data, count, i + 1, EndOf(data, off)).records;
      OffsetOfPrefix(before, [r], i);
      ParsedIsPlaced(data, count, i + 1, EndOf(data, off), before + [r]);
      assert before + ([r] + rest) == before + [r] + rest;
      OffsetOfPrefix(before, [r] + rest, i);
      PlacedHere(data, before + [r] + rest, i, off);
    }
  }

  lemma {:induction false} PlacedHere(data: Bytes, records: seq<Record>, i: nat, off: nat)
    requires i < |records| && off == Offset(records, i)
    requires Fits(data, off) && Intact(data, off) && RecordAt(data, off) == records[i]
    ensures Placed(data, records, i)
  {
  }

  lemma {:induction false} OffsetOfPrefix(a: seq<Record>, b: seq<Record>, i: nat)
    requires i <= |a|
    ensures Offset(a + b, i) == Offset(a, i)
  {
    if i > 0 { OffsetOfPrefix(a, b, i - 1); }
  }

  lemma {:induction false} PlacedIsParsed(data: Bytes, records: seq<Record>, i: nat)
    requires i <= |records|
    requires forall k :: i <= k < |records| ==> Placed(data, records, k)
    ensures ParseFrom(data, |records|, i, Offset(records, i)) == Ok(records[i..])
    decreases |records| - i
  {
    if i < |records| {
      assert Placed(data, records, i);
      PlacedIsParsed(data, records, i + 1);
      OneMore(data, records, i, records[i + 1..]);
      Cons(records, i);
    }
  }

  lemma OneMore(data: Bytes, records: seq<Record>, i: nat, rest: seq<Record>)
    requires i < |records| && Placed(data, records, i)
    requires ParseFrom(data, |records|, i + 1, Offset(records, i + 1)) == Ok(rest)
    ensures ParseFrom(data, |records|, i, Offset(records, i)) == Ok([records[i]] + rest)
  {
    var off := Offset(records, i);
    assert EndOf(data, off) == Offset(records, i + 1);
  }

  lemma Cons<T>(a: seq<T>, i: nat)
    requires i < |a|
    ensures a[i..] == [a[i]] + a[i + 1..]
  {
  }

  /** The parser accepts exactly the containers whose announced records all lie intact on the length chain. */
  lemma ParsesExactlyTheLaid(data: Bytes, records: seq<Record>)
    ensures Parse(data) == Ok(records) <==> Laid(data, records)
  {
    if Parse(data) == Ok(records) {
      ParsedIsPlaced(data, WordAt(data, 6), 0, HEADER_LEN, []);
      assert [] + records == records;
    }
    if Laid(data, records) {
      PlacedIsParsed(data, records, 0);
      assert records[0..] == records;
    }
  }

  // ---- encoding and its round trip ----

  predicate Encodable(r: Record) {
    r.id < 0x1_0000 && r.typ < 0x1_0000 && |r.payload| + CRC_LEN < 0x1_0000
  }

  function RecordHeader(r: Record, flags: (byte, byte)): (h: Bytes)
    requires Encodable(r)
    ensures |h| == RECORD_HEADER_LEN
  {
    var size := |r.payload| + CRC_LEN;
    [LowOf(r.id), HighOf(r.id), LowOf(r.typ), HighOf(r.typ), LowOf(size), HighOf(size), flags.0, flags.1]
  }

  function EncodeRecord(r: Record, flags: (byte, byte)): (b: Bytes)
    requires Encodable(r)
    ensures |b| == RECORD_HEADER_LEN + |r.payload| + CRC_LEN
  {
    var covered := RecordHeader(r, flags) + r.payload;
    covered + [Seal(covered).0, Seal(covered).1]
  }

  /** The first `n` parts, one after another. */
  function Chain<T>(parts: seq<seq<T>>, n: nat): seq<T>
    requires n <= |parts|
  {
    if n == 0 then [] else Chain(parts, n - 1) + parts[n - 1]
  }

  function EncodedRecords(records: seq<Record>, flags: seq<(byte, byte)>): seq<Bytes>
    requires |records| == |flags|
    requires forall r :: r in records ==> Encodable(r)
  {
    seq(|records|, i requires 0 <= i < |records| => EncodeRecord(records[i], flags[i]))
  }

  function Head(count: nat, ignored: Bytes): (h: Bytes)
    requires count < 0x1_0000 && |ignored| == 4
    ensures |h| == HEADER_LEN
  {
    [0x52, 0x41, 0x44, 0x58, 1, 0, LowOf(count), HighOf(count)] + ignored
  }

  /** A container: magic, version 1, count, four bytes the parser ignores, the records. */
  function Encode(records: seq<Record>, flags: seq<(byte, byte)>, ignored: Bytes): Bytes
    requires |records| == |flags| < 0x1_0000 && |ignored| == 4
    requires forall r :: r in records ==> Encodable(r)
  {
    Head(|records|, ignored) + Chain(EncodedRecords(records, flags), |records|)
  }

  lemma Front<T>(h: seq<T>, p: seq<T>, t: seq<T>, k: nat)
    requires k < |h|
    ensures (h + p + t)[k] == h[k]
  {
  }

  lemma Parts<T>(h: seq<T>, p: seq<T>, t: seq<T>)
    ensures (h + p + t)[..|h| + |p|] == h + p && (h + p + t)[|h|..|h| + |p|] == p
    ensures forall k :: 0 <= k < |t| ==> (h + p + t)[|h| + |p| + k] == t[k]
  {
  }

  lemma EncodedWords(r: Record, flags: (byte, byte))
    requires Encodable(r)
    ensures WordAt(EncodeRecord(r, flags), 0) == r.id && WordAt(EncodeRecord(r, flags), 2) == r.typ
    ensures WordAt(EncodeRecord(r, flags), 4) == |r.payload| + CRC_LEN
  {
    WordOf(r.id);
    WordOf(r.typ);
    WordOf(|r.payload| + CRC_LEN);
    var h := RecordHeader(r, flags);
    var c := Seal(h + r.payload);
    forall k | 0 <= k < 6 ensures EncodeRecord(r, flags)[k] == h[k] {
      Front(h, r.payload, [c.0, c.1], k);
    }
  }

  /** An encoded record is sealed and decodes to itself. */
  lemma EncodedIsSealed(r: Record, flags: (byte, byte))
    requires Encodable(r)
    ensures Sealed(EncodeRecord(r, flags)) && Decoded(EncodeRecord(r, flags)) == r
  {
    var h := RecordHeader(r, flags);
    var c := Seal(h + r.payload);
    var t := [c.0, c.1];
    Parts(h, r.payload, t);
    EncodedWords(r, flags);
    assert t[0] == EncodeRecord(r, flags)[|h| + |r.payload| + 0];
    assert t[1] == EncodeRecord(r, flags)[|h| + |r.payload| + 1];
  }

  lemma InSlice<T>(a: seq<T>, lo: nat, hi: nat, k: nat)
    requires lo + k < hi <= |a|
    ensures a[lo..hi][k] == a[lo + k]
  {
  }

  /** The length field, read at the record or in its bytes. */
  lemma LengthInSlice(data: Bytes, off: nat, end: nat)
    requires off + RECORD_HEADER_LEN <= end <= |data|
    ensures WordAt(data, off + 4) == WordAt(data[off..end], 4)
  {
    InSlice(data, off, end, 4);
    InSlice(data, off, end, 5);
  }

  /** A record's encoding, wherever it stands, is a whole intact record that reads back as itself. */
  lemma EncodedReadsBack(data: Bytes, off: nat, end: nat, r: Record, flags: (byte, byte))
    requires Encodable(r)
    requires off <= end <= |data| && data[off..end] == EncodeRecord(r, flags)
    ensures Fits(data, off) && Intact(data, off) && RecordAt(data, off) == r && EndOf(data, off) == end
  {
    LengthInSlice(data, off, end);
    EncodedWords(r, flags);
    EncodedIsSealed(r, flags);
  }

  /** `piece` stands at `lo` in `a`. */
  predicate Holds<T(==)>(a: seq<T>, lo: nat, piece: seq<T>) {
    lo + |piece| <= |a| && a[lo..lo + |piece|] == piece
  }

  lemma HoldsInFirst<T>(a: seq<T>, b: seq<T>, lo: nat, piece: seq<T>)
    requires Holds(a, lo, piece)
    ensures Holds(a + b, lo, piece)
  {
    assert (a + b)[lo..lo + |piece|] == a[lo..lo + |piece|];
  }

  lemma HoldsInSecond<T>(a: seq<T>, b: seq<T>, lo: nat, piece: seq<T>)
    requires Holds(b, lo, piece)
    ensures Holds(a + b, |a| + lo, piece)
  {
    assert (a + b)[|a| + lo..|a| + lo + |piece|] == b[lo..lo + |piece|];
  }

  lemma HoldsItself<T>(a: seq<T>)
    ensures Holds(a, 0, a)
  {
  }

  /** Each part stands where the parts before it end. */
  lemma {:induction false} PartStands<T>(parts: seq<seq<T>>, n: nat, i: nat)
    requires i < n <= |parts|
    ensures Holds(Chain(parts, n), |Chain(parts, i)|, parts[i])
  {
    if i == n - 1 {
      HoldsItself(parts[i]);
      HoldsInSecond(Chain(parts, i), parts[i], 0, parts[i]);
    } else {
      PartStands(parts, n - 1, i);
      HoldsInFirst(Chain(parts, n - 1), parts[n - 1], |Chain(parts, i)|, parts[i]);
    }
  }

  lemma {:induction false} OffsetIsLength(records: seq<Record>, parts: seq<Bytes>, i: nat)
    requires i <= |records| == |parts|
    requires forall j :: 0 <= j < |parts| ==> |parts[j]| == RECORD_HEADER_LEN + |records[j].payload| + CRC_LEN
    ensures Offset(records, i) == HEADER_LEN + |Chain(parts, i)|
  {
    if i > 0 { OffsetIsLength(records, parts, i - 1); }
  }

  /** Parsing undoes encoding, whatever the flags, the ignored bytes and the padding. */
  lemma ParseUndoesEncode(records: seq<Record>, flags: seq<(byte, byte)>, ignored: Bytes, padding: Bytes)
    requires 0 < |records| == |flags| < 0x1_0000 && |ignored| == 4
    requires forall r :: r in records ==> Encodable(r)
    ensures Parse(Encode(records, flags, ignored) + padding) == Ok(records)
  {
    var data := Encode(records, flags, ignored) + padding;
    HeadOfEncoding(records, flags, ignored, padding);
    forall i | 0 <= i < |records| ensures Placed(data, records, i) {
      EncodedIsPlaced(records, flags, ignored, padding, i);
    }
    ParsesExactlyTheLaid(data, records);
  }

  lemma HeadOfEncoding(records: seq<Record>, flags: seq<(byte, byte)>, ignored: Bytes, padding: Bytes)
    requires |records| == |flags| < 0x1_0000 && |ignored| == 4
    requires forall r :: r in records ==> Encodable(r)
    ensures var data := Encode(records, flags, ignored) + padding;
      HasMagic(data) && WordAt(data, 4) == 1 && WordAt(data, 6) == |records|
  {
    var head := Head(|records|, ignored);
    HeadIsGood(|records|, ignored);
    HoldsInFirst(head, Chain(EncodedRecords(records, flags), |records|), 0, head);
    HoldsInFirst(Encode(records, flags, ignored), padding, 0, head);
    StandsFirst(Encode(records, flags, ignored) + padding, head);
    HeadInPrefix(head, Encode(records, flags, ignored) + padding, HEADER_LEN);
  }

  lemma StandsFirst<T>(a: seq<T>, piece: seq<T>)
    requires Holds(a, 0, piece)
    ensures |piece| <= |a| && a[..|piece|] == piece == piece[..|piece|]
  {
  }

  lemma HeadIsGood(count: nat, ignored: Bytes)
    requires count < 0x1_0000 && |ignored| == 4
    ensures var head := Head(count, ignored);
      HasMagic(head) && WordAt(head, 4) == 1 && WordAt(head, 6) == count && Holds(head, 0, head)
  {
    WordOf(count);
    var head := Head(count, ignored);
    assert head[..4] == [0x52, 0x41, 0x44, 0x58];
  }

  lemma EncodedIsPlaced(records: seq<Record>, flags: seq<(byte, byte)>, ignored: Bytes, padding: Bytes, i: nat)
    requires i < |records| == |flags| < 0x1_0000 && |ignored| == 4
    requires forall r :: r in records ==> Encodable(r)
    ensures Placed(Encode(records, flags, ignored) + padding, records, i)
  {
    var off := Offset(records, i);
    var parts := EncodedRecords(records, flags);
    OffsetIsLength(records, parts, i);
    PartStands(parts, |parts|, i);
    HoldsInSecond(Head(|records|, ignored), Chain(parts, |parts|), off - HEADER_LEN, parts[i]);
    HoldsInFirst(Encode(records, flags, ignored), padding, off, parts[i]);
    EncodedReadsBack(Encode(records, flags, ignored) + padding, off, off + |parts[i]|, records[i], flags[i]);
  }

  // ---- error detection ----

  /**
   Take any container that parses and change one or two adjacent bytes anywhere in one record, its
   length field excepted; whatever else happened to the records after it, the parser rejects the
   container with a CRC fault at that record.
   */
  lemma BurstIsDetected(data: Bytes, damaged: Bytes, records: seq<Record>, i: nat, off: nat, end: nat, k: nat)
    requires Parse(data) == Ok(records) && i < |records|
    requires off == Offset(records, i) && end == Offset(records, i + 1)
    requires off + 6 <= end <= |data| == |damaged|
    requires damaged[..off] == data[..off]
    requires damaged[off + 4] == data[off + 4] && damaged[off + 5] == data[off + 5]
    requires Burst(data[off..end], damaged[off..end], k)
    ensures Parse(damaged) == Err(CrcMismatch(i + 1, off))
  {
    ParsesExactlyTheLaid(data, records);
    assert Placed(data, records, i);
    OffsetsGrow(records, 0, i);
    HeadInPrefix(data, damaged, off);
    DamagedIsNotIntact(data, damaged, off, end, k);
    FrontStaysPlaced(data, damaged, records, i);
    StopsAt(damaged, records, i, 0, off);
  }

  lemma DamagedIsNotIntact(data: Bytes, damaged: Bytes, off: nat, end: nat, k: nat)
    requires Fits(data, off) && Intact(data, off) && end == EndOf(data, off) <= |damaged|
    requires damaged[off + 4] == data[off + 4] && damaged[off + 5] == data[off + 5]
    requires Burst(data[off..end], damaged[off..end], k)
    ensures Fits(damaged, off) && !Intact(damaged, off)
  {
    assert EndOf(damaged, off) == end;
    BurstUnseals(data[off..end], damaged[off..end], k);
  }

  lemma {:induction false} FrontStaysPlaced(data: Bytes, damaged: Bytes, records: seq<Record>, i: nat)
    requires i < |records| && forall k :: 0 <= k < |records| ==> Placed(data, records, k)
    requires Offset(records, i) <= |data| && Offset(records, i) <= |damaged|
    requires damaged[..Offset(records, i)] == data[..Offset(records, i)]
    ensures forall j :: 0 <= j < i ==> Placed(damaged, records, j)
  {
    forall j | 0 <= j < i ensures Placed(damaged, records, j) {
      assert Placed(data, records, j);
      StillPlaced(data, damaged, records, i, j);
    }
  }

  /** What a container keeps when its first `n` bytes stay. */
  lemma HeadInPrefix(data: Bytes, damaged: Bytes, n: nat)
    requires HEADER_LEN <= n <= |data| && n <= |damaged| && damaged[..n] == data[..n]
    ensures HasMagic(damaged) <==> HasMagic(data)
    ensures WordAt(damaged, 4) == WordAt(data, 4) && WordAt(damaged, 6) == WordAt(data, 6)
  {
    SliceInPrefix(data, damaged, n, 0, 4);
    AtInPrefix(data, damaged, n, 4);
    AtInPrefix(data, damaged, n, 5);
    AtInPrefix(data, damaged, n, 6);
    AtInPrefix(data, damaged, n, 7);
    assert data[0..4] == data[..4] && damaged[0..4] == damaged[..4];
  }

  lemma AtInPrefix<T>(a: seq<T>, b: seq<T>, n: nat, k: nat)
    requires k < n <= |a| && n <= |b| && b[..n] == a[..n]
    ensures b[k] == a[k]
  {
    assert b[..n][k] == a[..n][k];
  }

  lemma SliceInPrefix<T>(a: seq<T>, b: seq<T>, n: nat, lo: nat, hi: nat)
    requires lo <= hi <= n <= |a| && n <= |b| && b[..n] == a[..n]
    ensures b[lo..hi] == a[lo..hi]
  {
    assert b[..n][lo..hi] == a[..n][lo..hi];
    assert b[..n][lo..hi] == b[lo..hi];
    assert a[..n][lo..hi] == a[lo..hi];
  }

  lemma {:induction false} OffsetsGrow(records: seq<Record>, i: nat, j: nat)
    requires i <= j <= |records|
    ensures HEADER_LEN <= Offset(records, i) <= Offset(records, j)
    ensures i < j ==> Offset(records, i + 1) <= Offset(records, j)
  {
    if i < j { OffsetsGrow(records, i, j - 1); }
    else if j > 0 { OffsetsGrow(records, j - 1, j - 1); }
  }

  lemma SameBytesSameRecord(x: Bytes, y: Bytes, off: nat, end: nat)
    requires Fits(x, off) && end == EndOf(x, off) <= |y| && y[off..end] == x[off..end]
    ensures Fits(y, off) && EndOf(y, off) == end && RecordBytes(y, off) == RecordBytes(x, off)
  {
    LengthInSlice(x, off, end);
    LengthInSlice(y, off, end);
  }

  lemma {:induction false} StopsAt(damaged: Bytes, records: seq<Record>, i: nat, j: nat, off: nat)
    requires j <= i < |records| && off == Offset(records, i)
    requires forall k :: 0 <= k < i ==> Placed(damaged, records, k)
    requires Fits(damaged, off) && !Intact(damaged, off)
    ensures ParseFrom(damaged, |records|, j, Offset(records, j)) == Err(CrcMismatch(i + 1, off))
    decreases i - j
  {
    if j < i {
      StopsAt(damaged, records, i, j + 1, off);
      StepsOver(damaged, records, j, Offset(records, j + 1), CrcMismatch(i + 1, off));
    } else {
      StopsHere(damaged, |records|, i, off);
    }
  }

  lemma {:induction false} StopsHere(data: Bytes, count: nat, i: nat, off: nat)
    requires i < count && Fits(data, off) && !Intact(data, off)
    ensures ParseFrom(data, count, i, off) == Err(CrcMismatch(i + 1, off))
  {
    assert Check(data, i, off) == [CrcMismatch(i + 1, off)];
  }

  lemma {:induction false} StillPlaced(data: Bytes, damaged: Bytes, records: seq<Record>, i: nat, j: nat)
    requires j < i < |records| && Placed(data, records, j)
    requires Offset(records, i) <= |data| && Offset(records, i) <= |damaged|
    requires damaged[..Offset(records, i)] == data[..Offset(records, i)]
    ensures Placed(damaged, records, j)
  {
    OffsetsGrow(records, j, i);
    SliceInPrefix(data, damaged, Offset(records, i), Offset(records, j), Offset(records, j + 1));
    SameBytesSameRecord(data, damaged, Offset(records, j), Offset(records, j + 1));
  }

  lemma StepsOver(data: Bytes, records: seq<Record>, j: nat, next: nat, fault: Fault)
    requires j < |records| && Placed(data, records, j) && next == Offset(records, j + 1)
    requires ParseFrom(data, |records|, j + 1, next) == Err(fault)
    ensures ParseFrom(data, |records|, j, Offset(records, j)) == Err(fault)
  {
    assert EndOf(data, Offset(records, j)) == next;
  }
}
