/** The board identity inside the EEPROM records: text runs, and the four fields. */
module EepromIdentity {
  import opened Eeprom
  import opened Octets

  // ---- text runs ----

  predicate Printable(b: byte) {
    0x20 <= b <= 0x7e
  }

  function TrimLeft(s: Bytes): Bytes {
    if s != [] && s[0] == 0x20 then TrimLeft(s[1..]) else s
  }

  function TrimRight(s: Bytes): Bytes {
    if s != [] && s[|s| - 1] == 0x20 then TrimRight(s[..|s| - 1]) else s
  }

  function Trim(s: Bytes): Bytes {
    TrimRight(TrimLeft(s))
  }

  /** The text a segment contributes: nothing when it is blank. */
  function Piece(s: Bytes): seq<Bytes> {
    if Trim(s) == [] then [] else [Trim(s)]
  }

  /** Where the printable stretch that ends before `n` begins. */
  function OpenFrom(p: Bytes, n: nat): (k: nat)
    requires n <= |p|
    ensures k <= n && (k < n <==> n > 0 && Printable(p[n - 1]))
  {
    if n == 0 || !Printable(p[n - 1]) then n else OpenFrom(p, n - 1)
  }

  /** The texts of the stretches that a non-printable byte has ended before `n`. */
  function Ended(p: Bytes, n: nat): seq<Bytes>
    requires n <= |p|
  {
    if n == 0 then []
    else if Printable(p[n - 1]) then Ended(p, n - 1)
    else Ended(p, n - 1) + Piece(p[OpenFrom(p, n - 1)..n - 1])
  }

  function Runs(p: Bytes): seq<Bytes> {
    Ended(p, |p|) + Piece(p[OpenFrom(p, |p|)..])
  }

  method PrintableRuns(payload: Bytes) returns (out: seq<Bytes>)
    ensures out == Runs(payload)
  {
    out := [];
    var start: int := -1;
    for i := 0 to |payload|
      invariant out == Ended(payload, i)
      invariant if start < 0 then OpenFrom(payload, i) == i else start == OpenFrom(payload, i) < i
    {
      if Printable(payload[i]) {
        if start < 0 { start := i; }
      } else {
        if start >= 0 {
          out := out + Piece(payload[start..i]);
        }
        start := -1;
      }
    }
    if start >= 0 {
      out := out + Piece(payload[start..]);
    }
  }

  // ---- what the runs are ----

  predicate AllPrintable(p: Bytes) {
    forall k :: 0 <= k < |p| ==> 0x20 <= p[k] <= 0x7e
  }

  predicate NonePrintable(p: Bytes) {
    forall k :: 0 <= k < |p| ==> !(0x20 <= p[k] <= 0x7e)
  }

  lemma {:induction false} SamePrefixSameRuns(p: Bytes, q: Bytes, n: nat)
    requires n <= |p| && n <= |q|
    requires forall k :: 0 <= k < n ==> p[k] == q[k]
    ensures OpenFrom(p, n) == OpenFrom(q, n) && Ended(p, n) == Ended(q, n)
  {
    if n > 0 {
      SamePrefixSameRuns(p, q, n - 1);
      assert p[OpenFrom(p, n - 1)..n - 1] == q[OpenFrom(q, n - 1)..n - 1];
    }
  }

  lemma SameSlice<T>(p: seq<T>, b: seq<T>, shift: nat, lo: nat, hi: nat)
    requires lo <= hi <= |b| && shift + hi <= |p|
    requires forall i :: lo <= i < hi ==> p[shift + i] == b[i]
    ensures p[shift + lo..shift + hi] == b[lo..hi]
  {
  }

  lemma Regroup<T>(whole: seq<T>, front: seq<T>, a: seq<T>, b: seq<T>, more: seq<T>, c: seq<T>)
    requires whole == front + c && front == a + b && more == b + c
    ensures whole == a + more
  {
    assert (a + b) + c == a + (b + c);
  }

  /** `p` is `a`, a separator before `m`, then `b`. */
  predicate Split(p: Bytes, a: Bytes, b: Bytes, m: nat) {
    && m == |a| + 1 && |p| == m + |b| && !Printable(p[|a|])
    && (forall i :: 0 <= i < |a| ==> p[i] == a[i])
    && (forall i :: 0 <= i < |b| ==> p[m + i] == b[i])
  }

  lemma StretchEnds(p: Bytes, n: nat, stretch: Bytes)
    requires n < |p| && !Printable(p[n]) && p[OpenFrom(p, n)..n] == stretch
    ensures OpenFrom(p, n + 1) == n + 1 && Ended(p, n + 1) == Ended(p, n) + Piece(stretch)
  {
  }

  lemma StretchGrows(p: Bytes, n: nat)
    requires n < |p| && Printable(p[n])
    ensures OpenFrom(p, n + 1) == OpenFrom(p, n) && Ended(p, n + 1) == Ended(p, n)
  {
  }

  /** The bytes of `b` are met in the same state with or without what comes before, whose runs are `front`. */
  predicate InStep(p: Bytes, n: nat, front: seq<Bytes>, b: Bytes, k: nat, m: nat) {
    && n <= |p| && k <= |b| && n == m + k
    && OpenFrom(p, n) == m + OpenFrom(b, k)
    && Ended(p, n) == front + Ended(b, k)
  }

  lemma StaysInStep(p: Bytes, n: nat, front: seq<Bytes>, b: Bytes, k: nat, m: nat)
    requires InStep(p, n, front, b, k, m) && n < |p| && k < |b| && Printable(p[n]) == Printable(b[k])
    requires p[OpenFrom(p, n)..n] == b[OpenFrom(b, k)..k]
    ensures InStep(p, n + 1, front, b, k + 1, m)
  {
    if Printable(b[k]) {
      StretchGrows(p, n);
      StretchGrows(b, k);
    } else {
      var stretch := b[OpenFrom(b, k)..k];
      StretchEnds(p, n, stretch);
      StretchEnds(b, k, stretch);
      Regroup(Ended(p, n + 1), Ended(p, n), front, Ended(b, k), Ended(b, k + 1), Piece(stretch));
    }
  }

  lemma StartsInStep(p: Bytes, a: Bytes, b: Bytes, m: nat, front: seq<Bytes>)
    requires Split(p, a, b, m) && front == Runs(a)
    ensures InStep(p, m, front, b, 0, m)
  {
    SamePrefixSameRuns(p, a, |a|);
    SameSlice(p, a, 0, OpenFrom(a, |a|), |a|);
    RunsStop(p, a, a[OpenFrom(a, |a|)..|a|]);
    assert front + [] == front;
  }

  /** At the separator after `a` its runs have ended. */
  lemma {:induction false} RunsStop(p: Bytes, a: Bytes, stretch: Bytes)
    requires |a| < |p| && !Printable(p[|a|]) && OpenFrom(p, |a|) == OpenFrom(a, |a|) && Ended(p, |a|) == Ended(a, |a|)
    requires stretch == a[OpenFrom(a, |a|)..|a|] && p[OpenFrom(p, |a|)..|a|] == stretch
    ensures OpenFrom(p, |a| + 1) == |a| + 1 && Ended(p, |a| + 1) == Runs(a)
  {
    RunsEnd(a, stretch);
    StretchEnds(p, |a|, stretch);
  }

  lemma {:induction false} RunsAfter(p: Bytes, a: Bytes, b: Bytes, k: nat, n: nat, m: nat, front: seq<Bytes>)
    requires Split(p, a, b, m) && k <= |b| && n == m + k && front == Runs(a)
    ensures InStep(p, n, front, b, k, m)
    decreases k
  {
    if k == 0 {
      StartsInStep(p, a, b, m, front);
    } else {
      var k', n' := k - 1, n - 1;
      RunsAfter(p, a, b, k', n', m, front);
      NextInStep(p, n', a, b, k', m, front);
    }
  }

  lemma NextInStep(p: Bytes, n: nat, a: Bytes, b: Bytes, k: nat, m: nat, front: seq<Bytes>)
    requires Split(p, a, b, m) && InStep(p, n, front, b, k, m) && k < |b|
    ensures InStep(p, n + 1, front, b, k + 1, m)
  {
    SameByte(p, b, m, k, n);
    SameSlice(p, b, m, OpenFrom(b, k), k);
    StaysInStep(p, n, front, b, k, m);
  }

  lemma SameByte<T>(p: seq<T>, b: seq<T>, m: nat, k: nat, n: nat)
    requires k < |b| && |p| == m + |b| && n == m + k
    requires forall i :: 0 <= i < |b| ==> p[m + i] == b[i]
    ensures p[n] == b[k]
  {
  }

  lemma {:induction false} RunsEnd(p: Bytes, stretch: Bytes)
    requires p[OpenFrom(p, |p|)..|p|] == stretch
    ensures Runs(p) == Ended(p, |p|) + Piece(stretch)
  {
    ToTheEnd(p, OpenFrom(p, |p|));
  }

  /** A byte that is not printable separates: the runs around it are found independently. */
  lemma RunsSplit(a: Bytes, x: byte, b: Bytes)
    requires !(0x20 <= x <= 0x7e)
    ensures Runs(a + [x] + b) == Runs(a) + Runs(b)
  {
    RunsOfSplit(a + [x] + b, a, b, |a| + 1);
  }

  lemma RunsOfSplit(p: Bytes, a: Bytes, b: Bytes, m: nat)
    requires Split(p, a, b, m)
    ensures Runs(p) == Runs(a) + Runs(b)
  {
    RunsAfter(p, a, b, |b|, |p|, m, Runs(a));
    SameSlice(p, b, m, OpenFrom(b, |b|), |b|);
    InStepToTheEnd(p, Runs(a), b, m, b[OpenFrom(b, |b|)..|b|]);
  }

  lemma {:induction false} InStepToTheEnd(p: Bytes, front: seq<Bytes>, b: Bytes, m: nat, stretch: Bytes)
    requires InStep(p, |p|, front, b, |b|, m)
    requires p[OpenFrom(p, |p|)..|p|] == stretch == b[OpenFrom(b, |b|)..|b|]
    ensures Runs(p) == front + Runs(b)
  {
    RunsEnd(p, stretch);
    RunsEnd(b, stretch);
    Regroup(Runs(p), Ended(p, |p|), front, Ended(b, |b|), Runs(b), Piece(stretch));
  }

  lemma ToTheEnd<T>(a: seq<T>, lo: nat)
    requires lo <= |a|
    ensures a[lo..|a|] == a[lo..]
  {
  }

  lemma {:induction false} OpenAll(p: Bytes, n: nat)
    requires AllPrintable(p) && n <= |p|
    ensures OpenFrom(p, n) == 0 && Ended(p, n) == []
  {
    if n > 0 { OpenAll(p, n - 1); }
  }

  /** A stretch of printable bytes is one run, its trimmed self, or none when it is blank. */
  lemma RunsOfStretch(p: Bytes)
    requires AllPrintable(p)
    ensures Runs(p) == Piece(p)
  {
    OpenAll(p, |p|);
    assert p[0..] == p;
  }

  /** Bytes that are not printable contribute nothing in front of a payload. */
  lemma {:induction false} RunsSkipGap(gap: Bytes, b: Bytes)
    requires NonePrintable(gap)
    ensures Runs(gap + b) == Runs(b)
    decreases |gap|
  {
    if gap == [] {
      assert gap + b == b;
    } else {
      RunsSkipGap(gap[1..], b);
      assert gap + b == [] + [gap[0]] + (gap[1..] + b);
      RunsSplit([], gap[0], gap[1..] + b);
    }
  }

  lemma NoRunsInGap(gap: Bytes)
    requires NonePrintable(gap)
    ensures Runs(gap) == []
  {
    RunsSkipGap(gap, []);
    assert gap + [] == gap;
  }

  // ---- trimming ----

  predicate Blank(s: Bytes) {
    forall k :: 0 <= k < |s| ==> s[k] == 0x20
  }

  /** Printable text that neither starts nor ends with a space. */
  predicate Proper(t: Bytes) {
    t != [] && AllPrintable(t) && t[0] != 0x20 && t[|t| - 1] != 0x20
  }

  lemma {:induction false} TrimsLead(lead: Bytes, s: Bytes)
    requires Blank(lead) && s != [] && s[0] != 0x20
    ensures TrimLeft(lead + s) == s
    decreases |lead|
  {
    if lead == [] {
      assert lead + s == s;
    } else {
      assert (lead + s)[1..] == lead[1..] + s;
      TrimsLead(lead[1..], s);
    }
  }

  lemma {:induction false} TrimsTrail(s: Bytes, trail: Bytes)
    requires Blank(trail) && s != [] && s[|s| - 1] != 0x20
    ensures TrimRight(s + trail) == s
    decreases |trail|
  {
    if trail == [] {
      assert s + trail == s;
    } else {
      assert (s + trail)[..|s + trail| - 1] == s + trail[..|trail| - 1];
      TrimsTrail(s, trail[..|trail| - 1]);
    }
  }

  /** A text with spaces on both sides. */
  datatype Padded = Padded(lead: Bytes, text: Bytes, trail: Bytes) {
    ghost predicate Valid() {
      Blank(lead) && Proper(text) && Blank(trail)
    }

    function Content(): Bytes {
      lead + text + trail
    }
  }

  lemma PaddedIsOneRun(f: Padded)
    requires f.Valid()
    ensures AllPrintable(f.Content()) && Runs(f.Content()) == [f.text]
  {
    assert f.Content() == f.lead + (f.text + f.trail);
    TrimsLead(f.lead, f.text + f.trail);
    TrimsTrail(f.text, f.trail);
    RunsOfStretch(f.Content());
  }

  /** Every run found is proper text. */
  lemma {:induction false} EndedAreProper(p: Bytes, n: nat)
    requires n <= |p|
    ensures forall r :: r in Ended(p, n) ==> Proper(r)
  {
    if n > 0 {
      EndedAreProper(p, n - 1);
      StretchIsPrintable(p, n - 1);
      PieceIsProper(p[OpenFrom(p, n - 1)..n - 1]);
    }
  }

  lemma {:induction false} StretchIsPrintable(p: Bytes, n: nat)
    requires n <= |p|
    ensures AllPrintable(p[OpenFrom(p, n)..n])
  {
    if n > 0 && Printable(p[n - 1]) {
      StretchIsPrintable(p, n - 1);
      var o := OpenFrom(p, n - 1);
      assert p[o..n] == p[o..n - 1] + [p[n - 1]];
    }
  }

  lemma {:induction false} TrimmedLeft(s: Bytes)
    requires AllPrintable(s)
    ensures var t := TrimLeft(s); AllPrintable(t) && (t != [] ==> t[0] != 0x20)
    decreases |s|
  {
    if s != [] && s[0] == 0x20 { TrimmedLeft(s[1..]); }
  }

  lemma {:induction false} TrimmedRight(s: Bytes)
    requires AllPrintable(s) && (s != [] ==> s[0] != 0x20)
    ensures var t := TrimRight(s); t == [] || Proper(t)
    decreases |s|
  {
    if s != [] && s[|s| - 1] == 0x20 { TrimmedRight(s[..|s| - 1]); }
  }

  lemma PieceIsProper(s: Bytes)
    requires AllPrintable(s)
    ensures forall r :: r in Piece(s) ==> Proper(r)
  {
    TrimmedLeft(s);
    TrimmedRight(TrimLeft(s));
  }

  lemma RunsAreProper(p: Bytes)
    ensures forall r :: r in Runs(p) ==> Proper(r)
  {
    EndedAreProper(p, |p|);
    StretchIsPrintable(p, |p|);
    assert p[OpenFrom(p, |p|)..|p|] == p[OpenFrom(p, |p|)..];
    PieceIsProper(p[OpenFrom(p, |p|)..]);
  }

  // ---- the four fields ----

  const PRODUCT := 1
  const PCB_VERSION := 2
  const BOARD_SERIAL := 3

  datatype Identity = Identity(vendor: Bytes, sku: Bytes, pcbVersion: Bytes, boardSerial: Bytes)

  datatype Reading =
    | Read(identity: Identity)
    | Unparsed(fault: Fault)
    | ProductTexts(count: nat)
    | Missing(field: nat)

  function TextOf(payload: Bytes): Bytes {
    if |payload| < 2 || Runs(payload[2..]) == [] then [] else Runs(payload[2..])[0]
  }

  method RecordText(payload: Bytes) returns (text: Bytes)
    ensures text == TextOf(payload)
  {
    if |payload| < 2 {
      return [];
    }
    var runs := PrintableRuns(payload[2..]);
    return if |runs| == 0 then [] else runs[0];
  }

  predicate BadProduct(r: Record) {
    r.typ == PRODUCT && |Runs(r.payload)| != 2
  }

  /** What one record contributes. */
  function Noted(id: Identity, r: Record): Identity {
    if r.typ == PRODUCT && !BadProduct(r) then id.(vendor := Runs(r.payload)[0], sku := Runs(r.payload)[1])
    else if r.typ == PCB_VERSION then id.(pcbVersion := TextOf(r.payload))
    else if r.typ == BOARD_SERIAL then id.(boardSerial := TextOf(r.payload))
    else id
  }

  function Texts(records: seq<Record>, n: nat): Identity
    requires n <= |records|
  {
    if n == 0 then Identity([], [], [], []) else Noted(Texts(records, n - 1), records[n - 1])
  }

  predicate NoneBad(records: seq<Record>, n: nat)
    requires n <= |records|
  {
    forall j :: 0 <= j < n ==> !BadProduct(records[j])
  }

  lemma NoteAnother(records: seq<Record>, n: nat)
    requires n < |records| && NoneBad(records, n) && !BadProduct(records[n])
    ensures NoneBad(records, n + 1)
    ensures Texts(records, n + 1) == Noted(Texts(records, n), records[n])
  {
  }

  /** The last record of a type among the first `n`, or -1. */
  function Last(records: seq<Record>, n: nat, typ: nat): (i: int)
    requires n <= |records|
    ensures -1 <= i < n
    ensures i >= 0 ==> records[i].typ == typ
    ensures forall j :: i < j < n ==> records[j].typ != typ
  {
    if n == 0 then -1 else if records[n - 1].typ == typ then n - 1 else Last(records, n - 1, typ)
  }

  lemma {:induction false} LastProductCounts(records: seq<Record>, n: nat)
    requires n <= |records|
    requires NoneBad(records, n)
    ensures var p := Last(records, n, PRODUCT); var id := Texts(records, n);
      if p < 0 then id.vendor == id.sku == []
      else |Runs(records[p].payload)| == 2 && id.vendor == Runs(records[p].payload)[0] && id.sku == Runs(records[p].payload)[1]
  {
    if n > 0 { LastProductCounts(records, n - 1); }
  }

  lemma {:induction false} LastVersionCounts(records: seq<Record>, n: nat)
    requires n <= |records|
    ensures var v := Last(records, n, PCB_VERSION);
      Texts(records, n).pcbVersion == if v < 0 then [] else TextOf(records[v].payload)
  {
    if n > 0 { LastVersionCounts(records, n - 1); }
  }

  lemma {:induction false} LastSerialCounts(records: seq<Record>, n: nat)
    requires n <= |records|
    ensures var s := Last(records, n, BOARD_SERIAL);
      Texts(records, n).boardSerial == if s < 0 then [] else TextOf(records[s].payload)
  {
    if n > 0 { LastSerialCounts(records, n - 1); }
  }

  predicate FirstBad(records: seq<Record>, i: nat) {
    i < |records| && BadProduct(records[i]) && NoneBad(records, i)
  }

  /** Which of the four fields is the first one left empty. */
  function FirstEmpty(id: Identity): nat {
    if id.vendor == [] then 0 else if id.sku == [] then 1 else if id.pcbVersion == [] then 2
    else if id.boardSerial == [] then 3 else 4
  }

  /** Runs through the table up to the first malformed product record. */
  method CollectTexts(records: seq<Record>) returns (at: nat, texts: nat, id: Identity)
    ensures at <= |records|
    ensures NoneBad(records, at)
    ensures at < |records| ==> BadProduct(records[at]) && texts == |Runs(records[at].payload)|
    ensures at == |records| ==> id == Texts(records, at)
  {
    id := Identity([], [], [], []);
    at, texts := 0, 0;
    while at < |records|
      invariant at <= |records|
      invariant NoneBad(records, at)
      invariant id == Texts(records, at)
    {
      var bad, runs, noted := NoteRecord(id, records[at]);
      if bad {
        texts := runs;
        return;
      }
      NoteAnother(records, at);
      id, at := noted, at + 1;
    }
  }

  /** One record of the table. */
  method NoteRecord(id: Identity, rec: Record) returns (bad: bool, texts: nat, noted: Identity)
    ensures bad <==> BadProduct(rec)
    ensures bad ==> texts == |Runs(rec.payload)|
    ensures !bad ==> noted == Noted(id, rec)
  {
    bad, texts, noted := false, 0, id;
    if rec.typ == PRODUCT {
      var runs := PrintableRuns(rec.payload);
      bad, texts := |runs| != 2, |runs|;
      if !bad { noted := id.(vendor := runs[0], sku := runs[1]); }
    } else if rec.typ == PCB_VERSION {
      var text := RecordText(rec.payload);
      noted := id.(pcbVersion := text);
    } else if rec.typ == BOARD_SERIAL {
      var text := RecordText(rec.payload);
      noted := id.(boardSerial := text);
    }
  }

  /** What `data` identifies: the last record of each type counts, and a single malformed product record spoils all. */
  predicate Identifies(data: Bytes, id: Identity) {
    && Parse(data).Ok?
    && var records := Parse(data).records;
    && NoneBad(records, |records|)
    && id == Texts(records, |records|)
    && FirstEmpty(id) == 4
  }

  method ReadIdentity(data: Bytes) returns (r: Reading)
    ensures r.Read? ==> Identifies(data, r.identity)
    ensures r.Unparsed? ==> Parse(data) == Err(r.fault)
    ensures r.ProductTexts? ==>
      Parse(data).Ok? && exists i: nat :: FirstBad(Parse(data).records, i) && r.count == |Runs(Parse(data).records[i].payload)|
    ensures r.Missing? ==> Parse(data).Ok? && var records := Parse(data).records;
      NoneBad(records, |records|)
      && r.field == FirstEmpty(Texts(records, |records|)) < 4
  {
    var parsed := ParseEeprom(data);
    if parsed.Err? {
      return Unparsed(parsed.fault);
    }
    var at, texts, id := CollectTexts(parsed.records);
    if at < |parsed.records| {
      assert FirstBad(parsed.records, at);
      return ProductTexts(texts);
    }
    return if FirstEmpty(id) < 4 then Missing(FirstEmpty(id)) else Read(id);
  }

  // ---- the identity round trip ----

  /** A product payload: two padded texts with at least one non-printable byte between them. */
  datatype ProductPayload =
    ProductPayload(gap0: Bytes, vendor: Padded, separator: byte, gap1: Bytes, sku: Padded, gap2: Bytes)
  {
    ghost predicate Valid() {
      && vendor.Valid() && sku.Valid() && !Printable(separator)
      && NonePrintable(gap0) && NonePrintable(gap1) && NonePrintable(gap2)
    }

    function Content(): Bytes {
      gap0 + (vendor.Content() + [separator] + (gap1 + (sku.Content() + gap2)))
    }
  }

  /** A text payload: two code bytes, a padded text, and after a non-printable byte anything at all. */
  datatype TextPayload = TextPayload(code: Bytes, text: Padded, end: byte, rest: Bytes) {
    ghost predicate Valid() {
      |code| == 2 && text.Valid() && !Printable(end)
    }

    function Content(): Bytes {
      code + (text.Content() + [end] + rest)
    }
  }

  lemma RunsBeforeGap(a: Bytes, gap: Bytes)
    requires NonePrintable(gap)
    ensures Runs(a + gap) == Runs(a)
  {
    if gap == [] {
      assert a + gap == a;
    } else {
      assert a + gap == a + [gap[0]] + gap[1..];
      RunsSplit(a, gap[0], gap[1..]);
      NoRunsInGap(gap[1..]);
    }
  }

  lemma ProductRuns(q: ProductPayload)
    requires q.Valid()
    ensures Runs(q.Content()) == [q.vendor.text, q.sku.text]
  {
    PaddedIsOneRun(q.vendor);
    PaddedIsOneRun(q.sku);
    RunsBeforeGap(q.sku.Content(), q.gap2);
    RunsSkipGap(q.gap1, q.sku.Content() + q.gap2);
    RunsSplit(q.vendor.Content(), q.separator, q.gap1 + (q.sku.Content() + q.gap2));
    RunsSkipGap(q.gap0, q.vendor.Content() + [q.separator] + (q.gap1 + (q.sku.Content() + q.gap2)));
  }

  lemma TextRuns(q: TextPayload)
    requires q.Valid()
    ensures TextOf(q.Content()) == q.text.text
  {
    assert q.Content()[2..] == q.text.Content() + [q.end] + q.rest;
    PaddedIsOneRun(q.text);
    RunsSplit(q.text.Content(), q.end, q.rest);
  }

  /** The record at `i`, and no other, has the type. */
  predicate OnlyAt(records: seq<Record>, typ: nat, i: nat) {
    i < |records| && forall j :: 0 <= j < |records| ==> (records[j].typ == typ <==> j == i)
  }

  /** Reading an encoded container gives back the vendor, SKU, PCB version and serial that were put in. */
  lemma IdentityRoundTrip(records: seq<Record>, flags: seq<(byte, byte)>, ignored: Bytes, padding: Bytes,
                          p: nat, v: nat, s: nat, product: ProductPayload, version: TextPayload, serial: TextPayload)
    requires 0 < |records| == |flags| < 0x1_0000 && |ignored| == 4
    requires forall r :: r in records ==> Encodable(r)
    requires OnlyAt(records, 1, p) && OnlyAt(records, 2, v) && OnlyAt(records, 3, s)
    requires product.Valid() && records[p].payload == product.Content()
    requires version.Valid() && records[v].payload == version.Content()
    requires serial.Valid() && records[s].payload == serial.Content()
    ensures Identifies(Encode(records, flags, ignored) + padding,
                       Identity(product.vendor.text, product.sku.text, version.text.text, serial.text.text))
  {
    ParseUndoesEncode(records, flags, ignored, padding);
    ProductRuns(product);
    TextRuns(version);
    TextRuns(serial);
    TextsAre(records, p, v, s);
  }

  lemma {:induction false} TextsAre(records: seq<Record>, p: nat, v: nat, s: nat)
    requires OnlyAt(records, 1, p) && OnlyAt(records, 2, v) && OnlyAt(records, 3, s)
    requires |Runs(records[p].payload)| == 2
    ensures NoneBad(records, |records|)
    ensures Texts(records, |records|)
         == Identity(Runs(records[p].payload)[0], Runs(records[p].payload)[1],
                     TextOf(records[v].payload), TextOf(records[s].payload))
  {
    LastProductCounts(records, |records|);
    LastVersionCounts(records, |records|);
    LastSerialCounts(records, |records|);
    LastIsTheOnly(records, PRODUCT, p);
    LastIsTheOnly(records, PCB_VERSION, v);
    LastIsTheOnly(records, BOARD_SERIAL, s);
  }

  lemma {:induction false} LastIsTheOnly(records: seq<Record>, typ: nat, i: nat)
    requires OnlyAt(records, typ, i)
    ensures Last(records, |records|, typ) == i
  {
    assert records[i].typ == typ;
  }

  /** An identity that was read holds four proper texts. */
  lemma IdentityIsProper(data: Bytes, id: Identity)
    requires Identifies(data, id)
    ensures Proper(id.vendor) && Proper(id.sku) && Proper(id.pcbVersion) && Proper(id.boardSerial)
  {
    var records := Parse(data).records;
    LastProductCounts(records, |records|);
    LastVersionCounts(records, |records|);
    LastSerialCounts(records, |records|);
    var p, v, s := Last(records, |records|, PRODUCT), Last(records, |records|, PCB_VERSION), Last(records, |records|, BOARD_SERIAL);
    RunsAreProper(records[p].payload);
    RunsAreProper(records[v].payload[2..]);
    RunsAreProper(records[s].payload[2..]);
    assert id.vendor in Runs(records[p].payload) && id.sku in Runs(records[p].payload);
  }
}
