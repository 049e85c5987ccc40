/** Directory listings as the remote script prints them and the device reads them back. */
module Listing {
  import opened Decimal
  import opened Options
  import opened Text

  const NUL := 0 as char
  const NL := '\n'

  datatype Entry = Entry(name: string, dir: bool, mode: string, symlink: bool, size: int, modified: Option<int>, owner: string)

  datatype Listing = Listing(path: string, home: string, truncated: bool, entries: seq<Entry>)

  datatype Result<+T> = Ok(value: T) | Malformed

  // ---- fields and lines ----

  /** One terminated field off the front, and what follows it. */
  function Field(s: string): Option<(string, string)> {
    var k := Find(s, NUL);
    if k == |s| then None else Some((s[..k], s[k + 1..]))
  }

  lemma FieldOfTerminated(f: string, rest: string)
    requires NUL !in f
    ensures Field(f + [NUL] + rest) == Some((f, rest))
  {
    var s := f + [NUL] + rest;
    assert forall i :: 0 <= i < |f| ==> s[i] == f[i];
    FindIs(s, NUL, |f|);
    assert s[..|f|] == f && s[|f| + 1..] == rest;
  }

  function TrimNewline(s: string): string {
    if s != "" && s[|s| - 1] == NL then s[..|s| - 1] else s
  }

  /** The text after the names, as lines. */
  function Lines(s: string): seq<string> {
    Split(TrimNewline(s), NL)
  }

  function WordLength(s: string): (k: nat)
    ensures k <= |s| && (k < |s| ==> IsSpace(s[k])) && forall i :: 0 <= i < k ==> !IsSpace(s[i])
  {
    if s == "" || IsSpace(s[0]) then 0 else
      var k := WordLength(s[1..]);
      assert forall i :: 1 <= i < k + 1 ==> s[i] == s[1..][i - 1];
      k + 1
  }

  /** The words of a line, whatever the white space around them. */
  function Words(s: string): (words: seq<string>)
    ensures forall w :: w in words ==> w != ""
    decreases |s|
  {
    if s == "" then []
    else if IsSpace(s[0]) then Words(s[1..])
    else var k := WordLength(s); [s[..k]] + Words(s[k..])
  }

  /** Words hold no white space, and are all that is left of a line without it. */
  lemma {:induction false} WordsHoldNoSpace(s: string, w: string, k: nat)
    requires w in Words(s) && k < |w|
    ensures !(w[k] == ' ' || 9 <= w[k] as int <= 13)
    decreases |s|
  {
    if IsSpace(s[0]) {
      WordsHoldNoSpace(s[1..], w, k);
    } else {
      var n := WordLength(s);
      if w != s[..n] { WordsHoldNoSpace(s[n..], w, k); }
    }
  }

  // ---- reading ----

  /** A name with its directory mark, as it stands in the names section. */
  datatype Name = Name(dir: bool, text: string)

  /** `n` names off the front, after those already read. */
  function NamesFrom(s: string, n: nat): Result<(seq<Name>, string)> {
    if n == 0 then Ok(([], s))
    else match Field(s)
      case None => Malformed
      case Some((f, rest)) =>
        if |f| < 2 then Malformed
        else match NamesFrom(rest, n - 1)
          case Malformed => Malformed
          case Ok((names, after)) => Ok(([Name(f[0] == 'd', f[1..])] + names, after))
  }

  /** A name and its status line make an entry. */
  function EntryOf(n: Name, line: string): Result<Entry> {
    var cols := Words(line);
    if |cols| < 3 then Malformed
    else
      assert cols[0] in cols;
      var modified := ParseInt(cols[2]);
      Ok(Entry(n.text, n.dir, cols[0], cols[0][0] == 'l', ParseInt(cols[1]).value,
               if modified.ok then Some(modified.value) else None, if |cols| > 3 then cols[3] else ""))
  }

  function EntriesOf(names: seq<Name>, lines: seq<string>, n: nat): Result<seq<Entry>>
    requires n <= |names| && n <= |lines|
  {
    if n == 0 then Ok([])
    else match EntriesOf(names, lines, n - 1)
      case Malformed => Malformed
      case Ok(entries) =>
        match EntryOf(names[n - 1], lines[n - 1])
        case Malformed => Malformed
        case Ok(e) => Ok(entries + [e])
  }

  datatype Header = Header(path: string, home: string, more: string, count: string)

  /** The four header fields, and what follows them. */
  function ReadHeader(s: string): Option<(Header, string)> {
    match Field(s)
    case None => None
    case Some((cwd, s1)) =>
      match Field(s1)
      case None => None
      case Some((home, s2)) =>
        match Field(s2)
        case None => None
        case Some((more, s3)) =>
          match Field(s3)
          case None => None
          case Some((count, s4)) => Some((Header(cwd, home, more, count), s4))
  }

  predicate GoodHeader(h: Header) {
    ParseInt(h.count).ok && ParseInt(h.count).value >= 0 && h.path != "" && h.path[0] == '/'
  }

  /** The directories first, then by name without regard to case, then by name. */
  predicate Earlier(a: Entry, b: Entry) {
    if a.dir != b.dir then a.dir
    else if Fold(a.name) != Fold(b.name) then Before(Fold(a.name), Fold(b.name))
    else Before(a.name, b.name)
  }

  predicate Sorted(entries: seq<Entry>) {
    forall i, j :: 0 <= i < j < |entries| ==> !Earlier(entries[j], entries[i])
  }

  /** `e` after every entry it does not come before. */
  function Insert(entries: seq<Entry>, e: Entry): seq<Entry> {
    if entries == [] then [e]
    else if Earlier(e, entries[|entries| - 1]) then Insert(entries[..|entries| - 1], e) + [entries[|entries| - 1]]
    else entries + [e]
  }

  /** The stable sort of the first `n` entries. */
  function SortFirst(entries: seq<Entry>, n: nat): seq<Entry>
    requires n <= |entries|
  {
    if n == 0 then [] else Insert(SortFirst(entries, n - 1), entries[n - 1])
  }

  function SortEntries(entries: seq<Entry>): seq<Entry> {
    SortFirst(entries, |entries|)
  }

  /** The status lines: with no entries the rest of the text is not looked at. */
  function StatusLines(rest: string, count: nat): seq<string> {
    if count == 0 then [] else Lines(rest)
  }

  function Parse(out: string): Result<Listing> {
    match ReadHeader(out)
    case None => Malformed
    case Some((h, body)) =>
      if !GoodHeader(h) then Malformed
      else match NamesFrom(body, ParseInt(h.count).value)
        case Malformed => Malformed
        case Ok((names, rest)) =>
          var lines := StatusLines(rest, |names|);
          if |lines| != |names| then Malformed
          else match EntriesOf(names, lines, |names|)
            case Malformed => Malformed
            case Ok(entries) => Ok(Listing(h.path, h.home, h.more == "1", SortEntries(entries)))
  }

  // ---- the reader as it runs ----

  method TakeField(out: string) returns (f: string, rest: string, ok: bool)
    ensures ok <==> Field(out).Some?
    ensures if ok then Field(out) == Some((f, rest)) else f == "" && rest == out
  {
    var k := Find(out, NUL);
    if k == |out| { return "", out, false; }
    return out[..k], out[k + 1..], true;
  }

  function PrependNames(front: seq<Name>, r: Result<(seq<Name>, string)>): Result<(seq<Name>, string)> {
    match r
    case Malformed => Malformed
    case Ok((names, rest)) => Ok((front + names, rest))
  }

  function Blank(n: Name): Entry {
    Entry(n.text, n.dir, "", false, 0, None, "")
  }

  method TakeNames(out0: string, count: nat) returns (names: seq<Name>, out: string, ok: bool)
    ensures ok <==> NamesFrom(out0, count).Ok?
    ensures ok ==> NamesFrom(out0, count) == Ok((names, out)) && |names| == count
  {
    names, out, ok := [], out0, false;
    GatherNone(NamesFrom(out0, count));
    for i := 0 to count
      invariant |names| == i
      invariant NamesFrom(out0, count) == PrependNames(names, NamesFrom(out, count - i))
    {
      var f, rest, got := TakeField(out);
      if !got || |f| < 2 { return; }
      Gather(names, Name(f[0] == 'd', f[1..]), NamesFrom(rest, count - i - 1));
      names := names + [Name(f[0] == 'd', f[1..])];
      out := rest;
    }
    assert names + [] == names;
    ok := true;
  }

  lemma GatherNone(r: Result<(seq<Name>, string)>)
    ensures PrependNames([], r) == r
  {
    if r.Ok? { assert [] + r.value.0 == r.value.0; }
  }

  lemma Gather(front: seq<Name>, n: Name, r: Result<(seq<Name>, string)>)
    ensures PrependNames(front, PrependNames([n], r)) == PrependNames(front + [n], r)
  {
    if r.Ok? { assert front + ([n] + r.value.0) == front + [n] + r.value.0; }
  }

  /** Fills in the columns of one entry. */
  method FillEntry(n: Name, line: string) returns (e: Entry, ok: bool)
    ensures ok <==> EntryOf(n, line).Ok?
    ensures ok ==> EntryOf(n, line) == Ok(e)
  {
    e := Blank(n);
    var cols := Words(line);
    if |cols| < 3 { return e, false; }
    assert cols[0] in cols;
    var modified := ParseInt(cols[2]);
    e := e.(mode := cols[0], symlink := cols[0][0] == 'l', size := ParseInt(cols[1]).value);
    if modified.ok { e := e.(modified := Some(modified.value)); }
    if |cols| > 3 { e := e.(owner := cols[3]); }
    ok := true;
  }

  method FillEntries(names: seq<Name>, lines: seq<string>) returns (entries: seq<Entry>, ok: bool)
    requires |lines| == |names|
    ensures ok <==> EntriesOf(names, lines, |names|).Ok?
    ensures ok ==> EntriesOf(names, lines, |names|) == Ok(entries)
  {
    entries, ok := [], false;
    for i := 0 to |lines|
      invariant EntriesOf(names, lines, i) == Ok(entries)
    {
      var e, good := FillEntry(names[i], lines[i]);
      NextEntry(names, lines, i, EntryOf(names[i], lines[i]));
      if !good {
        EntriesStop(names, lines, i + 1, |names|);
        return;
      }
      entries := entries + [e];
    }
    ok := true;
  }

  lemma NextEntry(names: seq<Name>, lines: seq<string>, i: nat, r: Result<Entry>)
    requires i < |names| && i < |lines| && EntriesOf(names, lines, i).Ok? && r == EntryOf(names[i], lines[i])
    ensures EntriesOf(names, lines, i + 1) == if r.Ok? then Ok(EntriesOf(names, lines, i).value + [r.value]) else Malformed
  {
  }

  lemma {:induction false} EntriesStop(names: seq<Name>, lines: seq<string>, i: nat, n: nat)
    requires i <= n <= |names| && n <= |lines| && EntriesOf(names, lines, i).Malformed?
    ensures EntriesOf(names, lines, n).Malformed?
  {
    if i < n { EntriesStop(names, lines, i, n - 1); }
  }

  method TakeHeader(out: string) returns (h: Header, rest: string, ok: bool)
    ensures ok <==> ReadHeader(out).Some?
    ensures ok ==> ReadHeader(out) == Some((h, rest))
  {
    var cwd, s1, ok1 := TakeField(out);
    var home, s2, ok2 := TakeField(s1);
    var more, s3, ok3 := TakeField(s2);
    var count, s4, ok4 := TakeField(s3);
    return Header(cwd, home, more, count), s4, ok1 && ok2 && ok3 && ok4;
  }

  method ParseListing(out: string) returns (r: Result<Listing>)
    ensures r == Parse(out)
  {
    var h, body, found := TakeHeader(out);
    var count := ParseInt(h.count);
    if !found || !count.ok || count.value < 0 || h.path == "" || h.path[0] != '/' {
      return Malformed;
    }
    var names, rest, ok := TakeNames(body, count.value);
    if !ok { return Malformed; }
    var lines := Lines(rest);
    if count.value == 0 { lines := []; }
    if |lines| != count.value { return Malformed; }
    var entries, filled := FillEntries(names, lines);
    if !filled { return Malformed; }
    return Ok(Listing(h.path, h.home, h.more == "1", SortEntries(entries)));
  }

  // ---- what the script prints ----

  predicate Plain(s: string) {
    NUL !in s
  }

  predicate IsWord(s: string) {
    s != "" && forall i :: 0 <= i < |s| ==> !IsSpace(s[i])
  }

  /** An entry as a host can have it: any non-empty name without NUL, newlines and spaces included. */
  predicate Printable(e: Entry) {
    && e.name != "" && Plain(e.name)
    && IsWord(e.mode) && (e.symlink <==> e.mode[0] == 'l')
    && 0 <= e.size <= MAX_INT64
    && e.modified.Some? && MIN_INT64 <= e.modified.value <= MAX_INT64
    && (e.owner == "" || IsWord(e.owner))
  }

  predicate AllPrintable(entries: seq<Entry>) {
    forall i :: 0 <= i < |entries| ==> Printable(entries[i])
  }

  /** What the names section asks of the entries. */
  predicate AllNamed(entries: seq<Entry>) {
    forall i :: 0 <= i < |entries| ==> entries[i].name != "" && Plain(entries[i].name)
  }

  function PrintName(e: Entry): string {
    [if e.dir then 'd' else '-'] + e.name
  }

  function PrintNames(entries: seq<Entry>, i: nat): string
    requires i <= |entries|
    decreases |entries| - i
  {
    if i == |entries| then "" else PrintName(entries[i]) + [NUL] + PrintNames(entries, i + 1)
  }

  /** The modification time as `stat` prints it. */
  function Seconds(e: Entry): int {
    if e.modified.Some? then e.modified.value else 0
  }

  function PrintStatus(e: Entry): string {
    e.mode + (" " + (PrintInt(e.size) + (" " + (PrintInt(Seconds(e)) + (" " + e.owner)))))
  }

  function Statuses(entries: seq<Entry>): (lines: seq<string>)
    ensures |lines| == |entries|
  {
    seq(|entries|, i requires 0 <= i < |entries| => PrintStatus(entries[i]))
  }

  /** `stat` ends every line. */
  function Joined(lines: seq<string>, i: nat): string
    requires i <= |lines|
    decreases |lines| - i
  {
    if i == |lines| then "" else lines[i] + [NL] + Joined(lines, i + 1)
  }

  /** Text that announces and prints the names of `entries`, with `rest` in place of the status lines. */
  function FormatWith(path: string, home: string, truncated: bool, entries: seq<Entry>, rest: string): string {
    path + [NUL] + (home + [NUL] + ((if truncated then "1" else "0") + [NUL]
      + (Print(|entries|) + [NUL] + (PrintNames(entries, 0) + rest))))
  }

  function Format(path: string, home: string, truncated: bool, entries: seq<Entry>): string {
    FormatWith(path, home, truncated, entries, Joined(Statuses(entries), 0))
  }

  // ---- reading undoes printing ----

  lemma {:induction false} WordLengthIs(s: string, k: nat)
    requires k <= |s| && (k < |s| ==> IsSpace(s[k])) && forall i :: 0 <= i < k ==> !IsSpace(s[i])
    ensures WordLength(s) == k
  {
  }

  lemma {:induction false} OneWord(w: string, rest: string)
    requires IsWord(w) && (rest == "" || IsSpace(rest[0]))
    ensures Words(w + rest) == [w] + Words(rest)
  {
    var s := w + rest;
    assert forall i :: 0 <= i < |w| ==> s[i] == w[i];
    WordLengthIs(s, |w|);
    assert s[..|w|] == w && s[|w|..] == rest;
  }

  lemma {:induction false} SkipSpace(rest: string)
    ensures Words(" " + rest) == Words(rest)
  {
    assert (" " + rest)[1..] == rest;
  }

  lemma {:induction false} SpacedWord(w: string, rest: string)
    requires IsWord(w)
    ensures Words(w + (" " + rest)) == [w] + Words(rest)
  {
    OneWord(w, " " + rest);
    SkipSpace(rest);
  }

  lemma {:induction false} LastWord(w: string)
    requires w == "" || IsWord(w)
    ensures Words(w) == if w == "" then [] else [w]
  {
    if w != "" {
      OneWord(w, "");
      assert w + "" == w;
    }
  }

  lemma {:induction false} FourWords(a: string, b: string, c: string, d: string)
    requires IsWord(a) && IsWord(b) && IsWord(c) && (d == "" || IsWord(d))
    ensures Words(a + (" " + (b + (" " + (c + (" " + d)))))) == [a] + ([b] + ([c] + if d == "" then [] else [d]))
  {
    SpacedWord(a, b + (" " + (c + (" " + d))));
    SpacedWord(b, c + (" " + d));
    SpacedWord(c, d);
    LastWord(d);
  }

  lemma DigitsAreAWord(i: int)
    ensures IsWord(PrintInt(i))
  {
    var s := PrintInt(i);
    forall k | 0 <= k < |s| ensures !IsSpace(s[k]) {
      if i < 0 && k > 0 { assert IsDigit(Print(-i)[k - 1]); }
      if i >= 0 { assert IsDigit(Print(i)[k]); }
    }
  }

  /** A status line reads back as the columns printed, whatever the owner. */
  lemma StatusReadsBack(e: Entry)
    requires Printable(e)
    ensures EntryOf(Name(e.dir, e.name), PrintStatus(e)) == Ok(e)
  {
    DigitsAreAWord(e.size);
    DigitsAreAWord(Seconds(e));
    ParseIntOfPrintInt(e.size);
    ParseIntOfPrintInt(Seconds(e));
    FourWords(e.mode, PrintInt(e.size), PrintInt(Seconds(e)), e.owner);
  }

  function NamesOf(entries: seq<Entry>, i: nat): (names: seq<Name>)
    requires i <= |entries|
    ensures |names| == |entries| - i
    decreases |entries| - i
  {
    if i == |entries| then [] else [Name(entries[i].dir, entries[i].name)] + NamesOf(entries, i + 1)
  }

  lemma {:induction false} NameAt(entries: seq<Entry>, i: nat, k: nat)
    requires i <= k < |entries|
    ensures NamesOf(entries, i)[k - i] == Name(entries[k].dir, entries[k].name)
    decreases k - i
  {
    if i < k { NameAt(entries, i + 1, k); }
  }

  lemma {:induction false} NamesReadBack(entries: seq<Entry>, i: nat, rest: string)
    requires i <= |entries| && AllNamed(entries)
    ensures NamesFrom(PrintNames(entries, i) + rest, |entries| - i) == Ok((NamesOf(entries, i), rest))
    decreases |entries| - i
  {
    if i == |entries| {
      assert PrintNames(entries, i) + rest == rest;
    } else {
      NamesReadBack(entries, i + 1, rest);
      NamesGrow(entries, i, rest, PrintNames(entries, i + 1) + rest, |entries| - i);
    }
  }

  lemma NamesGrow(entries: seq<Entry>, i: nat, rest: string, after: string, n: nat)
    requires i < |entries| && AllNamed(entries) && n == |entries| - i
    requires after == PrintNames(entries, i + 1) + rest && NamesFrom(after, n - 1) == Ok((NamesOf(entries, i + 1), rest))
    ensures NamesFrom(PrintNames(entries, i) + rest, n) == Ok((NamesOf(entries, i), rest))
  {
    OneName(entries[i], after, n);
    assert PrintNames(entries, i) + rest == PrintName(entries[i]) + [NUL] + after;
  }

  lemma {:induction false} OneName(e: Entry, after: string, n: nat)
    requires e.name != "" && Plain(e.name) && n > 0
    ensures NamesFrom(PrintName(e) + [NUL] + after, n) == PrependNames([Name(e.dir, e.name)], NamesFrom(after, n - 1))
  {
    var f := PrintName(e);
    assert forall k :: 0 <= k < |f| ==> f[k] == if k == 0 then (if e.dir then 'd' else '-') else e.name[k - 1];
    FieldOfTerminated(f, after);
    assert f[1..] == e.name;
  }

  lemma StatusIsOneLine(e: Entry)
    requires Printable(e)
    ensures NL !in PrintStatus(e)
  {
    DigitsAreAWord(e.size);
    DigitsAreAWord(Seconds(e));
  }

  lemma TrimLongLine(line: string, more: string)
    requires more != "" && more[|more| - 1] == NL
    ensures TrimNewline(line + [NL] + more) == line + [NL] + TrimNewline(more)
    ensures (line + [NL] + more)[|line + [NL] + more| - 1] == NL
  {
    var all := line + [NL] + more;
    assert all[|all| - 1] == more[|more| - 1];
    assert all[..|all| - 1] == line + [NL] + more[..|more| - 1];
  }

  predicate EndsInNewline(s: string) {
    s != "" && s[|s| - 1] == NL
  }

  lemma LastLine(line: string)
    requires NL !in line
    ensures Lines(line + [NL] + "") == [line] && EndsInNewline(line + [NL] + "")
  {
    var s := line + [NL] + "";
    assert s[|s| - 1] == NL && s[..|s| - 1] == line;
    SplitOnly(line, NL);
  }

  lemma OneLine(line: string, more: string)
    requires NL !in line && EndsInNewline(more)
    ensures Lines(line + [NL] + more) == [line] + Lines(more) && EndsInNewline(line + [NL] + more)
  {
    TrimLongLine(line, more);
    SplitFirst(line, NL, TrimNewline(more));
  }

  lemma {:induction false} LinesReadBack(lines: seq<string>, i: nat)
    requires i < |lines| && forall k :: 0 <= k < |lines| ==> NL !in lines[k]
    ensures Lines(Joined(lines, i)) == lines[i..] && EndsInNewline(Joined(lines, i))
    decreases |lines| - i
  {
    if i == |lines| - 1 {
      LastLine(lines[i]);
      assert Joined(lines, i + 1) == "";
    } else {
      LinesReadBack(lines, i + 1);
      OneLine(lines[i], Joined(lines, i + 1));
      assert lines[i..] == [lines[i]] + lines[i + 1..];
    }
  }

  /** The first `n` names and lines are those of the entries. */
  predicate Match(entries: seq<Entry>, names: seq<Name>, lines: seq<string>, n: nat)
    requires n <= |entries| && n <= |names| && n <= |lines|
  {
    n == 0 || (Match(entries, names, lines, n - 1) && EntryOf(names[n - 1], lines[n - 1]) == Ok(entries[n - 1]))
  }

  lemma {:induction false} EntriesReadBack(entries: seq<Entry>, names: seq<Name>, lines: seq<string>, n: nat)
    requires n <= |entries| && n <= |names| && n <= |lines| && Match(entries, names, lines, n)
    ensures EntriesOf(names, lines, n) == Ok(entries[..n])
  {
    if n > 0 {
      EntriesReadBack(entries, names, lines, n - 1);
      assert entries[..n] == entries[..n - 1] + [entries[n - 1]];
    }
  }

  predicate Tells(e: Entry, name: Name, line: string) {
    EntryOf(name, line) == Ok(e)
  }

  lemma {:induction false} MatchAll(entries: seq<Entry>, names: seq<Name>, lines: seq<string>, n: nat)
    requires n <= |entries| && n <= |names| && n <= |lines|
    requires forall i :: 0 <= i < n ==> Tells(entries[i], names[i], lines[i])
    ensures Match(entries, names, lines, n)
  {
    if n > 0 { MatchAll(entries, names, lines, n - 1); }
  }

  lemma {:induction false} PrintedReadsBack(entries: seq<Entry>, i: nat)
    requires AllPrintable(entries) && i < |entries|
    ensures |NamesOf(entries, 0)| == |Statuses(entries)| == |entries|
    ensures Tells(entries[i], NamesOf(entries, 0)[i], Statuses(entries)[i])
  {
    NameAt(entries, 0, i);
    StatusAt(entries, i);
    StatusTells(entries[i], NamesOf(entries, 0)[i], Statuses(entries)[i]);
  }

  lemma StatusAt(entries: seq<Entry>, i: nat)
    requires i < |entries|
    ensures |Statuses(entries)| == |entries| && Statuses(entries)[i] == PrintStatus(entries[i])
  {
  }

  lemma StatusTells(e: Entry, name: Name, line: string)
    requires Printable(e) && name == Name(e.dir, e.name) && line == PrintStatus(e)
    ensures Tells(e, name, line)
  {
    StatusReadsBack(e);
  }

  lemma Prefix<T>(a: seq<T>, n: nat)
    requires 0 < n <= |a|
    ensures a[..n] == a[..n - 1] + [a[n - 1]]
    ensures multiset(a[..n]) == multiset(a[..n - 1]) + multiset{a[n - 1]}
  {
  }

  lemma HeaderReadsBack(path: string, home: string, more: string, count: string, rest: string)
    requires Plain(path) && Plain(home) && Plain(more) && Plain(count)
    ensures ReadHeader(path + [NUL] + (home + [NUL] + (more + [NUL] + (count + [NUL] + rest))))
         == Some((Header(path, home, more, count), rest))
  {
    var s3 := count + [NUL] + rest;
    var s2 := more + [NUL] + s3;
    FieldOfTerminated(path, home + [NUL] + s2);
    FieldOfTerminated(home, s2);
    FieldOfTerminated(more, s3);
    FieldOfTerminated(count, rest);
  }

  lemma {:induction false} CountReadsBack(n: nat)
    requires n <= MAX_INT64
    ensures Plain(Print(n)) && ParseInt(Print(n)) == Read(n, true)
  {
    ParseIntOfPrintInt(n);
    forall i | 0 <= i < |Print(n)| ensures Print(n)[i] != NUL { assert IsDigit(Print(n)[i]); }
  }

  /** What a directory on a host can be. */
  predicate GoodPlace(path: string, home: string, count: nat) {
    Plain(path) && path != "" && path[0] == '/' && Plain(home) && count <= MAX_INT64
  }

  lemma {:induction false} FrontReadsBack(path: string, home: string, truncated: bool, entries: seq<Entry>, rest: string)
    requires GoodPlace(path, home, |entries|) && AllNamed(entries)
    ensures var out := FormatWith(path, home, truncated, entries, rest);
      && ReadHeader(out).Some?
      && var (h, body) := ReadHeader(out).value;
         && GoodHeader(h) && h.path == path && h.home == home && (h.more == "1" <==> truncated)
         && ParseInt(h.count).value == |entries|
         && NamesFrom(body, |entries|) == Ok((NamesOf(entries, 0), rest))
  {
    CountReadsBack(|entries|);
    var more := if truncated then "1" else "0";
    assert more[0] == if truncated then '1' else '0';
    HeaderReadsBack(path, home, more, Print(|entries|), PrintNames(entries, 0) + rest);
    NamesReadBack(entries, 0, rest);
  }

  /** Reading undoes printing: the entries come back, sorted, each with its own columns. */
  lemma ParseUndoesFormat(path: string, home: string, truncated: bool, entries: seq<Entry>)
    requires GoodPlace(path, home, |entries|) && AllPrintable(entries)
    ensures Parse(Format(path, home, truncated, entries)) == Ok(Listing(path, home, truncated, SortEntries(entries)))
  {
    var rest := Joined(Statuses(entries), 0);
    FrontReadsBack(path, home, truncated, entries, rest);
    AllReadBack(entries);
    ParseIs(FormatWith(path, home, truncated, entries, rest), NamesOf(entries, 0), rest, entries);
  }

  lemma {:induction false} AllReadBack(entries: seq<Entry>)
    requires AllPrintable(entries)
    ensures var lines := StatusLines(Joined(Statuses(entries), 0), |entries|);
      |lines| == |entries| && EntriesOf(NamesOf(entries, 0), lines, |entries|) == Ok(entries)
  {
    StatusLinesReadBack(entries);
    forall i | 0 <= i < |entries| ensures Tells(entries[i], NamesOf(entries, 0)[i], Statuses(entries)[i]) {
      PrintedReadsBack(entries, i);
    }
    MatchAll(entries, NamesOf(entries, 0), Statuses(entries), |entries|);
    EntriesReadBack(entries, NamesOf(entries, 0), Statuses(entries), |entries|);
    assert entries[..|entries|] == entries;
  }

  /** What a reading comes to once its parts are known. */
  lemma {:induction false} ParseIs(out: string, names: seq<Name>, rest: string, entries: seq<Entry>)
    requires ReadHeader(out).Some? && GoodHeader(ReadHeader(out).value.0)
    requires NamesFrom(ReadHeader(out).value.1, ParseInt(ReadHeader(out).value.0.count).value) == Ok((names, rest))
    requires |StatusLines(rest, |names|)| == |names|
    requires EntriesOf(names, StatusLines(rest, |names|), |names|) == Ok(entries)
    ensures var h := ReadHeader(out).value.0; Parse(out) == Ok(Listing(h.path, h.home, h.more == "1", SortEntries(entries)))
  {
  }

  lemma StatusLinesReadBack(entries: seq<Entry>)
    requires AllPrintable(entries)
    ensures StatusLines(Joined(Statuses(entries), 0), |entries|) == Statuses(entries)
  {
    forall k | 0 <= k < |entries| ensures NL !in Statuses(entries)[k] { StatusIsOneLine(entries[k]); }
    if entries != [] { LinesReadBack(Statuses(entries), 0); }
  }

  // ---- a count of status lines that is off ----

  /** A number of status lines that differs from the number of entries is rejected exactly when there are entries. */
  lemma WrongCountIsRejectedIff(path: string, home: string, truncated: bool, entries: seq<Entry>, rest: string)
    requires GoodPlace(path, home, |entries|) && AllNamed(entries)
    requires |Lines(rest)| != |entries|
    ensures Parse(FormatWith(path, home, truncated, entries, rest)).Malformed? <==> entries != []
  {
    FrontReadsBack(path, home, truncated, entries, rest);
    if entries == [] { assert EntriesOf([], [], 0) == Ok([]); }
  }

  // ---- the order ----

  lemma EarlierTransitive(a: Entry, b: Entry, c: Entry)
    requires Earlier(a, b) && Earlier(b, c)
    ensures Earlier(a, c)
  {
    if a.dir == b.dir == c.dir {
      if Fold(a.name) == Fold(b.name) {
        if Fold(b.name) == Fold(c.name) { BeforeTransitive(a.name, b.name, c.name); }
      } else if Fold(b.name) != Fold(c.name) {
        BeforeTransitive(Fold(a.name), Fold(b.name), Fold(c.name));
        BeforeAsymmetric(Fold(a.name), Fold(c.name));
      }
    }
  }

  lemma EarlierTotal(a: Entry, b: Entry)
    ensures Earlier(a, b) || Earlier(b, a) || (a.dir == b.dir && a.name == b.name)
    ensures !(Earlier(a, b) && Earlier(b, a))
  {
    BeforeTotal(a.name, b.name);
    BeforeTotal(Fold(a.name), Fold(b.name));
    if Before(a.name, b.name) { BeforeAsymmetric(a.name, b.name); }
    if Before(Fold(a.name), Fold(b.name)) { BeforeAsymmetric(Fold(a.name), Fold(b.name)); }
  }

  /** Not earlier is transitive too: the order of the entries is total up to entries alike in mark and name. */
  lemma NotEarlierTransitive(a: Entry, b: Entry, c: Entry)
    requires !Earlier(b, a) && !Earlier(c, b)
    ensures !Earlier(c, a)
  {
    EarlierTotal(a, b);
    EarlierTotal(b, c);
    if Earlier(c, a) {
      if Earlier(a, b) { EarlierTransitive(c, a, b); }
    }
  }

  lemma {:induction false} InsertPermutes(entries: seq<Entry>, e: Entry)
    ensures multiset(Insert(entries, e)) == multiset(entries) + multiset{e}
    decreases |entries|
  {
    if entries != [] && Earlier(e, entries[|entries| - 1]) {
      InsertPermutes(entries[..|entries| - 1], e);
      Prefix(entries, |entries|);
      assert entries[..|entries|] == entries;
    }
  }

  /** Nothing in the front comes after the last. */
  lemma InsertedBeforeLast(entries: seq<Entry>, e: Entry, x: Entry)
    requires Sorted(entries) && entries != [] && Earlier(e, entries[|entries| - 1])
    requires x in Insert(entries[..|entries| - 1], e)
    ensures !Earlier(entries[|entries| - 1], x)
  {
    var front := entries[..|entries| - 1];
    InsertPermutes(front, e);
    EarlierTotal(e, entries[|entries| - 1]);
    assert x in multiset(front) + multiset{e};
    if x != e { var i :| 0 <= i < |front| && front[i] == x; }
  }

  lemma {:induction false} InsertSorts(entries: seq<Entry>, e: Entry)
    requires Sorted(entries)
    ensures Sorted(Insert(entries, e))
    decreases |entries|
  {
    if entries != [] {
      var front, last := entries[..|entries| - 1], entries[|entries| - 1];
      if Earlier(e, last) {
        InsertSorts(front, e);
        var r := Insert(front, e);
        forall i | 0 <= i < |r| ensures !Earlier(last, r[i]) { InsertedBeforeLast(entries, e, r[i]); }
      } else {
        forall i | 0 <= i < |entries| ensures !Earlier(e, entries[i]) {
          if i < |front| { NotEarlierTransitive(entries[i], last, e); }
        }
      }
    }
  }

  /** The entries come out as a permutation of what went in, directories first and by folded name. */
  lemma {:induction false} SortIsSorted(entries: seq<Entry>, n: nat)
    requires n <= |entries|
    ensures Sorted(SortFirst(entries, n)) && multiset(SortFirst(entries, n)) == multiset(entries[..n])
  {
    if n == 0 {
      assert entries[..0] == [];
    } else {
      SortIsSorted(entries, n - 1);
      InsertSorts(SortFirst(entries, n - 1), entries[n - 1]);
      InsertPermutes(SortFirst(entries, n - 1), entries[n - 1]);
      Prefix(entries, n);
    }
  }

  /** Entries alike in mark and name are the same entry. */
  predicate Distinguished(entries: multiset<Entry>) {
    forall x, y :: x in entries && y in entries && x.dir == y.dir && x.name == y.name ==> x == y
  }

  lemma TailBag<T>(a: seq<T>)
    requires a != []
    ensures a == [a[0]] + a[1..] && multiset(a) == multiset(a[1..]) + multiset{a[0]}
  {
    assert a == [a[0]] + a[1..];
  }

  lemma TailBags<T>(a: seq<T>, b: seq<T>)
    requires a != [] && b != [] && multiset(a) == multiset(b) && a[0] == b[0]
    ensures multiset(a[1..]) == multiset(b[1..]) && (a[1..] == b[1..] ==> a == b)
    ensures forall x :: x in multiset(a[1..]) ==> x in multiset(a)
  {
    TailBag(a);
    TailBag(b);
    assert multiset(a[1..]) == multiset(a) - multiset{a[0]};
    assert multiset(b[1..]) == multiset(b) - multiset{b[0]};
  }

  lemma NoneEarlierThanHead(a: seq<Entry>, x: Entry)
    requires Sorted(a) && a != [] && x in multiset(a)
    ensures x == a[0] || !Earlier(x, a[0])
  {
    var i :| 0 <= i < |a| && a[i] == x;
  }

  lemma SortedTail(a: seq<Entry>)
    requires Sorted(a) && a != []
    ensures Sorted(a[1..])
  {
  }

  lemma SameHead(a: seq<Entry>, b: seq<Entry>)
    requires Sorted(a) && Sorted(b) && a != [] && b != [] && multiset(a) == multiset(b) && Distinguished(multiset(a))
    ensures a[0] == b[0]
  {
    assert a[0] in multiset(b) && b[0] in multiset(a);
    NoneEarlierThanHead(a, b[0]);
    NoneEarlierThanHead(b, a[0]);
    EarlierTotal(a[0], b[0]);
  }

  /** A bag of distinguishable entries has one sorted order. */
  lemma {:induction false} SortedIsUnique(a: seq<Entry>, b: seq<Entry>)
    requires Sorted(a) && Sorted(b) && multiset(a) == multiset(b) && Distinguished(multiset(a))
    ensures a == b
    decreases |a|
  {
    SameSize(a, b);
    if a != [] {
      SameHead(a, b);
      TailBags(a, b);
      SortedTail(a);
      SortedTail(b);
      SortedIsUnique(a[1..], b[1..]);
    }
  }

  /** Two listings of the same distinct entries, in whatever order, read as the same listing. */
  lemma OrderDoesNotMatter(path: string, home: string, truncated: bool, a: seq<Entry>, b: seq<Entry>)
    requires GoodPlace(path, home, |a|) && AllPrintable(a) && AllPrintable(b)
    requires multiset(a) == multiset(b) && Distinguished(multiset(a))
    ensures Parse(Format(path, home, truncated, a)) == Parse(Format(path, home, truncated, b))
  {
    SameSize(a, b);
    ParseUndoesFormat(path, home, truncated, a);
    ParseUndoesFormat(path, home, truncated, b);
    SortedBag(a);
    SortedBag(b);
    SortedIsUnique(SortEntries(a), SortEntries(b));
  }

  lemma SameSize<T>(a: seq<T>, b: seq<T>)
    requires multiset(a) == multiset(b)
    ensures |a| == |b|
  {
    assert |a| == |multiset(a)| == |multiset(b)| == |b|;
  }

  /** The order in which entries are shown, by places: directories before files, and each kind by folded name and then by name. */
  ghost predicate ShownInOrder(entries: seq<Entry>) {
    forall i, j :: 0 <= i < j < |entries| ==>
      && (entries[j].dir ==> entries[i].dir)
      && (entries[i].dir == entries[j].dir ==> !Precedes(Fold(entries[j].name), Fold(entries[i].name)))
      && (entries[i].dir == entries[j].dir && Fold(entries[i].name) == Fold(entries[j].name) ==> !Precedes(entries[j].name, entries[i].name))
  }

  lemma SortedIsShown(entries: seq<Entry>)
    ensures Sorted(entries) <==> ShownInOrder(entries)
  {
    forall i, j | 0 <= i < j < |entries|
      ensures !Earlier(entries[j], entries[i]) <==>
        && (entries[j].dir ==> entries[i].dir)
        && (entries[i].dir == entries[j].dir ==> !Precedes(Fold(entries[j].name), Fold(entries[i].name)))
        && (entries[i].dir == entries[j].dir && Fold(entries[i].name) == Fold(entries[j].name) ==> !Precedes(entries[j].name, entries[i].name))
    {
      EarlierMeans(entries[j], entries[i]);
    }
  }

  lemma EarlierMeans(b: Entry, a: Entry)
    ensures !Earlier(b, a) <==>
      && (b.dir ==> a.dir)
      && (a.dir == b.dir ==> !Precedes(Fold(b.name), Fold(a.name)))
      && (a.dir == b.dir && Fold(a.name) == Fold(b.name) ==> !Precedes(b.name, a.name))
  {
    BeforeMeans(Fold(b.name), Fold(a.name));
    BeforeMeans(b.name, a.name);
    BeforeIrreflexive(Fold(a.name));
  }

  /** Whatever is read is of an absolute path, and shown in order. */
  lemma ParsedInOrder(out: string)
    requires Parse(out).Ok?
    ensures ShownInOrder(Parse(out).value.entries) && Parse(out).value.path != "" && Parse(out).value.path[0] == '/'
  {
    var h, body := ReadHeader(out).value.0, ReadHeader(out).value.1;
    var names, rest := NamesFrom(body, ParseInt(h.count).value).value.0, NamesFrom(body, ParseInt(h.count).value).value.1;
    var entries := EntriesOf(names, StatusLines(rest, |names|), |names|).value;
    SortedBag(entries);
    SortedIsShown(SortEntries(entries));
  }

  /** The listing shown is sorted, and a permutation of what the host listed. */
  lemma SortedBag(a: seq<Entry>)
    ensures Sorted(SortEntries(a)) && multiset(SortEntries(a)) == multiset(a) && ShownInOrder(SortEntries(a))
  {
    SortIsSorted(a, |a|);
    assert a[..|a|] == a;
    SortedIsShown(SortEntries(a));
  }
}
