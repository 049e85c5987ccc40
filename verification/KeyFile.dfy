/**
 What the remote scripts do to a host's authorized_keys file. The file is its newline-terminated
 lines and whatever stands, unterminated, after the last newline.
 */
module KeyFile {
  import opened Options
  import opened Text

  datatype File = File(lines: seq<string>, tail: string)

  /** What grep reads as lines: an unterminated rest counts as one. */
  function AllLines(f: File): seq<string> {
    if f.tail == "" then f.lines else f.lines + [f.tail]
  }

  predicate Has(f: File, key: string) {
    key in AllLines(f)
  }

  /** The lines other than `key`, in order. */
  function Without(lines: seq<string>, key: string): seq<string> {
    WithoutFirst(lines, |lines|, key)
  }

  function WithoutFirst(lines: seq<string>, n: nat, key: string): seq<string>
    requires n <= |lines|
  {
    if n == 0 then []
    else if lines[n - 1] == key then WithoutFirst(lines, n - 1, key)
    else WithoutFirst(lines, n - 1, key) + [lines[n - 1]]
  }

  /** The file through `grep -v`, which terminates every line it prints, or through `cat`. */
  function Stripped(f: File, gone: string): File {
    if gone == "" then f else File(Without(AllLines(f), gone), "")
  }

  /** `printf '%s\n' key >> file`: an unterminated rest runs into the new line. */
  function Appended(f: File, key: string): File {
    File(f.lines + [f.tail + key], "")
  }

  function Installed(f: File, key: string, gone: string): File {
    var t := Stripped(f, gone);
    if Has(t, key) then t else Appended(t, key)
  }

  function Removed(f: File, keys: seq<string>): File {
    if keys == [] then f
    else if keys[|keys| - 1] == "" then Removed(f, keys[..|keys| - 1])
    else Stripped(Removed(f, keys[..|keys| - 1]), keys[|keys| - 1])
  }

  datatype Exit = Done | NoKey | NoHome

  /** The record the device keeps of a host. */
  datatype Status = Ready | Error

  class Host {
    var lines: seq<string>
    var tail: string
    var fingerprint: string   // of the key last installed
    var status: Status

    ghost function Now(): File
      reads this`lines, this`tail
    {
      File(lines, tail)
    }

    constructor (f: File)
      ensures Now() == f && fingerprint == "" && status == Error
    {
      lines, tail, fingerprint, status := f.lines, f.tail, "", Error;
    }

    method GrepExact(key: string) returns (found: bool)
      ensures found <==> Has(Now(), key)
    {
      var all := if tail == "" then lines else lines + [tail];
      found := false;
      for i := 0 to |all|
        invariant found <==> key in all[..i]
      {
        assert all[..i + 1] == all[..i] + [all[i]];
        if all[i] == key { found := true; }
      }
      assert all[..|all|] == all;
    }

    /** `grep -vxF key` over the temporary copy. */
    method Strip(key: string)
      requires key != ""
      modifies this`lines, this`tail
      ensures Now() == Stripped(old(Now()), key)
    {
      var all := if tail == "" then lines else lines + [tail];
      var kept: seq<string> := [];
      for i := 0 to |all|
        invariant kept == WithoutFirst(all, i, key)
      {
        if all[i] != key { kept := kept + [all[i]]; }
      }
      lines, tail := kept, "";
    }

    /** The installing script; without a home directory or a key on its input it stops first. */
    method Install(home: bool, key: string, gone: string) returns (exit: Exit)
      modifies this`lines, this`tail
      ensures exit == if !home then NoHome else if key == "" then NoKey else Done
      ensures Now() == if exit.Done? then Installed(old(Now()), key, gone) else old(Now())
    {
      if !home { return NoHome; }
      if key == "" { return NoKey; }
      if gone != "" { Strip(gone); }
      var found := GrepExact(key);
      if !found {
        lines, tail := lines + [tail + key], "";
      }
      exit := Done;
    }

    /** The removing script: each non-empty input line in turn. */
    method Remove(home: bool, keys: seq<string>) returns (exit: Exit)
      modifies this`lines, this`tail
      ensures exit == if home then Done else NoHome
      ensures Now() == if home then Removed(old(Now()), keys) else old(Now())
    {
      if !home { return NoHome; }
      ghost var before := Now();
      assert Removed(before, keys[..0]) == before;
      for i := 0 to |keys|
        invariant Now() == Removed(before, keys[..i])
      {
        assert keys[..i + 1][..i] == keys[..i];
        if keys[i] != "" { Strip(keys[i]); }
      }
      assert keys[..|keys|] == keys;
      exit := Done;
    }

    /** The host accepts a login with a key whose line is in the file. */
    predicate Accepts(key: string)
      reads this`lines, this`tail
    {
      key in lines || (tail != "" && key == tail)
    }

    /**
     A push: log in with the current key or else the previous one, install the current key and
     take the previous one out, then log in anew with the current key alone and look for its line.
     */
    method Push(reachable: bool, home: bool, cert: string, prev: string) returns (ok: bool)
      requires cert != ""
      modifies this
      ensures !(reachable && home && (old(Accepts(cert)) || (prev != "" && old(Accepts(prev))))) ==>
        !ok && Now() == old(Now()) && fingerprint == old(fingerprint)
      ensures reachable && home && (old(Accepts(cert)) || (prev != "" && old(Accepts(prev)))) ==>
        Now() == Installed(old(Now()), cert, prev) && fingerprint == cert && (ok <==> Has(Now(), cert))
      ensures status == if ok then Ready else Error
    {
      ok, status := false, Error;
      if !reachable || !(Accepts(cert) || (prev != "" && Accepts(prev))) { return; }
      var exit := Install(home, cert, prev);
      if exit != Done { return; }
      fingerprint := cert;
      if !Accepts(cert) { return; }
      ok := GrepExact(cert);
      if ok { status := Ready; }
    }
  }

  // ---- what the scripts achieve ----

  lemma {:induction false} WithoutMembers(lines: seq<string>, n: nat, key: string, k: string)
    requires n <= |lines|
    ensures k in WithoutFirst(lines, n, key) <==> k != key && exists i :: 0 <= i < n && lines[i] == k
  {
    if n > 0 { WithoutMembers(lines, n - 1, key, k); }
  }

  lemma StrippedHas(f: File, gone: string, k: string)
    ensures Has(Stripped(f, gone), k) <==> Has(f, k) && (gone == "" || k != gone)
  {
    WithoutMembers(AllLines(f), |AllLines(f)|, gone, k);
  }

  /** The case the installing script gets wrong: nothing to take out, and the file does not end in a newline. */
  predicate RunsOn(f: File, key: string, gone: string) {
    gone == "" && f.tail != "" && !Has(f, key)
  }

  lemma LongerIsOther(a: string, b: string)
    requires a != ""
    ensures a + b != b
  {
    assert |a + b| == |a| + |b|;
  }

  /** An install leaves the new key present exactly when the file does not run on into it. */
  lemma InstallPutsKey(f: File, key: string, gone: string)
    requires key != ""
    ensures Has(Installed(f, key, gone), key) <==> !RunsOn(f, key, gone)
    ensures RunsOn(f, key, gone) ==>
      Installed(f, key, gone) == File(f.lines + [f.tail + key], "") &&
      f.tail !in Installed(f, key, gone).lines[|f.lines|..]
  {
    var t := Stripped(f, gone);
    if RunsOn(f, key, gone) {
      LongerIsOther(f.tail, key);
      assert |f.tail + key| > |f.tail|;
    } else if !Has(t, key) {
      assert t.tail == "" && "" + key == key;
      assert key in (t.lines + [t.tail + key]);
    }
  }

  /** Nothing else is lost, gained or reordered: without the two keys the lines are as before. */
  lemma InstallKeepsOthers(f: File, key: string, gone: string)
    requires key != "" && !RunsOn(f, key, gone)
    ensures Without(Without(AllLines(Installed(f, key, gone)), gone), key) == Without(Without(AllLines(f), gone), key)
  {
    var t := Stripped(f, gone);
    if gone != "" { WithoutTwice(AllLines(f), gone); }
    if !Has(t, key) {
      assert t.tail == "" && "" + key == key;
      assert AllLines(Appended(t, key)) == t.lines + [key];
      WithoutLast(t.lines, key, gone);
      WithoutLast(Without(t.lines, gone), key, key);
    }
  }

  lemma {:induction false} WithoutPrefix(a: seq<string>, b: seq<string>, n: nat, key: string)
    requires n <= |a| && n <= |b| && forall i :: 0 <= i < n ==> a[i] == b[i]
    ensures WithoutFirst(a, n, key) == WithoutFirst(b, n, key)
  {
    if n > 0 { WithoutPrefix(a, b, n - 1, key); }
  }

  lemma WithoutLast(lines: seq<string>, key: string, gone: string)
    ensures Without(lines + [key], gone) == if key == gone then Without(lines, gone) else Without(lines, gone) + [key]
  {
    WithoutPrefix(lines + [key], lines, |lines|, gone);
  }

  lemma {:induction false} WithoutAbsent(lines: seq<string>, n: nat, key: string)
    requires n <= |lines| && forall i :: 0 <= i < n ==> lines[i] != key
    ensures WithoutFirst(lines, n, key) == lines[..n]
  {
    if n > 0 {
      WithoutAbsent(lines, n - 1, key);
      assert lines[..n] == lines[..n - 1] + [lines[n - 1]];
    }
  }

  lemma WithoutTwice(lines: seq<string>, key: string)
    ensures Without(Without(lines, key), key) == Without(lines, key)
  {
    var w := Without(lines, key);
    forall i | 0 <= i < |w| ensures w[i] != key { WithoutMembers(lines, |lines|, key, w[i]); }
    WithoutAbsent(w, |w|, key);
    assert w[..|w|] == w;
  }

  /** The superseded key is gone, unless it is the very key installed. */
  lemma InstallDropsOld(f: File, key: string, gone: string)
    requires key != "" && gone != "" && gone != key
    ensures !Has(Installed(f, key, gone), gone)
  {
    var t := Stripped(f, gone);
    StrippedHas(f, gone, gone);
    if !Has(t, key) { assert "" + key == key; }
  }

  lemma InstallHas(f: File, key: string, gone: string, k: string)
    requires key != "" && !RunsOn(f, key, gone)
    ensures Has(Installed(f, key, gone), k) <==> k == key || (Has(f, k) && (gone == "" || k != gone))
  {
    var t := Stripped(f, gone);
    StrippedHas(f, gone, k);
    StrippedHas(f, gone, key);
    if !Has(t, key) { assert t.tail == "" && "" + key == key; }
  }

  /** Installing twice is installing once, exactly when the file does not run on into the new key. */
  lemma InstallIsIdempotent(f: File, key: string, gone: string)
    requires key != ""
    ensures Installed(Installed(f, key, gone), key, gone) == Installed(f, key, gone) <==> !RunsOn(f, key, gone)
  {
    var g := Installed(f, key, gone);
    InstallPutsKey(f, key, gone);
    if RunsOn(f, key, gone) {
      assert !Has(g, key);
      assert |Installed(g, key, gone).lines| == |g.lines| + 1;
    } else if gone == "" {
      assert Installed(g, key, gone) == g;
    } else {
      AgainAfterStrip(f, key, gone);
    }
  }

  lemma AgainAfterStrip(f: File, key: string, gone: string)
    requires key != "" && gone != ""
    ensures Installed(Installed(f, key, gone), key, gone) == Installed(f, key, gone)
  {
    var t := Stripped(f, gone);
    var g := Installed(f, key, gone);
    WithoutTwice(AllLines(f), gone);
    StrippedHas(f, gone, key);
    if !Has(t, key) {
      assert "" + key == key && g.lines == t.lines + [key] && AllLines(g) == g.lines;
      WithoutLast(t.lines, key, gone);
      if key == gone {
        assert Stripped(g, gone) == t;
      } else {
        assert Stripped(g, gone) == g;
      }
    }
  }

  // ---- the lines by their places ----

  /** `kept` are the lines at the places `at`: in order, and all of those that are not `key`. */
  ghost predicate KeptAt(lines: seq<string>, n: nat, key: string, kept: seq<string>, at: seq<nat>) {
    && n <= |lines| && |at| == |kept|
    && (forall i :: 0 <= i < |at| ==> at[i] < n && kept[i] == lines[at[i]] && kept[i] != key)
    && (forall i, j :: 0 <= i < j < |at| ==> at[i] < at[j])
    && forall k :: 0 <= k < n && lines[k] != key ==> k in at
  }

  lemma {:induction false} WithoutKeepsPlaces(lines: seq<string>, n: nat, key: string) returns (at: seq<nat>)
    requires n <= |lines|
    ensures KeptAt(lines, n, key, WithoutFirst(lines, n, key), at)
  {
    at := [];
    if n > 0 {
      at := WithoutKeepsPlaces(lines, n - 1, key);
      if lines[n - 1] != key { at := at + [n - 1]; }
    }
  }

  /** All the places of a text of lines. */
  function Places(n: nat): seq<nat> {
    seq(n, i requires 0 <= i < n => i)
  }

  /**
   The installing script, line by line: the file it leaves has every line that is not the key to take
   out, in its old order, and after them the new key if it is not one of them. Only a file that runs
   on into the new key comes out otherwise.
   */
  lemma InstallLines(f: File, key: string, gone: string) returns (kept: seq<string>, at: seq<nat>)
    requires key != "" && !RunsOn(f, key, gone)
    ensures var before := if f.tail == "" then f.lines else f.lines + [f.tail];
      && (if gone == "" then kept == before && at == Places(|before|) else KeptAt(before, |before|, gone, kept, at))
      && var g := Installed(f, key, gone);
         (if g.tail == "" then g.lines else g.lines + [g.tail]) == if key in kept then kept else kept + [key]
  {
    var t := Stripped(f, gone);
    kept, at := AllLines(t), Places(|AllLines(f)|);
    if gone != "" { at := WithoutKeepsPlaces(AllLines(f), |AllLines(f)|, gone); }
    if !Has(t, key) { assert t.tail == "" && "" + key == key; }
  }

  /** The first `n` lines but for those among `keys`; an empty key takes out nothing. */
  function Kept(lines: seq<string>, n: nat, keys: seq<string>): seq<string>
    requires n <= |lines|
  {
    if n == 0 then []
    else if lines[n - 1] != "" && lines[n - 1] in keys then Kept(lines, n - 1, keys)
    else Kept(lines, n - 1, keys) + [lines[n - 1]]
  }

  lemma {:induction false} KeptWithout(lines: seq<string>, n: nat, keys: seq<string>, key: string)
    requires n <= |lines| && key != ""
    ensures Without(Kept(lines, n, keys), key) == Kept(lines, n, keys + [key])
  {
    if n > 0 {
      KeptWithout(lines, n - 1, keys, key);
      WithoutLast(Kept(lines, n - 1, keys), lines[n - 1], key);
    }
  }

  lemma {:induction false} KeptAll(lines: seq<string>, n: nat)
    requires n <= |lines|
    ensures Kept(lines, n, []) == lines[..n]
  {
    if n > 0 {
      KeptAll(lines, n - 1);
      assert lines[..n] == lines[..n - 1] + [lines[n - 1]];
    }
  }

  lemma {:induction false} KeptSkipsBlank(lines: seq<string>, n: nat, keys: seq<string>)
    requires n <= |lines|
    ensures Kept(lines, n, keys + [""]) == Kept(lines, n, keys)
  {
    if n > 0 { KeptSkipsBlank(lines, n - 1, keys); }
  }

  lemma {:induction false} RemovedHas(f: File, keys: seq<string>, k: string)
    ensures Has(Removed(f, keys), k) <==> Has(f, k) && (k == "" || k !in keys)
    decreases |keys|
  {
    if keys != [] {
      var front, last := keys[..|keys| - 1], keys[|keys| - 1];
      RemovedHas(f, front, k);
      StrippedHas(Removed(f, front), last, k);
      assert keys == front + [last];
    }
  }

  lemma {:induction false} RemovedKept(f: File, keys: seq<string>)
    ensures AllLines(Removed(f, keys)) == Kept(AllLines(f), |AllLines(f)|, keys)
    decreases |keys|
  {
    var lines := AllLines(f);
    if keys == [] {
      KeptAll(lines, |lines|);
      assert lines[..|lines|] == lines;
    } else {
      var front, last := keys[..|keys| - 1], keys[|keys| - 1];
      assert keys == front + [last];
      RemovedKept(f, front);
      if last == "" { KeptSkipsBlank(lines, |lines|, front); } else { KeptWithout(lines, |lines|, front, last); }
    }
  }

  /** Removing takes out every line that is one of the keys, and leaves all others as often as, and in the order, they stood. */
  lemma {:induction false} RemovedLines(f: File, keys: seq<string>)
    ensures forall k :: Has(Removed(f, keys), k) <==> Has(f, k) && (k == "" || k !in keys)
    ensures AllLines(Removed(f, keys)) == Kept(AllLines(f), |AllLines(f)|, keys)
  {
    forall k ensures Has(Removed(f, keys), k) <==> Has(f, k) && (k == "" || k !in keys) { RemovedHas(f, keys, k); }
    RemovedKept(f, keys);
  }

  // ---- the probe ----

  const INSTALLED := "llmgate-key:installed"
  const MISSING := "llmgate-key:missing"
  const MARK := "llmgate-key:"

  /** What the probing script prints: the mark, then the line of `uname`, if it works. */
  function ProbeOutput(has: bool, uname: Option<string>): string {
    (if has then INSTALLED else MISSING) + ['\n'] + if uname.Some? then uname.value + ['\n'] else ""
  }

  predicate SaysInstalled(lines: seq<string>, n: nat)
    requires n <= |lines|
  {
    exists i :: 0 <= i < n && TrimSpace(lines[i]) == INSTALLED
  }

  predicate IsDescription(line: string) {
    TrimSpace(line) != "" && !(MARK <= TrimSpace(line))
  }

  /** The first line that is neither a mark nor blank. */
  function Description(lines: seq<string>, n: nat): string
    requires n <= |lines|
  {
    if n == 0 then ""
    else if Description(lines, n - 1) == "" && IsDescription(lines[n - 1]) then TrimSpace(lines[n - 1])
    else Description(lines, n - 1)
  }

  method ParseProbe(out: string) returns (installed: bool, system: string)
    ensures installed <==> SaysInstalled(Split(out, '\n'), |Split(out, '\n')|)
    ensures system == Description(Split(out, '\n'), |Split(out, '\n')|)
  {
    var lines := Split(out, '\n');
    installed, system := false, "";
    for i := 0 to |lines|
      invariant installed <==> SaysInstalled(lines, i)
      invariant system == Description(lines, i)
    {
      var line := TrimSpace(lines[i]);
      if line == INSTALLED {
        assert MARK <= INSTALLED;
        installed := true;
      } else if !(MARK <= line) && line != "" {
        if system == "" { system := line; }
      }
    }
  }

  lemma Marks()
    ensures TrimSpace(INSTALLED) == INSTALLED && TrimSpace(MISSING) == MISSING && TrimSpace("") == "" && INSTALLED != MISSING
    ensures MARK <= INSTALLED && MARK <= MISSING && '\n' !in INSTALLED && '\n' !in MISSING
  {
    assert |INSTALLED| == 21 && |MISSING| == 19;
  }

  lemma {:induction false} ReportLines(lines: seq<string>, mark: string, has: bool, described: string)
    requires TrimSpace(mark) == mark && MARK <= mark && (mark == INSTALLED <==> has)
    requires TrimSpace(described) == described && !(MARK <= described) && described != INSTALLED && TrimSpace("") == "" != INSTALLED
    requires lines == [mark, described, ""] || (lines == [mark, ""] && described == "")
    ensures (SaysInstalled(lines, |lines|) <==> has) && Description(lines, |lines|) == described
  {
    assert lines[0] == mark && lines[1] == described;
    assert Description(lines, 1) == Description(lines, 0) == "";
    assert Description(lines, 2) == described;
    assert Description(lines, |lines|) == described;
  }

  lemma {:induction false} ReportSplits(mark: string, uname: Option<string>)
    requires '\n' !in mark && (uname.Some? ==> '\n' !in uname.value)
    ensures Split(mark + ['\n'] + (if uname.Some? then uname.value + ['\n'] else ""), '\n')
         == if uname.Some? then [mark, uname.value, ""] else [mark, ""]
  {
    SplitOnly("", '\n');
    if uname.Some? {
      SplitFirst(mark, '\n', uname.value + ['\n']);
      SplitLine(uname.value);
    } else {
      SplitLine(mark);
      assert mark + ['\n'] + "" == mark + ['\n'];
    }
  }

  lemma {:induction false} SplitLine(line: string)
    requires '\n' !in line
    ensures Split(line + ['\n'], '\n') == [line, ""]
  {
    SplitOnly("", '\n');
    SplitFirst(line, '\n', "");
    assert line + ['\n'] + "" == line + ['\n'];
  }

  /**
   The probe's report reads back: the key counts as installed exactly when the script found its
   line, and the rest is the host's own description, if it gave one.
   */
  lemma ProbeReadsBack(has: bool, uname: Option<string>)
    requires uname.Some? ==> '\n' !in uname.value && TrimSpace(uname.value) == uname.value && !(MARK <= uname.value)
    ensures var lines := Split(ProbeOutput(has, uname), '\n');
      && (SaysInstalled(lines, |lines|) <==> has)
      && Description(lines, |lines|) == if uname.Some? then uname.value else ""
  {
    Marks();
    var mark := if has then INSTALLED else MISSING;
    ReportSplits(mark, uname);
    ReportLines(Split(ProbeOutput(has, uname), '\n'), mark, has, if uname.Some? then uname.value else "");
  }
}
