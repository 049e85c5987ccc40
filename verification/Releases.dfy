/** The signed component manifest: versions, entries, and which entry is offered to a device. */
module Releases {
  import opened Decimal
  import opened Options
  import opened Text

  const MANAGER_VERSION := 1

  const INDEX_SCHEMA := "llmgate.component-index/v1"
  const COMPONENT_NAME := "cloudflared"
  const MAX_ARTIFACT := 128 * 1024 * 1024

  /** `official` is what the check of its address says. */
  datatype Release = Release(version: string, platform: string, digest: string, size: int, minManager: int,
                             allowInstall: bool, allowUpdate: bool, blocked: bool, official: bool)

  datatype Index = Index(schema: string, component: string, channel: string, revision: int, releases: seq<Release>)

  // ---- versions ----

  /** A part of a version as it is compared: missing parts and parts that are no numbers count as 0. */
  function Part(v: string, i: nat): int {
    var parts := Split(v, '.');
    if i < |parts| then ParseInt(parts[i]).value else 0
  }

  predicate Newer(a: string, b: string) {
    Part(a, 0) > Part(b, 0)
    || (Part(a, 0) == Part(b, 0) && (Part(a, 1) > Part(b, 1) || (Part(a, 1) == Part(b, 1) && Part(a, 2) > Part(b, 2))))
  }

  /** Three non-empty parts of at most six digits. */
  predicate ValidVersion(v: string) {
    var parts := Split(v, '.');
    |parts| == 3 && forall i :: 0 <= i < 3 ==> 1 <= |parts[i]| <= 6 && AllDigits(parts[i])
  }

  method CompareVersion(a: string, b: string) returns (c: int)
    ensures -1 <= c <= 1
    ensures c > 0 <==> Newer(a, b)
    ensures c < 0 <==> Newer(b, a)
    ensures c > 0 <==> Exceeds(a, b)
    ensures c < 0 <==> Exceeds(b, a)
    ensures c == 0 <==> Part(a, 0) == Part(b, 0) && Part(a, 1) == Part(b, 1) && Part(a, 2) == Part(b, 2)
  {
    var as', bs := Split(a, '.'), Split(b, '.');
    for i := 0 to 3
      invariant forall k :: 0 <= k < i ==> Part(a, k) == Part(b, k)
    {
      var av, bv := 0, 0;
      if i < |as'| { av := ParseInt(as'[i]).value; }
      if i < |bs| { bv := ParseInt(bs[i]).value; }
      assert av == Part(a, i) && bv == Part(b, i);
      if av < bv {
        NewerExceeds(a, b);
        NewerExceeds(b, a);
        return -1;
      }
      if av > bv {
        NewerExceeds(a, b);
        NewerExceeds(b, a);
        return 1;
      }
    }
    c := 0;
  }

  method IsValidVersion(v: string) returns (ok: bool)
    ensures ok <==> ValidVersion(v)
  {
    var parts := Split(v, '.');
    if |parts| != 3 { return false; }
    for i := 0 to |parts|
      invariant forall k :: 0 <= k < i ==> 1 <= |parts[k]| <= 6 && AllDigits(parts[k])
    {
      var p := parts[i];
      if p == "" || |p| > 6 { return false; }
      for j := 0 to |p|
        invariant forall k :: 0 <= k < j ==> IsDigit(p[k])
      {
        if p[j] < '0' || p[j] > '9' { return false; }
      }
    }
    ok := true;
  }

  lemma NewerIsTransitive(a: string, b: string, c: string)
    ensures Newer(a, b) && Newer(b, c) ==> Newer(a, c)
    ensures !Newer(b, a) && !Newer(c, b) ==> !Newer(c, a)
    ensures Newer(a, b) && !Newer(c, b) ==> Newer(a, c)
    ensures !Newer(a, a) && !(Newer(a, b) && Newer(b, a))
  {
  }

  function PrintVersion(y: nat, m: nat, p: nat): string {
    Print(y) + ['.'] + (Print(m) + ['.'] + Print(p))
  }

  lemma DigitsHoldNoDot(s: string)
    requires AllDigits(s)
    ensures '.' !in s
  {
    forall i | 0 <= i < |s| ensures s[i] != '.' { assert IsDigit(s[i]); }
  }

  lemma ThreeParts(a: string, b: string, c: string)
    requires AllDigits(a) && AllDigits(b) && AllDigits(c)
    ensures var v := a + ['.'] + (b + ['.'] + c);
      && Split(v, '.') == [a, b, c]
      && Part(v, 0) == ParseInt(a).value && Part(v, 1) == ParseInt(b).value && Part(v, 2) == ParseInt(c).value
  {
    DigitsHoldNoDot(a);
    DigitsHoldNoDot(b);
    DigitsHoldNoDot(c);
    SplitOnly(c, '.');
    SplitMore(b, '.', c, [c]);
    SplitMore(a, '.', b + ['.'] + c, [b, c]);
  }

  /** Versions are compared by their three numbers: what is printed reads back. */
  lemma PartsReadBack(y: nat, m: nat, p: nat)
    requires y <= MAX_INT64 && m <= MAX_INT64 && p <= MAX_INT64
    ensures var v := PrintVersion(y, m, p); Part(v, 0) == y && Part(v, 1) == m && Part(v, 2) == p
  {
    ThreeParts(Print(y), Print(m), Print(p));
    ParseIntOfPrintInt(y);
    ParseIntOfPrintInt(m);
    ParseIntOfPrintInt(p);
  }

  /** Printed versions compare as their numbers do, the first difference deciding. */
  lemma PrintedCompare(y: nat, m: nat, p: nat, y': nat, m': nat, p': nat)
    requires y <= MAX_INT64 && m <= MAX_INT64 && p <= MAX_INT64 && y' <= MAX_INT64 && m' <= MAX_INT64 && p' <= MAX_INT64
    ensures Newer(PrintVersion(y, m, p), PrintVersion(y', m', p')) <==> y > y' || (y == y' && (m > m' || (m == m' && p > p')))
  {
    PartsReadBack(y, m, p);
    PartsReadBack(y', m', p');
  }

  /** Printed versions are valid exactly when their numbers have at most six digits. */
  lemma PrintedIsValidIff(y: nat, m: nat, p: nat)
    ensures ValidVersion(PrintVersion(y, m, p)) <==> y < 1_000_000 && m < 1_000_000 && p < 1_000_000
  {
    DigitsHoldNoDot(Print(y));
    DigitsHoldNoDot(Print(m));
    DigitsHoldNoDot(Print(p));
    ThreeParts(Print(y), Print(m), Print(p));
    SixDigits(y);
    SixDigits(m);
    SixDigits(p);
    var parts := Split(PrintVersion(y, m, p), '.');
    assert parts[0] == Print(y) && parts[1] == Print(m) && parts[2] == Print(p);
  }

  function Pow10(k: nat): nat {
    if k == 0 then 1 else 10 * Pow10(k - 1)
  }

  lemma {:induction false} PrintLength(n: nat, k: nat)
    requires k > 0
    ensures |Print(n)| <= k <==> n < Pow10(k)
  {
    if k == 1 {
      assert Pow10(1) == 10 * Pow10(0);
      assert n >= 10 ==> |Print(n)| == |Print(n / 10)| + 1;
    } else {
      PrintLength(n / 10, k - 1);
      if n < 10 { TenGrows(k - 1); }
    }
  }

  lemma {:induction false} TenGrows(k: nat)
    ensures Pow10(k) >= 1
  {
    if k > 0 { TenGrows(k - 1); }
  }

  lemma {:induction false} SixDigits(n: nat)
    ensures |Print(n)| <= 6 <==> n < 1_000_000
  {
    PrintLength(n, 6);
    assert Pow10(6) == 10 * Pow10(5) && Pow10(5) == 10 * Pow10(4) && Pow10(4) == 10 * Pow10(3);
    assert Pow10(3) == 10 * Pow10(2) && Pow10(2) == 10 * Pow10(1) && Pow10(1) == 10 * Pow10(0);
  }

  /** Version `v` has the greater number at the first of its three parts in which it differs from `w`. */
  ghost predicate Exceeds(v: string, w: string) {
    exists i :: 0 <= i < 3 && Part(v, i) > Part(w, i) && forall k :: 0 <= k < i ==> Part(v, k) == Part(w, k)
  }

  lemma NewerExceeds(v: string, w: string)
    ensures Newer(v, w) <==> Exceeds(v, w)
  {
    if Part(v, 0) > Part(w, 0) { assert Exceeds(v, w); }
    else if Part(v, 0) == Part(w, 0) && Part(v, 1) > Part(w, 1) { assert Exceeds(v, w); }
    else if Part(v, 0) == Part(w, 0) && Part(v, 1) == Part(w, 1) && Part(v, 2) > Part(w, 2) { assert Exceeds(v, w); }
  }

  // ---- the manifest ----

  predicate ValidPlatform(p: string) {
    p == "linux-arm64" || p == "linux-amd64"
  }

  /** 64 lower-case hexadecimal digits. */
  predicate IsSha256Hex(s: string) {
    |s| == 64 && forall i :: 0 <= i < |s| ==> '0' <= s[i] <= '9' || 'a' <= s[i] <= 'f'
  }

  predicate ValidRelease(r: Release) {
    && ValidVersion(r.version) && ValidPlatform(r.platform) && IsSha256Hex(r.digest)
    && 0 < r.size <= MAX_ARTIFACT && r.minManager > 0 && r.official
  }

  /** Every entry is valid, and no platform has a version twice. */
  predicate ValidReleases(rs: seq<Release>) {
    ValidTo(rs, |rs|)
  }

  function KeyOf(r: Release): string {
    r.platform + "/" + r.version
  }

  lemma SameKey(a: Release, b: Release)
    requires ValidPlatform(a.platform) && ValidPlatform(b.platform)
    ensures KeyOf(a) == KeyOf(b) <==> a.platform == b.platform && a.version == b.version
  {
    if KeyOf(a) == KeyOf(b) {
      assert |a.platform| == |b.platform| == 11;
      assert KeyOf(a)[..11] == a.platform && KeyOf(b)[..11] == b.platform;
      assert KeyOf(a)[12..] == a.version && KeyOf(b)[12..] == b.version;
    }
  }

  /** The keys of the first `n` entries. */
  function Keys(rs: seq<Release>, n: nat): set<string>
    requires n <= |rs|
  {
    if n == 0 then {} else Keys(rs, n - 1) + {KeyOf(rs[n - 1])}
  }

  predicate ValidTo(rs: seq<Release>, n: nat)
    requires n <= |rs|
  {
    (forall i :: 0 <= i < n ==> ValidRelease(rs[i]))
    && (forall i, j :: 0 <= i < j < n ==> rs[i].platform != rs[j].platform || rs[i].version != rs[j].version)
  }

  lemma {:induction false} KeyTaken(rs: seq<Release>, n: nat, r: Release)
    requires n <= |rs| && ValidPlatform(r.platform) && forall i :: 0 <= i < n ==> ValidPlatform(rs[i].platform)
    ensures KeyOf(r) in Keys(rs, n) <==> exists i :: 0 <= i < n && rs[i].platform == r.platform && rs[i].version == r.version
  {
    if n > 0 {
      KeyTaken(rs, n - 1, r);
      SameKey(rs[n - 1], r);
    }
  }

  lemma OneMoreValid(rs: seq<Release>, n: nat)
    requires n < |rs| && ValidTo(rs, n) && ValidRelease(rs[n])
    ensures ValidTo(rs, n + 1) <==> KeyOf(rs[n]) !in Keys(rs, n)
  {
    KeyTaken(rs, n, rs[n]);
  }

  datatype Fault = WrongSchema | WrongComponent | BadRevision | BadRelease(at: nat) | Repeated(at: nat)

  /** What the first check that fails says of an index; the entries are looked at in order. */
  predicate Faulty(idx: Index, f: Fault) {
    var rs := idx.releases;
    match f
    case WrongSchema => idx.schema != INDEX_SCHEMA
    case WrongComponent => idx.schema == INDEX_SCHEMA && (idx.component != COMPONENT_NAME || idx.channel != "stable")
    case BadRevision => RightComponent(idx) && idx.revision <= 0
    case BadRelease(at) => RightComponent(idx) && idx.revision > 0 && at < |rs| && ValidTo(rs, at) && !ValidRelease(rs[at])
    case Repeated(at) =>
      && RightComponent(idx) && idx.revision > 0 && at < |rs| && ValidTo(rs, at) && ValidRelease(rs[at])
      && exists i :: 0 <= i < at && rs[i].platform == rs[at].platform && rs[i].version == rs[at].version
  }

  predicate RightComponent(idx: Index) {
    idx.schema == INDEX_SCHEMA && idx.component == COMPONENT_NAME && idx.channel == "stable"
  }

  predicate ValidIndex(idx: Index) {
    RightComponent(idx) && idx.revision > 0 && ValidReleases(idx.releases)
  }

  /** The head of the index, then every entry by itself and against those before it. */
  method Validate(idx: Index) returns (fault: Option<Fault>)
    ensures fault.None? <==> ValidIndex(idx)
    ensures fault.Some? ==> Faulty(idx, fault.value)
  {
    if idx.schema != INDEX_SCHEMA { return Some(WrongSchema); }
    if idx.component != COMPONENT_NAME || idx.channel != "stable" { return Some(WrongComponent); }
    if idx.revision <= 0 { return Some(BadRevision); }
    var rs := idx.releases;
    var seen: set<string> := {};
    for i := 0 to |rs|
      invariant ValidTo(rs, i) && seen == Keys(rs, i)
    {
      var good := IsValidRelease(rs[i]);
      if !good { return Some(BadRelease(i)); }
      OneMoreValid(rs, i);
      KeyTaken(rs, i, rs[i]);
      if KeyOf(rs[i]) in seen { return Some(Repeated(i)); }
      seen := seen + {KeyOf(rs[i])};
    }
    fault := None;
  }

  method IsValidRelease(r: Release) returns (ok: bool)
    ensures ok <==> ValidRelease(r)
  {
    var version := IsValidVersion(r.version);
    ok := version && ValidPlatform(r.platform) && IsSha256Hex(r.digest)
      && 0 < r.size <= MAX_ARTIFACT && r.minManager > 0 && r.official;
  }

  /** The first entry of the platform with the digest, if there is one. */
  method FindByDigest(rs: seq<Release>, platform: string, digest: string) returns (found: bool, at: nat)
    ensures found ==> at < |rs| && rs[at].platform == platform && rs[at].digest == digest
    ensures forall j :: 0 <= j < |rs| && rs[j].platform == platform && rs[j].digest == digest ==> found && at <= j
  {
    for i := 0 to |rs|
      invariant forall j :: 0 <= j < i ==> rs[j].platform != platform || rs[j].digest != digest
    {
      if rs[i].platform == platform && rs[i].digest == digest { return true, i; }
    }
    found, at := false, 0;
  }

  // ---- what is offered ----

  datatype Advisory = Advisory(latest: Option<Release>, newest: Option<Release>, installedBlocked: bool, needsFirmware: bool)

  /** The entry may be put on the device as it is. */
  predicate Eligible(r: Release, platform: string, installed: string) {
    && r.platform == platform && !r.blocked && r.minManager <= MANAGER_VERSION
    && (if installed == "" then r.allowInstall else r.allowUpdate && Newer(r.version, installed))
  }

  /** The entry would be a step ahead, but for a newer firmware. */
  predicate AwaitsFirmware(r: Release, platform: string, installed: string) {
    && r.platform == platform && !r.blocked && r.minManager > MANAGER_VERSION
    && (installed == "" || Newer(r.version, installed))
  }

  predicate IsInstalledBlocked(r: Release, platform: string, installed: string) {
    r.platform == platform && installed != "" && r.version == installed && r.blocked
  }

  /** What a scan looks for. */
  datatype Aim = OnPlatform(platform: string) | ToInstall(platform: string, installed: string)

  predicate Good(aim: Aim, r: Release) {
    match aim
    case OnPlatform(platform) => r.platform == platform
    case ToInstall(platform, installed) => Eligible(r, platform, installed)
  }

  /** The scan keeps an entry when it is newer than the one kept so far. */
  function Keep(aim: Aim, r: Release, kept: Option<Release>): Option<Release> {
    if Good(aim, r) && (kept.None? || Newer(r.version, kept.value.version)) then Some(r) else kept
  }

  function Best(rs: seq<Release>, aim: Aim, n: nat): Option<Release>
    requires n <= |rs|
  {
    if n == 0 then None else Keep(aim, rs[n - 1], Best(rs, aim, n - 1))
  }

  function Offer(rs: seq<Release>, platform: string, installed: string): Option<Release> {
    Best(rs, ToInstall(platform, installed), |rs|)
  }

  /** The scan ends with a good entry, and with none only if there is none. */
  lemma {:induction false} BestIsGood(rs: seq<Release>, aim: Aim, n: nat)
    requires n <= |rs|
    ensures var b := Best(rs, aim, n); b.Some? ==> b.value in rs && Good(aim, b.value)
  {
    if n > 0 { BestIsGood(rs, aim, n - 1); }
  }

  /** It is a maximum: no good entry is newer. */
  lemma {:induction false} BestIsNewest(rs: seq<Release>, aim: Aim, n: nat, j: nat)
    requires j < n <= |rs| && Good(aim, rs[j])
    ensures var b := Best(rs, aim, n); b.Some? && !Newer(rs[j].version, b.value.version)
  {
    var b := Best(rs, aim, n - 1);
    if j < n - 1 {
      BestIsNewest(rs, aim, n - 1, j);
      NewerIsTransitive(rs[n - 1].version, b.value.version, rs[j].version);
    } else if b.Some? {
      NewerIsTransitive(rs[j].version, b.value.version, rs[j].version);
    } else {
      NewerIsTransitive(rs[j].version, rs[j].version, rs[j].version);
    }
  }

  ghost predicate SomeInstalledBlocked(rs: seq<Release>, n: nat, platform: string, installed: string)
    requires n <= |rs|
  {
    exists i :: 0 <= i < n && IsInstalledBlocked(rs[i], platform, installed)
  }

  ghost predicate SomeAwaitsFirmware(rs: seq<Release>, n: nat, platform: string, installed: string)
    requires n <= |rs|
  {
    exists i :: 0 <= i < n && AwaitsFirmware(rs[i], platform, installed)
  }

  method SelectRelease(rs: seq<Release>, platform: string, installed: string) returns (adv: Advisory)
    ensures adv.latest == Offer(rs, platform, installed)
    ensures adv.newest == Best(rs, OnPlatform(platform), |rs|)
    ensures adv.installedBlocked <==> SomeInstalledBlocked(rs, |rs|, platform, installed)
    ensures adv.needsFirmware <==> adv.latest.None? && SomeAwaitsFirmware(rs, |rs|, platform, installed)
    ensures adv.latest.None? <==> forall r :: r in rs ==> !MayGoOn(r, platform, installed)
    ensures adv.latest.Some? ==> IsFirstHighest(rs, Fitting(rs, platform, installed), adv.latest.value)
    ensures adv.newest.None? <==> forall r :: r in rs ==> r.platform != platform
    ensures adv.newest.Some? ==> IsFirstHighest(rs, Listed(rs, platform), adv.newest.value)
    ensures adv.installedBlocked <==> installed != "" && exists r :: r in rs && r.platform == platform && r.version == installed && r.blocked
    ensures adv.needsFirmware <==>
      && (forall r :: r in rs ==> !MayGoOn(r, platform, installed))
      && exists r :: r in rs && r.platform == platform && !r.blocked && r.minManager > 1 && (installed == "" || Exceeds(r.version, installed))
  {
    var newest, latest: Option<Release> := None, None;
    var installedBlocked, needsFirmware := false, false;
    for i := 0 to |rs|
      invariant latest == Best(rs, ToInstall(platform, installed), i)
      invariant newest == Best(rs, OnPlatform(platform), i)
      invariant installedBlocked <==> SomeInstalledBlocked(rs, i, platform, installed)
      invariant needsFirmware <==> SomeAwaitsFirmware(rs, i, platform, installed)
    {
      var b, f;
      newest, latest, b, f := ConsiderRelease(rs[i], platform, installed, newest, latest);
      installedBlocked, needsFirmware := installedBlocked || b, needsFirmware || f;
    }
    adv := Advisory(latest, newest, installedBlocked, needsFirmware && latest.None?);
    OfferIsHighest(rs, platform, installed);
    NewestIsHighest(rs, platform);
    HintsMean(rs, platform, installed);
  }

  /** The release may be put on a device that has `installed`, or nothing when that is empty. */
  ghost predicate MayGoOn(r: Release, platform: string, installed: string) {
    && r.platform == platform && !r.blocked && r.minManager <= 1
    && if installed == "" then r.allowInstall else r.allowUpdate && Exceeds(r.version, installed)
  }

  ghost function Fitting(rs: seq<Release>, platform: string, installed: string): set<Release> {
    set r | r in rs && MayGoOn(r, platform, installed)
  }

  ghost function Listed(rs: seq<Release>, platform: string): set<Release> {
    set r | r in rs && r.platform == platform
  }

  /** No release among `good` exceeds `r`, and of those that tie with it, it is the first listed. */
  ghost predicate IsFirstHighest(rs: seq<Release>, good: set<Release>, r: Release) {
    && r in good
    && (forall other :: other in good ==> !Exceeds(other.version, r.version))
    && exists i :: 0 <= i < |rs| && rs[i] == r && forall j :: 0 <= j < i && rs[j] in good ==> Exceeds(r.version, rs[j].version)
  }

  lemma GoodMeans(r: Release, platform: string, installed: string)
    ensures Good(ToInstall(platform, installed), r) <==> MayGoOn(r, platform, installed)
  {
    NewerExceeds(r.version, installed);
  }

  /** Among ties the scan keeps the first. */
  lemma {:induction false} BestIsFirst(rs: seq<Release>, aim: Aim, n: nat) returns (i: int)
    requires n <= |rs| && Best(rs, aim, n).Some?
    ensures 0 <= i < n && rs[i] == Best(rs, aim, n).value
    ensures forall j :: 0 <= j < i && Good(aim, rs[j]) ==> Newer(rs[i].version, rs[j].version)
  {
    var kept := Best(rs, aim, n - 1);
    if Best(rs, aim, n) == kept {
      i := BestIsFirst(rs, aim, n - 1);
    } else {
      i := n - 1;
      forall j | 0 <= j < i && Good(aim, rs[j]) ensures Newer(rs[i].version, rs[j].version) {
        BestIsNewest(rs, aim, n - 1, j);
        NewerIsTransitive(rs[i].version, kept.value.version, rs[j].version);
      }
    }
  }

  lemma {:induction false} BestIsHighest(rs: seq<Release>, aim: Aim, good: set<Release>)
    requires forall r :: r in good <==> r in rs && Good(aim, r)
    ensures Best(rs, aim, |rs|).None? <==> good == {}
    ensures Best(rs, aim, |rs|).Some? ==> IsFirstHighest(rs, good, Best(rs, aim, |rs|).value)
  {
    BestIsGood(rs, aim, |rs|);
    var b := Best(rs, aim, |rs|);
    forall r | r in good ensures b.Some? && !Exceeds(r.version, b.value.version) {
      var j :| 0 <= j < |rs| && rs[j] == r;
      BestIsNewest(rs, aim, |rs|, j);
      NewerExceeds(r.version, b.value.version);
    }
    if b.Some? {
      var i := BestIsFirst(rs, aim, |rs|);
      forall j | 0 <= j < i && rs[j] in good ensures Exceeds(b.value.version, rs[j].version) {
        NewerExceeds(b.value.version, rs[j].version);
      }
    }
  }

  /** The offer is the first of the highest releases that may go on the device; there is none exactly when none may. */
  lemma OfferIsHighest(rs: seq<Release>, platform: string, installed: string)
    ensures var o := Offer(rs, platform, installed);
      && (o.None? <==> forall r :: r in rs ==> !MayGoOn(r, platform, installed))
      && (o.Some? ==> IsFirstHighest(rs, Fitting(rs, platform, installed), o.value))
  {
    var good := Fitting(rs, platform, installed);
    forall r ensures r in good <==> r in rs && Good(ToInstall(platform, installed), r) { GoodMeans(r, platform, installed); }
    BestIsHighest(rs, ToInstall(platform, installed), good);
    if good == {} { forall r | r in rs ensures !MayGoOn(r, platform, installed) { assert r !in good; } }
  }

  lemma {:induction false} NewestIsHighest(rs: seq<Release>, platform: string)
    ensures var b := Best(rs, OnPlatform(platform), |rs|);
      && (b.None? <==> forall r :: r in rs ==> r.platform != platform)
      && (b.Some? ==> IsFirstHighest(rs, Listed(rs, platform), b.value))
  {
    var good := Listed(rs, platform);
    BestIsHighest(rs, OnPlatform(platform), good);
    if good == {} { forall r | r in rs ensures r.platform != platform { assert r !in good; } }
  }

  lemma HintsMean(rs: seq<Release>, platform: string, installed: string)
    ensures SomeInstalledBlocked(rs, |rs|, platform, installed)
       <==> installed != "" && exists r :: r in rs && r.platform == platform && r.version == installed && r.blocked
    ensures SomeAwaitsFirmware(rs, |rs|, platform, installed)
       <==> exists r :: r in rs && r.platform == platform && !r.blocked && r.minManager > 1 && (installed == "" || Exceeds(r.version, installed))
  {
    forall i | 0 <= i < |rs|
      ensures AwaitsFirmware(rs[i], platform, installed)
         <==> rs[i].platform == platform && !rs[i].blocked && rs[i].minManager > 1 && (installed == "" || Exceeds(rs[i].version, installed))
    {
      NewerExceeds(rs[i].version, installed);
    }
    if r :| r in rs && r.platform == platform && !r.blocked && r.minManager > 1 && (installed == "" || Exceeds(r.version, installed)) {
      var i :| 0 <= i < |rs| && rs[i] == r;
      assert AwaitsFirmware(rs[i], platform, installed);
    }
    if installed != "" && exists r :: r in rs && r.platform == platform && r.version == installed && r.blocked {
      var r :| r in rs && r.platform == platform && r.version == installed && r.blocked;
      var i :| 0 <= i < |rs| && rs[i] == r;
      assert IsInstalledBlocked(rs[i], platform, installed);
    }
  }

  /** One entry of the scan. */
  method ConsiderRelease(r: Release, platform: string, installed: string, newest: Option<Release>, latest: Option<Release>)
    returns (newest': Option<Release>, latest': Option<Release>, installedBlocked: bool, needsFirmware: bool)
    ensures newest' == Keep(OnPlatform(platform), r, newest)
    ensures latest' == Keep(ToInstall(platform, installed), r, latest)
    ensures installedBlocked <==> IsInstalledBlocked(r, platform, installed)
    ensures needsFirmware <==> AwaitsFirmware(r, platform, installed)
  {
    newest', latest', installedBlocked, needsFirmware := newest, latest, false, false;
    if r.platform != platform { return; }
    installedBlocked := installed != "" && r.version == installed && r.blocked;
    var c := 1;
    if newest.Some? { c := CompareVersion(r.version, newest.value.version); }
    if c > 0 { newest' := Some(r); }
    if r.blocked { return; }
    var ahead := 1;
    if installed != "" { ahead := CompareVersion(r.version, installed); }
    if r.minManager > MANAGER_VERSION {
      needsFirmware := ahead > 0;
      return;
    }
    if installed == "" {
      if !r.allowInstall { return; }
    } else if !r.allowUpdate || ahead <= 0 {
      return;
    }
    var l := 1;
    if latest.Some? { l := CompareVersion(r.version, latest.value.version); }
    if l > 0 { latest' := Some(r); }
  }

  // ---- what following the offers leads to ----

  /** Whatever is offered is on the platform, not blocked, ahead of what is installed, and no eligible entry is newer. */
  lemma OfferIsGood(rs: seq<Release>, platform: string, installed: string)
    ensures var o := Offer(rs, platform, installed); o.Some? ==> o.value in rs && Eligible(o.value, platform, installed)
    ensures forall r :: r in rs && Eligible(r, platform, installed) ==>
      Offer(rs, platform, installed).Some? && !Newer(r.version, Offer(rs, platform, installed).value.version)
  {
    BestIsGood(rs, ToInstall(platform, installed), |rs|);
    forall r | r in rs && Eligible(r, platform, installed)
      ensures Offer(rs, platform, installed).Some? && !Newer(r.version, Offer(rs, platform, installed).value.version)
    {
      var j :| 0 <= j < |rs| && rs[j] == r;
      BestIsNewest(rs, ToInstall(platform, installed), |rs|, j);
    }
  }

  lemma ValidIsNotEmpty(rs: seq<Release>, r: Release)
    requires ValidReleases(rs) && r in rs
    ensures r.version != ""
  {
    if r.version == "" { SplitOnly("", '.'); }
  }

  /** Once an update has been installed nothing more is offered. */
  lemma NothingAfterAnUpdate(rs: seq<Release>, platform: string, installed: string)
    requires ValidReleases(rs) && installed != "" && Offer(rs, platform, installed).Some?
    ensures Offer(rs, platform, Offer(rs, platform, installed).value.version) == None
  {
    var offer := Offer(rs, platform, installed).value;
    OfferIsGood(rs, platform, installed);
    ValidIsNotEmpty(rs, offer);
    OfferIsGood(rs, platform, offer.version);
    var next := Offer(rs, platform, offer.version);
    if next.Some? {
      NewerIsTransitive(next.value.version, offer.version, installed);
      assert Eligible(next.value, platform, installed);
      assert false;
    }
  }

  /** The version after installing what is offered, if anything. */
  function Installing(rs: seq<Release>, platform: string, installed: string): string {
    var o := Offer(rs, platform, installed);
    if o.Some? then o.value.version else installed
  }

  /**
   Installing again and again what one valid manifest offers: no blocked entry is ever installed,
   every step after the first strictly raises the version, and after two installs nothing is left.
   */
  lemma AtMostTwoInstalls(rs: seq<Release>, platform: string, installed: string)
    requires ValidReleases(rs)
    ensures var v1 := Installing(rs, platform, installed); var v2 := Installing(rs, platform, v1);
      && Offer(rs, platform, v2) == None
      && (v2 == v1 || Exceeds(v2, v1)) && (installed != "" ==> v2 == v1 && (v1 == installed || Exceeds(v1, installed)))
    ensures var o := Offer(rs, platform, installed); o.Some? ==> !o.value.blocked && o.value.minManager <= 1
  {
    NewerExceeds(Installing(rs, platform, Installing(rs, platform, installed)), Installing(rs, platform, installed));
    NewerExceeds(Installing(rs, platform, installed), installed);
    OfferIsGood(rs, platform, installed);
    var v1 := Installing(rs, platform, installed);
    OfferIsGood(rs, platform, v1);
    if Offer(rs, platform, installed).Some? {
      ValidIsNotEmpty(rs, Offer(rs, platform, installed).value);
      if installed != "" { NothingAfterAnUpdate(rs, platform, installed); }
      else if Offer(rs, platform, v1).Some? { NothingAfterAnUpdate(rs, platform, v1); }
    }
  }

  // ---- the order of the entries ----

  /** No two eligible entries tie. */
  predicate NoTies(rs: seq<Release>, platform: string, installed: string) {
    forall a, b :: a in rs && b in rs && Eligible(a, platform, installed) && Eligible(b, platform, installed) ==>
      a == b || Newer(a.version, b.version) || Newer(b.version, a.version)
  }

  /** Listing the entries in another order changes the offer at most to one of an equal version, and not at all without ties. */
  lemma OfferIgnoresOrder(rs: seq<Release>, other: seq<Release>, platform: string, installed: string)
    requires forall r :: r in rs <==> r in other
    ensures var a, b := Offer(rs, platform, installed), Offer(other, platform, installed);
      && (a.Some? <==> b.Some?)
      && (a.Some? ==> !Newer(a.value.version, b.value.version) && !Newer(b.value.version, a.value.version))
      && (NoTies(rs, platform, installed) ==> a == b)
  {
    OfferIsGood(rs, platform, installed);
    OfferIsGood(other, platform, installed);
  }

  lemma {:induction false} ZeroFirst(s: string, n: nat)
    requires AllDigits(s) && n <= |s|
    ensures AllDigits("0" + s) && Value("0" + s, n + 1) == Value(s, n)
  {
    if n == 0 {
      assert Value("0" + s, 1) == Value("0" + s, 0) * 10;
    } else {
      ZeroFirst(s, n - 1);
    }
  }

  lemma ZeroFirstSameValue(s: string)
    requires AllDigits(s) && s != ""
    ensures AllDigits("0" + s) && ParseInt("0" + s) == ParseInt(s)
  {
    ZeroFirst(s, |s|);
    assert IsDigit(s[0]);
  }

  /** Ties exist: a version and the same one with a leading zero are both valid, differ as text and compare equal. */
  lemma LeadingZeroTies(a: string, b: string, c: string)
    requires AllDigits(a) && AllDigits(b) && AllDigits(c)
    requires 1 <= |a| <= 6 && 1 <= |b| <= 5 && 1 <= |c| <= 6
    ensures var v, w := a + ['.'] + (b + ['.'] + c), a + ['.'] + (("0" + b) + ['.'] + c);
      v != w && ValidVersion(v) && ValidVersion(w) && !Newer(v, w) && !Newer(w, v)
  {
    ZeroFirstSameValue(b);
    PaddedTies(a, b, "0" + b, c);
  }

  lemma PaddedTies(a: string, b: string, b': string, c: string)
    requires AllDigits(a) && AllDigits(b) && AllDigits(b') && AllDigits(c) && ParseInt(b') == ParseInt(b)
    requires 1 <= |a| <= 6 && 1 <= |b| < |b'| <= 6 && 1 <= |c| <= 6
    ensures var v, w := a + ['.'] + (b + ['.'] + c), a + ['.'] + (b' + ['.'] + c);
      v != w && ValidVersion(v) && ValidVersion(w) && !Newer(v, w) && !Newer(w, v)
  {
    var v, w := a + ['.'] + (b + ['.'] + c), a + ['.'] + (b' + ['.'] + c);
    ThreeParts(a, b, c);
    ThreePartsAreValid(v, a, b, c);
    ThreeParts(a, b', c);
    ThreePartsAreValid(w, a, b', c);
    EqualPartsTie(v, w);
    assert |v| < |w|;
  }

  lemma {:induction false} ThreePartsAreValid(v: string, a: string, b: string, c: string)
    requires Split(v, '.') == [a, b, c] && AllDigits(a) && AllDigits(b) && AllDigits(c)
    requires 1 <= |a| <= 6 && 1 <= |b| <= 6 && 1 <= |c| <= 6
    ensures ValidVersion(v)
  {
  }

  lemma EqualPartsTie(v: string, w: string)
    requires Part(v, 0) == Part(w, 0) && Part(v, 1) == Part(w, 1) && Part(v, 2) == Part(w, 2)
    ensures !Newer(v, w) && !Newer(w, v)
  {
  }
}
