/** Which signed manifests and which catalogue files a device goes over to, and what keeps it from going back. */
module Acceptance {
  import opened Options

  // ---- the component manifest ----

  /** A manifest that has passed verification: its positive revision and the digest of its bytes. */
  datatype Verified = Verified(revision: int, sha: string)

  /** What is kept on the device: two settings, two files, and the index in memory. */
  datatype Device = Device(revision: int, sha: string, raw: Option<Verified>, sig: Option<Verified>, index: Option<Verified>)

  const FACTORY := Device(0, "", None, None, None)

  /** Which of the steps of an acceptance succeed. */
  datatype Outcome = Outcome(settingsRead: bool, dir: bool, raw: bool, sig: bool, revision: bool, sha: bool)

  const SMOOTH := Outcome(true, true, true, true, true, true)

  predicate Stale(v: Verified, revision: int, sha: string) {
    v.revision < revision || (v.revision == revision && sha != "" && v.sha != sha)
  }

  predicate Accepted(d: Device, v: Verified, o: Outcome) {
    o == SMOOTH && !Stale(v, d.revision, d.sha)
  }

  /** The files, then the revision, then the digest, then the memory; the first failure ends it. */
  function Submitted(d: Device, v: Verified, o: Outcome): Device {
    if !o.settingsRead || Stale(v, d.revision, d.sha) || !o.dir || !o.raw then d
    else
      var d1 := d.(raw := Some(v));
      if !o.sig then d1
      else
        var d2 := d1.(sig := Some(v));
        if !o.revision then d2
        else
          var d3 := d2.(revision := v.revision);
          if !o.sha then d3 else d3.(sha := v.sha, index := Some(v))
  }

  /** After a restart the index is what the files hold, when the signature fits. */
  function Restarted(d: Device): Device {
    d.(index := if d.raw == d.sig then d.raw else None)
  }

  class Manager {
    var revision: int
    var sha: string
    var raw: Option<Verified>
    var sig: Option<Verified>
    var index: Option<Verified>

    ghost function Now(): Device
      reads this
    {
      Device(revision, sha, raw, sig, index)
    }

    constructor ()
      ensures Now() == FACTORY
    {
      revision, sha, raw, sig, index := 0, "", None, None, None;
    }

    method Accept(v: Verified, o: Outcome) returns (ok: bool)
      modifies this
      ensures Now() == Submitted(old(Now()), v, o)
      ensures ok <==> Accepted(old(Now()), v, o)
      ensures ok <==> o == SMOOTH && (v.revision > old(revision) || (v.revision == old(revision) && (old(sha) == "" || v.sha == old(sha))))
      ensures ok ==> revision == v.revision && sha == v.sha && raw == sig == index == Some(v)
      ensures !ok ==> index == old(index) && sha == old(sha) && (revision == old(revision) || revision == v.revision)
    {
      ok := false;
      if !o.settingsRead { return; }
      if v.revision < revision { return; }
      if v.revision == revision && sha != "" && v.sha != sha { return; }
      if !o.dir { return; }
      if !o.raw { return; }
      raw := Some(v);
      if !o.sig { return; }
      sig := Some(v);
      if !o.revision { return; }
      revision := v.revision;
      if !o.sha { return; }
      sha := v.sha;
      index := Some(v);
      ok := true;
    }

    method LoadStored()
      modifies this`index
      ensures Now() == Restarted(old(Now()))
      ensures index == (if raw == sig then raw else None)
    {
      index := None;
      if raw == sig { index := raw; }
    }
  }

  /** Any sequence of submitted files and restarts from the factory state. */
  datatype Trace = Begin | Submit(front: Trace, v: Verified, o: Outcome) | Restart(front: Trace)

  function End(t: Trace): Device {
    match t
    case Begin => FACTORY
    case Submit(front, v, o) => Submitted(End(front), v, o)
    case Restart(front) => Restarted(End(front))
  }

  predicate Positive(t: Trace) {
    match t
    case Begin => true
    case Submit(front, v, _) => v.revision > 0 && v.sha != "" && Positive(front)
    case Restart(front) => Positive(front)
  }

  /** `u` goes on from `t`. */
  predicate After(t: Trace, u: Trace) {
    u == t || (!u.Begin? && After(t, u.front))
  }

  /** The accepted revision never goes back, whichever writes fail. */
  lemma {:induction false} RevisionNeverFalls(t: Trace, u: Trace)
    requires After(t, u)
    ensures End(t).revision <= End(u).revision
  {
    if u != t { RevisionNeverFalls(t, u.front); }
  }

  /** The submission at the end of `t` was accepted. */
  predicate Took(t: Trace) {
    t.Submit? && Accepted(End(t.front), t.v, t.o)
  }

  /** After an acceptance the settings stay with that manifest or go on to a higher revision, whatever fails. */
  lemma {:induction false} TakenStaysOrRises(t: Trace, u: Trace)
    requires Took(t) && After(t, u) && Positive(u)
    ensures Positive(t)
    ensures End(u).revision > t.v.revision || (End(u).revision == t.v.revision && End(u).sha == t.v.sha)
  {
    if u != t { TakenStaysOrRises(t, u.front); }
  }

  /** Whatever reads and writes fail, accepted revisions never decrease and one revision is never bound to two contents. */
  lemma {:induction false} AcceptedNeverGoBack(t: Trace, u: Trace)
    requires Took(t) && Took(u) && After(t, u) && u != t && Positive(u)
    ensures t.v.revision <= u.v.revision
    ensures t.v.revision == u.v.revision ==> t.v.sha == u.v.sha
  {
    TakenStaysOrRises(t, u.front);
  }

  /**
   When the revision was written and the digest was not, the old digest stays beside the new
   revision. Exactly the higher revisions pass from then on, and of the same revision those with
   the old digest, or all of them if there was no digest.
   */
  lemma HalfWrittenPassesIff(d: Device, v: Verified, o: Outcome, w: Verified)
    requires !Stale(v, d.revision, d.sha) && o == SMOOTH.(sha := false)
    ensures var d' := Submitted(d, v, o);
      && !Accepted(d, v, o) && Restarted(d').index == Some(v)
      && (Accepted(d', w, SMOOTH) <==> w.revision > v.revision || (w.revision == v.revision && (d.sha == "" || w.sha == d.sha)))
  {
  }

  /** The device after a submission of `v` whose digest could not be written. */
  predicate HalfWritten(t: Trace) {
    t.Submit? && t.o == SMOOTH.(sha := false) && !Stale(t.v, End(t.front).revision, End(t.front).sha)
  }

  /** From there on the settings refuse `v` for ever, if they held another digest. */
  lemma {:induction false} HalfWrittenStaysRefused(t: Trace, u: Trace)
    requires HalfWritten(t) && After(t, u) && End(t.front).sha != "" && End(t.front).sha != t.v.sha
    ensures Stale(t.v, End(u).revision, End(u).sha)
  {
    if u != t { HalfWrittenStaysRefused(t, u.front); }
  }

  /**
   A manifest whose digest could not be written is refused at every later submission, in every
   continuation, exactly when the device held the digest of another one before.
   */
  lemma {:induction false} HalfWrittenRefusesItself(t: Trace)
    requires HalfWritten(t)
    ensures (forall u, o :: After(t, u) ==> !Took(Submit(u, t.v, o))) <==> End(t.front).sha != "" && End(t.front).sha != t.v.sha
  {
    var sha := End(t.front).sha;
    if sha != "" && sha != t.v.sha {
      forall u, o | After(t, u) ensures !Took(Submit(u, t.v, o)) { HalfWrittenStaysRefused(t, u); }
    } else {
      assert After(t, t) && Took(Submit(t, t.v, SMOOTH));
    }
  }

  // ---- the manifest in force ----

  /** The revision in force; 0 when there is no manifest. */
  function RevisionInForce(d: Device): int {
    if d.index.Some? then d.index.value.revision else 0
  }

  /** A manifest the settings do not know of is in force. */
  predicate Ahead(d: Device) {
    RevisionInForce(d) > d.revision
  }

  /** The two files hold one manifest, and the settings have its revision; or there is none. */
  predicate FilesAgree(d: Device) {
    d.raw == d.sig && (d.raw.Some? ==> d.raw.value.revision == d.revision)
  }

  /** What is on disk was let through, so it is never older than the settings; and a manifest in force is or was on disk. */
  lemma {:induction false} FilesAreRecent(t: Trace)
    requires Positive(t)
    ensures var d := End(t);
      && d.revision >= 0 && (d.raw.Some? ==> d.raw.value.revision >= d.revision && d.raw.value.revision > 0)
      && (d.index.Some? ==> d.raw.Some? && d.index.value.revision > 0)
      && (d.revision > 0 ==> d.raw.Some?) && (d.sig.Some? ==> d.raw.Some?)
  {
    if !t.Begin? { FilesAreRecent(t.front); }
  }

  /** A manifest the settings do not know of comes into force by a restart over unaccepted files, and by nothing else. */
  lemma {:induction false} AheadIff(t: Trace)
    requires Positive(t)
    ensures var d := End(t);
      && (Ahead(Restarted(d)) <==> d.raw.Some? && d.raw == d.sig && d.raw.value.revision != d.revision)
      && forall v, o :: Ahead(Submitted(d, v, o)) ==> Ahead(d)
  {
    FilesAreRecent(t);
  }

  /** Some genuine manifest older than the one in force would be accepted. */
  ghost predicate OlderPasses(d: Device) {
    exists v: Verified :: v.revision > 0 && v.sha != "" && Accepted(d, v, SMOOTH) && v.revision < RevisionInForce(d)
  }

  /** An older manifest than the one in force gets through exactly when the one in force is ahead, and not the first revision. */
  lemma {:induction false} OlderPassesIff(t: Trace)
    requires Positive(t)
    ensures OlderPasses(End(t)) <==> Ahead(End(t)) && RevisionInForce(End(t)) > 1
  {
    FilesAreRecent(t);
    var d := End(t);
    if Ahead(d) && RevisionInForce(d) > 1 {
      var v := Verified(if d.revision == 0 then 1 else d.revision, if d.sha == "" then "x" else d.sha);
      assert v.revision > 0 && v.sha != "" && Accepted(d, v, SMOOTH) && v.revision < RevisionInForce(d);
    }
  }

  /** A restart itself takes a device back exactly when the two files do not belong together: it then has no manifest. */
  lemma {:induction false} RestartFallsIff(t: Trace)
    requires Positive(t) && !Ahead(End(t))
    ensures RevisionInForce(Restarted(End(t))) < RevisionInForce(End(t)) <==> End(t).index.Some? && End(t).raw != End(t).sig
  {
    FilesAreRecent(t);
  }

  /** Every restart since the factory found files that agree with the settings. */
  predicate RestartsAgree(t: Trace) {
    match t
    case Begin => true
    case Submit(front, _, _) => RestartsAgree(front)
    case Restart(front) => RestartsAgree(front) && FilesAgree(End(front))
  }

  lemma {:induction false} NeverAhead(t: Trace)
    requires Positive(t) && RestartsAgree(t)
    ensures !Ahead(End(t))
  {
    if !t.Begin? {
      NeverAhead(t.front);
      AheadIff(t.front);
      FilesAreRecent(t.front);
    }
  }

  /** So the revision in force never falls as long as every restart finds files that agree with the settings. */
  lemma {:induction false} ForceNeverFalls(t: Trace, u: Trace)
    requires After(t, u) && Positive(u) && RestartsAgree(u)
    ensures RevisionInForce(End(t)) <= RevisionInForce(End(u))
  {
    if u != t {
      ForceNeverFalls(t, u.front);
      NeverAhead(u.front);
      FilesAreRecent(u.front);
    }
  }

  // ---- the model catalogue ----

  datatype Catalogue = Catalogue(version: int, digest: string)

  /** The stored copy; `last` of an unreadable one is what it held before it was damaged. */
  datatype Stored = Nothing | Copy(c: Catalogue) | Unreadable(last: Catalogue)

  datatype Shelf = Shelf(builtin: Catalogue, stored: Stored)

  predicate GoesBack(file: Catalogue, stored: Stored) {
    stored.Copy? && (file.version < stored.c.version || (file.version == stored.c.version && file.digest != stored.c.digest))
  }

  function Fetched(s: Shelf, file: Catalogue, written: bool): Shelf {
    if GoesBack(file, s.stored) || !written then s else s.(stored := Copy(file))
  }

  /** The catalogue in force. */
  function InForce(s: Shelf): Catalogue {
    if s.stored.Copy? && s.stored.c.version > s.builtin.version then s.stored.c else s.builtin
  }

  method FetchCatalogue(s: Shelf, file: Catalogue, written: bool) returns (s': Shelf, ok: bool)
    ensures s' == Fetched(s, file, written)
    ensures ok <==> !GoesBack(file, s.stored) && written
    ensures ok <==> written && (s.stored.Copy? ==> file.version > s.stored.c.version || file == s.stored.c)
    ensures s' == if ok then Shelf(s.builtin, Copy(file)) else s
  {
    s', ok := s, false;
    match s.stored {
      case Copy(previous) =>
        if file.version < previous.version { return; }
        if file.version == previous.version && file.digest != previous.digest { return; }
      case Nothing =>
      case Unreadable(_) =>
    }
    if !written { return; }
    s', ok := s.(stored := Copy(file)), true;
  }

  datatype Event = Fetch(file: Catalogue, written: bool) | Upgrade(builtin: Catalogue) | Damage

  function Do(s: Shelf, e: Event): Shelf {
    match e
    case Fetch(file, written) => Fetched(s, file, written)
    case Upgrade(builtin) => s.(builtin := builtin)
    case Damage => s.(stored := match s.stored case Copy(c) => Unreadable(c) case other => other)
  }

  function Run(s: Shelf, events: seq<Event>, n: nat): Shelf
    requires n <= |events|
  {
    if n == 0 then s else Do(Run(s, events, n - 1), events[n - 1])
  }

  /** The catalogue last stored, readable or not. */
  function LastStored(s: Stored): Option<Catalogue> {
    match s
    case Nothing => None
    case Copy(c) => Some(c)
    case Unreadable(c) => Some(c)
  }

  /** What was last stored is replaced by something older, or by another content of the same version. */
  predicate Regresses(before: Stored, after: Stored) {
    LastStored(before).Some? && LastStored(after).Some?
    && var c, c' := LastStored(before).value, LastStored(after).value;
       c'.version < c.version || (c'.version == c.version && c'.digest != c.digest)
  }

  /** A fetch makes the device go back exactly when the stored copy had become unreadable and the file is older or differs. */
  lemma FetchRegressesIff(s: Shelf, file: Catalogue, written: bool)
    ensures Regresses(s.stored, Fetched(s, file, written).stored)
       <==> written && s.stored.Unreadable?
            && (file.version < s.stored.last.version || (file.version == s.stored.last.version && file.digest != s.stored.last.digest))
  {
  }

  predicate Intact(events: seq<Event>) {
    forall i :: 0 <= i < |events| ==> !events[i].Damage?
  }

  /** Over any run whose stored copy stays readable, the stored version never decreases and no version is bound to two contents. */
  lemma {:induction false} StoredNeverRegresses(s: Shelf, events: seq<Event>, i: nat, j: nat)
    requires i <= j <= |events| && Intact(events) && !s.stored.Unreadable?
    ensures !Run(s, events, i).stored.Unreadable? && !Run(s, events, j).stored.Unreadable?
    ensures Run(s, events, i).stored.Copy? ==> Run(s, events, j).stored.Copy?
    ensures !Regresses(Run(s, events, i).stored, Run(s, events, j).stored)
  {
    if i < j {
      StoredNeverRegresses(s, events, i, j - 1);
    } else if j > 0 {
      StoredNeverRegresses(s, events, j - 1, j - 1);
    }
  }

  /** The catalogue in force has the larger of the two versions, and is the built-in one on a tie. */
  lemma InForceIsLatest(s: Shelf)
    ensures InForce(s).version >= s.builtin.version && (s.stored.Copy? ==> InForce(s).version >= s.stored.c.version)
    ensures InForce(s) == s.builtin || (s.stored == Copy(InForce(s)) && InForce(s).version > s.builtin.version)
  {
  }

  /** No firmware takes the built-in catalogue back. */
  predicate UpgradesRise(s: Shelf, events: seq<Event>, n: nat)
    requires n <= |events|
  {
    n == 0 || (UpgradesRise(s, events, n - 1)
      && (events[n - 1].Upgrade? ==> events[n - 1].builtin.version >= Run(s, events, n - 1).builtin.version))
  }

  /** The version in force never decreases while the stored copy stays readable and firmware goes forward. */
  lemma {:induction false} InForceNeverFalls(s: Shelf, events: seq<Event>, i: nat, j: nat)
    requires i <= j <= |events| && Intact(events) && !s.stored.Unreadable? && UpgradesRise(s, events, j)
    ensures InForce(Run(s, events, i)).version <= InForce(Run(s, events, j)).version
  {
    if i < j {
      InForceNeverFalls(s, events, i, j - 1);
      StoredNeverRegresses(s, events, j - 1, j);
    }
  }
}
