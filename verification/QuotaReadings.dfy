/** What readers are shown over whole runs: what the last fetch or observation brought, while it lasts. */
module QuotaReadings {
  import opened Options
  import opened Quota
  import opened QuotaRuns

  /** The entry of account `id` is for `revision` and carries `d`. */
  predicate Carries(s: State, id: nat, revision: Time, d: Data) {
    && id in s.cache.entries && s.cache.entries[id] in s.cache.cells
    && s.cache.cells[s.cache.entries[id]].revision == revision && s.cache.cells[s.cache.entries[id]].snapshot.data == d
  }

  /** The fetch that `i` is about to end can be published: nobody cancelled, its entry is still there, the account is as it was. */
  predicate CanPublish(s: State, i: Tid, cancelled: bool) {
    && i in s.threads && s.threads[i].phase.Leaving? && !cancelled
    && (var th := s.threads[i];
        && th.a.id in s.cache.entries && s.cache.entries[th.a.id] == th.phase.h
        && th.phase.reread.Some? && th.phase.reread.value.enabled && th.phase.reread.value.revision == th.a.revision)
  }

  /** The step brings new windows for account `id`, or takes its entry for `revision` away. */
  predicate Renews(s: State, a: Step, id: nat, revision: Time)
    requires Enabled(s, a)
  {
    match a
    case Leave(i, cancelled) => s.threads[i].a.id == id && s.threads[i].phase.r.Got? && CanPublish(s, i, cancelled)
    case Observe(acct, windows) => acct.id == id && acct.enabled && windows != [] && acct.revision >= revision
    case Decide(i) => s.threads[i].a.id == id && s.threads[i].a.revision != revision
    case Prune => id !in s.scan.value.listed
    case _ => false
  }

  lemma EnsuredKeepsData(c: Cache, a: Account, id: nat)
    requires Sound(c) && id in c.entries && (a.id == id ==> a.revision == c.cells[c.entries[id]].revision)
    ensures var c' := Ensured(c, a);
      id in c'.entries && c'.entries[id] == c.entries[id] && c'.cells[c.entries[id]] == c.cells[c.entries[id]]
  {
  }

  lemma DecideKeepsData(s: State, i: Tid, id: nat, revision: Time, d: Data)
    requires Possible(s, Decide(i)) && Carries(s, id, revision, d) && !Renews(s, Decide(i), id, revision)
    ensures Carries(Do(s, Decide(i)), id, revision, d)
  {
    EnsuredKeepsData(s.cache, s.threads[i].a, id);
  }

  lemma LeaveKeepsData(s: State, i: Tid, cancelled: bool, id: nat, revision: Time, d: Data)
    requires CacheOk(s.cache) && Possible(s, Leave(i, cancelled)) && Carries(s, id, revision, d)
    requires !Renews(s, Leave(i, cancelled), id, revision)
    ensures Carries(Do(s, Leave(i, cancelled)), id, revision, d)
  {
    var th := s.threads[i];
    if th.phase.h == s.cache.entries[id] && CanPublish(s, i, cancelled) {
      assert th.a.id == id;
    }
  }

  lemma ObserveKeepsData(s: State, acct: Account, windows: seq<Window>, id: nat, revision: Time, d: Data)
    requires CacheOk(s.cache) && Possible(s, Observe(acct, windows)) && Carries(s, id, revision, d)
    requires !Renews(s, Observe(acct, windows), id, revision)
    ensures Carries(Do(s, Observe(acct, windows)), id, revision, d)
  {
    if acct.id != id && acct.enabled && windows != [] {
      EnsuredKeepsData(s.cache, acct, id);
      OthersKeepTheirs(s.cache, acct, id);
    }
  }

  lemma OthersKeepTheirs(c: Cache, a: Account, id: nat)
    requires CacheOk(c) && id in c.entries && a.id != id
    ensures Ensured(c, a).entries[a.id] != c.entries[id]
  {
  }

  lemma StepKeepsData(s: State, a: Step, id: nat, revision: Time, d: Data)
    requires CacheOk(s.cache) && Possible(s, a) && Carries(s, id, revision, d) && !Renews(s, a, id, revision)
    ensures Carries(Do(s, a), id, revision, d)
  {
    match a
    case Decide(i) => DecideKeepsData(s, i, id, revision, d);
    case Leave(i, cancelled) => LeaveKeepsData(s, i, cancelled, id, revision, d);
    case Observe(acct, windows) => ObserveKeepsData(s, acct, windows, id, revision, d);
    case _ =>
  }

  /** From `t` to `u` no step brings new windows for the account or takes its entry away. */
  predicate Lasts(t: Trace, u: Trace, id: nat, revision: Time)
    requires Valid(u)
  {
    u == t || (u.Then? && Lasts(t, u.front, id, revision) && !Renews(End(u.front), u.step, id, revision))
  }

  lemma {:induction false} DataLasts(t: Trace, u: Trace, id: nat, revision: Time, d: Data)
    requires Valid(t) && Valid(u) && Lasts(t, u, id, revision) && Carries(End(t), id, revision, d)
    ensures Carries(End(u), id, revision, d)
    decreases u
  {
    if u != t {
      DataLasts(t, u.front, id, revision, d);
      RunsKeepInv(u.front);
      StepKeepsData(End(u.front), u.step, id, revision, d);
    }
  }

  lemma FetchCarries(s: State, i: Tid)
    requires Inv(s) && Possible(s, Leave(i, false)) && CanPublish(s, i, false) && s.threads[i].phase.r.Got?
    ensures var a := s.threads[i].a;
      Carries(Do(s, Leave(i, false)), a.id, a.revision, Data(Some((a.id, a.revision)), s.threads[i].phase.r.windows))
  {
    assert ThreadOk(s, i);
  }

  lemma ObservationCarries(s: State, acct: Account, windows: seq<Window>)
    requires CacheOk(s.cache) && acct.enabled && windows != []
    requires acct.id in s.cache.entries ==> s.cache.cells[s.cache.entries[acct.id]].revision <= acct.revision
    ensures Possible(s, Observe(acct, windows))
    ensures Carries(Do(s, Observe(acct, windows)), acct.id, acct.revision, Data(Some((acct.id, acct.revision)), windows))
  {
  }

  /**
   What a successful fetch brought for an enabled, unchanged account is what every reader holding that
   account and revision is shown from then on, through failed fetches, observations of older revisions
   and whatever else, until a later success or observation, another revision, or a scan without the account.
   */
  lemma {:induction false} FetchedIsShown(t: Trace, i: Tid, u: Trace, reader: Account)
    requires Valid(Then(t, Leave(i, false))) && CanPublish(End(t), i, false) && End(t).threads[i].phase.r.Got?
    requires var a := End(t).threads[i].a; reader == Account(a.id, a.revision, true)
    requires Valid(u) && Lasts(Then(t, Leave(i, false)), u, reader.id, reader.revision)
    ensures Sound(End(u).cache)
    ensures Shown(End(u).cache, reader, End(u).now).data == Data(Some((reader.id, reader.revision)), End(t).threads[i].phase.r.windows)
  {
    RunsKeepInv(t);
    FetchCarries(End(t), i);
    var d := Data(Some((reader.id, reader.revision)), End(t).threads[i].phase.r.windows);
    DataLasts(Then(t, Leave(i, false)), u, reader.id, reader.revision, d);
    RunsKeepInv(u);
  }

  /** So is what the data path observed, unless the table is already at a newer revision. */
  lemma {:induction false} ObservedIsShown(t: Trace, acct: Account, windows: seq<Window>, u: Trace)
    requires Valid(t) && acct.enabled && windows != [] && Sound(End(t).cache)
    requires acct.id in End(t).cache.entries ==> End(t).cache.cells[End(t).cache.entries[acct.id]].revision <= acct.revision
    requires Valid(Then(t, Observe(acct, windows)))
    requires Valid(u) && Lasts(Then(t, Observe(acct, windows)), u, acct.id, acct.revision)
    ensures Sound(End(u).cache)
    ensures Shown(End(u).cache, acct, End(u).now).data == Data(Some((acct.id, acct.revision)), windows)
  {
    RunsKeepInv(t);
    ObservationCarries(End(t), acct, windows);
    DataLasts(Then(t, Observe(acct, windows)), u, acct.id, acct.revision, Data(Some((acct.id, acct.revision)), windows));
    RunsKeepInv(u);
  }

  /** How a reading differs after a published fetch: fine after a success; after a failure its code, and whether windows are left. */
  predicate Tells(before: Snapshot, after: Snapshot, r: Fetched, now: Time) {
    if r.Got? then after.status == Fine && after.code == "" && after.succeeded == Some(now) && after.due == Some(now + 300)
    else
      && after.data == before.data && after.succeeded == before.succeeded && after.code == r.code
      && after.status == if before.data.windows == [] then Failing else Partial
  }

  /** What a published fetch says of itself to those who read before and after it. */
  lemma {:induction false} PublicationTells(t: Trace, i: Tid, reader: Account)
    requires Valid(t) && Possible(End(t), Leave(i, false)) && CanPublish(End(t), i, false)
    requires var a := End(t).threads[i].a; reader == Account(a.id, a.revision, true)
    ensures var s, s' := End(t), Do(End(t), Leave(i, false));
      Sound(s'.cache) && Tells(Shown(s.cache, reader, s.now), Shown(s'.cache, reader, s.now), s.threads[i].phase.r, s.now)
  {
    RunsKeepInv(t);
    StepKeepsInv(End(t), Leave(i, false));
    assert ThreadOk(End(t), i);
    var th := End(t).threads[i];
    LeftTells(End(t).cache, reader, th.phase.chan, th.phase.r, th.phase.reread, End(t).now);
    LeftLooksAtIds(End(t).cache, th.a, reader, th.phase.h, th.phase.chan, th.phase.r, th.phase.reread, End(t).now);
  }

  lemma LeftLooksAtIds(c: Cache, a: Account, b: Account, h: Handle, chan: Chan, r: Fetched, reread: Option<Account>, now: Time)
    requires Sound(c) && h in c.cells && a.id == b.id && a.revision == b.revision
    ensures Left(c, a, h, chan, r, reread, false, now) == Left(c, b, h, chan, r, reread, false, now)
  {
  }

  lemma LeftTells(c: Cache, a: Account, chan: Chan, r: Fetched, reread: Option<Account>, now: Time)
    requires Sound(c) && Current(c, a) && a.enabled
    requires reread.Some? && reread.value.enabled && reread.value.revision == a.revision
    ensures var c' := Left(c, a, c.entries[a.id], chan, r, reread, false, now);
      (forall id :: id in c'.entries ==> c'.entries[id] in c'.cells) && c'.entries == c.entries
      && c'.cells[c.entries[a.id]].revision == a.revision
      && Tells(c.cells[c.entries[a.id]].snapshot, c'.cells[c.entries[a.id]].snapshot, r, now)
  {
  }

  /** A reading shown counts as stale unless it succeeded within ten minutes and none of its windows has run out. */
  lemma StaleIff(c: Cache, a: Account, now: Time)
    requires Sound(c)
    ensures !Shown(c, a, now).stale <==>
      && a.enabled && a.id in c.entries && c.cells[c.entries[a.id]].revision == a.revision
      && (var s := c.cells[c.entries[a.id]].snapshot;
          && s.succeeded.Some? && now - s.succeeded.value <= 600
          && forall w :: w in s.data.windows && w.resets.Some? ==> now < w.resets.value)
  {
    if a.enabled && Current(c, a) {
      var s := c.cells[c.entries[a.id]].snapshot;
      if w :| w in s.data.windows && w.resets.Some? && now >= w.resets.value {
        var i :| 0 <= i < |s.data.windows| && s.data.windows[i] == w;
        assert Expired(s.data.windows[i], now);
      }
      if i :| 0 <= i < |s.data.windows| && Expired(s.data.windows[i], now) {
        assert s.data.windows[i] in s.data.windows;
      }
    }
  }

  // ---- when a sync fetches ----

  /** The entry for the account as the sync has it says to wait: after a manual attempt half a minute, else until it is due. */
  predicate HoldsOff(e: Entry, manual: bool, now: Time) {
    if manual && e.snapshot.code != "rate_limited" then e.snapshot.attempted.Some? && now < e.snapshot.attempted.value + 30
    else e.snapshot.due.Some? && now < e.snapshot.due.value
  }

  /**
   A sync begins a fetch exactly when none is in flight for its account and revision and the entry
   does not say to wait; so a sync that finds no entry, or one of another revision, always does.
   */
  lemma {:induction false} FetchesExactlyWhenDue(t: Trace, i: Tid)
    requires Valid(t) && Enabled(End(t), Decide(i))
    ensures Sound(End(t).cache)
    ensures var s := End(t); var th := s.threads[i];
      var current := th.a.id in s.cache.entries && s.cache.cells[s.cache.entries[th.a.id]].revision == th.a.revision;
      DecisionOf(s, i).Start? <==>
        && (forall j :: !LiveFor(s, j, i))
        && (current ==> !HoldsOff(s.cache.cells[s.cache.entries[th.a.id]], th.manual, s.now))
  {
    JoinsIffLive(t, i);
    RunsKeepInv(t);
  }

  /** The syncs thread `i` has begun fetches in. */
  function FetchesBegun(t: Trace, i: Tid): nat
    requires Valid(t)
  {
    match t
    case Begin(_) => 0
    case Then(front, a) => FetchesBegun(front, i) + if a == Decide(i) && DecisionOf(End(front), i).Start? then 1 else 0
  }

  /** How many fetches a sync has begun, by where it stands. */
  predicate CountFits(th: Thread, n: nat) {
    && n <= 2
    && (th.phase.Loading? || th.phase.Entering? ==> n == th.attempt <= 1)
    && (InFlight(th) ==> n == th.attempt + 1)
  }

  lemma OwnStepFits(s: State, a: Step, i: Tid, n: nat)
    requires Possible(s, a) && ThreadOf(a) == Some(i) && CountFits(s.threads[i], n)
    ensures i in Do(s, a).threads && CountFits(Do(s, a).threads[i], n + if a.Decide? && DecisionOf(s, i).Start? then 1 else 0)
  {
    match a
    case Decide(_) =>
    case Leave(_, _) =>
    case Load(_, _, _) =>
    case _ =>
  }

  lemma OthersMove(s: State, a: Step, i: Tid)
    requires Possible(s, a) && ThreadOf(a) != Some(i)
    ensures i in s.threads ==> i in Do(s, a).threads && Do(s, a).threads[i] == s.threads[i]
    ensures i !in s.threads && i in Do(s, a).threads ==> Do(s, a).threads[i].phase.Loading? && Do(s, a).threads[i].attempt == 0
  {
  }

  /** A sync fetches at most twice: once more when the account changed under its first fetch. */
  lemma {:induction false} AtMostTwoFetches(t: Trace, i: Tid)
    requires Valid(t)
    ensures FetchesBegun(t, i) <= 2
    ensures if i in End(t).threads then CountFits(End(t).threads[i], FetchesBegun(t, i)) else FetchesBegun(t, i) == 0
  {
    if t.Then? {
      AtMostTwoFetches(t.front, i);
      if ThreadOf(t.step) == Some(i) {
        OwnStepFits(End(t.front), t.step, i, FetchesBegun(t.front, i));
      } else {
        OthersMove(End(t.front), t.step, i);
      }
    }
  }

  /** A sync that may yet fetch, or does, has an enabled account in hand. */
  predicate EnabledInHand(th: Thread) {
    th.phase.Entering? || InFlight(th) ==> th.a.enabled
  }

  lemma OwnStepEnabled(s: State, a: Step, i: Tid)
    requires Possible(s, a) && ThreadOf(a) == Some(i) && EnabledInHand(s.threads[i])
    ensures i in Do(s, a).threads && EnabledInHand(Do(s, a).threads[i])
  {
    match a
    case Load(_, _, _) =>
    case Leave(_, _) =>
    case _ =>
  }

  /** A disabled account is never fetched for. */
  lemma {:induction false} NeverFetchesDisabled(t: Trace, i: Tid)
    requires Valid(t) && i in End(t).threads
    ensures EnabledInHand(End(t).threads[i])
  {
    match t
    case Begin(_) =>
    case Then(front, a) =>
      if ThreadOf(a) == Some(i) {
        NeverFetchesDisabled(front, i);
        OwnStepEnabled(End(front), a, i);
      } else {
        OthersMove(End(front), a, i);
        if i in End(front).threads { NeverFetchesDisabled(front, i); }
      }
  }

  /**
   A sync whose account turned out changed after its fetch starts over with the account as it is now,
   once; one whose account is as it was, or changed a second time, ends with what readers are shown;
   and one whose account cannot be read ends pending.
   */
  lemma {:induction false} GoesOnAfterFetch(t: Trace, i: Tid, cancelled: bool)
    requires Valid(Then(t, Leave(i, cancelled)))
    ensures var th, th' := End(t).threads[i], End(Then(t, Leave(i, cancelled))).threads[i];
      var r := th.phase.reread;
      && (r.None? ==> th'.phase == Finished(PendingFor(th.a)))
      && (r.Some? && r.value.enabled && r.value.revision == th.a.revision ==> th'.phase.Showing? && th'.a == th.a)
      && (r.Some? && !(r.value.enabled && r.value.revision == th.a.revision) ==>
            th'.a == r.value && (if FetchesBegun(t, i) == 1 then th'.phase.Loading? else th'.phase.Showing?))
  {
    AtMostTwoFetches(t, i);
    LeaveGoesOn(End(t), i, cancelled);
  }

  lemma LeaveGoesOn(s: State, i: Tid, cancelled: bool)
    requires Possible(s, Leave(i, cancelled))
    ensures Do(s, Leave(i, cancelled)).threads[i] == LeftThread(s.threads[i], s.threads[i].phase.reread)
  {
  }
}
