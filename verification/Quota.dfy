/**
 The cache of subscription allowances: one entry per account, single-flight fetches, backoff.
 Times are in seconds; entries and their done-channels are named by handles, as pointers are.
 */
module Quota {
  import opened Options

  type Time = int
  type Handle = nat
  type Chan = nat

  const INTERVAL := 300
  const MAX_BACKOFF := 1800
  const MAX_DELAY := 86400
  const MANUAL_COOLDOWN := 30

  /** An account as read from the store; `revision` is its last update. */
  datatype Account = Account(id: nat, revision: Time, enabled: bool)

  datatype Window = Window(name: string, resets: Option<Time>)

  /** A reading, with the account and revision it was obtained for. */
  datatype Data = Data(origin: Option<(nat, Time)>, windows: seq<Window>)

  datatype Status = Pending | Paused | Fine | Failing | Partial

  datatype Snapshot = Snapshot(data: Data, status: Status, code: string, attempted: Option<Time>,
                               succeeded: Option<Time>, due: Option<Time>, stale: bool)

  datatype Entry = Entry(revision: Time, snapshot: Snapshot, failures: nat, done: Option<Chan>)

  /** The result of a fetch; a plain error has the code "unavailable" and no retry time. */
  datatype Fetched = Got(windows: seq<Window>) | Error(code: string, retryAfter: int)

  const RATE_LIMITED := "rate_limited"

  function PendingFor(a: Account): Snapshot {
    Snapshot(Data(None, []), if a.enabled then Pending else Paused, "", None, None, None, true)
  }

  // ---- the locked table ----

  datatype Cache = Cache(entries: map<nat, Handle>, cells: map<Handle, Entry>, handles: nat, chans: nat, closed: set<Chan>)

  const NO_ENTRIES := Cache(map[], map[], 0, 0, {})

  /** Every entry of the table is an allocated cell. */
  predicate Sound(c: Cache) {
    && (forall id :: id in c.entries ==> c.entries[id] in c.cells)
    && (forall h :: h in c.cells ==> h < c.handles)
    && (forall x :: x in c.closed ==> x < c.chans)
  }

  predicate Current(c: Cache, a: Account)
    requires Sound(c)
  {
    a.id in c.entries && c.cells[c.entries[a.id]].revision == a.revision
  }

  predicate Expired(w: Window, now: Time) {
    w.resets.Some? && w.resets.value <= now
  }

  predicate Outdated(s: Snapshot, now: Time) {
    || s.succeeded.None? || now - s.succeeded.value > 2 * INTERVAL
    || exists i :: 0 <= i < |s.data.windows| && Expired(s.data.windows[i], now)
  }

  /** What a reader holding `a` is shown. */
  function Shown(c: Cache, a: Account, now: Time): Snapshot
    requires Sound(c)
  {
    if !a.enabled || !Current(c, a) then PendingFor(a)
    else var s := c.cells[c.entries[a.id]].snapshot; s.(stale := Outdated(s, now))
  }

  /** A fresh entry, unless one for this very revision is there. */
  function Ensured(c: Cache, a: Account): (c': Cache)
    requires Sound(c)
    ensures Sound(c') && Current(c', a)
  {
    if Current(c, a) then c
    else c.(entries := c.entries[a.id := c.handles],
            cells := c.cells[c.handles := Entry(a.revision, PendingFor(a), 0, None)],
            handles := c.handles + 1)
  }

  predicate TooSoon(s: Snapshot, manual: bool, now: Time) {
    if manual && s.code != RATE_LIMITED then s.attempted.Some? && now - s.attempted.value < MANUAL_COOLDOWN
    else s.due.Some? && now < s.due.value
  }

  datatype Decision = Join(chan: Chan) | Hold | Start(h: Handle, chan: Chan)

  function Decided(c: Cache, a: Account, manual: bool, now: Time): Decision
    requires Sound(c) && Current(c, a)
  {
    var h := c.entries[a.id];
    var e := c.cells[h];
    if e.done.Some? then Join(e.done.value) else if TooSoon(e.snapshot, manual, now) then Hold else Start(h, c.chans)
  }

  function Marked(c: Cache, d: Decision, now: Time): Cache
    requires Sound(c) && (d.Start? ==> d.h in c.cells)
  {
    if !d.Start? then c
    else
      var e := c.cells[d.h];
      c.(cells := c.cells[d.h := e.(done := Some(d.chan), snapshot := e.snapshot.(attempted := Some(now)))], chans := d.chan + 1)
  }

  function Pow2(n: nat): nat {
    if n == 0 then 1 else 2 * Pow2(n - 1)
  }

  function Min(a: int, b: int): int {
    if a < b then a else b
  }

  function Max(a: int, b: int): int {
    if a < b then b else a
  }

  /** The wait after the `k`-th failure in a row: doubling up to half an hour, longer if asked to, a day at most. */
  function Backoff(k: nat, retryAfter: int): int
    requires k > 0
  {
    Min(Max(Min(INTERVAL * Pow2(k - 1), MAX_BACKOFF), retryAfter), MAX_DELAY)
  }

  /** An entry once the result of its fetch is published. */
  function Updated(e: Entry, origin: (nat, Time), r: Fetched, now: Time): Entry {
    match r
    case Got(windows) =>
      e.(failures := 0, snapshot := e.snapshot.(data := Data(Some(origin), windows), succeeded := Some(now),
                                                status := Fine, code := "", due := Some(now + INTERVAL)))
    case Error(code, retryAfter) =>
      e.(failures := e.failures + 1,
         snapshot := e.snapshot.(code := code, status := if |e.snapshot.data.windows| > 0 then Partial else Failing,
                                 due := Some(now + Backoff(e.failures + 1, retryAfter))))
  }

  /** The account is no longer the one the fetch was made for. */
  predicate Changed(a: Account, reread: Option<Account>) {
    reread.None? || !reread.value.enabled || reread.value.revision != a.revision
  }

  predicate Publishes(c: Cache, a: Account, h: Handle, reread: Option<Account>, cancelled: bool) {
    !Changed(a, reread) && a.id in c.entries && c.entries[a.id] == h && !cancelled
  }

  /** The table once a fetch is over: its result published or dropped, its channel closed. */
  function Left(c: Cache, a: Account, h: Handle, chan: Chan, r: Fetched, reread: Option<Account>, cancelled: bool, now: Time): Cache
    requires Sound(c) && h in c.cells
  {
    var e := if Publishes(c, a, h, reread, cancelled) then Updated(c.cells[h], (a.id, a.revision), r, now) else c.cells[h];
    c.(cells := c.cells[h := e.(done := None)], closed := c.closed + {chan})
  }

  /** Readings seen on the data path; an older revision never replaces a newer entry. */
  function Observed(c: Cache, a: Account, windows: seq<Window>, now: Time): Cache
    requires Sound(c)
  {
    if !a.enabled || windows == [] || (a.id in c.entries && c.cells[c.entries[a.id]].revision > a.revision) then c
    else
      var c' := Ensured(c, a);
      var h := c'.entries[a.id];
      var e := c'.cells[h];
      c'.(cells := c'.cells[h := e.(snapshot := e.snapshot.(data := Data(Some((a.id, a.revision)), windows),
                                                            succeeded := Some(now), status := Partial))])
  }

  function Pruned(c: Cache, seen: set<nat>): Cache {
    c.(entries := map id | id in c.entries && id in seen :: c.entries[id])
  }

  // ---- the critical sections ----

  class Manager {
    var entries: map<nat, Handle>
    var cells: map<Handle, Entry>
    var handles: nat
    var chans: nat
    var closed: set<Chan>

    ghost function Now(): Cache
      reads this
    {
      Cache(entries, cells, handles, chans, closed)
    }

    constructor ()
      ensures Now() == NO_ENTRIES
    {
      entries, cells, handles, chans, closed := map[], map[], 0, 0, {};
    }

    method Read(a: Account, now: Time) returns (s: Snapshot)
      requires Sound(Now())
      ensures s == Shown(Now(), a, now)
      ensures !(a.enabled && a.id in entries && cells[entries[a.id]].revision == a.revision) ==>
        s == Snapshot(Data(None, []), if a.enabled then Pending else Paused, "", None, None, None, true)
      ensures a.enabled && a.id in entries && cells[entries[a.id]].revision == a.revision ==>
        s.(stale := false) == cells[entries[a.id]].snapshot.(stale := false)
    {
      if !a.enabled || a.id !in entries || cells[entries[a.id]].revision != a.revision {
        return PendingFor(a);
      }
      s := cells[entries[a.id]].snapshot;
      var stale := s.succeeded.None? || now - s.succeeded.value > 2 * INTERVAL;
      ghost var late := stale;
      for i := 0 to |s.data.windows|
        invariant stale <==> late || exists j :: 0 <= j < i && Expired(s.data.windows[j], now)
      {
        var w := s.data.windows[i];
        if w.resets.Some? && w.resets.value <= now { stale := true; }
      }
      s := s.(stale := stale);
    }

    /** The entry for the account's present revision, made anew when there is none. */
    method Ensure(a: Account) returns (h: Handle)
      requires Sound(Now())
      modifies this`entries, this`cells, this`handles
      ensures Now() == Ensured(old(Now()), a)
      ensures Sound(Now()) && Current(Now(), a) && h == entries[a.id]
    {
      if a.id !in entries || cells[entries[a.id]].revision != a.revision {
        entries := entries[a.id := handles];
        cells := cells[handles := Entry(a.revision, PendingFor(a), 0, None)];
        handles := handles + 1;
      }
      h := entries[a.id];
    }

    /** A caller of a sync under the lock: it joins the fetch in flight, holds off, or starts one. */
    method Enter(a: Account, manual: bool, now: Time) returns (d: Decision)
      requires Sound(Now())
      modifies this
      ensures d == Decided(Ensured(old(Now()), a), a, manual, now)
      ensures Now() == Marked(Ensured(old(Now()), a), d, now)
    {
      var h := Ensure(a);
      var e := cells[h];
      if e.done.Some? {
        return Join(e.done.value);
      }
      var wait := e.snapshot.due.Some? && now < e.snapshot.due.value;
      if manual && e.snapshot.code != RATE_LIMITED {
        wait := e.snapshot.attempted.Some? && now - e.snapshot.attempted.value < MANUAL_COOLDOWN;
      }
      if wait {
        return Hold;
      }
      d := Start(h, chans);
      cells := cells[h := e.(done := Some(chans), snapshot := e.snapshot.(attempted := Some(now)))];
      chans := chans + 1;
    }

    /** The end of a fetch under the lock. */
    method Leave(a: Account, h: Handle, chan: Chan, r: Fetched, reread: Option<Account>, cancelled: bool, now: Time)
      requires Sound(Now()) && h in cells
      modifies this`cells, this`closed
      ensures Now() == Left(old(Now()), a, h, chan, r, reread, cancelled, now)
    {
      var changed := reread.None? || !reread.value.enabled || reread.value.revision != a.revision;
      if !changed && a.id in entries && entries[a.id] == h && !cancelled {
        var e := cells[h];
        var s := e.snapshot;
        var delay := INTERVAL;
        var failures := 0;
        if r.Got? {
          s := s.(data := Data(Some((a.id, a.revision)), r.windows), succeeded := Some(now), status := Fine, code := "");
        } else {
          failures := e.failures + 1;
          s := s.(code := r.code, status := if |s.data.windows| > 0 then Partial else Failing);
          delay := FailureDelay(failures, r.retryAfter);
        }
        cells := cells[h := e.(failures := failures, snapshot := s.(due := Some(now + delay)))];
      }
      closed := closed + {chan};
      cells := cells[h := cells[h].(done := None)];
    }

    method Observe(a: Account, windows: seq<Window>, now: Time)
      requires Sound(Now())
      modifies this
      ensures Now() == Observed(old(Now()), a, windows, now)
    {
      if !a.enabled || |windows| == 0 { return; }
      if a.id in entries && cells[entries[a.id]].revision > a.revision { return; }
      var h := Ensure(a);
      var e := cells[h];
      cells := cells[h := e.(snapshot := e.snapshot.(data := Data(Some((a.id, a.revision)), windows),
                                                     succeeded := Some(now), status := Partial))];
    }

    /** Drops the entries of accounts a scan has not seen; `order` is the order the table is walked in. */
    method Prune(seen: set<nat>, order: seq<nat>)
      requires forall id :: id in entries ==> id in order
      modifies this`entries
      ensures Now() == Pruned(old(Now()), seen)
    {
      ghost var before := entries;
      for i := 0 to |order|
        invariant forall id :: id in entries <==> id in before && (id in seen || id !in order[..i])
        invariant forall id :: id in entries ==> entries[id] == before[id]
      {
        if order[i] !in seen { entries := entries - {order[i]}; }
        assert order[..i + 1] == order[..i] + [order[i]];
      }
      assert order[..|order|] == order;
      PrunedIs(old(Now()), seen, entries);
    }
  }

  lemma PrunedIs(c: Cache, seen: set<nat>, left: map<nat, Handle>)
    requires forall id :: id in left <==> id in c.entries && id in seen
    requires forall id :: id in left ==> left[id] == c.entries[id]
    ensures Pruned(c, seen) == c.(entries := left)
  {
    var p := Pruned(c, seen).entries;
    assert forall id :: id in p <==> id in left;
    assert p == left;
  }

  lemma {:induction false} Pow2Grows(n: nat)
    requires n >= 3
    ensures Pow2(n) >= 8
  {
    if n == 3 {
      assert Pow2(3) == 2 * Pow2(2) && Pow2(2) == 2 * Pow2(1) && Pow2(1) == 2 * Pow2(0);
    } else {
      Pow2Grows(n - 1);
    }
  }

  /** Five, ten, twenty and then thirty minutes, or what the other side asks for if that is longer, but a day at most. */
  lemma BackoffMeans(k: nat, retryAfter: int)
    requires k > 0
    ensures var own := if k == 1 then 300 else if k == 2 then 600 else if k == 3 then 1200 else 1800;
      var wait := if retryAfter > own then retryAfter else own;
      Backoff(k, retryAfter) == if wait > 86400 then 86400 else wait
  {
    assert Pow2(2) == 2 * Pow2(1) && Pow2(1) == 2 * Pow2(0);
    if k > 3 { Pow2Grows(k - 1); }
  }

  /** The delay as computed, with the doubling cut off at three; it is the backoff for every count. */
  method FailureDelay(failures: nat, retryAfter: int) returns (delay: int)
    requires failures > 0
    ensures delay == Backoff(failures, retryAfter)
  {
    var doublings := if failures - 1 < 3 then failures - 1 else 3;
    delay := INTERVAL * Pow2(doublings);
    if failures - 1 >= 3 {
      Pow2Grows(3);
      Pow2Grows(failures - 1);
    }
    if delay > MAX_BACKOFF { delay := MAX_BACKOFF; }
    if retryAfter > delay { delay := retryAfter; }
    if delay > MAX_DELAY { delay := MAX_DELAY; }
  }
}
