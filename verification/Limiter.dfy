/** The login limiter: five failures in a row lock a key for a minute, and every further one again. Times are in seconds. */
module Limiter {
  import opened Options

  type Time = nat

  const THRESHOLD := 5
  const LOCK := 60
  const SWEEP_AT := 4096

  datatype Entry = Entry(failures: nat, last: Time, until: Time)

  type Table = map<string, Entry>

  predicate IsLocked(t: Table, key: string, now: Time) {
    key in t && now < t[key].until
  }

  /** An entry that neither locks nor saw a failure within the last minute. */
  predicate Outworn(e: Entry, now: Time) {
    now >= e.until && now - e.last > LOCK
  }

  function Swept(t: Table, now: Time): Table {
    map key | key in t && !Outworn(t[key], now) :: t[key]
  }

  /** The table a failure of `key` is counted in. */
  function Roomy(t: Table, key: string, now: Time): Table {
    if key !in t && |t| >= SWEEP_AT then Swept(t, now) else t
  }

  function Failed(t: Table, key: string, now: Time): Table {
    var t' := Roomy(t, key, now);
    var n := if key in t' then t'[key].failures + 1 else 1;
    t'[key := Entry(n, now, if n >= THRESHOLD then now + LOCK else if key in t' then t'[key].until else 0)]
  }

  datatype Answer = Locked | Refused(lockedNow: bool) | Admitted

  class Limiter {
    var entries: Table

    constructor ()
      ensures entries == map[]
    {
      entries := map[];
    }

    /** Deletes while walking; `order` is the order the table is walked in. */
    method Sweep(now: Time, order: seq<string>)
      requires forall key :: key in entries ==> key in order
      modifies this
      ensures entries == Swept(old(entries), now)
    {
      ghost var before := entries;
      for i := 0 to |order|
        invariant forall key :: key in entries <==> key in before && (!Outworn(before[key], now) || key !in order[..i])
        invariant forall key :: key in entries ==> entries[key] == before[key]
      {
        var key := order[i];
        if key in entries && now >= entries[key].until && now - entries[key].last > LOCK {
          entries := entries - {key};
        }
        assert order[..i + 1] == order[..i] + [key];
      }
      assert order[..|order|] == order;
    }

    method RecordFailure(key: string, now: Time, order: seq<string>) returns (lockedNow: bool)
      requires forall key :: key in entries ==> key in order
      modifies this
      ensures entries == Failed(old(entries), key, now)
      ensures lockedNow <==> entries[key].failures >= THRESHOLD
    {
      if key !in entries {
        if |entries| >= SWEEP_AT { Sweep(now, order); }
        entries := entries[key := Entry(0, 0, 0)];
      }
      var e := entries[key];
      e := e.(failures := e.failures + 1, last := now);
      if e.failures >= THRESHOLD { e := e.(until := now + LOCK); }
      entries := entries[key := e];
      lockedNow := e.failures >= THRESHOLD;
    }

    method RecordSuccess(key: string)
      modifies this
      ensures entries == old(entries) - {key}
    {
      entries := entries - {key};
    }

    /** A login: in the locked time even the right password is refused, and nothing is counted. */
    method Login(key: string, verified: bool, now: Time, order: seq<string>) returns (a: Answer)
      requires forall key :: key in entries ==> key in order
      modifies this
      ensures entries == Tried(old(entries), key, verified, now)
      ensures a.Locked? <==> IsLocked(old(entries), key, now)
      ensures a.Admitted? <==> !IsLocked(old(entries), key, now) && verified
      ensures a.Refused? ==> (a.lockedNow <==> entries[key].failures >= THRESHOLD)
    {
      if key in entries && now < entries[key].until {
        return Locked;
      }
      if !verified {
        var lockedNow := RecordFailure(key, now, order);
        return Refused(lockedNow);
      }
      RecordSuccess(key);
      a := Admitted;
    }
  }

  function Tried(t: Table, key: string, verified: bool, now: Time): Table {
    if IsLocked(t, key, now) then t else if verified then t - {key} else Failed(t, key, now)
  }

  /** Attempts one after another, whatever their keys. */
  datatype Trace = Begin | Attempt(front: Trace, key: string, verified: bool, at: Time)

  function TableOf(t: Trace): Table {
    match t
    case Begin => map[]
    case Attempt(front, key, verified, at) => Tried(TableOf(front), key, verified, at)
  }

  function Clock(t: Trace): Time {
    match t
    case Begin => 0
    case Attempt(_, _, _, at) => at
  }

  /** The clock never goes back. */
  predicate Timely(t: Trace) {
    t.Begin? || (Timely(t.front) && t.at >= Clock(t.front))
  }

  /** The table never grows to the size at which it is swept. */
  predicate Uncrowded(t: Trace) {
    t.Begin? || (Uncrowded(t.front) && |TableOf(t.front)| < SWEEP_AT)
  }

  /** Failed verifications of `key` at `from` or later, since its last success. */
  function FailuresSince(t: Trace, key: string, from: int): nat {
    match t
    case Begin => 0
    case Attempt(front, k, verified, at) =>
      if k != key || IsLocked(TableOf(front), key, at) then FailuresSince(front, key, from)
      else if verified then 0
      else FailuresSince(front, key, from) + if at >= from then 1 else 0
  }

  /** How often a sweep took away the entry of `key` with failures at `from` or later counted in it, since its last success. */
  function Forgotten(t: Trace, key: string, from: int): nat {
    match t
    case Begin => 0
    case Attempt(front, k, verified, at) =>
      if k == key then if verified && !IsLocked(TableOf(front), key, at) then 0 else Forgotten(front, key, from)
      else Forgotten(front, key, from)
           + if key in TableOf(front) && key !in TableOf(t) && FailuresSince(front, key, from) > 0 then 1 else 0
  }

  /** The failures of a key that an entry still allows before it locks. */
  function Free(e: Entry): nat {
    if e.failures < THRESHOLD then THRESHOLD - e.failures else 0
  }

  /** What the entry of a key, or its absence, says about the failures in the window. */
  predicate Tells(t: Trace, key: string, from: int) {
    var n, g := FailuresSince(t, key, from), Forgotten(t, key, from);
    if key !in TableOf(t) then
      && (g == 0 <==> n == 0)
      && (n > 0 ==> from <= Clock(t) && n <= (Clock(t) - from) / LOCK + 4 * g && g <= (Clock(t) - from) / LOCK)
    else EntryTells(TableOf(t)[key], n, g, from, Clock(t))
  }

  predicate EntryTells(e: Entry, n: nat, g: nat, from: int, now: int) {
    && e.last <= now && e.failures > 0
    && (e.failures >= THRESHOLD ==> e.until == e.last + LOCK)
    && (g == 0 ==> n <= e.failures) && (n == 0 ==> g == 0)
    && (from > e.last ==> n == 0)
    && (from <= e.last ==> n + Free(e) <= THRESHOLD + (e.last - from) / LOCK + 4 * g && g <= (e.last - from) / LOCK)
  }

  lemma Later(a: int, b: int)
    requires a <= b
    ensures a / LOCK <= b / LOCK
    ensures b >= a + LOCK ==> b / LOCK >= a / LOCK + 1
  {
  }

  /** One more failure of a key with an entry, at a moment it is not locked. */
  lemma FailureTells(e: Entry, n: nat, g: nat, from: int, now: int, at: Time)
    requires EntryTells(e, n, g, from, now) && at >= now && at >= e.until
    ensures EntryTells(Entry(e.failures + 1, at, if e.failures + 1 >= THRESHOLD then at + LOCK else e.until),
        n + (if at >= from then 1 else 0), g, from, at)
  {
    if from <= e.last { Later(e.last - from, at - from); } else if from <= at { Later(0, at - from); }
  }

  /** A sweep that takes an entry away comes more than a minute after its last failure. */
  lemma SweepTells(e: Entry, n: nat, g: nat, from: int, now: int, at: Time)
    requires EntryTells(e, n, g, from, now) && Outworn(e, at) && n > 0
    ensures from <= at && n <= (at - from) / LOCK + 4 * (g + 1) && g + 1 <= (at - from) / LOCK
  {
    Later(e.last - from, at - from);
  }

  lemma {:induction false} RunTells(t: Trace, key: string, from: int)
    requires Timely(t)
    ensures Tells(t, key, from)
  {
    if t.Attempt? {
      RunTells(t.front, key, from);
      var before := TableOf(t.front);
      var n, g := FailuresSince(t.front, key, from), Forgotten(t.front, key, from);
      if t.key == key && !t.verified && !IsLocked(before, key, t.at) {
        if key in before { FailureTells(before[key], n, g, from, Clock(t.front), t.at); } else { FirstTells(t, key, from); }
      } else if key in before {
        OthersTell(t, key, from);
      } else if n > 0 {
        Later(Clock(t.front) - from, t.at - from);
      }
    }
  }

  /** A failure of a key without an entry. */
  lemma {:induction false} FirstTells(t: Trace, key: string, from: int)
    requires Timely(t) && t.Attempt? && t.key == key && !t.verified && key !in TableOf(t.front) && Tells(t.front, key, from)
    ensures Tells(t, key, from)
  {
    var n := FailuresSince(t.front, key, from);
    if n > 0 { Later(Clock(t.front) - from, t.at - from); } else if from <= t.at { Later(0, t.at - from); }
  }

  /** An attempt that is not a failure of the key leaves its entry, or sweeps it away, or a success clears it. */
  lemma {:induction false} OthersTell(t: Trace, key: string, from: int)
    requires Timely(t) && t.Attempt? && key in TableOf(t.front) && Tells(t.front, key, from)
    requires t.key != key || t.verified || IsLocked(TableOf(t.front), key, t.at)
    ensures Tells(t, key, from)
  {
    var e := TableOf(t.front)[key];
    var n, g := FailuresSince(t.front, key, from), Forgotten(t.front, key, from);
    if t.key != key && key !in TableOf(t) {
      assert Outworn(e, t.at);
      if n > 0 { SweepTells(e, n, g, from, Clock(t.front), t.at); }
    }
  }

  /**
   Between two successes, a window of `width` seconds that ends with the run holds at most five
   failed verifications of a key, one more for every full minute, and four more for every time a
   sweep of the crowded table forgets failures of it, which is at most once a minute.
   */
  lemma {:induction false} FailuresAreBounded(t: Trace, key: string, from: int, width: nat)
    requires Timely(t) && from + width >= Clock(t)
    ensures FailuresSince(t, key, from) <= 5 + width / 60 + 4 * Forgotten(t, key, from)
    ensures Forgotten(t, key, from) <= width / 60
  {
    RunTells(t, key, from);
    if FailuresSince(t, key, from) > 0 {
      Later((if key in TableOf(t) then TableOf(t)[key].last else Clock(t)) - from, width);
    }
  }

  /** A table that never grows to the size at which it is swept forgets nothing. */
  lemma {:induction false} UncrowdedForgetsNothing(t: Trace, key: string, from: int)
    requires Uncrowded(t)
    ensures Forgotten(t, key, from) == 0
  {
    if t.Attempt? { UncrowdedForgetsNothing(t.front, key, from); }
  }

  /** With a single key, as the login has, the table is never crowded. */
  lemma {:induction false} OneKeyIsUncrowded(t: Trace, key: string)
    requires OnlyKey(t, key)
    ensures Uncrowded(t) && TableOf(t).Keys <= {key}
  {
    if t.Attempt? {
      OneKeyIsUncrowded(t.front, key);
      AtMostOne(TableOf(t.front), key);
    }
  }

  predicate OnlyKey(t: Trace, key: string) {
    t.Begin? || (t.key == key && OnlyKey(t.front, key))
  }

  lemma AtMostOne(t: Table, key: string)
    requires t.Keys <= {key}
    ensures |t| <= 1
  {
    if key in t { assert t.Keys == {key}; } else { assert t.Keys == {}; }
    assert |t| == |t.Keys|;
  }

  /** So the login's own key is bounded whatever passwords are tried. */
  lemma {:induction false} LoginIsBounded(t: Trace, key: string, from: int, width: nat)
    requires Timely(t) && OnlyKey(t, key) && from + width >= Clock(t)
    ensures FailuresSince(t, key, from) <= 5 + width / 60
  {
    OneKeyIsUncrowded(t, key);
    UncrowdedForgetsNothing(t, key, from);
    FailuresAreBounded(t, key, from, width);
  }

  /** A sweep removes exactly the outworn entries; one still locked, or that failed within the minute, stays as it is. */
  lemma SweepSparesLocked(t: Table, key: string, now: Time)
    requires key in t
    ensures key in Swept(t, now) <==> now < t[key].until || now - t[key].last <= 60
    ensures IsLocked(t, key, now) ==> IsLocked(Swept(t, now), key, now) && Swept(t, now)[key] == t[key]
  {
  }

  /** Other keys, and the sweeps they cause, never unlock a locked key. */
  lemma LockHolds(t: Table, key: string, other: string, verified: bool, now: Time)
    requires key != other && IsLocked(t, key, now)
    ensures key in Tried(t, other, verified, now) && Tried(t, other, verified, now)[key] == t[key]
  {
  }

  /** The time of the last failed verification of the key. */
  function LastFailure(t: Trace, key: string): Time {
    match t
    case Begin => 0
    case Attempt(front, k, verified, at) =>
      if k == key && !verified && !IsLocked(TableOf(front), key, at) then at else LastFailure(front, key)
  }

  lemma {:induction false} EntryIsHistory(t: Trace, key: string)
    requires Timely(t) && Forgotten(t, key, 0) == 0
    ensures if key in TableOf(t)
            then
              var e := TableOf(t)[key];
              && e.failures == FailuresSince(t, key, 0) && e.last == LastFailure(t, key)
              && e.until == if e.failures >= 5 then e.last + 60 else 0
            else FailuresSince(t, key, 0) == 0
  {
    if t.Attempt? && !(t.key == key && t.verified && !IsLocked(TableOf(t.front), key, t.at)) {
      EntryIsHistory(t.front, key);
    }
  }

  /**
   A key is locked exactly when it failed five times or more since its last success and the last
   failure is less than a minute ago; unless a sweep forgot some of these failures.
   */
  lemma {:induction false} LockedExactly(t: Trace, key: string, now: Time)
    requires Timely(t) && now >= Clock(t) && Forgotten(t, key, 0) == 0
    ensures IsLocked(TableOf(t), key, now) <==> FailuresSince(t, key, 0) >= 5 && now < LastFailure(t, key) + 60
  {
    EntryIsHistory(t, key);
  }

  /** A fifth failure in a row locks the key for the whole minute, unless a sweep forgot one of the others. */
  lemma {:induction false} FifthFailureLocks(t: Trace, key: string, at: Time)
    requires Timely(t) && at >= Clock(t) && !IsLocked(TableOf(t), key, at)
    requires FailuresSince(t, key, Earliest(t)) >= 4 && Forgotten(t, key, Earliest(t)) == 0
    ensures var after := Tried(TableOf(t), key, false, at);
      forall now :: at <= now < at + 60 ==> IsLocked(after, key, now)
  {
    RunTells(t, key, Earliest(t));
  }

  /** No attempt of the run is earlier. */
  function Earliest(t: Trace): Time {
    match t
    case Begin => 0
    case Attempt(front, _, _, at) => if at < Earliest(front) then at else Earliest(front)
  }
}
