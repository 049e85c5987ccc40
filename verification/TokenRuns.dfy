/**
 Whole runs of the token owner: how often it can refresh at all, and how it fares against an
 issuer that rotates refresh tokens and accepts only the newest (section 6 of RFC 6749 lets an
 authorization server issue a new refresh token and revoke the old one).
 */
module TokenRuns {
  import opened Options
  import opened TokenOwner

  // ---- part one: an arbitrary issuer ----

  /** One call, with the time it starts, the time it ends, and what the issuer would have answered. */
  datatype Call =
    | Current(start: int, end: int, cancelled: bool, reply: Reply)
    | Refresh(start: int, end: int, cancelled: bool, reply: Reply)
    | Invalidate(start: int, end: int, rejected: Token)
    | Reset(start: int, end: int, handle: Option<Handle>)

  function After(c: Call, o: Owner): Owner {
    match c
    case Current(now, later, cancelled, reply) => if WillExchange(o, cancelled, now) then Exchanged(o, reply, later) else o
    case Refresh(_, later, cancelled, reply) =>
      if !cancelled && o.auth.Some? then Exchanged(o.(authExpired := false, failedAt := None), reply, later) else o
    case Invalidate(_, _, rejected) => if NamesCurrent(o, rejected) then o.(dirty := true) else o
    case Reset(_, _, handle) => if SameToken(o, handle) then o else Installed(handle)
  }

  /** The call obtains a new generation. */
  predicate Renews(c: Call, o: Owner) {
    match c
    case Current(now, _, cancelled, reply) => WillExchange(o, cancelled, now) && reply.Renewed?
    case Refresh(_, _, cancelled, reply) => !cancelled && o.auth.Some? && reply.Renewed?
    case _ => false
  }

  /** The three kinds of call that may each be the reason for one refresh. */
  predicate GivesReason(c: Call, o: Owner) {
    c.Refresh? || (c.Invalidate? && NamesCurrent(o, c.rejected)) || (c.Reset? && !SameToken(o, c.handle))
  }

  /** The clock never runs backwards from `t0` on. */
  ghost predicate Clocked(calls: seq<Call>, t0: int) {
    && (forall i :: 0 <= i < |calls| ==> t0 <= calls[i].start <= calls[i].end)
    && (forall i, j :: 0 <= i < j < |calls| ==> calls[i].end <= calls[j].start)
  }

  function OwnerAt(calls: seq<Call>, o: Owner, n: nat): Owner
    requires n <= |calls|
  {
    if n == 0 then o else After(calls[n - 1], OwnerAt(calls, o, n - 1))
  }

  function Renewals(calls: seq<Call>, o: Owner, n: nat): nat
    requires n <= |calls|
  {
    if n == 0 then 0 else Renewals(calls, o, n - 1) + if Renews(calls[n - 1], OwnerAt(calls, o, n - 1)) then 1 else 0
  }

  function Reasons(calls: seq<Call>, o: Owner, n: nat): nat
    requires n <= |calls|
  {
    if n == 0 then 0 else Reasons(calls, o, n - 1) + if GivesReason(calls[n - 1], OwnerAt(calls, o, n - 1)) then 1 else 0
  }

  function EndTime(calls: seq<Call>, t0: int, n: nat): int
    requires n <= |calls|
  {
    if n == 0 then t0 else calls[n - 1].end
  }

  /**
   Where the present expiry came from: `installed` while it is still the one an installed handle
   brought, and otherwise at least the floor after `anchor`, the time of the latest refresh.
   */
  datatype Origin = Origin(installed: bool, anchor: int)

  function OriginAt(calls: seq<Call>, o: Owner, start: Origin, n: nat): Origin
    requires n <= |calls|
  {
    if n == 0 then start
    else
      var c, before := calls[n - 1], OwnerAt(calls, o, n - 1);
      var origin := OriginAt(calls, o, start, n - 1);
      if Renews(c, before) then Origin(false, c.end)
      else if c.Reset? && !SameToken(before, c.handle) then origin.(installed := true)
      else origin
  }

  /** What links state and counters: every refresh so far is paid for, and a pending reason is still unspent. */
  ghost predicate Paid(o: Owner, origin: Origin, renewals: int, allowance: int, t0: int, now: int) {
    && t0 <= origin.anchor <= now
    && (!origin.installed && o.expiresAt.Some? ==> o.expiresAt.value >= origin.anchor + MIN_TOKEN_VALIDITY)
    && renewals + (if origin.installed then 1 else 0) + (if o.dirty then 1 else 0)
       <= allowance + (origin.anchor - t0) / MIN_TOKEN_VALIDITY
  }

  lemma OneCallStaysPaid(c: Call, o: Owner, origin: Origin, renewals: int, allowance: int, t0: int, now: int)
    requires Paid(o, origin, renewals, allowance, t0, now) && now <= c.start <= c.end
    ensures var origin' := if Renews(c, o) then Origin(false, c.end)
                           else if c.Reset? && !SameToken(o, c.handle) then origin.(installed := true) else origin;
      Paid(After(c, o), origin', renewals + (if Renews(c, o) then 1 else 0), allowance + (if GivesReason(c, o) then 1 else 0), t0, c.end)
  {
    if Renews(c, o) {
      assert (c.end - t0) / MIN_TOKEN_VALIDITY >= (origin.anchor - t0) / MIN_TOKEN_VALIDITY;
      if c.Current? && !o.dirty && !origin.installed {
        assert c.end - t0 >= (origin.anchor - t0) + MIN_TOKEN_VALIDITY;
        assert (c.end - t0) / MIN_TOKEN_VALIDITY >= (origin.anchor - t0) / MIN_TOKEN_VALIDITY + 1;
      }
    }
  }

  lemma {:induction false} RunsStayPaid(calls: seq<Call>, o: Owner, start: Origin, allowance: int, t0: int, n: nat)
    requires n <= |calls| && Clocked(calls, t0)
    requires Paid(o, start, 0, allowance, t0, t0)
    ensures Paid(OwnerAt(calls, o, n), OriginAt(calls, o, start, n),
        Renewals(calls, o, n), allowance + Reasons(calls, o, n), t0, EndTime(calls, t0, n))
  {
    if n > 0 {
      RunsStayPaid(calls, o, start, allowance, t0, n - 1);
      OneCallStaysPaid(calls[n - 1], OwnerAt(calls, o, n - 1), OriginAt(calls, o, start, n - 1), Renewals(calls, o, n - 1),
                       allowance + Reasons(calls, o, n - 1), t0, EndTime(calls, t0, n - 1));
    }
  }

  /**
   Whatever the issuer answers, the number of generations used up is at most the number of
   reports about the token then held, plus forced refreshes, plus token-changing resets, plus
   one, plus one for every 30 seconds.
   */
  lemma {:induction false} RefreshesAreBounded(calls: seq<Call>, handle: Option<Handle>, t0: int)
    requires Clocked(calls, t0)
    ensures Renewals(calls, Installed(handle), |calls|)
         <= Reasons(calls, Installed(handle), |calls|) + 1 + (EndTime(calls, t0, |calls|) - t0) / MIN_TOKEN_VALIDITY
  {
    var o := Installed(handle);
    RunsStayPaid(calls, o, Origin(true, t0), 1, t0, |calls|);
    var origin := OriginAt(calls, o, Origin(true, t0), |calls|);
    assert (origin.anchor - t0) / MIN_TOKEN_VALIDITY <= (EndTime(calls, t0, |calls|) - t0) / MIN_TOKEN_VALIDITY;
  }

  // ---- part two: N callers and one rejected token ----

  /** Only requests for a token and reports about `t`. */
  ghost predicate OnlyReports(calls: seq<Call>, t: Token) {
    forall i :: 0 <= i < |calls| ==> calls[i].Current? || (calls[i].Invalidate? && calls[i].rejected == t)
  }

  /** Every answer that renews carries a token other than `t`. */
  ghost predicate NeverAgain(calls: seq<Call>, t: Token) {
    forall i :: 0 <= i < |calls| && calls[i].Current? && calls[i].reply.Renewed? ==> calls[i].reply.next.access != t
  }

  /** Once refreshed, the report names nobody any more, and what was obtained lasts for the floor. */
  ghost predicate Deduplicated(o: Owner, t: Token, renewals: int, anchor: int, t0: int, now: int) {
    && t0 <= anchor <= now
    && (renewals > 0 ==>
          && !o.dirty && !NamesCurrent(o, t)
          && (o.expiresAt.Some? ==> o.expiresAt.value >= anchor + MIN_TOKEN_VALIDITY)
          && renewals - 1 <= (anchor - t0) / MIN_TOKEN_VALIDITY)
  }

  lemma {:induction false} ReportsStayDeduplicated(calls: seq<Call>, o: Owner, t: Token, t0: int, n: nat) returns (anchor: int)
    requires n <= |calls| && Clocked(calls, t0) && OnlyReports(calls, t) && NeverAgain(calls, t)
    ensures Deduplicated(OwnerAt(calls, o, n), t, Renewals(calls, o, n), anchor, t0, EndTime(calls, t0, n))
  {
    anchor := t0;
    if n > 0 {
      anchor := ReportsStayDeduplicated(calls, o, t, t0, n - 1);
      var c, before := calls[n - 1], OwnerAt(calls, o, n - 1);
      if Renews(c, before) {
        if Renewals(calls, o, n - 1) > 0 {
          assert c.end - t0 >= (anchor - t0) + MIN_TOKEN_VALIDITY;
          assert (c.end - t0) / MIN_TOKEN_VALIDITY >= (anchor - t0) / MIN_TOKEN_VALIDITY + 1;
        }
        anchor := c.end;
      }
    }
  }

  /**
   However many callers report the same rejected token, in whatever order and mixed with whatever
   requests, to an owner in whatever state, they cause at most one refresh; another takes another
   30 seconds.
   */
  lemma {:induction false} OneRejectedTokenOneRefresh(calls: seq<Call>, o: Owner, t: Token, t0: int)
    requires Clocked(calls, t0) && OnlyReports(calls, t) && NeverAgain(calls, t)
    ensures Renewals(calls, o, |calls|) <= 1 + (EndTime(calls, t0, |calls|) - t0) / MIN_TOKEN_VALIDITY
    ensures EndTime(calls, t0, |calls|) - t0 < MIN_TOKEN_VALIDITY ==> Renewals(calls, o, |calls|) <= 1
  {
    var anchor := ReportsStayDeduplicated(calls, o, t, t0, |calls|);
    assert (anchor - t0) / MIN_TOKEN_VALIDITY <= (EndTime(calls, t0, |calls|) - t0) / MIN_TOKEN_VALIDITY;
  }

  // ---- what is handed out in between ----

  /** From call `i` to call `j` nobody forces a refresh or installs another token. */
  ghost predicate LeftAlone(calls: seq<Call>, o: Owner, i: nat, j: nat)
    requires i <= j <= |calls|
  {
    forall n :: i <= n < j ==> !calls[n].Refresh? && (calls[n].Reset? ==> SameToken(OwnerAt(calls, o, n), calls[n].handle))
  }

  /** Once refused the owner stays refused, and uses up no generation, until a forced refresh or another login. */
  lemma {:induction false} LatchHolds(calls: seq<Call>, o: Owner, i: nat, j: nat)
    requires i <= j <= |calls| && LeftAlone(calls, o, i, j) && OwnerAt(calls, o, i).authExpired
    ensures OwnerAt(calls, o, j).authExpired && Renewals(calls, o, j) == Renewals(calls, o, i)
    ensures forall now :: Immediate(OwnerAt(calls, o, j), false, now) == AuthExpired && !WillExchange(OwnerAt(calls, o, j), false, now)
  {
    if i < j {
      LatchHolds(calls, o, i, j - 1);
      assert !calls[j - 1].Refresh? && (calls[j - 1].Reset? ==> SameToken(OwnerAt(calls, o, j - 1), calls[j - 1].handle));
    }
  }

  /** After trouble no request goes to the issuer for the length of the cooldown; the token held stays. */
  lemma {:induction false} CooldownHolds(calls: seq<Call>, o: Owner, i: nat, j: nat, failed: int)
    requires i <= j <= |calls| && LeftAlone(calls, o, i, j) && OwnerAt(calls, o, i).failedAt == Some(failed)
    requires forall n :: i <= n < j ==> calls[n].start < failed + 5_000
    ensures OwnerAt(calls, o, j).failedAt == Some(failed) && OwnerAt(calls, o, j).auth == OwnerAt(calls, o, i).auth
    ensures Renewals(calls, o, j) == Renewals(calls, o, i)
  {
    if i < j {
      CooldownHolds(calls, o, i, j - 1, failed);
      assert calls[j - 1].start < failed + 5_000 && !calls[j - 1].Refresh?
        && (calls[j - 1].Reset? ==> SameToken(OwnerAt(calls, o, j - 1), calls[j - 1].handle));
    }
  }

  /**
   A token just obtained is what every request is answered with, unasked, until it expires, is
   reported or replaced; never less than 30 seconds, when nobody reports it.
   */
  lemma {:induction false} RenewedIsServed(calls: seq<Call>, o: Owner, i: nat, j: nat, now: int)
    requires i < j <= |calls| && Renews(calls[i], OwnerAt(calls, o, i)) && (calls[i].Current? || calls[i].Refresh?)
    requires LeftAlone(calls, o, i + 1, j)
    requires forall n :: i < n < j && calls[n].Invalidate? ==> calls[n].rejected != calls[i].reply.next.access
    requires var expiry := OwnerAt(calls, o, i + 1).expiresAt;
      expiry.Some? ==> now < expiry.value && forall n :: i < n < j ==> calls[n].start < expiry.value
    ensures OwnerAt(calls, o, j) == OwnerAt(calls, o, i + 1)
    ensures OwnerAt(calls, o, i + 1).expiresAt.Some? ==> OwnerAt(calls, o, i + 1).expiresAt.value >= calls[i].end + 30_000
    ensures !WillExchange(OwnerAt(calls, o, j), false, now)
    ensures Immediate(OwnerAt(calls, o, j), false, now) == Access(calls[i].reply.next.access)
  {
    if i + 1 < j {
      RenewedIsServed(calls, o, i, j - 1, now);
      assert !calls[j - 1].Refresh? && (calls[j - 1].Reset? ==> SameToken(OwnerAt(calls, o, j - 1), calls[j - 1].handle));
      assert calls[j - 1].Invalidate? ==> calls[j - 1].rejected != calls[i].reply.next.access;
    }
  }

  // ---- part three: a rotating issuer ----

  /** What happens to one exchange; `saved` is whether the rotation callback stored the new handle. */
  datatype Fate =
    | Delivered(expiresIn: int, selfExpiry: Option<int>, saved: bool)
    | RequestLost
    | ResponseLost

  datatype Step =
    | Ask(now: int, later: int, cancelled: bool, fate: Fate)
    | Force(later: int, cancelled: bool, fate: Fate)
    | Report(rejected: Token)
    | Login(selfExpiry: Option<int>)   // the administrator logs in again: a new line of generations
    | Reload                           // the handle read back from the database is installed

  /**
   The owner together with its issuer. `newest` is the only refresh token the issuer accepts,
   `stored` what the database holds, `rotated` the generations handed to the rotation callback.
   Three history variables: `unsaved` while the latest handle is not in the database, `lost` once
   an accepted exchange went unheard or an older handle was reloaded (until the next login), and
   `shown` every generation the issuer was shown, beside the newest at that moment.
   */
  datatype World = World(owner: Owner, newest: nat, stored: Handle, rotated: seq<nat>, refusals: nat,
                         unsaved: bool, lost: bool, shown: seq<(nat, nat)>)

  function Generation(serial: nat, selfExpiry: Option<int>): Handle {
    Handle(Issued(serial), serial, selfExpiry)
  }

  function Beginning(serial: nat, selfExpiry: Option<int>): World {
    var h := Generation(serial, selfExpiry);
    World(Installed(Some(h)), serial, h, [], 0, false, false, [])
  }

  /** The issuer's side of an exchange: what comes back and what it accepts from now on. */
  function Serve(presented: nat, newest: nat, fate: Fate): (Reply, nat) {
    match fate
    case RequestLost => (Unreachable, newest)
    case ResponseLost => (Unreachable, if presented == newest then newest + 1 else newest)
    case Delivered(expiresIn, selfExpiry, _) =>
      if presented == newest then (Renewed(Generation(newest + 1, selfExpiry), expiresIn), newest + 1) else (Refused, newest)
  }

  function Exchange(w: World, o: Owner, later: int, fate: Fate): World
    requires o.auth.Some?
  {
    var presented := o.auth.value.refresh;
    var (reply, newest) := Serve(presented, w.newest, fate);
    World(Exchanged(o, reply, later), newest,
          if reply.Renewed? && fate.saved then reply.next else w.stored,
          if reply.Renewed? then w.rotated + [reply.next.refresh] else w.rotated,
          w.refusals + (if reply.Refused? then 1 else 0),
          if reply.Renewed? then !fate.saved else w.unsaved,
          w.lost || (fate.ResponseLost? && presented == w.newest),
          if fate.RequestLost? then w.shown else w.shown + [(presented, w.newest)])
  }

  /** Whether the step goes to the issuer, and the owner as it then is. */
  predicate Asks(w: World, s: Step) {
    match s
    case Ask(now, _, cancelled, _) => WillExchange(w.owner, cancelled, now)
    case Force(_, cancelled, _) => !cancelled && w.owner.auth.Some?
    case _ => false
  }

  function Next(w: World, s: Step): World {
    match s
    case Ask(now, later, cancelled, fate) => if Asks(w, s) then Exchange(w, w.owner, later, fate) else w
    case Force(later, cancelled, fate) =>
      if Asks(w, s) then Exchange(w, w.owner.(authExpired := false, failedAt := None), later, fate) else w
    case Report(rejected) => if NamesCurrent(w.owner, rejected) then w.(owner := w.owner.(dirty := true)) else w
    case Login(selfExpiry) =>
      var h := Generation(w.newest + 1, selfExpiry);
      w.(owner := Installed(Some(h)), newest := w.newest + 1, stored := h, unsaved := false, lost := false)
    case Reload =>
      if SameToken(w.owner, Some(w.stored)) then w
      else w.(owner := Installed(Some(w.stored)), unsaved := false, lost := true)
  }

  function WorldAt(steps: seq<Step>, w: World, n: nat): World
    requires n <= |steps|
  {
    if n == 0 then w else Next(WorldAt(steps, w, n - 1), steps[n - 1])
  }

  ghost predicate Coherent(w: World) {
    && w.owner.auth.Some?
    && w.owner.auth.value.access == Issued(w.owner.auth.value.refresh)
    && w.stored.access == Issued(w.stored.refresh)
    && w.owner.auth.value.refresh <= w.newest && w.stored.refresh <= w.newest
    && (w.owner.auth.value.refresh == w.newest <==> !w.lost)
    && (!w.unsaved ==> w.stored.refresh == w.owner.auth.value.refresh)
    && (w.unsaved ==> w.stored.refresh < w.owner.auth.value.refresh)
    && (forall i :: 0 <= i < |w.rotated| ==> w.rotated[i] <= w.newest)
    && (forall i, j :: 0 <= i < j < |w.rotated| ==> w.rotated[i] < w.rotated[j])
  }

  lemma ExchangeStaysCoherent(w: World, o: Owner, later: int, fate: Fate)
    requires Coherent(w) && o.auth == w.owner.auth
    ensures Coherent(Exchange(w, o, later, fate))
  {
  }

  lemma NextStaysCoherent(w: World, s: Step)
    requires Coherent(w)
    ensures Coherent(Next(w, s))
  {
    match s
    case Ask(_, later, _, fate) => if Asks(w, s) { ExchangeStaysCoherent(w, w.owner, later, fate); }
    case Force(later, _, fate) => if Asks(w, s) { ExchangeStaysCoherent(w, w.owner.(authExpired := false, failedAt := None), later, fate); }
    case Report(_) =>
    case Login(_) =>
    case Reload =>
  }

  lemma {:induction false} RunsStayCoherent(steps: seq<Step>, serial: nat, selfExpiry: Option<int>, n: nat)
    requires n <= |steps|
    ensures Coherent(WorldAt(steps, Beginning(serial, selfExpiry), n))
  {
    if n > 0 {
      RunsStayCoherent(steps, serial, selfExpiry, n - 1);
      NextStaysCoherent(WorldAt(steps, Beginning(serial, selfExpiry), n - 1), steps[n - 1]);
    }
  }

  predicate Hears(s: Step) {
    (s.Ask? || s.Force?) ==> !s.fate.ResponseLost?
  }

  predicate Saves(s: Step) {
    (s.Ask? || s.Force?) && s.fate.Delivered? ==> s.fate.saved
  }

  /** No response is lost, and either every new handle is stored or none is ever reloaded. */
  ghost predicate Sound(steps: seq<Step>) {
    && (forall i :: 0 <= i < |steps| ==> Hears(steps[i]))
    && ((forall i :: 0 <= i < |steps| ==> Saves(steps[i])) || (forall i :: 0 <= i < |steps| ==> !steps[i].Reload?))
  }

  /**
   In a sound run the owner always holds the newest generation, shows the issuer nothing else, is
   never refused, and never drops its latch.
   */
  lemma {:induction false} SoundRunsAreNeverRefused(steps: seq<Step>, serial: nat, selfExpiry: Option<int>, n: nat)
    requires n <= |steps| && Sound(steps)
    ensures var w := WorldAt(steps, Beginning(serial, selfExpiry), n);
      && Coherent(w) && !w.lost && w.owner.auth.value.refresh == w.newest
      && (forall i :: 0 <= i < |w.shown| ==> w.shown[i].0 == w.shown[i].1)
      && w.refusals == 0 && !w.owner.authExpired
      && (w.unsaved ==> exists i :: 0 <= i < n && !Saves(steps[i]))
  {
    RunsStayCoherent(steps, serial, selfExpiry, n);
    if n > 0 {
      SoundRunsAreNeverRefused(steps, serial, selfExpiry, n - 1);
      var before, s := WorldAt(steps, Beginning(serial, selfExpiry), n - 1), steps[n - 1];
      assert Hears(s);
      if s.Reload? { assert !before.unsaved; }
      if Next(before, s).unsaved && !before.unsaved { assert !Saves(steps[n - 1]); }
    }
  }

  /**
   With no login in between, a sound run hands every generation the issuer made to the rotation
   callback, each exactly once and in order.
   */
  lemma {:induction false} EveryGenerationIsHandedOver(steps: seq<Step>, serial: nat, selfExpiry: Option<int>, n: nat)
    requires n <= |steps| && Sound(steps) && forall i :: 0 <= i < |steps| ==> !steps[i].Login?
    ensures var w := WorldAt(steps, Beginning(serial, selfExpiry), n);
      && w.newest == serial + |w.rotated|
      && forall i :: 0 <= i < |w.rotated| ==> w.rotated[i] == serial + 1 + i
  {
    if n > 0 {
      EveryGenerationIsHandedOver(steps, serial, selfExpiry, n - 1);
      SoundRunsAreNeverRefused(steps, serial, selfExpiry, n - 1);
      assert !steps[n - 1].Login? && Hears(steps[n - 1]);
    }
  }

  /**
   In any run whatever, an exchange the issuer answers is refused, and the latch dropped, exactly
   when a generation was lost since the last login; otherwise it renews.
   */
  lemma RefusedExactlyAfterALoss(steps: seq<Step>, serial: nat, selfExpiry: Option<int>, n: nat)
    requires n < |steps|
    requires var w := WorldAt(steps, Beginning(serial, selfExpiry), n); Asks(w, steps[n]) && steps[n].fate.Delivered?
    ensures var w, w' := WorldAt(steps, Beginning(serial, selfExpiry), n), WorldAt(steps, Beginning(serial, selfExpiry), n + 1);
      && (w.lost <==> w'.refusals == w.refusals + 1)
      && (w.lost <==> w'.owner.authExpired)
      && (!w.lost <==> w'.rotated == w.rotated + [w.newest + 1])
  {
    RunsStayCoherent(steps, serial, selfExpiry, n);
  }

  /** And a generation is lost exactly by an accepted exchange unheard or by reloading a handle that is not the latest. */
  lemma LossesAreTheseTwo(steps: seq<Step>, serial: nat, selfExpiry: Option<int>, n: nat)
    requires n < |steps| && !WorldAt(steps, Beginning(serial, selfExpiry), n).lost
    ensures var w := WorldAt(steps, Beginning(serial, selfExpiry), n);
      WorldAt(steps, Beginning(serial, selfExpiry), n + 1).lost ==
        ((Asks(w, steps[n]) && steps[n].fate.ResponseLost?) || (steps[n].Reload? && w.unsaved))
  {
    RunsStayCoherent(steps, serial, selfExpiry, n);
  }
}
