/**
 The single owner of a rotating subscription credential: it hands out the current access
 token, refreshes it at most once at a time, and remembers why not when it cannot.
 Every method runs under one mutex, so each is one step. Times are milliseconds.
 */
module TokenOwner {
  import opened Options

  const EXPIRY_SKEW := 60_000
  const MIN_TOKEN_VALIDITY := 30_000
  const REFRESH_FAIL_COOLDOWN := 5_000

  /** An access token: the empty string, or one the issuer handed out, told apart by serial number. */
  datatype Token = Blank | Issued(serial: nat)

  /** One generation of the credential. `selfExpiry` is what the token says of itself, if readable. */
  datatype Handle = Handle(access: Token, refresh: nat, selfExpiry: Option<int>)

  /** What one exchange with the issuer comes to. `expiresIn` is 0 when the answer leaves it out. */
  datatype Reply =
    | Renewed(next: Handle, expiresIn: int)
    | Refused      // the issuer answered and said no: trying again gets the same answer
    | Unreachable  // network trouble or a server-side error: may work later

  datatype Answer = Access(token: Token) | AuthExpired | Failed | Cancelled

  /** `expiresAt` already has the skew taken off; None means unknown, which counts as valid. */
  datatype Owner = Owner(auth: Option<Handle>, expiresAt: Option<int>, dirty: bool, authExpired: bool, failedAt: Option<int>)

  // ---- the pure parts ----

  /** When a token obtained at `now` counts as expired: never sooner than the floor, None when nobody says. */
  function ExpiryOf(expiresIn: int, selfExpiry: Option<int>, now: int): (e: Option<int>)
    ensures e.Some? ==> e.value >= now + 30_000
    ensures e.None? <==> expiresIn <= 0 && selfExpiry.None?
    ensures expiresIn >= 90_000 ==> e == Some(now + expiresIn - 60_000)
    ensures 0 < expiresIn < 90_000 ==> e == Some(now + 30_000)
    ensures expiresIn <= 0 && selfExpiry.Some? && selfExpiry.value >= now + 90_000 ==> e == Some(selfExpiry.value - 60_000)
    ensures expiresIn <= 0 && selfExpiry.Some? && selfExpiry.value < now + 90_000 ==> e == Some(now + 30_000)
  {
    if expiresIn <= 0 && selfExpiry.None? then None
    else
      var expiry := if expiresIn > 0 then now + expiresIn - EXPIRY_SKEW else selfExpiry.value - EXPIRY_SKEW;
      if expiry < now + MIN_TOKEN_VALIDITY then Some(now + MIN_TOKEN_VALIDITY) else Some(expiry)
  }

  predicate Stale(o: Owner, now: int) {
    o.dirty || (o.expiresAt.Some? && now >= o.expiresAt.value)
  }

  function Installed(auth: Option<Handle>): Owner {
    var expiresAt := if auth.Some? && auth.value.selfExpiry.Some? then Some(auth.value.selfExpiry.value - EXPIRY_SKEW) else None;
    Owner(auth, expiresAt, false, false, None)
  }

  /** The state after one exchange that the issuer answered with `reply`, seen at time `later`. */
  function Exchanged(o: Owner, reply: Reply, later: int): Owner {
    match reply
    case Renewed(next, expiresIn) => Owner(Some(next), ExpiryOf(expiresIn, next.selfExpiry, later), false, o.authExpired, None)
    case Refused => o.(authExpired := true)
    case Unreachable => o.(failedAt := Some(later))
  }

  function Outcome(reply: Reply): Answer {
    match reply
    case Renewed(next, _) => Access(next.access)
    case Refused => AuthExpired
    case Unreachable => Failed
  }

  /** Whether a request for a token at `now` goes to the issuer. */
  predicate WillExchange(o: Owner, cancelled: bool, now: int) {
    && !cancelled && !o.authExpired && o.auth.Some? && Stale(o, now)
    && !(o.failedAt.Some? && now - o.failedAt.value < REFRESH_FAIL_COOLDOWN)
  }

  /** The answer of a request that does not go to the issuer. */
  function Immediate(o: Owner, cancelled: bool, now: int): Answer {
    if cancelled then Cancelled
    else if o.authExpired || o.auth.None? then AuthExpired
    else if !Stale(o, now) then Access(o.auth.value.access)
    else Failed
  }

  predicate NamesCurrent(o: Owner, rejected: Token) {
    rejected != Blank && o.auth.Some? && o.auth.value.access == rejected
  }

  predicate SameToken(o: Owner, auth: Option<Handle>) {
    o.auth.Some? && auth.Some? && o.auth.value.access == auth.value.access
  }

  // ---- the object ----

  class Provider {
    var auth: Option<Handle>
    var expiresAt: Option<int>
    var dirty: bool
    var authExpired: bool
    var failedAt: Option<int>
    /** Handles passed to the rotation callback, and how often the expiry callback ran. */
    var rotated: seq<Handle>
    var notices: nat

    ghost function Now(): Owner
      reads this
    {
      Owner(auth, expiresAt, dirty, authExpired, failedAt)
    }

    constructor (handle: Option<Handle>)
      ensures Now() == Installed(handle) && rotated == [] && notices == 0
    {
      auth, dirty, authExpired, failedAt := handle, false, false, None;
      expiresAt := if handle.Some? && handle.value.selfExpiry.Some? then Some(handle.value.selfExpiry.value - EXPIRY_SKEW) else None;
      rotated, notices := [], 0;
    }

    /**
     A usable access token, refreshing first when needed. `reply` is what the issuer would
     answer if asked, `later` the clock once it has.
     */
    method Current(cancelled: bool, now: int, reply: Reply, later: int) returns (answer: Answer, asked: bool)
      modifies this
      ensures asked <==> WillExchange(old(Now()), cancelled, now)
      ensures asked ==> Now() == Exchanged(old(Now()), reply, later) && answer == Outcome(reply)
      ensures !asked ==> Now() == old(Now()) && answer == Immediate(old(Now()), cancelled, now)
      ensures asked <==>
        && !cancelled && !old(authExpired) && old(auth).Some?
        && (old(dirty) || (old(expiresAt).Some? && now >= old(expiresAt).value))
        && (old(failedAt).Some? ==> now >= old(failedAt).value + 5_000)
      ensures !asked ==> (answer.Access? <==>
        && !cancelled && !old(authExpired) && old(auth).Some?
        && !old(dirty) && (old(expiresAt).Some? ==> now < old(expiresAt).value))
      ensures !asked && answer.Access? ==> answer.token == old(auth).value.access
      ensures rotated == old(rotated) + if asked && reply.Renewed? then [reply.next] else []
      ensures notices == old(notices) + if asked && reply.Refused? then 1 else 0
    {
      asked := false;
      if cancelled { return Cancelled, asked; }
      if authExpired { return AuthExpired, asked; }
      if auth.None? { return AuthExpired, asked; }
      if !(dirty || (expiresAt.Some? && !(now < expiresAt.value))) { return Access(auth.value.access), asked; }
      if failedAt.Some? && now - failedAt.value < REFRESH_FAIL_COOLDOWN { return Failed, asked; }
      asked := true;
      answer := RefreshLocked(reply, later);
    }

    /** One exchange, with the lock held. */
    method RefreshLocked(reply: Reply, later: int) returns (answer: Answer)
      requires auth.Some?
      modifies this
      ensures Now() == Exchanged(old(Now()), reply, later) && answer == Outcome(reply)
      ensures reply.Renewed? ==>
        && auth == Some(reply.next) && !dirty && failedAt.None? && authExpired == old(authExpired)
        && expiresAt == ExpiryOf(reply.expiresIn, reply.next.selfExpiry, later) && answer == Access(reply.next.access)
      ensures !reply.Renewed? ==> auth == old(auth) && expiresAt == old(expiresAt) && dirty == old(dirty)
      ensures reply.Refused? ==> authExpired && failedAt == old(failedAt) && answer == AuthExpired
      ensures reply.Unreachable? ==> authExpired == old(authExpired) && failedAt == Some(later) && answer == Failed
      ensures rotated == old(rotated) + if reply.Renewed? then [reply.next] else []
      ensures notices == old(notices) + if reply.Refused? then 1 else 0
    {
      match reply
      case Refused =>
        authExpired := true;
        notices := notices + 1;
        answer := AuthExpired;
      case Unreachable =>
        failedAt := Some(later);
        answer := Failed;
      case Renewed(next, expiresIn) =>
        auth, dirty, failedAt := Some(next), false, None;
        expiresAt := ExpiryOf(expiresIn, next.selfExpiry, later);
        rotated := rotated + [next];
        answer := Access(next.access);
    }

    /** Reports that `rejected` was turned down upstream; ignored unless it is the token held now. */
    method Invalidate(rejected: Token)
      modifies this`dirty
      ensures Now() == if NamesCurrent(old(Now()), rejected) then old(Now()).(dirty := true) else old(Now())
      ensures dirty <==> old(dirty) || (rejected != Blank && auth.Some? && auth.value.access == rejected)
    {
      if rejected == Blank || auth.None? || auth.value.access != rejected { return; }
      dirty := true;
    }

    /** Forces one exchange, clearing latch and cooldown first. */
    method Refresh(cancelled: bool, reply: Reply, later: int) returns (answer: Answer, asked: bool)
      modifies this
      ensures asked <==> !cancelled && old(auth).Some?
      ensures asked ==> Now() == Exchanged(old(Now()).(authExpired := false, failedAt := None), reply, later) && answer == Outcome(reply)
      ensures !asked ==> Now() == old(Now()) && answer == if cancelled then Cancelled else AuthExpired
      ensures rotated == old(rotated) + if asked && reply.Renewed? then [reply.next] else []
      ensures notices == old(notices) + if asked && reply.Refused? then 1 else 0
    {
      asked := false;
      if cancelled { return Cancelled, asked; }
      if auth.None? { return AuthExpired, asked; }
      asked, authExpired, failedAt := true, false, None;
      answer := RefreshLocked(reply, later);
    }

    /** Installs another handle; the same access token means the same generation and changes nothing. */
    method Reset(handle: Option<Handle>)
      modifies this
      ensures Now() == if SameToken(old(Now()), handle) then old(Now()) else Installed(handle)
      ensures if old(auth).Some? && handle.Some? && old(auth).value.access == handle.value.access then Now() == old(Now())
              else
                && auth == handle && !dirty && !authExpired && failedAt.None?
                && (expiresAt.Some? <==> handle.Some? && handle.value.selfExpiry.Some?)
                && (expiresAt.Some? ==> expiresAt.value == handle.value.selfExpiry.value - 60_000)
      ensures rotated == old(rotated) && notices == old(notices)
    {
      if auth.Some? && handle.Some? && auth.value.access == handle.value.access { return; }
      auth, dirty, authExpired, failedAt := handle, false, false, None;
      expiresAt := if handle.Some? && handle.value.selfExpiry.Some? then Some(handle.value.selfExpiry.value - EXPIRY_SKEW) else None;
    }
  }
}
