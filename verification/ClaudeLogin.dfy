/**
 One-time Claude authorizations: a new login or a deletion voids the ones in flight. The lock
 covers local steps only; the exchange of a code runs without it.
 */
module ClaudeLogin {
  import opened Options

  type LoginId = nat
  type CallId = nat

  /** What the lock guards: the login waiting for its code, its timer, and the generation. */
  datatype Gate = Gate(login: Option<LoginId>, timer: Option<LoginId>, generation: nat)

  const CLOSED := Gate(None, None, 0)

  function Cleared(g: Gate): Gate {
    Gate(None, None, g.generation + 1)
  }

  function Started(g: Gate, id: LoginId): Gate {
    Gate(Some(id), Some(id), g.generation + 1)
  }

  /** A callback takes the login out before it goes to the network; the generation stays. */
  function Consumed(g: Gate): Gate {
    Gate(None, None, g.generation)
  }

  function TimedOut(g: Gate, id: LoginId): Gate {
    if g.login == Some(id) then Cleared(g) else g
  }

  class Logins {
    var login: Option<LoginId>
    var timer: Option<LoginId>
    var generation: nat

    ghost function Now(): Gate
      reads this
    {
      Gate(login, timer, generation)
    }

    constructor ()
      ensures Now() == CLOSED
    {
      login, timer, generation := None, None, 0;
    }

    /** Bumps the generation, drops the login and stops the timer: a new start, a deletion and a commit all do this. */
    method Clear()
      modifies this
      ensures Now() == Cleared(old(Now()))
    {
      generation := generation + 1;
      login := None;
      if timer.Some? { timer := None; }
    }

    method Start(id: LoginId)
      modifies this
      ensures Now() == Started(old(Now()), id)
      ensures login == Some(id) && timer == Some(id) && generation == old(generation) + 1
    {
      Clear();
      login := Some(id);
      timer := Some(id);
    }

    /** The timer of one login, whenever it gets the lock. */
    method Expire(id: LoginId)
      modifies this
      ensures Now() == TimedOut(old(Now()), id)
      ensures if old(login) == Some(id) then login.None? && timer.None? && generation == old(generation) + 1 else Now() == old(Now())
    {
      if login == Some(id) { Clear(); }
    }

    /** A callback with a code: it matches the waiting login or it does not. */
    method Take(matching: bool) returns (taken: Option<(LoginId, nat)>)
      modifies this
      ensures taken == if old(login).Some? && matching then Some((old(login).value, old(generation))) else None
      ensures Now() == if taken.Some? then Consumed(old(Now())) else old(Now())
      ensures if taken.Some? then login.None? && timer.None? && generation == old(generation) else Now() == old(Now())
    {
      if login.None? || !matching { return None; }
      taken := Some((login.value, generation));
      login := None;
      if timer.Some? { timer := None; }
    }

    /** After the exchange: commits unless something newer happened. */
    method Commit(taken: nat) returns (ok: bool)
      modifies this
      ensures ok <==> old(generation) == taken
      ensures Now() == if ok then Cleared(old(Now())) else old(Now())
      ensures if ok then login.None? && timer.None? && generation == old(generation) + 1 else Now() == old(Now())
    {
      if generation != taken { return false; }
      Clear();
      ok := true;
    }
  }

  // ---- the interleavings ----

  datatype Phase = Exchanging | Exchanged | Committed | Superseded | Failed

  /** A callback that took a login, with the generation it saw. */
  datatype Call = Call(login: LoginId, generation: nat, phase: Phase)

  datatype State = State(gate: Gate, started: nat, calls: map<CallId, Call>)

  datatype Step =
    | Start                                  // a new login; ids are given out in order
    | Timer(id: LoginId)                     // the timer of a login, however late
    | Take(c: CallId)                        // a callback with the code of the waiting login
    | Answer(c: CallId, ok: bool)            // its exchange ends
    | Commit(c: CallId)
    | Delete                                 // of a Claude account
    | SetupToken                             // another submission, which leaves the gate alone

  predicate Enabled(s: State, a: Step) {
    match a
    case Timer(id) => id < s.started
    case Take(c) => c !in s.calls && s.gate.login.Some?
    case Answer(c, _) => c in s.calls && s.calls[c].phase.Exchanging?
    case Commit(c) => c in s.calls && s.calls[c].phase.Exchanged?
    case _ => true
  }

  function Do(s: State, a: Step): State
    requires Enabled(s, a)
  {
    match a
    case Start => s.(gate := Started(s.gate, s.started), started := s.started + 1)
    case Timer(id) => s.(gate := TimedOut(s.gate, id))
    case Take(c) => s.(gate := Consumed(s.gate), calls := s.calls[c := Call(s.gate.login.value, s.gate.generation, Exchanging)])
    case Answer(c, ok) => s.(calls := s.calls[c := s.calls[c].(phase := if ok then Exchanged else Failed)])
    case Commit(c) =>
      if s.gate.generation != s.calls[c].generation then s.(calls := s.calls[c := s.calls[c].(phase := Superseded)])
      else s.(gate := Cleared(s.gate), calls := s.calls[c := s.calls[c].(phase := Committed)])
    case Delete => s.(gate := Cleared(s.gate))
    case SetupToken => s
  }

  datatype Trace = Begin | Then(front: Trace, step: Step)

  predicate Valid(t: Trace)
    decreases t, 0
  {
    match t
    case Begin => true
    case Then(front, a) => Valid(front) && Enabled(End(front), a)
  }

  function End(t: Trace): State
    requires Valid(t)
    decreases t, 1
  {
    match t
    case Begin => State(CLOSED, 0, map[])
    case Then(front, a) => Do(End(front), a)
  }

  predicate Running(call: Call) {
    call.phase.Exchanging? || call.phase.Exchanged?
  }

  /** A taken login waits no longer, and a callback of the present generation is the last thing that happened to the gate. */
  predicate CallOk(s: State, call: Call) {
    && call.login < s.started && call.generation <= s.gate.generation
    && s.gate.login != Some(call.login)
    && (call.generation == s.gate.generation ==> s.gate.login == None && call.phase != Committed)
  }

  predicate Apart(x: Call, y: Call) {
    x.login != y.login && x.generation != y.generation
  }

  /** Each login was taken by at most one callback, and at most one callback can still commit. */
  predicate Inv(s: State) {
    && (s.gate.login.Some? ==> s.gate.login.value < s.started)
    && (forall c :: c in s.calls ==> CallOk(s, s.calls[c]))
    && (forall c, d :: c in s.calls && d in s.calls && c != d ==> Apart(s.calls[c], s.calls[d]))
  }

  lemma StepKeepsCalls(s: State, a: Step)
    requires Inv(s) && Enabled(s, a)
    ensures forall c :: c in Do(s, a).calls ==> CallOk(Do(s, a), Do(s, a).calls[c])
  {
    forall c | c in Do(s, a).calls ensures CallOk(Do(s, a), Do(s, a).calls[c]) {
      if c in s.calls { assert CallOk(s, s.calls[c]); }
    }
  }

  lemma StepKeepsInv(s: State, a: Step)
    requires Inv(s) && Enabled(s, a)
    ensures Inv(Do(s, a))
  {
    StepKeepsCalls(s, a);
    var s' := Do(s, a);
    forall c, d | c in s'.calls && d in s'.calls && c != d ensures Apart(s'.calls[c], s'.calls[d]) {
      if c in s.calls { assert CallOk(s, s.calls[c]); }
      if d in s.calls { assert CallOk(s, s.calls[d]); }
    }
  }

  lemma {:induction false} RunsKeepInv(t: Trace)
    requires Valid(t)
    ensures Inv(End(t))
  {
    if t.Then? {
      RunsKeepInv(t.front);
      StepKeepsInv(End(t.front), t.step);
    }
  }

  // ---- what each login can come to ----

  /** The code of a login is exchanged at most once, and committed at most once. */
  lemma {:induction false} ExchangedAtMostOnce(t: Trace, c: CallId, d: CallId)
    requires Valid(t) && c in End(t).calls && d in End(t).calls && End(t).calls[c].login == End(t).calls[d].login
    ensures c == d
  {
    RunsKeepInv(t);
  }

  /** Steps that leave room for a commit: nothing newer was started and no account deleted. */
  predicate Superseding(a: Step) {
    a.Start? || a.Delete?
  }

  /** The run `u` goes on from `t` with no start and no deletion. */
  predicate Undisturbed(t: Trace, u: Trace) {
    u == t || (u.Then? && Undisturbed(t, u.front) && !Superseding(u.step))
  }

  predicate After(t: Trace, u: Trace) {
    u == t || (u.Then? && After(t, u.front))
  }

  lemma StepOnCall(s: State, a: Step, c: CallId)
    requires Inv(s) && Enabled(s, a) && c in s.calls && Running(s.calls[c])
    ensures c in Do(s, a).calls && Do(s, a).calls[c].generation == s.calls[c].generation
    ensures Do(s, a).gate.generation >= s.gate.generation
    ensures var s' := Do(s, a);
      s.calls[c].generation == s.gate.generation && a != Commit(c) ==>
        (s'.gate.generation == s.gate.generation <==> !Superseding(a))
  {
  }

  lemma {:induction false} StaysCurrentIff(t: Trace, u: Trace, c: CallId)
    requires Valid(u) && After(t, u) && Valid(t) && c in End(t).calls && c in End(u).calls && Running(End(u).calls[c])
    requires Running(End(t).calls[c]) && End(t).calls[c].generation == End(t).gate.generation
    ensures End(u).calls[c].generation == End(t).calls[c].generation
    ensures End(u).gate.generation >= End(t).gate.generation
    ensures End(u).gate.generation == End(u).calls[c].generation <==> Undisturbed(t, u)
    decreases u
  {
    if u != t {
      WasRunning(t, u, c);
      StaysCurrentIff(t, u.front, c);
      RunsKeepInv(u.front);
      StepOnCall(End(u.front), u.step, c);
    }
  }

  /** A callback still running has been running all along. */
  lemma {:induction false} WasRunning(t: Trace, u: Trace, c: CallId)
    requires Valid(u) && After(t, u) && u != t && Valid(t) && c in End(t).calls && c in End(u).calls && Running(End(u).calls[c])
    ensures Valid(u.front) && c in End(u.front).calls && Running(End(u.front).calls[c]) && u.step != Commit(c)
  {
    if u.front != t { CallsStay(t, u.front, c); }
  }

  lemma {:induction false} CallsStay(t: Trace, u: Trace, c: CallId)
    requires Valid(t) && Valid(u) && After(t, u) && c in End(t).calls
    ensures c in End(u).calls
    decreases u
  {
    if u != t { CallsStay(t, u.front, c); }
  }

  /**
   A callback commits exactly when no login was started and no Claude account deleted between the
   moment it took the code and the moment it commits; other callbacks, timers and setup tokens in
   between make no difference.
   */
  lemma {:induction false} CommitsIffUndisturbed(t: Trace, u: Trace, c: CallId)
    requires Valid(t) && t.Then? && t.step == Take(c)
    requires Valid(Then(u, Commit(c))) && After(t, u)
    ensures End(Then(u, Commit(c))).calls[c].phase == Committed <==> Undisturbed(t, u)
  {
    StaysCurrentIff(t, u, c);
  }

  /** A timer that comes late changes nothing: not a newer login, not an exchange in flight. */
  lemma {:induction false} LateTimerIsHarmless(t: Trace, id: LoginId, c: CallId)
    requires Valid(t) && id < End(t).started
    ensures End(t).gate.login != Some(id) ==> End(Then(t, Timer(id))) == End(t)
    ensures c in End(t).calls && End(t).calls[c].generation == End(t).gate.generation ==> End(Then(t, Timer(id))) == End(t)
  {
    RunsKeepInv(t);
  }

  /** The step ends the wait of login `id`: its own timer, a callback with its code, a newer start, a deletion or a commit. */
  predicate EndsWait(s: State, a: Step, id: LoginId)
    requires Enabled(s, a)
  {
    match a
    case Timer(other) => other == id
    case Answer(_, _) => false
    case SetupToken => false
    case Commit(c) => s.calls[c].generation == s.gate.generation
    case _ => true
  }

  /**
   A login waits from its start until the first of these steps, and no longer: while it waits its code
   can be taken, and its own timer leaves nothing to take.
   */
  lemma {:induction false} WaitsUntil(t: Trace, a: Step, id: LoginId)
    requires Valid(Then(t, a)) && End(t).gate.login == Some(id)
    ensures End(Then(t, a)).gate.login == Some(id) <==> !EndsWait(End(t), a, id)
    ensures a == Timer(id) ==> End(Then(t, a)).gate.login.None? && forall c :: !Enabled(End(Then(t, a)), Take(c))
    ensures a == Timer(id) ==> forall c :: c in End(t).calls ==> End(Then(t, a)).gate.generation > End(t).calls[c].generation
    ensures forall c :: c !in End(t).calls ==> Enabled(End(t), Take(c))
  {
    RunsKeepInv(t);
  }

  /** A start leaves the new login waiting, with a timer of its own, and voids whatever was in flight. */
  lemma {:induction false} StartWaits(t: Trace)
    requires Valid(t)
    ensures var s, s' := End(t), End(Then(t, Start));
      && s'.gate.login == Some(s.started) && s'.gate.timer == Some(s.started)
      && forall c :: c in s'.calls ==> s'.calls[c].generation < s'.gate.generation && s'.calls[c].login != s.started
  {
    RunsKeepInv(t);
    assert forall c :: c in End(t).calls ==> CallOk(End(t), End(t).calls[c]);
  }

  /** Once a login is taken, committed or superseded, no later step brings it back. */
  lemma {:induction false} TakenForGood(t: Trace, u: Trace, c: CallId)
    requires Valid(t) && Valid(u) && After(t, u) && c in End(t).calls
    ensures c in End(u).calls && End(u).calls[c].login == End(t).calls[c].login && End(u).gate.login != Some(End(t).calls[c].login)
    ensures End(t).calls[c].phase == Committed ==> End(u).calls[c].phase == Committed
    decreases u
  {
    RunsKeepInv(u);
    if u != t {
      TakenForGood(t, u.front, c);
      RunsKeepInv(u.front);
    }
  }
}
