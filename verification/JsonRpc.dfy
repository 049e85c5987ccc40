/**
 The JSON-RPC client that multiplexes many calls over one pair of pipes. Responses are matched
 to calls by id (section 5 of the JSON-RPC 2.0 Specification). The call table is guarded by a
 mutex; everything between two lock acquisitions interleaves freely with every other thread.
 */
module JsonRpc {
  import opened Options

  type CallRef = nat

  // ---- what the mutex guards ----

  /** The waiting calls by id, and whether the client has been shut down. */
  datatype Table = Table(pending: map<int, CallRef>, closed: bool)

  function Registered(t: Table, id: int, c: CallRef): Table {
    if t.closed then t else t.(pending := t.pending[id := c])
  }

  function Without(t: Table, id: int): Table {
    t.(pending := t.pending - {id})
  }

  function Emptied(t: Table): Table {
    Table(map[], true)
  }

  /** The calls in the table. */
  function Holders(t: Table): set<CallRef> {
    set id | id in t.pending :: t.pending[id]
  }

  /** The critical sections, as the threads run them. */
  class Client {
    var nextID: int
    var pending: map<int, CallRef>
    var closed: bool

    ghost function Now(): Table
      reads this
    {
      Table(pending, closed)
    }

    constructor ()
      ensures nextID == 0 && Now() == Table(map[], false)
    {
      nextID, pending, closed := 0, map[], false;
    }

    /** Draws the next id (one atomic addition). */
    method DrawID() returns (id: int)
      modifies this`nextID
      ensures id == nextID == old(nextID) + 1
    {
      nextID := nextID + 1;
      id := nextID;
    }

    /** Puts a call in the table, unless the client is closed. */
    method Register(id: int, c: CallRef) returns (ok: bool)
      modifies this`pending
      ensures ok <==> !closed
      ensures Now() == Registered(old(Now()), id, c)
    {
      if closed { return false; }
      pending := pending[id := c];
      ok := true;
    }

    /** What the reader does with the id of a response: looks the call up and removes it. */
    method Take(id: int) returns (c: Option<CallRef>)
      modifies this`pending
      ensures c == if id in old(pending) then Some(old(pending)[id]) else None
      ensures Now() == Without(old(Now()), id)
    {
      c := if id in pending then Some(pending[id]) else None;
      pending := pending - {id};
    }

    /** A caller giving up, because its write failed or its context ended. */
    method Withdraw(id: int)
      modifies this`pending
      ensures Now() == Without(old(Now()), id)
    {
      pending := pending - {id};
    }

    /** The first shutdown takes the whole table; later ones find nothing to do. */
    method SwapOut() returns (taken: map<int, CallRef>)
      modifies this`pending, this`closed
      ensures taken == if old(closed) then map[] else old(pending)
      ensures Now() == if old(closed) then old(Now()) else Emptied(old(Now()))
    {
      if closed { return map[]; }
      taken := pending;
      pending, closed := map[], true;
    }
  }

  // ---- the threads ----

  /** What travels on a call's one-slot channel. */
  datatype Msg = Response(id: int, payload: string) | ClosedNotice

  datatype Result = RefusedClosed | WriteFailure | ContextEnded | Got(msg: Msg)

  /** Where a call's thread stands. */
  datatype Phase =
    | Drawn                   // has an id, not yet in the table
    | Writing                 // registered, about to look whether the client is done
    | Sending                 // found it not done, writing the request
    | Failing                 // the write failed, about to withdraw
    | Waiting                 // waiting for its channel or its context
    | Leaving                 // the context ended, about to withdraw
    | Returned(result: Result)

  /**
   `place` is history: never registered, in the table, in the hand of whoever removed it to
   answer it, answered, or withdrawn by the call itself. `sent` is everything ever put on the
   channel, `received` whether the caller took it off.
   */
  datatype Place = Outside | InTable | InHand | Answered | Withdrawn

  datatype Call = Call(id: int, phase: Phase, place: Place, sent: seq<Msg>, received: bool)

  /** `hand` is the call the reader took out and has not answered yet; `notify` those the closer has left. */
  datatype State = State(table: Table, nextID: int, calls: map<CallRef, Call>, hand: Option<(CallRef, Msg)>,
                         notify: set<CallRef>, done: bool)

  const FRESH := State(Table(map[], false), 0, map[], None, {}, false)

  datatype Step =
    | Begin(c: CallRef)               // draw an id and make a channel
    | Enter(c: CallRef)               // the registering critical section
    | LookDone(c: CallRef)            // the check at the start of a write
    | Write(c: CallRef, ok: bool)
    | Receive(c: CallRef)
    | EndContext(c: CallRef)
    | GiveUp(c: CallRef)              // the withdrawing critical section
    | ReadLine(id: int, payload: string) // the reader takes a response line off the pipe
    | Answer                          // the reader sends on the channel it holds
    | Shutdown                        // the critical section of a shutdown, by whichever thread
    | CloseDone
    | Notify(c: CallRef)              // the closer sends the closing notice

  /** The channel's single slot is free. */
  predicate SlotFree(call: Call) {
    call.sent == [] || call.received
  }

  /** When a step can be taken; a send is always a possible next action, blocked or not. */
  predicate Enabled(s: State, a: Step) {
    match a
    case Begin(c) => c !in s.calls
    case Enter(c) => c in s.calls && s.calls[c].phase.Drawn?
    case LookDone(c) => c in s.calls && s.calls[c].phase.Writing?
    case Write(c, _) => c in s.calls && s.calls[c].phase.Sending?
    case Receive(c) => c in s.calls && s.calls[c].phase.Waiting? && s.calls[c].sent != [] && !s.calls[c].received
    case EndContext(c) => c in s.calls && s.calls[c].phase.Waiting?
    case GiveUp(c) => c in s.calls && (s.calls[c].phase.Failing? || s.calls[c].phase.Leaving?)
    case ReadLine(_, _) => s.hand.None?
    case Answer => s.hand.Some? && s.hand.value.0 in s.calls && SlotFree(s.calls[s.hand.value.0])
    case Shutdown => true
    case CloseDone => s.table.closed
    case Notify(c) => s.done && c in s.notify && c in s.calls && SlotFree(s.calls[c])
  }

  /** A call once its thread has withdrawn it: if someone else already took it out, nothing changes for it. */
  function GaveUp(call: Call): Call {
    call.(phase := Returned(if call.phase.Failing? then WriteFailure else ContextEnded),
          place := if call.place.InTable? then Withdrawn else call.place)
  }

  function Delivered(call: Call, m: Msg): Call {
    call.(sent := call.sent + [m], place := Answered)
  }

  function Do(s: State, a: Step): State
    requires Enabled(s, a)
  {
    match a
    case Begin(c) => s.(nextID := s.nextID + 1, calls := s.calls[c := Call(s.nextID + 1, Drawn, Outside, [], false)])
    case Enter(c) =>
      var call := s.calls[c];
      if s.table.closed then s.(calls := s.calls[c := call.(phase := Returned(RefusedClosed))])
      else s.(table := Registered(s.table, call.id, c), calls := s.calls[c := call.(phase := Writing, place := InTable)])
    case LookDone(c) => s.(calls := s.calls[c := s.calls[c].(phase := if s.done then Failing else Sending)])
    case Write(c, ok) => s.(calls := s.calls[c := s.calls[c].(phase := if ok then Waiting else Failing)])
    case Receive(c) => s.(calls := s.calls[c := s.calls[c].(phase := Returned(Got(s.calls[c].sent[0])), received := true)])
    case EndContext(c) => s.(calls := s.calls[c := s.calls[c].(phase := Leaving)])
    case GiveUp(c) => s.(table := Without(s.table, s.calls[c].id), calls := s.calls[c := GaveUp(s.calls[c])])
    case ReadLine(id, payload) =>
      if id in s.table.pending && s.table.pending[id] in s.calls then
        var c := s.table.pending[id];
        s.(table := Without(s.table, id), hand := Some((c, Response(id, payload))), calls := s.calls[c := s.calls[c].(place := InHand)])
      else s.(table := Without(s.table, id))
    case Answer =>
      var (c, m) := s.hand.value;
      s.(hand := None, calls := s.calls[c := Delivered(s.calls[c], m)])
    case Shutdown =>
      if s.table.closed then s
      else s.(table := Emptied(s.table), notify := Holders(s.table),
              calls := map c | c in s.calls :: if c in Holders(s.table) then s.calls[c].(place := InHand) else s.calls[c])
    case CloseDone => s.(done := true)
    case Notify(c) => s.(notify := s.notify - {c}, calls := s.calls[c := Delivered(s.calls[c], ClosedNotice)])
  }

  /** A run: any interleaving of possible steps from a fresh client. */
  datatype Trace = Start | Then(front: Trace, step: Step)

  predicate Valid(t: Trace)
    decreases t, 0
  {
    match t
    case Start => true
    case Then(front, a) => Valid(front) && Enabled(End(front), a)
  }

  function End(t: Trace): State
    requires Valid(t)
    decreases t, 1
  {
    match t
    case Start => FRESH
    case Then(front, a) => Do(End(front), a)
  }

  /** The run `u` goes on from `t`. */
  predicate After(t: Trace, u: Trace) {
    u == t || (u.Then? && After(t, u.front))
  }

  // ---- what every interleaving keeps ----

  /** One call against the rest of the state: its place says exactly where it can be found. */
  ghost predicate CallOk(s: State, c: CallRef)
    requires c in s.calls
  {
    var call := s.calls[c];
    && 1 <= call.id <= s.nextID
    && (call.place.InTable? <==> call.id in s.table.pending && s.table.pending[call.id] == c)
    && (call.place.InHand? <==> (s.hand.Some? && s.hand.value.0 == c) || c in s.notify)
    && !(s.hand.Some? && s.hand.value.0 == c && c in s.notify)
    && |call.sent| == (if call.place.Answered? then 1 else 0)
    && (call.sent != [] && call.sent[0].Response? ==> call.sent[0].id == call.id)
    && (call.phase.Drawn? || call.phase == Returned(RefusedClosed) ==> call.place.Outside?)
    && (call.phase.Writing? || call.phase.Sending? || call.phase.Failing? || call.phase.Waiting? || call.phase.Leaving?
        ==> !call.place.Outside? && !call.place.Withdrawn?)
    && (call.phase == Returned(WriteFailure) || call.phase == Returned(ContextEnded) ==> !call.place.Outside? && !call.place.InTable?)
    && (call.received <==> call.phase.Returned? && call.phase.result.Got?)
    && (call.received ==> call.sent == [call.phase.result.msg])
  }

  ghost predicate Inv(s: State) {
    && 0 <= s.nextID
    && (forall c :: c in s.calls ==> CallOk(s, c))
    && (forall c, d :: c in s.calls && d in s.calls && c != d ==> s.calls[c].id != s.calls[d].id)
    && (forall id :: id in s.table.pending ==> s.table.pending[id] in s.calls && s.calls[s.table.pending[id]].id == id)
    && (s.hand.Some? ==> s.hand.value.0 in s.calls && s.hand.value.1.Response? && s.hand.value.1.id == s.calls[s.hand.value.0].id)
    && (forall c :: c in s.notify ==> c in s.calls)
    && (s.table.closed ==> s.table.pending == map[])
    && (s.notify != {} || s.done ==> s.table.closed)
  }

  lemma StepKeepsInv(s: State, a: Step)
    requires Inv(s) && Enabled(s, a)
    ensures Inv(Do(s, a))
  {
    match a
    case Begin(c) => BeginKeepsInv(s, c);
    case Enter(c) => EnterKeepsInv(s, c);
    case LookDone(c) => CallStepKeepsInv(s, c, a);
    case Write(c, _) => CallStepKeepsInv(s, c, a);
    case Receive(c) => CallStepKeepsInv(s, c, a);
    case EndContext(c) => CallStepKeepsInv(s, c, a);
    case GiveUp(c) => GiveUpKeepsInv(s, c);
    case ReadLine(id, payload) => ReadLineKeepsInv(s, id, payload);
    case Answer => AnswerKeepsInv(s);
    case Shutdown => ShutdownKeepsInv(s);
    case CloseDone => CloseDoneKeepsInv(s);
    case Notify(c) => NotifyKeepsInv(s, c);
  }

  /** Steps that touch one call's own state only. */
  lemma CallStepKeepsInv(s: State, c: CallRef, a: Step)
    requires Inv(s) && Enabled(s, a)
    requires a.LookDone? || a.Write? || a.Receive? || a.EndContext?
    requires a.c == c
    ensures Inv(Do(s, a))
  {
    var t := Do(s, a);
    forall d | d in t.calls ensures CallOk(t, d) { assert CallOk(s, d); }
  }

  lemma AnswerKeepsInv(s: State)
    requires Inv(s) && Enabled(s, Answer)
    ensures Inv(Do(s, Answer))
  {
    var t := Do(s, Answer);
    forall d | d in t.calls ensures CallOk(t, d) { assert CallOk(s, d); }
  }

  lemma NotifyKeepsInv(s: State, c: CallRef)
    requires Inv(s) && Enabled(s, Notify(c))
    ensures Inv(Do(s, Notify(c)))
  {
    var t := Do(s, Notify(c));
    forall d | d in t.calls ensures CallOk(t, d) { assert CallOk(s, d); }
  }

  lemma CloseDoneKeepsInv(s: State)
    requires Inv(s) && s.table.closed
    ensures Inv(Do(s, CloseDone))
  {
    var t := Do(s, CloseDone);
    forall d | d in t.calls ensures CallOk(t, d) { assert CallOk(s, d); }
  }

  lemma BeginKeepsInv(s: State, c: CallRef)
    requires Inv(s) && Enabled(s, Begin(c))
    ensures Inv(Do(s, Begin(c)))
  {
    var t := Do(s, Begin(c));
    assert CallOk(t, c);
    forall d | d in s.calls ensures CallOk(t, d) { assert CallOk(s, d); }
  }

  lemma EnterKeepsInv(s: State, c: CallRef)
    requires Inv(s) && Enabled(s, Enter(c))
    ensures Inv(Do(s, Enter(c)))
  {
    var t := Do(s, Enter(c));
    forall d | d in t.calls ensures CallOk(t, d) { assert CallOk(s, d); }
  }

  lemma GiveUpKeepsInv(s: State, c: CallRef)
    requires Inv(s) && Enabled(s, GiveUp(c))
    ensures Inv(Do(s, GiveUp(c)))
  {
    var t := Do(s, GiveUp(c));
    forall d | d in t.calls ensures CallOk(t, d) { assert CallOk(s, d); }
  }

  lemma ReadLineKeepsInv(s: State, id: int, payload: string)
    requires Inv(s) && Enabled(s, ReadLine(id, payload))
    ensures Inv(Do(s, ReadLine(id, payload)))
  {
    var t := Do(s, ReadLine(id, payload));
    forall d | d in t.calls ensures CallOk(t, d) { assert CallOk(s, d); }
  }

  lemma ShutdownKeepsInv(s: State)
    requires Inv(s)
    ensures Inv(Do(s, Shutdown))
  {
    var t := Do(s, Shutdown);
    if !s.table.closed {
      forall d | d in t.calls ensures CallOk(t, d) {
        assert CallOk(s, d);
        HoldersAreInTable(s, d);
      }
      forall d | d in t.notify ensures d in t.calls { HolderIsInTable(s, d); }
    }
  }

  lemma HoldersAreInTable(s: State, d: CallRef)
    requires Inv(s) && d in s.calls
    ensures d in Holders(s.table) <==> s.calls[d].place.InTable?
  {
    assert CallOk(s, d);
    if d in Holders(s.table) { HolderIsInTable(s, d); }
  }

  lemma HolderIsInTable(s: State, d: CallRef)
    requires Inv(s) && d in Holders(s.table)
    ensures d in s.calls && s.calls[d].id in s.table.pending && s.table.pending[s.calls[d].id] == d
  {
    var id :| id in s.table.pending && s.table.pending[id] == d;
    assert s.calls[d].id == id;
  }

  lemma {:induction false} RunsKeepInv(t: Trace)
    requires Valid(t)
    ensures Inv(End(t))
  {
    if t.Then? {
      RunsKeepInv(t.front);
      StepKeepsInv(End(t.front), t.step);
    }
  }

  // ---- what callers get from it ----

  ghost predicate InTableOf(s: State, c: CallRef)
    requires c in s.calls
  {
    exists id :: id in s.table.pending && s.table.pending[id] == c
  }

  /** Taken out by the reader or the closer, which still owes it a message. */
  ghost predicate Owed(s: State, c: CallRef) {
    (s.hand.Some? && s.hand.value.0 == c) || c in s.notify
  }

  ghost predicate WasWithdrawn(s: State, c: CallRef)
    requires c in s.calls
  {
    s.calls[c].phase.Returned? && (s.calls[c].phase.result.WriteFailure? || s.calls[c].phase.result.ContextEnded?)
  }

  predicate EverRegistered(call: Call) {
    !call.phase.Drawn? && call.phase != Returned(RefusedClosed)
  }

  /**
   In every interleaving, a call that entered the table is in exactly one place: still in the
   table, in the hand of whoever owes it a message, answered, or withdrawn without an answer.
   */
  lemma {:induction false} ExactlyOnePlace(t: Trace, c: CallRef)
    requires Valid(t) && c in End(t).calls && EverRegistered(End(t).calls[c])
    ensures var s := End(t); var inTable, owed, answered := InTableOf(s, c), Owed(s, c), s.calls[c].sent != [];
      var withdrawn := WasWithdrawn(s, c) && !owed && !answered;
      && (inTable || owed || answered || withdrawn)
      && !(inTable && owed) && !(inTable && answered) && !(owed && answered) && !(inTable && withdrawn)
  {
    RunsKeepInv(t);
    assert CallOk(End(t), c);
  }

  /** A call that has not entered the table is not in it, owed nothing and answered nothing. */
  lemma {:induction false} NothingBeforeEntering(t: Trace, c: CallRef)
    requires Valid(t) && c in End(t).calls && !EverRegistered(End(t).calls[c])
    ensures !InTableOf(End(t), c) && !Owed(End(t), c) && End(t).calls[c].sent == []
  {
    RunsKeepInv(t);
    assert CallOk(End(t), c);
  }

  /** A thread about to send always finds the slot free, so no sender ever blocks. */
  lemma {:induction false} NoSenderBlocks(t: Trace)
    requires Valid(t)
    ensures End(t).hand.Some? ==> Enabled(End(t), Answer)
    ensures forall c :: c in End(t).notify && End(t).done ==> Enabled(End(t), Notify(c))
  {
    RunsKeepInv(t);
    var s := End(t);
    if s.hand.Some? { assert CallOk(s, s.hand.value.0); }
    forall c | c in s.notify ensures SlotFree(s.calls[c]) { assert CallOk(s, c); }
  }

  /** A channel carries at most one message, and a response on it has the id of its own call. */
  lemma {:induction false} OneMessageOwnId(t: Trace, c: CallRef)
    requires Valid(t) && c in End(t).calls
    ensures |End(t).calls[c].sent| <= 1
    ensures forall m :: m in End(t).calls[c].sent && m.Response? ==> m.id == End(t).calls[c].id
    ensures var call := End(t).calls[c];
      call.phase.Returned? && call.phase.result.Got? && call.phase.result.msg.Response? ==> call.phase.result.msg.id == call.id
    ensures forall d :: d in End(t).calls && d != c ==> End(t).calls[d].id != End(t).calls[c].id
  {
    RunsKeepInv(t);
    assert CallOk(End(t), c);
  }

  /**
   Once the client is closed the table stays empty, and a call still waiting has its message or
   is owed one by the reader or the closer; when neither owes anything, every one can return.
   */
  lemma {:induction false} ClosedLeavesNobodyWaiting(t: Trace, c: CallRef)
    requires Valid(t) && End(t).table.closed
    ensures End(t).table.pending == map[]
    ensures c in End(t).calls && End(t).calls[c].phase.Waiting? ==> (Enabled(End(t), Receive(c)) || Owed(End(t), c))
    ensures End(t).hand.None? && End(t).notify == {} && c in End(t).calls && End(t).calls[c].phase.Waiting? ==> Enabled(End(t), Receive(c))
  {
    RunsKeepInv(t);
    if c in End(t).calls { assert CallOk(End(t), c); }
  }

  /** Closing is final: no later step reopens the client or puts a call back in the table. */
  lemma {:induction false} ClosedForGood(t: Trace, u: Trace)
    requires Valid(t) && Valid(u) && After(t, u) && End(t).table.closed
    ensures End(u).table.closed && End(u).table.pending == map[]
    decreases u
  {
    RunsKeepInv(u);
    if u != t {
      ClosedForGood(t, u.front);
      StaysClosed(End(u.front), u.step);
    }
  }

  lemma StaysClosed(s: State, a: Step)
    requires Enabled(s, a) && s.table.closed
    ensures Do(s, a).table.closed
  {
  }

  lemma AnswerStays(s: State, a: Step, c: CallRef)
    requires Inv(s) && Enabled(s, a) && c in s.calls && s.calls[c].sent != []
    ensures c in Do(s, a).calls && SameAnswer(s.calls[c], Do(s, a).calls[c])
  {
    assert CallOk(s, c);
    if a.Answer? { assert CallOk(s, s.hand.value.0); }
    if a.Notify? { assert CallOk(s, a.c); }
  }

  predicate SameAnswer(x: Call, y: Call) {
    x.sent == y.sent && x.id == y.id
  }

  /** Each call is answered at most once, ever: what is on its channel never changes afterwards. */
  lemma {:induction false} AnswersAreFinal(t: Trace, u: Trace, c: CallRef)
    requires Valid(t) && Valid(u) && After(t, u) && c in End(t).calls && End(t).calls[c].sent != []
    ensures c in End(u).calls && SameAnswer(End(t).calls[c], End(u).calls[c])
    decreases u
  {
    if u != t {
      AnswersAreFinal(t, u.front, c);
      RunsKeepInv(u.front);
      AnswerStays(End(u.front), u.step, c);
    }
  }

  /** `m` is on the channel of `c`, or in the hand of the reader for it. */
  predicate Answers(s: State, c: CallRef, m: Msg) {
    (c in s.calls && m in s.calls[c].sent) || s.hand == Some((c, m))
  }

  /** The step is the reader taking `m` off the pipe, with `c` in the table under its id. */
  predicate Reads(s: State, a: Step, c: CallRef, m: Msg) {
    m.Response? && a == ReadLine(m.id, m.payload) && m.id in s.table.pending && s.table.pending[m.id] == c
  }

  lemma AnswerBefore(s: State, a: Step, c: CallRef, m: Msg)
    requires Inv(s) && Enabled(s, a) && m.Response? && Answers(Do(s, a), c, m)
    ensures Answers(s, c, m) || Reads(s, a, c, m)
  {
    if a.Answer? {
      assert CallOk(s, s.hand.value.0);
    } else if a.ReadLine? {
      if Do(s, a).hand == Some((c, m)) && s.hand != Some((c, m)) { assert a.id in s.table.pending; }
    }
  }

  /** A response reaches a call only if the reader read it, with that id and content, while the call was in the table. */
  lemma {:induction false} AnswersWereRead(t: Trace, c: CallRef, m: Msg) returns (r: Trace)
    requires Valid(t) && m.Response? && Answers(End(t), c, m)
    ensures r.Then? && Valid(r) && After(r, t) && Reads(End(r.front), r.step, c, m)
  {
    RunsKeepInv(t.front);
    AnswerBefore(End(t.front), t.step, c, m);
    if Answers(End(t.front), c, m) {
      r := AnswersWereRead(t.front, c, m);
    } else {
      r := t;
    }
  }

  // ---- what reaches a call ----

  /** The response for `c` is in the reader's hand, or on its channel and nothing else is. */
  predicate Reaches(s: State, c: CallRef, m: Msg) {
    c in s.calls && (s.hand == Some((c, m)) || s.calls[c].sent == [m])
  }

  lemma ReachesOn(s: State, a: Step, c: CallRef, m: Msg)
    requires Inv(s) && Enabled(s, a) && m.Response? && Reaches(s, c, m)
    ensures Reaches(Do(s, a), c, m)
  {
    assert CallOk(s, c);
    if s.calls[c].sent == [m] {
      AnswerStays(s, a, c);
    }
  }

  /**
   A response read while its call is in the table ends on that call's channel: from then on it is
   there, or in the hand of the reader, whose next step is to send it.
   */
  lemma {:induction false} ReadIsDelivered(t: Trace, id: int, payload: string, c: CallRef, u: Trace)
    requires Valid(Then(t, ReadLine(id, payload))) && c in End(t).calls && End(t).calls[c].id == id && End(t).calls[c].place.InTable?
    requires Valid(u) && After(Then(t, ReadLine(id, payload)), u)
    ensures c in End(u).calls && (End(u).calls[c].sent == [Response(id, payload)]
                                  || (End(u).hand == Some((c, Response(id, payload))) && Enabled(End(u), Answer)))
    decreases u
  {
    RunsKeepInv(t);
    assert CallOk(End(t), c);
    ReachesAfter(t, id, payload, c, u);
    NoSenderBlocks(u);
  }

  lemma {:induction false} ReachesAfter(t: Trace, id: int, payload: string, c: CallRef, u: Trace)
    requires Valid(Then(t, ReadLine(id, payload))) && c in End(t).calls && id in End(t).table.pending && End(t).table.pending[id] == c
    requires Valid(u) && After(Then(t, ReadLine(id, payload)), u)
    ensures Reaches(End(u), c, Response(id, payload))
    decreases u
  {
    if u != Then(t, ReadLine(id, payload)) {
      ReachesAfter(t, id, payload, c, u.front);
      RunsKeepInv(u.front);
      ReachesOn(End(u.front), u.step, c, Response(id, payload));
    }
  }

  /** A call enters the table exactly when the client is open; otherwise it returns at once. */
  lemma {:induction false} EntersWhenOpen(t: Trace, c: CallRef)
    requires Valid(Then(t, Enter(c)))
    ensures var call := End(Then(t, Enter(c))).calls[c];
      if End(t).table.closed then call.phase == Returned(RefusedClosed) && call.place.Outside?
      else call.phase.Writing? && call.place.InTable? && call.id in End(Then(t, Enter(c))).table.pending
  {
    RunsKeepInv(t);
    assert CallOk(End(t), c);
  }

  /** The closing notice for `c` is owed, or it is what its channel carries. */
  predicate Notified(s: State, c: CallRef) {
    c in s.calls && (c in s.notify || s.calls[c].sent == [ClosedNotice])
  }

  lemma NotifiedOn(s: State, a: Step, c: CallRef)
    requires Inv(s) && Enabled(s, a) && s.table.closed && Notified(s, c)
    ensures Notified(Do(s, a), c)
  {
    assert CallOk(s, c);
    if s.calls[c].sent == [ClosedNotice] { AnswerStays(s, a, c); }
  }

  /** The first shutdown closes the client, and every call then in the table gets the closing notice and nothing else. */
  lemma {:induction false} ShutdownNotifiesAll(t: Trace, c: CallRef, u: Trace)
    requires Valid(Then(t, Shutdown)) && !End(t).table.closed && c in End(t).calls && End(t).calls[c].place.InTable?
    requires Valid(u) && After(Then(t, Shutdown), u)
    ensures End(u).table.closed && Notified(End(u), c)
    decreases u
  {
    RunsKeepInv(t);
    if u == Then(t, Shutdown) {
      assert CallOk(End(t), c);
    } else {
      ShutdownNotifiesAll(t, c, u.front);
      RunsKeepInv(u.front);
      StaysClosed(End(u.front), u.step);
      NotifiedOn(End(u.front), u.step, c);
    }
  }

  /** A call that returns a message returns the one on its channel; if that is a response, the reader read it for this call. */
  lemma ReturnedWasRead(t: Trace, c: CallRef, m: Msg) returns (r: Trace)
    requires Valid(t) && c in End(t).calls && End(t).calls[c].phase == Returned(Got(m))
    ensures End(t).calls[c].sent == [m]
    ensures m.Response? ==> r.Then? && Valid(r) && After(r, t) && Reads(End(r.front), r.step, c, m)
  {
    RunsKeepInv(t);
    assert CallOk(End(t), c);
    if m.Response? { r := AnswersWereRead(t, c, m); } else { r := t; }
  }

  /** A send by the reader or the closer puts the message on the channel and is over. */
  lemma {:induction false} SendsDeliver(t: Trace, c: CallRef)
    requires Valid(t) && c in End(t).calls
    ensures forall m :: End(t).hand == Some((c, m)) && Valid(Then(t, Answer)) ==>
      End(Then(t, Answer)).hand.None? && End(Then(t, Answer)).calls[c].sent == [m]
    ensures Valid(Then(t, Notify(c))) ==> c !in End(Then(t, Notify(c))).notify && End(Then(t, Notify(c))).calls[c].sent == [ClosedNotice]
    ensures Valid(Then(t, CloseDone)) ==> forall d :: d in End(t).notify ==> Enabled(End(Then(t, CloseDone)), Notify(d))
  {
    RunsKeepInv(t);
    assert CallOk(End(t), c);
    if Valid(Then(t, CloseDone)) { NoSenderBlocks(Then(t, CloseDone)); }
  }

  /** A write fails if the client is done or the pipe is broken; a call that gives up says which, and is out of the table. */
  lemma {:induction false} GivingUp(t: Trace, c: CallRef)
    requires Valid(t) && c in End(t).calls
    ensures Valid(Then(t, LookDone(c))) ==> (End(Then(t, LookDone(c))).calls[c].phase == if End(t).done then Failing else Sending)
    ensures forall ok :: Valid(Then(t, Write(c, ok))) ==> (End(Then(t, Write(c, ok))).calls[c].phase == if ok then Waiting else Failing)
    ensures Valid(Then(t, GiveUp(c))) ==>
      var s, s' := End(t), End(Then(t, GiveUp(c)));
      && s'.calls[c].id !in s'.table.pending
      && s'.calls[c].phase == (if s.calls[c].phase.Failing? then Returned(WriteFailure) else Returned(ContextEnded))
      && (s'.calls[c].place.Withdrawn? <==> s.calls[c].place.InTable?)
      && forall id :: id in s.table.pending && id != s.calls[c].id ==> id in s'.table.pending
  {
    RunsKeepInv(t);
    assert CallOk(End(t), c);
  }
}
