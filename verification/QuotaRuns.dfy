/** Syncs, observations, reads, scans and account changes interleaved at every lock and every await. */
module QuotaRuns {
  import opened Options
  import opened Quota

  type Tid = nat

  datatype Phase =
    | Loading                                        // about to read the account from the store
    | Entering                                       // about to take the lock and decide
    | Waiting(chan: Chan)
    | Fetching(h: Handle, chan: Chan)
    | Rereading(h: Handle, chan: Chan, r: Fetched)
    | Leaving(h: Handle, chan: Chan, r: Fetched, reread: Option<Account>)
    | Showing                                        // about to read the table
    | Finished(s: Snapshot)

  datatype Thread = Thread(phase: Phase, attempt: nat, a: Account, manual: bool)

  /** A scan under way: the accounts as listed, those it has still to begin syncing, and its syncs. */
  datatype Scan = Scan(listed: map<nat, Account>, left: set<nat>, mine: set<Tid>)

  /** `makers` is history: which sync made each channel. */
  datatype State = State(now: Time, cache: Cache, threads: map<Tid, Thread>, accounts: map<nat, Account>, makers: map<Chan, Tid>,
                         scan: Option<Scan>)

  datatype Step =
    | Tick(seconds: nat)
    | ChangeAccount(id: nat, account: Option<Account>)
    | Spawn(t: Tid, a: Account, manual: bool)
    | Load(t: Tid, failed: bool, cancelled: bool)
    | Decide(t: Tid)
    | Wake(t: Tid, cancelled: bool)
    | Fetch(t: Tid, r: Fetched)
    | Reread(t: Tid, failed: bool)
    | Leave(t: Tid, cancelled: bool)
    | Show(t: Tid)
    | Observe(a: Account, windows: seq<Window>)
    | ListAccounts                                   // the scan lists the accounts
    | ScanSync(t: Tid, id: nat)                      // and begins a sync of each enabled one
    | Prune                                          // when these are over it drops the entries of accounts not listed

  function ThreadOf(a: Step): Option<Tid> {
    match a
    case Load(t, _, _) => Some(t)
    case Decide(t) => Some(t)
    case Wake(t, _) => Some(t)
    case Fetch(t, _) => Some(t)
    case Reread(t, _) => Some(t)
    case Leave(t, _) => Some(t)
    case Show(t) => Some(t)
    case _ => None
  }

  predicate Enabled(s: State, a: Step) {
    match a
    case Tick(_) => true
    case ChangeAccount(id, account) => account.Some? ==> account.value.id == id
    case Spawn(t, _, _) => t !in s.threads
    case Load(t, _, _) => t in s.threads && s.threads[t].phase.Loading?
    case Decide(t) => t in s.threads && s.threads[t].phase.Entering?
    case Wake(t, cancelled) =>
      t in s.threads && s.threads[t].phase.Waiting? && (cancelled || s.threads[t].phase.chan in s.cache.closed)
    case Fetch(t, _) => t in s.threads && s.threads[t].phase.Fetching?
    case Reread(t, _) => t in s.threads && s.threads[t].phase.Rereading?
    case Leave(t, _) => t in s.threads && s.threads[t].phase.Leaving?
    case Show(t) => t in s.threads && s.threads[t].phase.Showing?
    case Observe(_, _) => true
    case ListAccounts => s.scan.None?
    case ScanSync(t, id) => s.scan.Some? && id in s.scan.value.left && id in s.scan.value.listed && t !in s.threads
    case Prune =>
      && s.scan.Some? && s.scan.value.left == {}
      && forall t :: t in s.scan.value.mine ==> t in s.threads && s.threads[t].phase.Finished?
  }

  function Stored(s: State, id: nat, failed: bool): Option<Account> {
    if failed || id !in s.accounts then None else Some(s.accounts[id])
  }

  /** A thread once it has the account it asked for, or not. */
  function Loaded(th: Thread, found: Option<Account>, cancelled: bool): Thread {
    match found
    case None => th.(phase := Finished(PendingFor(th.a)))
    case Some(a) => th.(a := a, phase := if cancelled || !a.enabled then Showing else Entering)
  }

  function DecidedThread(th: Thread, d: Decision): Thread {
    match d
    case Join(chan) => th.(phase := Waiting(chan))
    case Hold => th.(phase := Showing)
    case Start(h, chan) => th.(phase := Fetching(h, chan))
  }

  /** A thread whose fetch is over: with the account gone it gives up, changed under it it tries once more. */
  function LeftThread(th: Thread, reread: Option<Account>): Thread {
    match reread
    case None => th.(phase := Finished(PendingFor(th.a)))
    case Some(a) =>
      if !Changed(th.a, reread) then th.(phase := Showing)
      else th.(a := a, attempt := th.attempt + 1, phase := if th.attempt == 0 then Loading else Showing)
  }

  function Moved(s: State, t: Tid, th: Thread): State {
    s.(threads := s.threads[t := th])
  }

  /** An enabled step whose pointers lead somewhere; in every reachable state an enabled step is one. */
  predicate Possible(s: State, a: Step) {
    Sound(s.cache) && Enabled(s, a) && (a.Leave? ==> s.threads[a.t].phase.h in s.cache.cells)
  }

  function Do(s: State, a: Step): State
    requires Possible(s, a)
  {
    match a
    case Tick(d) => s.(now := s.now + d)
    case ChangeAccount(id, account) =>
      s.(accounts := if account.Some? then s.accounts[id := account.value] else s.accounts - {id})
    case Spawn(t, acct, manual) => Moved(s, t, Thread(Loading, 0, acct, manual))
    case Load(t, failed, cancelled) => Moved(s, t, Loaded(s.threads[t], Stored(s, s.threads[t].a.id, failed), cancelled))
    case Decide(t) =>
      var th := s.threads[t];
      var c := Ensured(s.cache, th.a);
      var d := Decided(c, th.a, th.manual, s.now);
      Moved(s, t, DecidedThread(th, d)).(cache := Marked(c, d, s.now),
                                         makers := if d.Start? then s.makers[d.chan := t] else s.makers)
    case Wake(t, _) => Moved(s, t, s.threads[t].(phase := Showing))
    case Fetch(t, r) => var p := s.threads[t].phase; Moved(s, t, s.threads[t].(phase := Rereading(p.h, p.chan, r)))
    case Reread(t, failed) =>
      var p := s.threads[t].phase;
      Moved(s, t, s.threads[t].(phase := Leaving(p.h, p.chan, p.r, Stored(s, s.threads[t].a.id, failed))))
    case Leave(t, cancelled) =>
      var th := s.threads[t];
      var p := th.phase;
      Moved(s, t, LeftThread(th, p.reread)).(cache := Left(s.cache, th.a, p.h, p.chan, p.r, p.reread, cancelled, s.now))
    case Show(t) => Moved(s, t, s.threads[t].(phase := Finished(Shown(s.cache, s.threads[t].a, s.now))))
    case Observe(acct, windows) => s.(cache := Observed(s.cache, acct, windows, s.now))
    case ListAccounts => s.(scan := Some(Scan(s.accounts, set id | id in s.accounts && s.accounts[id].enabled, {})))
    case ScanSync(t, id) =>
      var scan := s.scan.value;
      Moved(s, t, Thread(Loading, 0, scan.listed[id], false)).(scan := Some(Scan(scan.listed, scan.left - {id}, scan.mine + {t})))
    case Prune => s.(cache := Pruned(s.cache, s.scan.value.listed.Keys), scan := None)
  }

  // ---- what every interleaving keeps ----

  /** Between starting its fetch and closing its channel. */
  predicate InFlight(th: Thread) {
    th.phase.Fetching? || th.phase.Rereading? || th.phase.Leaving?
  }

  predicate OriginIs(d: Data, id: nat, revision: Time) {
    if d.origin.None? then d.windows == [] else d.origin.value == (id, revision)
  }

  /** The table: one cell per entry, holding only data of that account and revision. */
  predicate CacheOk(c: Cache) {
    && Sound(c)
    && (forall id, id' :: id in c.entries && id' in c.entries && c.entries[id] == c.entries[id'] ==> id == id')
    && (forall id :: id in c.entries ==>
         OriginIs(c.cells[c.entries[id]].snapshot.data, id, c.cells[c.entries[id]].revision))
    && (forall h :: h in c.cells && c.cells[h].done.Some? ==> c.cells[h].done.value < c.chans)
    && (forall h, h' :: h in c.cells && h' in c.cells && c.cells[h].done.Some? && c.cells[h].done == c.cells[h'].done ==> h == h')
  }

  /** A thread with a fetch in flight owns its entry's channel. */
  predicate FlightOk(c: Cache, th: Thread)
    requires Sound(c)
  {
    InFlight(th) ==>
      && th.phase.h in c.cells
      && c.cells[th.phase.h].done == Some(th.phase.chan)
      && c.cells[th.phase.h].revision == th.a.revision
      && th.phase.chan < c.chans && th.phase.chan !in c.closed
      && (forall id :: id in c.entries && c.entries[id] == th.phase.h ==> id == th.a.id)
      && (th.phase.Leaving? && th.phase.reread.Some? ==> th.phase.reread.value.id == th.a.id)
  }

  /** The sync that made the channel is still to close it. */
  predicate Owned(s: State, chan: Chan) {
    && chan in s.makers && s.makers[chan] in s.threads
    && InFlight(s.threads[s.makers[chan]]) && s.threads[s.makers[chan]].phase.chan == chan
  }

  predicate Served(s: State, th: Thread) {
    th.phase.Waiting? ==> th.phase.chan in s.cache.closed || Owned(s, th.phase.chan)
  }

  predicate AnswerOk(th: Thread) {
    th.phase.Finished? ==> OriginIs(th.phase.s.data, th.a.id, th.a.revision)
  }

  predicate ThreadOk(s: State, t: Tid)
    requires Sound(s.cache) && t in s.threads
  {
    var th := s.threads[t];
    && FlightOk(s.cache, th) && AnswerOk(th) && Served(s, th)
    && (InFlight(th) ==> th.phase.chan in s.makers && s.makers[th.phase.chan] == t)
  }

  /** A channel an entry still carries will be closed by the sync that made it. */
  predicate CellsOwned(s: State) {
    forall h :: h in s.cache.cells && s.cache.cells[h].done.Some? ==> Owned(s, s.cache.cells[h].done.value)
  }

  predicate Inv(s: State) {
    && CacheOk(s.cache)
    && (forall t :: t in s.threads ==> ThreadOk(s, t))
    && CellsOwned(s)
    && (forall id :: id in s.accounts ==> s.accounts[id].id == id)
    && (forall chan :: chan in s.makers ==> chan < s.cache.chans)
  }

  predicate SameFetch(x: Thread, y: Thread) {
    InFlight(x) && InFlight(y) && x.phase.h == y.phase.h && x.phase.chan == y.phase.chan && x.a == y.a
  }

  /** A thread may move on while the table stays, if it keeps its fetch or has none. */
  lemma MoveKeepsInv(s: State, t: Tid, th: Thread)
    requires Inv(s)
    requires InFlight(th) ==> t in s.threads && SameFetch(s.threads[t], th)
    requires t in s.threads && InFlight(s.threads[t]) ==> InFlight(th)
    requires th.phase.Leaving? && th.phase.reread.Some? ==> th.phase.reread.value.id == th.a.id
    requires AnswerOk(th) && Served(s, th)
    ensures Inv(Moved(s, t, th))
  {
    var s' := Moved(s, t, th);
    assert t in s.threads ==> ThreadOk(s, t);
    forall u | u in s'.threads ensures ThreadOk(s', u) {
      if u != t { assert ThreadOk(s, u); }
    }
  }

  /** The table changes under the threads, but not what any fetch in flight relies on. */
  predicate Undisturbed(c: Cache, c': Cache) {
    && CacheOk(c) && CacheOk(c')
    && c'.chans == c.chans && c'.closed == c.closed
    && (forall h :: h in c.cells ==> h in c'.cells && c'.cells[h].done == c.cells[h].done && c'.cells[h].revision == c.cells[h].revision)
    && (forall h :: h in c'.cells && h !in c.cells ==> c'.cells[h].done.None?)
    && (forall id :: id in c'.entries && c'.entries[id] in c.cells ==> id in c.entries && c.entries[id] == c'.entries[id])
  }

  lemma UndisturbedKeepsInv(s: State, c': Cache)
    requires Inv(s) && Undisturbed(s.cache, c')
    ensures Inv(s.(cache := c'))
  {
    var s' := s.(cache := c');
    forall u | u in s'.threads ensures ThreadOk(s', u) { assert ThreadOk(s, u); }
  }

  lemma EnsuredUndisturbed(c: Cache, a: Account)
    requires CacheOk(c)
    ensures Undisturbed(c, Ensured(c, a)) && Current(Ensured(c, a), a)
  {
    EnsuredCacheOk(c, a);
  }

  lemma EnsuredCacheOk(c: Cache, a: Account)
    requires CacheOk(c)
    ensures CacheOk(Ensured(c, a))
  {
    var c' := Ensured(c, a);
    forall id, id' | id in c'.entries && id' in c'.entries && c'.entries[id] == c'.entries[id'] ensures id == id' {
      assert id in c.entries ==> c.entries[id] != c.handles;
      assert id' in c.entries ==> c.entries[id'] != c.handles;
    }
  }

  lemma PrunedUndisturbed(c: Cache, seen: set<nat>)
    requires CacheOk(c)
    ensures Undisturbed(c, Pruned(c, seen))
  {
  }

  lemma UndisturbedTwice(c: Cache, c': Cache, c'': Cache)
    requires Undisturbed(c, c') && Undisturbed(c', c'')
    requires forall id :: id in c''.entries ==> id in c'.entries && c'.entries[id] == c''.entries[id]
    ensures Undisturbed(c, c'')
  {
  }

  lemma SnapshotUndisturbed(c: Cache, id: nat, snapshot: Snapshot)
    requires CacheOk(c) && id in c.entries && OriginIs(snapshot.data, id, c.cells[c.entries[id]].revision)
    ensures var h := c.entries[id]; Undisturbed(c, c.(cells := c.cells[h := c.cells[h].(snapshot := snapshot)]))
  {
  }

  lemma ObservedUndisturbed(c: Cache, a: Account, windows: seq<Window>, now: Time)
    requires CacheOk(c)
    ensures Undisturbed(c, Observed(c, a, windows, now))
  {
    var c' := Observed(c, a, windows, now);
    if c' != c {
      EnsuredUndisturbed(c, a);
      var c1 := Ensured(c, a);
      var shown := c1.cells[c1.entries[a.id]].snapshot;
      SnapshotUndisturbed(c1, a.id, shown.(data := Data(Some((a.id, a.revision)), windows), succeeded := Some(now), status := Partial));
      UndisturbedTwice(c, c1, c');
    }
  }

  /** A thread that starts a fetch takes an idle entry of its own account and a new channel. */
  lemma StartKeepsInv(s: State, t: Tid, d: Decision, s': State)
    requires Inv(s) && t in s.threads && s.threads[t].phase.Entering? && Current(s.cache, s.threads[t].a)
    requires d == Decided(s.cache, s.threads[t].a, s.threads[t].manual, s.now) && d.Start?
    requires s' == Moved(s, t, DecidedThread(s.threads[t], d)).(cache := Marked(s.cache, d, s.now), makers := s.makers[d.chan := t])
    ensures Inv(s')
  {
    MarkedCacheOk(s.cache, s.threads[t].a, d, s.now);
    forall u | u in s'.threads ensures ThreadOk(s', u) { StartThreadOk(s, t, d, s', u); }
    StartCellsOwned(s, t, d, s');
  }

  lemma StartCellsOwned(s: State, t: Tid, d: Decision, s': State)
    requires Inv(s) && t in s.threads && s.threads[t].phase.Entering? && Current(s.cache, s.threads[t].a)
    requires d == Start(s.cache.entries[s.threads[t].a.id], s.cache.chans)
    requires s' == Moved(s, t, DecidedThread(s.threads[t], d)).(cache := Marked(s.cache, d, s.now), makers := s.makers[d.chan := t])
    ensures CellsOwned(s')
  {
    forall h | h in s'.cache.cells && s'.cache.cells[h].done.Some? ensures Owned(s', s'.cache.cells[h].done.value) {
      if h != d.h { assert Owned(s, s.cache.cells[h].done.value); }
    }
  }

  lemma StartThreadOk(s: State, t: Tid, d: Decision, s': State, u: Tid)
    requires Inv(s) && t in s.threads && s.threads[t].phase.Entering? && Current(s.cache, s.threads[t].a) && u in s.threads
    requires d == Start(s.cache.entries[s.threads[t].a.id], s.cache.chans) && s.cache.cells[d.h].done.None?
    requires s' == Moved(s, t, DecidedThread(s.threads[t], d)).(cache := Marked(s.cache, d, s.now), makers := s.makers[d.chan := t])
    requires Sound(s'.cache)
    ensures ThreadOk(s', u)
  {
    assert ThreadOk(s, u);
    if u == t {
      StarterOk(s, t, d);
    } else {
      MarkedOthersOk(s.cache, s.threads[t].a, d, s.now, s.threads[u]);
      StartServes(s, t, d, s', s.threads[u]);
    }
  }

  /** Who waits for a fetch in flight still does when another starts. */
  lemma StartServes(s: State, t: Tid, d: Decision, s': State, th: Thread)
    requires Inv(s) && t in s.threads && !InFlight(s.threads[t]) && d.Start? && d.chan == s.cache.chans && d.h in s.cache.cells
    requires s' == Moved(s, t, DecidedThread(s.threads[t], d)).(cache := Marked(s.cache, d, s.now), makers := s.makers[d.chan := t])
    requires Served(s, th)
    ensures Served(s', th)
  {
  }

  lemma StarterOk(s: State, t: Tid, d: Decision)
    requires CacheOk(s.cache) && t in s.threads && s.threads[t].phase.Entering? && Current(s.cache, s.threads[t].a)
    requires d == Start(s.cache.entries[s.threads[t].a.id], s.cache.chans)
    requires Sound(Marked(s.cache, d, s.now))
    ensures FlightOk(Marked(s.cache, d, s.now), DecidedThread(s.threads[t], d))
  {
  }

  lemma MarkedOthersOk(c: Cache, a: Account, d: Decision, now: Time, other: Thread)
    requires CacheOk(c) && Current(c, a) && d == Start(c.entries[a.id], c.chans) && c.cells[d.h].done.None?
    requires FlightOk(c, other) && Sound(Marked(c, d, now))
    ensures FlightOk(Marked(c, d, now), other)
  {
  }

  lemma MarkedCacheOk(c: Cache, a: Account, d: Decision, now: Time)
    requires CacheOk(c) && Current(c, a) && d == Start(c.entries[a.id], c.chans) && c.cells[d.h].done.None?
    ensures CacheOk(Marked(c, d, now))
  {
  }

  lemma LeftCacheOk(c: Cache, th: Thread, r: Fetched, reread: Option<Account>, cancelled: bool, now: Time)
    requires CacheOk(c) && InFlight(th) && FlightOk(c, th)
    ensures CacheOk(Left(c, th.a, th.phase.h, th.phase.chan, r, reread, cancelled, now))
  {
  }

  /** Another thread's fetch is not touched by a fetch that ends. */
  lemma LeftOthersOk(c: Cache, th: Thread, r: Fetched, reread: Option<Account>, cancelled: bool, now: Time, other: Thread)
    requires CacheOk(c) && InFlight(th) && FlightOk(c, th) && FlightOk(c, other)
    requires InFlight(other) ==> other.phase.chan != th.phase.chan
    ensures Sound(Left(c, th.a, th.phase.h, th.phase.chan, r, reread, cancelled, now))
    ensures FlightOk(Left(c, th.a, th.phase.h, th.phase.chan, r, reread, cancelled, now), other)
  {
  }

  lemma LeaveKeepsInv(s: State, t: Tid, cancelled: bool)
    requires Inv(s) && Possible(s, Leave(t, cancelled))
    ensures Inv(Do(s, Leave(t, cancelled)))
  {
    var th := s.threads[t];
    var s' := Do(s, Leave(t, cancelled));
    assert ThreadOk(s, t);
    LeftCacheOk(s.cache, th, th.phase.r, th.phase.reread, cancelled, s.now);
    forall u | u in s'.threads ensures ThreadOk(s', u) {
      LeftThreadOk(s, t, cancelled, u);
    }
    forall h | h in s'.cache.cells && s'.cache.cells[h].done.Some? ensures Owned(s', s'.cache.cells[h].done.value) {
      assert h != th.phase.h && s.cache.cells[h].done == s'.cache.cells[h].done;
    }
  }

  lemma LeftThreadOk(s: State, t: Tid, cancelled: bool, u: Tid)
    requires Inv(s) && Possible(s, Leave(t, cancelled)) && u in s.threads
    requires Sound(Do(s, Leave(t, cancelled)).cache)
    ensures ThreadOk(Do(s, Leave(t, cancelled)), u)
  {
    var th := s.threads[t];
    assert ThreadOk(s, t) && ThreadOk(s, u);
    if u != t {
      LeftOthersOk(s.cache, th, th.phase.r, th.phase.reread, cancelled, s.now, s.threads[u]);
    }
  }

  lemma DecideKeepsInv(s: State, t: Tid)
    requires Inv(s) && Enabled(s, Decide(t))
    ensures Inv(Do(s, Decide(t)))
  {
    var th := s.threads[t];
    EnsuredUndisturbed(s.cache, th.a);
    var s1 := s.(cache := Ensured(s.cache, th.a));
    UndisturbedKeepsInv(s, s1.cache);
    DecisionKeepsInv(s1, t, Decided(s1.cache, th.a, th.manual, s.now), Do(s, Decide(t)));
  }

  lemma DecisionKeepsInv(s: State, t: Tid, d: Decision, s': State)
    requires Inv(s) && t in s.threads && s.threads[t].phase.Entering? && Current(s.cache, s.threads[t].a)
    requires d == Decided(s.cache, s.threads[t].a, s.threads[t].manual, s.now)
    requires s' == Moved(s, t, DecidedThread(s.threads[t], d)).(cache := Marked(s.cache, d, s.now),
                                                                makers := if d.Start? then s.makers[d.chan := t] else s.makers)
    ensures Inv(s')
  {
    if d.Start? {
      StartKeepsInv(s, t, d, s');
    } else {
      MoveKeepsInv(s, t, DecidedThread(s.threads[t], d));
    }
  }

  /** Time, accounts and the scan are not what the fetches in flight rely on. */
  lemma WorldKeepsInv(s: State, s': State)
    requires Inv(s) && s' == s.(now := s'.now, accounts := s'.accounts, scan := s'.scan)
    requires forall id :: id in s'.accounts ==> s'.accounts[id].id == id
    ensures Inv(s')
  {
    forall u | u in s'.threads ensures ThreadOk(s', u) { assert ThreadOk(s, u); }
  }

  lemma StepKeepsInv(s: State, a: Step)
    requires Inv(s) && Enabled(s, a)
    ensures Possible(s, a) && Inv(Do(s, a))
  {
    assert ThreadOf(a).Some? ==> ThreadOk(s, ThreadOf(a).value);
    match a
    case Tick(_) => WorldKeepsInv(s, Do(s, a));
    case ChangeAccount(_, _) => WorldKeepsInv(s, Do(s, a));
    case Spawn(t, acct, manual) => MoveKeepsInv(s, t, Thread(Loading, 0, acct, manual));
    case Load(t, failed, cancelled) => MoveKeepsInv(s, t, Loaded(s.threads[t], Stored(s, s.threads[t].a.id, failed), cancelled));
    case Decide(t) => DecideKeepsInv(s, t);
    case Wake(t, _) => MoveKeepsInv(s, t, s.threads[t].(phase := Showing));
    case Fetch(t, r) => MoveKeepsInv(s, t, s.threads[t].(phase := Rereading(s.threads[t].phase.h, s.threads[t].phase.chan, r)));
    case Reread(t, failed) =>
      var p := s.threads[t].phase;
      MoveKeepsInv(s, t, s.threads[t].(phase := Leaving(p.h, p.chan, p.r, Stored(s, s.threads[t].a.id, failed))));
    case Leave(t, cancelled) => LeaveKeepsInv(s, t, cancelled);
    case Show(t) =>
      ShownIsOwn(s.cache, s.threads[t].a, s.now);
      MoveKeepsInv(s, t, s.threads[t].(phase := Finished(Shown(s.cache, s.threads[t].a, s.now))));
    case Observe(acct, windows) =>
      ObservedUndisturbed(s.cache, acct, windows, s.now);
      UndisturbedKeepsInv(s, Observed(s.cache, acct, windows, s.now));
    case ListAccounts => WorldKeepsInv(s, Do(s, a));
    case ScanSync(t, id) =>
      var th := Thread(Loading, 0, s.scan.value.listed[id], false);
      MoveKeepsInv(s, t, th);
      WorldKeepsInv(Moved(s, t, th), Do(s, a));
    case Prune =>
      var seen := s.scan.value.listed.Keys;
      PrunedUndisturbed(s.cache, seen);
      UndisturbedKeepsInv(s, Pruned(s.cache, seen));
      WorldKeepsInv(s.(cache := Pruned(s.cache, seen)), Do(s, a));
  }

  lemma ShownIsOwn(c: Cache, a: Account, now: Time)
    requires CacheOk(c)
    ensures OriginIs(Shown(c, a, now).data, a.id, a.revision)
  {
  }

  // ---- runs ----

  /** A run: any interleaving of enabled steps from an empty cache. */
  datatype Trace = Begin(s: State) | Then(front: Trace, step: Step)

  predicate Initial(s: State) {
    && s.cache == NO_ENTRIES && s.threads == map[] && s.makers == map[] && s.scan.None?
    && forall id :: id in s.accounts ==> s.accounts[id].id == id
  }

  predicate Valid(t: Trace)
    decreases t, 0
  {
    match t
    case Begin(s) => Initial(s)
    case Then(front, a) => Valid(front) && Possible(End(front), a)
  }

  function End(t: Trace): State
    requires Valid(t)
    decreases t, 1
  {
    match t
    case Begin(s) => s
    case Then(front, a) => Do(End(front), a)
  }

  lemma {:induction false} RunsKeepInv(t: Trace)
    requires Valid(t)
    ensures Inv(End(t))
  {
    match t
    case Begin(s) =>
    case Then(front, a) =>
      RunsKeepInv(front);
      StepKeepsInv(End(front), a);
  }

  // ---- what readers and syncs get ----

  /** After every run, every enabled step can be taken: no sync holds a dangling entry. */
  lemma {:induction false} EnabledIsPossible(t: Trace, a: Step)
    requires Valid(t) && Enabled(End(t), a)
    ensures Valid(Then(t, a))
  {
    RunsKeepInv(t);
    StepKeepsInv(End(t), a);
  }

  /** A reader holding an account sees a pending reading, or data obtained for exactly that account and revision. */
  lemma {:induction false} ReadIsOwnOrPending(t: Trace, a: Account)
    requires Valid(t)
    ensures Sound(End(t).cache)
    ensures OriginIs(Shown(End(t).cache, a, End(t).now).data, a.id, a.revision)
    ensures !a.enabled ==> Shown(End(t).cache, a, End(t).now) == PendingFor(a)
  {
    RunsKeepInv(t);
    ShownIsOwn(End(t).cache, a, End(t).now);
  }

  /** And what a finished sync returns is a pending reading or one for the account it last loaded. */
  lemma {:induction false} SyncReturnsOwn(t: Trace, i: Tid)
    requires Valid(t) && i in End(t).threads && End(t).threads[i].phase.Finished?
    ensures var th := End(t).threads[i]; OriginIs(th.phase.s.data, th.a.id, th.a.revision)
  {
    RunsKeepInv(t);
    assert ThreadOk(End(t), i);
  }

  /** Each entry has at most one fetch in flight. */
  lemma {:induction false} OneFetchPerEntry(t: Trace, i: Tid, j: Tid)
    requires Valid(t)
    requires i in End(t).threads && j in End(t).threads
    requires InFlight(End(t).threads[i]) && InFlight(End(t).threads[j])
    requires End(t).threads[i].phase.h == End(t).threads[j].phase.h
    ensures i == j
  {
    RunsKeepInv(t);
    assert ThreadOk(End(t), i) && ThreadOk(End(t), j);
  }

  /** A fetch that can still publish: its entry is the one the table has for its account. */
  predicate Live(s: State, i: Tid) {
    i in s.threads && InFlight(s.threads[i]) && s.threads[i].a.id in s.cache.entries
    && s.cache.entries[s.threads[i].a.id] == s.threads[i].phase.h
  }

  /** For one account several fetches may be in flight, but at most one of them can still publish. */
  lemma {:induction false} OneLiveFetchPerAccount(t: Trace, i: Tid, j: Tid)
    requires Valid(t) && Live(End(t), i) && Live(End(t), j) && End(t).threads[i].a.id == End(t).threads[j].a.id
    ensures i == j
  {
    OneFetchPerEntry(t, i, j);
  }

  /** What a sync about to decide comes to. */
  function DecisionOf(s: State, i: Tid): Decision
    requires Sound(s.cache) && Enabled(s, Decide(i))
  {
    var th := s.threads[i];
    Decided(Ensured(s.cache, th.a), th.a, th.manual, s.now)
  }

  /** Fetch `j` can still publish, and is for the account of sync `i` as `i` has it. */
  predicate LiveFor(s: State, j: Tid, i: Tid) {
    Live(s, j) && i in s.threads && s.threads[j].a.id == s.threads[i].a.id && s.threads[j].a.revision == s.threads[i].a.revision
  }

  /**
   A sync joins exactly when a fetch that can still publish is in flight for its account and
   revision; so it begins another while one is in flight only if that one can no longer publish,
   or is for another revision.
   */
  lemma {:induction false} JoinsIffLive(t: Trace, i: Tid)
    requires Valid(t) && Enabled(End(t), Decide(i))
    ensures Sound(End(t).cache)
    ensures DecisionOf(End(t), i).Join? <==> exists j :: LiveFor(End(t), j, i)
    ensures forall j :: LiveFor(End(t), j, i) ==> DecisionOf(End(t), i) == Join(End(t).threads[j].phase.chan)
  {
    RunsKeepInv(t);
    var s := End(t);
    var a := s.threads[i].a;
    forall j | LiveFor(s, j, i) ensures DecisionOf(s, i) == Join(s.threads[j].phase.chan) { assert ThreadOk(s, j); }
    if DecisionOf(s, i).Join? {
      assert Current(s.cache, a);
      var j := s.makers[DecisionOf(s, i).chan];
      assert Owned(s, s.cache.cells[s.cache.entries[a.id]].done.value);
      assert ThreadOk(s, j);
      assert LiveFor(s, j, i);
    }
  }

  /** The step puts a fresh entry in the place of one with another revision. */
  predicate Replaces(s: State, a: Step, id: nat, revision: Time)
    requires Enabled(s, a)
  {
    match a
    case Decide(i) => s.threads[i].a.id == id && s.threads[i].a.revision != revision
    case Observe(acct, windows) => acct.id == id && acct.enabled && windows != [] && acct.revision > revision
    case _ => false
  }

  /**
   A fetch in flight stops being able to publish exactly when a scan that did not list its account
   prunes, or when a sync or an observation brings in another revision of the account.
   */
  lemma {:induction false} LosesItsEntryIff(t: Trace, a: Step, j: Tid)
    requires Valid(Then(t, a)) && Live(End(t), j)
    requires InFlight(End(Then(t, a)).threads[j])
    ensures var s, acct := End(t), End(t).threads[j].a;
      !Live(End(Then(t, a)), j) <==> (a.Prune? && acct.id !in s.scan.value.listed) || Replaces(s, a, acct.id, acct.revision)
  {
    RunsKeepInv(t);
    assert ThreadOk(End(t), j);
    EntryMovesIff(End(t), a, j);
    FlightStays(End(t), a, j);
  }

  lemma FlightStays(s: State, a: Step, j: Tid)
    requires Possible(s, a) && j in s.threads && InFlight(s.threads[j])
    ensures var s' := Do(s, a); j in s'.threads && (InFlight(s'.threads[j]) ==>
      s'.threads[j].a == s.threads[j].a && s'.threads[j].phase.h == s.threads[j].phase.h)
  {
    if ThreadOf(a) == Some(j) {
      match a
      case Leave(_, _) =>
      case Fetch(_, _) =>
      case Reread(_, _) =>
    } else {
      assert Do(s, a).threads[j] == s.threads[j];
    }
  }

  lemma EntryMovesIff(s: State, a: Step, j: Tid)
    requires Possible(s, a) && Live(s, j) && s.threads[j].phase.h in s.cache.cells
    requires s.cache.cells[s.threads[j].phase.h].revision == s.threads[j].a.revision
    ensures var acct, c' := s.threads[j].a, Do(s, a).cache;
      (acct.id in c'.entries && c'.entries[acct.id] == s.threads[j].phase.h)
      <==> !((a.Prune? && acct.id !in s.scan.value.listed) || Replaces(s, a, acct.id, acct.revision))
  {
    var id := s.threads[j].a.id;
    if a.Decide? {
      EnsuredMovesIff(s.cache, s.threads[a.t].a, id);
    } else if a.Observe? {
      ObservedMovesIff(s.cache, a.a, a.windows, s.now, id);
    } else if !a.Prune? {
      assert Do(s, a).cache.entries == s.cache.entries;
    }
  }

  lemma EnsuredMovesIff(c: Cache, a: Account, id: nat)
    requires Sound(c) && id in c.entries
    ensures var c' := Ensured(c, a);
      id in c'.entries && (c'.entries[id] != c.entries[id] <==> a.id == id && a.revision != c.cells[c.entries[id]].revision)
  {
  }

  lemma ObservedMovesIff(c: Cache, a: Account, windows: seq<Window>, now: Time, id: nat)
    requires Sound(c) && id in c.entries
    ensures var c' := Observed(c, a, windows, now);
      && id in c'.entries
      && (c'.entries[id] != c.entries[id]
          <==> a.id == id && a.enabled && windows != [] && a.revision > c.cells[c.entries[id]].revision)
  {
    EnsuredMovesIff(c, a, id);
  }

  predicate TwoInFlight(s: State, a: Account) {
    && 0 in s.threads && 1 in s.threads && InFlight(s.threads[0])
    && s.threads[0].a == s.threads[1].a == a && Live(s, 1) && !Live(s, 0)
  }

  /** Both do happen: an account connected after a scan listed the accounts is fetched twice at one revision. */
  lemma TwoFetchesAfterPrune(a: Account) returns (t: Trace)
    requires a.enabled
    ensures Valid(t) && TwoInFlight(End(t), a)
  {
    t := FirstFetch(a);
    PruneGoes(End(t));
    t := SecondFetch(a, Then(t, Prune));
  }

  lemma PruneGoes(s: State)
    requires s.scan == Some(Scan(map[], {}, {})) && Sound(s.cache)
    ensures Possible(s, Prune)
    ensures var s' := Do(s, Prune); s' == s.(cache := s.cache.(entries := map[]), scan := None)
  {
  }

  lemma Spawned(s: State, i: Tid, a: Account)
    requires Sound(s.cache) && i !in s.threads && a.enabled && a.id in s.accounts && s.accounts[a.id] == a
    ensures Possible(s, Spawn(i, a, false))
    ensures Possible(Do(s, Spawn(i, a, false)), Load(i, false, false))
    ensures Do(Do(s, Spawn(i, a, false)), Load(i, false, false)) == s.(threads := s.threads[i := Thread(Entering, 0, a, false)])
  {
    var s1 := Do(s, Spawn(i, a, false));
    var s2 := Do(s1, Load(i, false, false));
    assert s2.threads == s.threads[i := Thread(Entering, 0, a, false)];
  }

  lemma {:induction false} OneMore(t: Trace, a: Step)
    requires Valid(t) && Possible(End(t), a)
    ensures Valid(Then(t, a)) && End(Then(t, a)) == Do(End(t), a)
  {
  }

  lemma SecondFetch(a: Account, t0: Trace) returns (t: Trace)
    requires a.enabled && Valid(t0) && End(t0).cache.entries == map[] && Sound(End(t0).cache) && End(t0).cache.handles == 1
    requires End(t0).threads == map[0 := Thread(Fetching(0, 0), 0, a, false)] && End(t0).accounts == map[a.id := a]
    ensures Valid(t) && TwoInFlight(End(t), a)
  {
    var t1 := Then(t0, Spawn(1, a, false));
    var t2 := Then(t1, Load(1, false, false));
    Spawned(End(t0), 1, a);
    OneMore(t0, Spawn(1, a, false));
    OneMore(t1, Load(1, false, false));
    t := Then(t2, Decide(1));
    SecondStarts(a, End(t2));
  }

  lemma SecondStarts(a: Account, s: State)
    requires a.enabled && Sound(s.cache) && s.cache.entries == map[] && s.cache.handles == 1
    requires 0 in s.threads && s.threads[0] == Thread(Fetching(0, 0), 0, a, false)
    requires 1 in s.threads && s.threads[1] == Thread(Entering, 0, a, false)
    ensures Possible(s, Decide(1)) && TwoInFlight(Do(s, Decide(1)), a)
  {
  }

  /** A scan lists no account, and then one is connected. */
  lemma ListedThenConnected(a: Account) returns (t: Trace)
    ensures Valid(t) && End(t) == State(0, NO_ENTRIES, map[], map[a.id := a], map[], Some(Scan(map[], {}, {})))
  {
    var t0 := Begin(State(0, NO_ENTRIES, map[], map[], map[], None));
    OneMore(t0, ListAccounts);
    assert End(Then(t0, ListAccounts)).scan.value.left == {};
    t := Then(Then(t0, ListAccounts), ChangeAccount(a.id, Some(a)));
    OneMore(Then(t0, ListAccounts), ChangeAccount(a.id, Some(a)));
  }

  lemma FirstFetch(a: Account) returns (t: Trace)
    requires a.enabled
    ensures Valid(t)
    ensures var s := End(t);
      && s.now == 0 && s.cache.entries == map[a.id := 0] && s.cache.handles == s.cache.chans == 1 && s.cache.closed == {}
      && Sound(s.cache) && s.threads == map[0 := Thread(Fetching(0, 0), 0, a, false)]
      && s.accounts == map[a.id := a] && s.scan == Some(Scan(map[], {}, {}))
  {
    var t0 := ListedThenConnected(a);
    var s0 := End(t0);
    var t1 := Then(t0, Spawn(0, a, false));
    var t2 := Then(t1, Load(0, false, false));
    Spawned(s0, 0, a);
    OneMore(t0, Spawn(0, a, false));
    OneMore(t1, Load(0, false, false));
    t := Then(t2, Decide(0));
    FirstStarts(a, End(t2));
  }

  lemma FirstStarts(a: Account, s: State)
    requires a.enabled
    requires s == State(0, NO_ENTRIES, map[0 := Thread(Entering, 0, a, false)], map[a.id := a], map[], Some(Scan(map[], {}, {})))
    ensures Possible(s, Decide(0))
    ensures var s' := Do(s, Decide(0));
      && s'.now == 0 && s'.cache.entries == map[a.id := 0] && s'.cache.handles == s'.cache.chans == 1 && s'.cache.closed == {}
      && Sound(s'.cache) && s'.threads == map[0 := Thread(Fetching(0, 0), 0, a, false)]
      && s'.accounts == map[a.id := a] && s'.scan == s.scan
  {
  }

  /** A caller that joined a fetch is never left behind: the channel is closed, or a fetch in flight will close it. */
  lemma {:induction false} WaitersAreServed(t: Trace, i: Tid)
    requires Valid(t) && i in End(t).threads && End(t).threads[i].phase.Waiting?
    ensures Enabled(End(t), Wake(i, false)) || exists j :: CarriesChannel(End(t), j, End(t).threads[i].phase.chan)
  {
    RunsKeepInv(t);
    var s := End(t);
    assert ThreadOk(s, i);
    var chan := s.threads[i].phase.chan;
    if chan !in s.cache.closed { assert CarriesChannel(s, s.makers[chan], chan); }
  }

  predicate CarriesChannel(s: State, j: Tid, chan: Chan) {
    j in s.threads && InFlight(s.threads[j]) && s.threads[j].phase.chan == chan
  }

  /** A reading is published only for an account that, read again after the fetch, was enabled and unchanged. */
  lemma {:induction false} PublishedUnchanged(t: Trace, i: Tid, cancelled: bool)
    requires Valid(Then(t, Leave(i, cancelled)))
    requires var h, t' := End(t).threads[i].phase.h, Then(t, Leave(i, cancelled));
      End(t').cache.cells[h].snapshot != End(t).cache.cells[h].snapshot
    ensures var s := End(t); var th := s.threads[i];
      && th.phase.reread.Some? && th.phase.reread.value.enabled && th.phase.reread.value.id == th.a.id
      && th.phase.reread.value.revision == th.a.revision == s.cache.cells[th.phase.h].revision
      && Live(s, i)
  {
    RunsKeepInv(t);
    assert ThreadOk(End(t), i);
  }

  // ---- backoff over whole runs ----

  /** The step publishes the result of a fetch for the entry `h`. */
  predicate PublishesFor(s: State, a: Step, h: Handle) {
    && Possible(s, a) && a.Leave? && s.threads[a.t].phase.h == h
    && Publishes(s.cache, s.threads[a.t].a, h, s.threads[a.t].phase.reread, a.cancelled)
  }

  /** Failures published for `h` since its last published success. */
  function Streak(t: Trace, h: Handle): nat
    requires Valid(t)
  {
    match t
    case Begin(_) => 0
    case Then(front, a) =>
      if !PublishesFor(End(front), a, h) then Streak(front, h)
      else if End(front).threads[a.t].phase.r.Got? then 0
      else Streak(front, h) + 1
  }

  /** Same counter, deadline and error code. */
  predicate SameRecord(e: Entry, e': Entry) {
    e'.failures == e.failures && e'.snapshot.due == e.snapshot.due && e'.snapshot.code == e.snapshot.code
  }

  lemma EnsuredKeepsCells(c: Cache, a: Account, h: Handle)
    requires Sound(c) && h in c.cells
    ensures h in Ensured(c, a).cells && Ensured(c, a).cells[h] == c.cells[h]
  {
  }

  lemma ObservedKeepsCells(c: Cache, a: Account, windows: seq<Window>, now: Time, h: Handle)
    requires Sound(c) && h in c.cells
    ensures var c' := Observed(c, a, windows, now);
      h in c'.cells && SameRecord(c.cells[h], c'.cells[h]) && c'.cells[h].snapshot.attempted == c.cells[h].snapshot.attempted
  {
    EnsuredKeepsCells(c, a, h);
  }

  lemma LeftKeepsAttempts(c: Cache, a: Account, h0: Handle, chan: Chan,
      r: Fetched, reread: Option<Account>, cancelled: bool, now: Time, h: Handle)
    requires Sound(c) && h in c.cells && h0 in c.cells
    ensures var c' := Left(c, a, h0, chan, r, reread, cancelled, now);
      h in c'.cells && c'.cells[h].snapshot.attempted == c.cells[h].snapshot.attempted
  {
  }

  /** What a step does to an entry it does not publish for. */
  lemma StepSparesEntry(s: State, a: Step, h: Handle)
    requires Possible(s, a) && !PublishesFor(s, a, h) && h in s.cache.cells
    ensures var c' := Do(s, a).cache; h in c'.cells && SameRecord(s.cache.cells[h], c'.cells[h])
  {
    match a
    case Decide(i) => EnsuredKeepsCells(s.cache, s.threads[i].a, h);
    case Leave(_, _) =>
    case Observe(acct, windows) => ObservedKeepsCells(s.cache, acct, windows, s.now, h);
    case _ =>
  }

  /** What a publication does to its entry. */
  lemma StepPublishes(s: State, a: Step, h: Handle)
    requires Possible(s, a) && PublishesFor(s, a, h)
    ensures h in s.cache.cells && h in Do(s, a).cache.cells
    ensures var r := s.threads[a.t].phase.r; var e, e' := s.cache.cells[h], Do(s, a).cache.cells[h];
      if r.Got? then e'.failures == 0 && e'.snapshot.due == Some(s.now + INTERVAL)
      else e'.failures == e.failures + 1 && e'.snapshot.code == r.code
           && e'.snapshot.due == Some(s.now + Backoff(e'.failures, r.retryAfter))
  {
  }

  /** Entries are never deallocated, and a new one starts with a clean record. */
  lemma StepOnCells(s: State, a: Step, h: Handle)
    requires Possible(s, a)
    ensures var c' := Do(s, a).cache;
      && (h in s.cache.cells ==> h in c'.cells)
      && (h in c'.cells && h !in s.cache.cells ==> c'.cells[h].failures == 0)
    ensures PublishesFor(s, a, h) ==> h in s.cache.cells
  {
    match a
    case Decide(i) => if h in s.cache.cells { EnsuredKeepsCells(s.cache, s.threads[i].a, h); }
    case Leave(_, _) =>
    case Observe(acct, windows) => if h in s.cache.cells { ObservedKeepsCells(s.cache, acct, windows, s.now, h); }
    case _ =>
  }

  /** An entry's counter is the length of its present streak of published failures. */
  lemma {:induction false} FailuresAreTheStreak(t: Trace, h: Handle)
    requires Valid(t)
    ensures Streak(t, h) == if h in End(t).cache.cells then End(t).cache.cells[h].failures else 0
  {
    match t
    case Begin(_) =>
    case Then(front, a) =>
      var s := End(front);
      FailuresAreTheStreak(front, h);
      StepOnCells(s, a, h);
      if PublishesFor(s, a, h) { StepPublishes(s, a, h); }
      else if h in s.cache.cells { StepSparesEntry(s, a, h); }
  }

  /** The run `u` goes on from `t` without publishing anything for `h`. */
  predicate Quiet(t: Trace, u: Trace, h: Handle)
    requires Valid(u)
  {
    u == t || (u.Then? && Quiet(t, u.front, h) && !PublishesFor(End(u.front), u.step, h))
  }

  /** Until something is published for it, an entry keeps its deadline and its error code. */
  lemma {:induction false} DeadlineStays(t: Trace, u: Trace, h: Handle)
    requires Valid(t) && Valid(u) && Quiet(t, u, h) && h in End(t).cache.cells
    ensures h in End(u).cache.cells && SameRecord(End(t).cache.cells[h], End(u).cache.cells[h])
    decreases u
  {
    if u != t {
      DeadlineStays(t, u.front, h);
      StepSparesEntry(End(u.front), u.step, h);
    }
  }

  /** The step makes a sync start a fetch for the entry `h`. */
  predicate StartsFor(s: State, a: Step, h: Handle) {
    && Possible(s, a) && a.Decide?
    && var th := s.threads[a.t];
       var d := Decided(Ensured(s.cache, th.a), th.a, th.manual, s.now);
       d.Start? && d.h == h
  }

  /** A fetch that starts on an entry that was there has met that entry's deadline or cooldown. */
  lemma StartedWasDue(s: State, i: Tid, h: Handle)
    requires StartsFor(s, Decide(i), h) && h in s.cache.cells
    ensures !TooSoon(s.cache.cells[h].snapshot, s.threads[i].manual, s.now)
  {
  }

  /**
   After a failure is published for an entry, the next scheduled fetch of that entry starts no sooner
   than the backoff for the length of the streak; and when the failure was a rate limit, not even a
   manual one does.
   */
  lemma {:induction false} FetchesBackOff(t: Trace, u: Trace, h: Handle, i: Tid, r: Fetched)
    requires Valid(t) && Valid(u) && t.Then? && PublishesFor(End(t.front), t.step, h)
    requires r == End(t.front).threads[t.step.t].phase.r && r.Error?
    requires Quiet(t, u, h) && StartsFor(End(u), Decide(i), h)
    requires End(u).threads[i].manual ==> r.code == RATE_LIMITED
    ensures Streak(t, h) > 0 && End(u).now >= End(t).now + Backoff(Streak(t, h), r.retryAfter)
    ensures var k := Streak(t, h);
      var own := if k == 1 then 300 else if k == 2 then 600 else if k == 3 then 1200 else 1800;
      End(u).now >= End(t).now + if own < r.retryAfter < 86400 then r.retryAfter else if r.retryAfter >= 86400 then 86400 else own
  {
    FailureSetsDeadline(t, h, r);
    BackoffMeans(Streak(t, h), r.retryAfter);
    DeadlineStays(t, u, h);
    StartedWasDue(End(u), i, h);
  }

  lemma {:induction false} FailureSetsDeadline(t: Trace, h: Handle, r: Fetched)
    requires Valid(t) && t.Then? && PublishesFor(End(t.front), t.step, h)
    requires r == End(t.front).threads[t.step.t].phase.r && r.Error?
    ensures Streak(t, h) > 0 && h in End(t).cache.cells
    ensures var shown := End(t).cache.cells[h].snapshot;
      shown.code == r.code && shown.due == Some(End(t).now + Backoff(Streak(t, h), r.retryAfter))
  {
    StepPublishes(End(t.front), t.step, h);
    FailuresAreTheStreak(t, h);
  }

  /** After a success, scheduled fetches of the entry keep to the five-minute interval. */
  lemma {:induction false} FetchesKeepTheInterval(t: Trace, u: Trace, h: Handle, i: Tid)
    requires Valid(t) && Valid(u) && t.Then? && PublishesFor(End(t.front), t.step, h)
    requires End(t.front).threads[t.step.t].phase.r.Got?
    requires Quiet(t, u, h) && StartsFor(End(u), Decide(i), h) && !End(u).threads[i].manual
    ensures End(u).now >= End(t).now + 300
  {
    StepPublishes(End(t.front), t.step, h);
    DeadlineStays(t, u, h);
    StartedWasDue(End(u), i, h);
  }

  /** The entry was last attempted at `at` or later. */
  predicate AttemptedSince(s: State, h: Handle, at: Time) {
    && at <= s.now && h in s.cache.cells
    && s.cache.cells[h].snapshot.attempted.Some? && s.cache.cells[h].snapshot.attempted.value >= at
  }

  lemma AttemptsAdvance(s: State, a: Step, h: Handle, at: Time)
    requires Possible(s, a) && AttemptedSince(s, h, at)
    ensures AttemptedSince(Do(s, a), h, at)
  {
    match a
    case Decide(i) => EnsuredKeepsCells(s.cache, s.threads[i].a, h);
    case Leave(i, cancelled) =>
      var th := s.threads[i];
      LeftKeepsAttempts(s.cache, th.a, th.phase.h, th.phase.chan, th.phase.r, th.phase.reread, cancelled, s.now, h);
    case Observe(acct, windows) => ObservedKeepsCells(s.cache, acct, windows, s.now, h);
    case _ =>
  }

  lemma StartIsAttempt(s: State, a: Step, h: Handle)
    requires StartsFor(s, a, h)
    ensures AttemptedSince(Do(s, a), h, s.now)
  {
  }

  /** The run `u` goes on from `t`. */
  predicate After(t: Trace, u: Trace) {
    u == t || (u.Then? && After(t, u.front))
  }

  lemma {:induction false} AttemptRemembered(t: Trace, u: Trace, h: Handle, at: Time)
    requires Valid(t) && Valid(u) && After(t, u) && AttemptedSince(End(t), h, at)
    ensures AttemptedSince(End(u), h, at)
    decreases u
  {
    if u != t {
      AttemptRemembered(t, u.front, h, at);
      AttemptsAdvance(End(u.front), u.step, h, at);
    }
  }

  /** A manual fetch of an entry starts at least 30 s after every earlier one, unless the entry is rate limited. */
  lemma {:induction false} ManualFetchesCoolDown(t: Trace, u: Trace, h: Handle, i: Tid)
    requires Valid(t) && Valid(u) && t.Then? && StartsFor(End(t.front), t.step, h) && After(t, u)
    requires StartsFor(End(u), Decide(i), h) && End(u).threads[i].manual
    ensures h in End(u).cache.cells
    ensures End(u).cache.cells[h].snapshot.code != RATE_LIMITED ==> End(u).now - End(t.front).now >= 30
  {
    StartIsAttempt(End(t.front), t.step, h);
    AttemptRemembered(t, u, h, End(t.front).now);
    StartedWasDue(End(u), i, h);
  }
}
