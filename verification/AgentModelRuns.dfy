/**
 What reconciliation promises over whole histories: interrupted runs converge, an unreadable
 ledger deletes nothing, nothing foreign is ever deleted, and disconnecting undoes connecting.
 */
module AgentModelRuns {
  import opened AgentCatalog
  import opened AgentModelSync
  import opened AgentModels
  import opened Options
  import opened Text

  // ---- interruption ----

  /**
   A run stopped at any write: one that could read the ledger anywhere, one that could not and so
   took it for empty anywhere before its ledger write.
   */
  ghost predicate CutRunBy(goal: Goal, s: State, readable: bool, listing: seq<string>, order: seq<string>, cut: Log) {
    && IsListing(listing, s.rows) && Orders(order, goal)
    && CutOf(cut, if readable then Plan(goal, s, listing, order) else Settled(goal, State(s.rows, {}), listing, order))
  }

  /** `t` is what some such run leaves of `s`. */
  ghost predicate CutRun(goal: Goal, s: State, t: State) {
    exists readable, listing, order, cut :: CutRunBy(goal, s, readable, listing, order, cut) && t == Replay(cut, s)
  }

  /** Creating, pricing and enabling do not depend on the ledger, so what a blind run does is right with any. */
  lemma {:induction false} BlindWritesAreLegal(goal: Goal, s: State, log: Log)
    requires Legal(goal, State(s.rows, {}), log)
    requires forall w: Write :: Has(log, w) ==> !w.Delete? && !w.SaveLedger?
    ensures Legal(goal, s, log)
  {
    match log
    case Empty =>
    case Then(front, w) =>
      forall v: Write | Has(front, v) ensures !v.Delete? && !v.SaveLedger? { assert Has(log, v); }
      BlindWritesAreLegal(goal, s, front);
      ReplayRowsAgree(front, State(s.rows, {}), s);
      assert Has(log, w);
  }

  lemma {:induction false} CutRunIsLegal(goal: Goal, s: State, readable: bool, listing: seq<string>, order: seq<string>, cut: Log)
    requires CutRunBy(goal, s, readable, listing, order, cut)
    ensures Legal(goal, s, cut)
  {
    var seen := State(s.rows, if readable then s.ledger else {});
    PlanReachesTarget(goal, seen, listing, order);
    if !readable { PlanCuts(goal, seen, listing, order, cut); }
    LegalCut(goal, seen, Plan(goal, seen, listing, order), cut);
    if !readable {
      forall w: Write | Has(cut, w) ensures !w.Delete? && !w.SaveLedger? {
        CutContains(cut, Settled(goal, seen, listing, order), w);
        CutContains(cut, Plan(goal, seen, listing, order), w);
        PlanContents(goal, seen, listing, order, w);
      }
      BlindWritesAreLegal(goal, s, cut);
    }
  }

  /** A run stopped at any write, the ledger write included, has moved no row away from the target. */
  lemma CutRunKeepsTarget(goal: Goal, s: State, t: State)
    requires CutRun(goal, s, t)
    ensures Target(goal, t) == Target(goal, s)
  {
    var readable, listing, order, cut :| CutRunBy(goal, s, readable, listing, order, cut) && t == Replay(cut, s);
    CutRunIsLegal(goal, s, readable, listing, order, cut);
    LegalKeepsTarget(goal, s, cut);
  }

  /**
   Any number of interrupted runs followed by a complete one end exactly where one complete
   run from the start would have ended, whatever the listing orders were.
   */
  lemma {:induction false} InterruptedRunsConverge(goal: Goal, states: seq<State>, listing: seq<string>, order: seq<string>)
    requires |states| > 0
    requires forall i :: 0 <= i < |states| - 1 ==> CutRun(goal, states[i], states[i + 1])
    requires var last := states[|states| - 1]; IsListing(listing, last.rows) && Orders(order, goal)
    ensures var last := states[|states| - 1];
      Replay(Plan(goal, last, listing, order), last) == Target(goal, states[0])
  {
    if |states| == 1 {
      PlanReachesTarget(goal, states[0], listing, order);
    } else {
      assert CutRun(goal, states[0], states[0 + 1]);
      CutRunKeepsTarget(goal, states[0], states[1]);
      forall i | 0 <= i < |states[1..]| - 1 ensures CutRun(goal, states[1..][i], states[1..][i + 1]) {
        assert CutRun(goal, states[i + 1], states[i + 1 + 1]);
      }
      InterruptedRunsConverge(goal, states[1..], listing, order);
    }
  }

  /** A completed run leaves nothing for the next one to do: its plan is empty. */
  lemma SecondRunIsSilent(goal: Goal, s: State, listing: seq<string>, order: seq<string>)
    requires IsListing(listing, Target(goal, s).rows) && Orders(order, goal)
    ensures Plan(goal, Target(goal, s), listing, order) == Empty
  {
    var t := Target(goal, s);
    TargetIsSettled(goal, s);
    PlanReachesTarget(goal, t, listing, order);
    SettledMeansQuiet(goal, t, Plan(goal, t, listing, order));
  }

  // ---- a run that cannot read the ledger ----

  /** What a complete run leaves when reading the ledger failed and was taken for an empty ledger. */
  ghost function BlindTarget(goal: Goal, s: State): State {
    State(TargetRows(goal, State(s.rows, {})), if Claims(goal, s.rows) == {} then s.ledger else Claims(goal, s.rows))
  }

  lemma {:induction false} ReplayRowsAgree(log: Log, a: State, b: State)
    requires a.rows == b.rows
    ensures Replay(log, a).rows == Replay(log, b).rows
  {
    match log
    case Empty =>
    case Then(front, _) => ReplayRowsAgree(front, a, b);
  }

  lemma {:induction false} RowWritesKeepLedger(log: Log, s: State)
    requires forall names :: !Has(log, SaveLedger(names))
    ensures Replay(log, s).ledger == s.ledger
  {
    match log
    case Empty =>
    case Then(front, w) =>
      forall names ensures !Has(front, SaveLedger(names)) { assert !Has(log, SaveLedger(names)); }
      RowWritesKeepLedger(front, s);
      if w.SaveLedger? { assert Has(log, SaveLedger(w.names)); }
  }

  predicate Has(log: Log, w: Write) {
    log.Then? && (log.last == w || Has(log.front, w))
  }

  lemma {:induction false} HasInSettlings(goal: Goal, rows: Table, order: seq<string>, n: nat, log: Log, w: Write)
    requires n <= |order| && (w.Delete? || w.SaveLedger?)
    ensures Has(Settlings(goal, rows, order, n, log), w) ==> Has(log, w)
  {
    if n > 0 {
      HasInSettlings(goal, rows, order, n - 1, log, w);
      var before := Settlings(goal, rows, order, n - 1, log);
      var k := order[n - 1];
      if k in goal && Claimable(rows, k) {
        match Found(rows, k)
        case None =>
        case Some(m) => assert Has(Settlings(goal, rows, order, n, log), w) ==> Has(Repricing(goal[k], m, rows[m], before), w);
      }
    }
  }

  lemma {:induction false} HasInReclaims(goal: Goal, seen: State, listing: seq<string>, n: nat, w: Write)
    requires n <= |listing|
    ensures Has(Reclaims(goal, seen, listing, n, Empty), w) ==> w.Delete? && Doomed(goal, seen, w.name)
  {
    if n > 0 { HasInReclaims(goal, seen, listing, n - 1, w); }
  }

  /** Deletions in a plan are of doomed rows, and the ledger is written last of all. */
  lemma {:induction false} PlanContents(goal: Goal, seen: State, listing: seq<string>, order: seq<string>, w: Write)
    ensures w.Delete? && Has(Plan(goal, seen, listing, order), w) ==> Doomed(goal, seen, w.name)
    ensures w.SaveLedger? ==> !Has(Settled(goal, seen, listing, order), w)
  {
    HasInReclaims(goal, seen, listing, |listing|, w);
    if w.Delete? || w.SaveLedger? { HasInSettlings(goal, seen.rows, order, |order|, Reclaimed(goal, seen, listing), w); }
  }

  /** A complete blind run on the real store, write by write, ends at the blind target. */
  lemma {:induction false} BlindRunOutcome(goal: Goal, s: State, listing: seq<string>, order: seq<string>)
    requires IsListing(listing, s.rows) && Orders(order, goal)
    ensures Replay(Plan(goal, State(s.rows, {}), listing, order), s) == BlindTarget(goal, s)
  {
    var seen := State(s.rows, {});
    var rowsDone := Settled(goal, seen, listing, order);
    PlanReachesTarget(goal, seen, listing, order);
    ReplayRowsAgree(Plan(goal, seen, listing, order), seen, s);
    forall names ensures !Has(rowsDone, SaveLedger(names)) { PlanContents(goal, seen, listing, order, SaveLedger(names)); }
    RowWritesKeepLedger(rowsDone, s);
  }

  /** Whatever it reads of the table, a blind run deletes nothing. */
  lemma BlindRunDeletesNothing(goal: Goal, s: State, listing: seq<string>, order: seq<string>, n: string)
    ensures !Has(Plan(goal, State(s.rows, {}), listing, order), Delete(n))
  {
    PlanContents(goal, State(s.rows, {}), listing, order, Delete(n));
  }

  lemma BlindRowsWhenNothingDoomed(goal: Goal, s: State)
    requires forall n :: !Doomed(goal, s, n)
    ensures TargetRows(goal, State(s.rows, {})) == TargetRows(goal, s)
  {
  }

  lemma BlindRowsWhenNothingClaimed(goal: Goal, s: State)
    requires Claims(goal, s.rows) == {}
    ensures TargetRows(goal, State(s.rows, {})) == s.rows
  {
    forall k | k in goal ensures Found(s.rows, k).Some? && !Claimable(s.rows, k) {
      assert k !in Claims(goal, s.rows);
    }
    assert Missing(goal, s.rows, goal.Keys) == {};
    forall n | n in s.rows ensures !Mendable(goal, s.rows, n) {}
  }

  /**
   A later good run repairs a completed blind run exactly when there was nothing to reclaim or
   nothing to claim; otherwise the blind run's new ledger forgets the rows to be reclaimed.
   */
  lemma BlindRunConvergesIff(goal: Goal, s: State)
    ensures Target(goal, BlindTarget(goal, s)) == Target(goal, s)
       <==> Claims(goal, s.rows) == {} || forall n :: n in s.rows ==> !Doomed(goal, s, n)
  {
    var b := BlindTarget(goal, s);
    if Claims(goal, s.rows) == {} {
      BlindRowsWhenNothingClaimed(goal, s);
      assert b == s;
    } else if forall n :: n in s.rows ==> !Doomed(goal, s, n) {
      BlindRowsWhenNothingDoomed(goal, s);
      assert b == Target(goal, s);
      TargetIsSettled(goal, s);
    } else {
      var n :| n in s.rows && Doomed(goal, s, n);
      assert n in b.rows && b.rows[n] == s.rows[n];
      assert !Doomed(goal, b, n);
      assert n in TargetRows(goal, b);
      assert n !in TargetRows(goal, s);
    }
  }

  // ---- whole histories ----

  /** Either somebody else edits the table, or a run writes some initial part of its plan. */
  datatype Event =
    | Edit(rows: Table)
    | Run(goal: Goal, readable: bool, listing: seq<string>, order: seq<string>, cut: Log)

  ghost function SeenBy(e: Event, s: State): State
    requires e.Run?
  {
    State(s.rows, if e.readable then s.ledger else {})
  }

  ghost predicate Possible(e: Event, s: State) {
    e.Run? ==>
      && IsListing(e.listing, s.rows) && Orders(e.order, e.goal)
      && CutOf(e.cut, Plan(e.goal, SeenBy(e, s), e.listing, e.order))
  }

  ghost function After(e: Event, s: State): State {
    match e
    case Edit(rows) => s.(rows := rows)
    case Run(_, _, _, _, cut) => Replay(cut, s)
  }

  ghost function StateAt(events: seq<Event>, rows: Table, i: nat): State
    requires i <= |events|
  {
    if i == 0 then State(rows, {}) else After(events[i - 1], StateAt(events, rows, i - 1))
  }

  /** A history of a device that starts with no ledger. */
  ghost predicate History(events: seq<Event>, rows: Table) {
    forall i :: 0 <= i < |events| ==> Possible(events[i], StateAt(events, rows, i))
  }

  /** Event `j` was a run carried through to its ledger write, and that ledger names `k`. */
  ghost predicate Recorded(events: seq<Event>, rows: Table, j: int, k: string) {
    && 0 <= j < |events| && events[j].Run?
    && var e := events[j]; var s := SeenBy(e, StateAt(events, rows, j));
    && e.cut == Plan(e.goal, s, e.listing, e.order)
    && Has(e.cut, SaveLedger(Claims(e.goal, s.rows)))
    && k in Claims(e.goal, s.rows)
  }

  lemma {:induction false} CutContains(cut: Log, log: Log, w: Write)
    requires CutOf(cut, log) && Has(cut, w)
    ensures Has(log, w)
  {
    if cut != log { CutContains(cut, log.front, w); }
  }

  /** A run that did not write the ledger left it as it was; one that did was complete. */
  lemma LedgerAfterRun(e: Event, s: State)
    requires e.Run? && Possible(e, s)
    ensures var seen := SeenBy(e, s);
      || After(e, s).ledger == s.ledger
      || (e.cut == Plan(e.goal, seen, e.listing, e.order) && Has(e.cut, SaveLedger(Claims(e.goal, seen.rows)))
          && After(e, s).ledger == Claims(e.goal, seen.rows))
  {
    var seen := SeenBy(e, s);
    var plan := Plan(e.goal, seen, e.listing, e.order);
    var rowsDone := Settled(e.goal, seen, e.listing, e.order);
    if e.cut != plan || plan == rowsDone {
      forall names ensures !Has(e.cut, SaveLedger(names)) {
        if Has(e.cut, SaveLedger(names)) {
          CutContains(e.cut, rowsDone, SaveLedger(names));
          PlanContents(e.goal, seen, e.listing, e.order, SaveLedger(names));
        }
      }
      RowWritesKeepLedger(e.cut, s);
    }
  }

  /** At every moment, what the ledger names was recorded by an earlier completed run. */
  lemma {:induction false} LedgerIsRecorded(events: seq<Event>, rows: Table, i: nat, k: string)
    requires History(events, rows) && i <= |events| && k in StateAt(events, rows, i).ledger
    ensures exists j :: 0 <= j < i && Recorded(events, rows, j, k)
  {
    if i > 0 {
      var e, s := events[i - 1], StateAt(events, rows, i - 1);
      assert Possible(e, s);
      if k in s.ledger {
        LedgerIsRecorded(events, rows, i - 1, k);
      } else {
        assert e.Run?;
        LedgerAfterRun(e, s);
        assert Recorded(events, rows, i - 1, k);
      }
    }
  }

  /**
   Over all histories: a row a run deletes is a text row without sources, not wanted at that
   moment, the ledger was readable, and an earlier completed run had wanted and recorded its name.
   */
  lemma {:induction false} DeletesOnlyRecordedRows(events: seq<Event>, rows: Table, i: nat, n: string)
    requires History(events, rows) && i < |events| && events[i].Run? && Has(events[i].cut, Delete(n))
    ensures var s := StateAt(events, rows, i);
      && n in s.rows && Bare(s.rows[n]) && Fold(n) !in events[i].goal && events[i].readable
      && exists j :: 0 <= j < i && Recorded(events, rows, j, Fold(n)) && Fold(n) in events[j].goal
  {
    var e, s := events[i], StateAt(events, rows, i);
    assert Possible(e, s);
    CutContains(e.cut, Plan(e.goal, SeenBy(e, s), e.listing, e.order), Delete(n));
    PlanContents(e.goal, SeenBy(e, s), e.listing, e.order, Delete(n));
    LedgerIsRecorded(events, rows, i, Fold(n));
    var j :| 0 <= j < i && Recorded(events, rows, j, Fold(n));
    assert Fold(n) in events[j].goal;
  }

  // ---- connecting and disconnecting ----

  /** `p` is connected on top of `others`, and lists no name another connected section lists. */
  ghost predicate Separate(doc: Doc, others: set<Provider>, p: Provider) {
    Keys(Candidates(doc.agents, {p})) !! Keys(Candidates(doc.agents, others))
  }

  lemma {:induction false} KeysWithOneMore(doc: Doc, others: set<Provider>, p: Provider)
    ensures Keys(Candidates(doc.agents, others + {p})) == Keys(Candidates(doc.agents, others)) + Keys(Candidates(doc.agents, {p}))
  {
    var both := others + {p};
    MoreConnectedMoreWanted(doc, others, both);
    MoreConnectedMoreWanted(doc, {p}, both);
    forall k | k in Keys(Candidates(doc.agents, both))
      ensures k in Keys(Candidates(doc.agents, others)) + Keys(Candidates(doc.agents, {p}))
    {
      WantedExactly(doc.agents, both, k);
      var i, j :| Lists(doc.agents, both, i, j) && Fold(doc.agents[i].models[j].name) == k;
      WantedExactly(doc.agents, others, k);
      WantedExactly(doc.agents, {p}, k);
      if doc.agents[i].provider == p { assert Lists(doc.agents, {p}, i, j); } else { assert Lists(doc.agents, others, i, j); }
    }
  }

  /** A name `p` does not list is wanted in the same words with and without `p`. */
  lemma {:induction false} FirstUnaffected(agents: seq<Agent>, others: set<Provider>, p: Provider, k: string)
    requires k in Keys(Candidates(agents, others)) && k !in Keys(Candidates(agents, {p}))
    ensures k in Keys(Candidates(agents, others + {p}))
    ensures FirstWith(Candidates(agents, others + {p}), k) == FirstWith(Candidates(agents, others), k)
    decreases |agents|
  {
    var n := |agents| - 1;
    var a, front := agents[n], agents[..n];
    var both := others + {p};
    var tailOf := (c: set<Provider>) => if Eligible(a, c) then Accepted(a.provider, a.models) else [];
    KeysOfConcat(Candidates(front, {p}), tailOf({p}));
    KeysOfConcat(Candidates(front, others), tailOf(others));
    KeysOfConcat(Candidates(front, both), tailOf(both));
    if k in Keys(Candidates(front, others)) {
      FirstUnaffected(front, others, p, k);
      FirstOfConcat(Candidates(front, others), tailOf(others), k);
      FirstOfConcat(Candidates(front, both), tailOf(both), k);
    } else {
      KeysWithOneMore(Doc([], front), others, p);
      assert k !in Keys(Candidates(front, both));
      assert k in Keys(tailOf(others)) && a.provider != p;
      FirstAfterConcat(Candidates(front, others), tailOf(others), k);
      FirstAfterConcat(Candidates(front, both), tailOf(both), k);
    }
  }

  lemma FirstOfConcat(a: seq<Want>, b: seq<Want>, k: string)
    requires k in Keys(a)
    ensures k in Keys(a + b) && FirstWith(a + b, k) == FirstWith(a, k)
  {
    KeysOfConcat(a, b);
    FirstIndex(a, k);
    var i :| IsFirst(a, k, i);
    assert IsFirst(a + b, k, i);
    FirstWithAt(a, k, i);
    FirstWithAt(a + b, k, i);
  }

  lemma FirstAfterConcat(a: seq<Want>, b: seq<Want>, k: string)
    requires k !in Keys(a) && k in Keys(b)
    ensures k in Keys(a + b) && FirstWith(a + b, k) == FirstWith(b, k)
  {
    KeysOfConcat(a, b);
    FirstIndex(b, k);
    var i :| IsFirst(b, k, i);
    assert IsFirst(a + b, k, |a| + i) by {
      forall j | 0 <= j < |a| ensures Fold((a + b)[j].name) != k { assert Fold(a[j].name) in Keys(a); }
    }
    FirstWithAt(b, k, i);
    FirstWithAt(a + b, k, |a| + i);
  }

  lemma FirstWithAt(cs: seq<Want>, k: string, i: int)
    requires IsFirst(cs, k, i)
    ensures k in Keys(cs) && FirstWith(cs, k) == cs[i]
  {
    FirstIndex(cs, k);
  }

  lemma GoalWithOneMore(doc: Doc, others: set<Provider>, p: Provider)
    requires Separate(doc, others, p)
    ensures var few, many := GoalOf(doc, others), GoalOf(doc, others + {p});
      && many.Keys == few.Keys + Keys(Candidates(doc.agents, {p}))
      && forall k :: k in few ==> many[k] == few[k]
  {
    KeysWithOneMore(doc, others, p);
    forall k | k in GoalOf(doc, others) ensures GoalOf(doc, others + {p})[k] == GoalOf(doc, others)[k] {
      FirstUnaffected(doc.agents, others, p, k);
    }
  }

  /** Serving a larger goal first, whose extra names no row carries, and then the smaller one. */
  lemma LargerThenSmaller(few: Goal, many: Goal, s: State)
    requires few.Keys <= many.Keys && forall k :: k in few ==> many[k] == few[k]
    requires forall k :: k in many && k !in few ==> Found(s.rows, k).None?
    ensures Target(few, Target(many, s)) == Target(few, s)
  {
    var t := Target(many, s);
    SameClaims(few, many, s);
    forall n ensures n in TargetRows(few, t) <==> n in TargetRows(few, s) {
      LargerThenSmallerName(few, many, s, n);
    }
    forall n | n in TargetRows(few, s) ensures TargetRows(few, t)[n] == TargetRows(few, s)[n] {
      LargerThenSmallerRow(few, many, s, n);
    }
  }

  lemma SameClaims(few: Goal, many: Goal, s: State)
    requires few.Keys <= many.Keys && forall k :: k in few ==> many[k] == few[k]
    ensures Claims(few, TargetRows(many, s)) == Claims(few, s.rows) && Missing(few, TargetRows(many, s), few.Keys) == {}
  {
    SameFoundInBoth(few, many, s);
  }

  lemma SameFoundInBoth(few: Goal, many: Goal, s: State)
    requires few.Keys <= many.Keys && forall k :: k in few ==> many[k] == few[k]
    ensures var t := TargetRows(many, s);
      forall k :: k in few ==> Found(t, k).Some? && Found(t, k) == Found(TargetRows(few, s), k) && Claimable(t, k) == Claimable(s.rows, k)
  {
    var t := TargetRows(many, s);
    forall k | k in few
      ensures Found(t, k).Some? && Found(t, k) == Found(TargetRows(few, s), k) && Claimable(t, k) == Claimable(s.rows, k)
    {
      FoundInTarget(many, s, k);
      FoundInTarget(few, s, k);
      if Found(s.rows, k).None? { assert !Holds(s.rows, k, few[k].name); }
    }
  }

  lemma LargerThenSmallerName(few: Goal, many: Goal, s: State, n: string)
    requires few.Keys <= many.Keys && forall k :: k in few ==> many[k] == few[k]
    requires forall k :: k in many && k !in few ==> Found(s.rows, k).None?
    requires Missing(few, TargetRows(many, s), few.Keys) == {}
    ensures n in TargetRows(few, Target(many, s)) <==> n in TargetRows(few, s)
  {
    var t := Target(many, s);
    var k := Fold(n);
    assert n in s.rows ==> Holds(s.rows, k, n);
    if n in t.rows && n !in s.rows && k !in few {
      assert n in Missing(many, s.rows, many.Keys);
      assert k in Claims(many, s.rows);
      assert Doomed(few, t, n);
    }
    if n in s.rows && k !in few {
      assert k !in many;
      assert k !in Claims(many, s.rows);
    }
    if k in few {
      assert n in Missing(few, s.rows, few.Keys) <==> n in Missing(many, s.rows, many.Keys);
    }
  }

  lemma LargerThenSmallerRow(few: Goal, many: Goal, s: State, n: string)
    requires few.Keys <= many.Keys && forall k :: k in few ==> many[k] == few[k]
    requires forall k :: k in many && k !in few ==> Found(s.rows, k).None?
    requires n in TargetRows(few, s) && n in TargetRows(few, Target(many, s))
    requires Missing(few, TargetRows(many, s), few.Keys) == {}
    ensures TargetRows(few, Target(many, s))[n] == TargetRows(few, s)[n]
  {
    var t := Target(many, s);
    var k := Fold(n);
    assert n in s.rows ==> Holds(s.rows, k, n);
    if k in few {
      assert t.rows[n] == TargetRows(few, s)[n];
      if Mendable(few, t.rows, n) { SettledRow(many, s, n); }
    }
  }

  /**
   Connecting a subscription and disconnecting it again, with a run after each, is the same as
   never having connected it, rows and ledger alike, when no row carries a name it lists.
   */
  lemma DisconnectUndoesConnect(doc: Doc, others: set<Provider>, p: Provider, s: State)
    requires Separate(doc, others, p)
    requires forall k :: k in Keys(Candidates(doc.agents, {p})) ==> Found(s.rows, k).None?
    ensures var without, with := GoalOf(doc, others), GoalOf(doc, others + {p});
      && Target(without, Target(with, s)) == Target(without, s)
      && (Target(without, s) == s ==> Target(without, Target(with, s)) == s)
  {
    GoalWithOneMore(doc, others, p);
    LargerThenSmaller(GoalOf(doc, others), GoalOf(doc, others + {p}), s);
  }

  /**
   A table already reconciled with the other subscriptions, carrying no name the new one lists,
   comes back unchanged, whatever the sections share.
   */
  lemma DisconnectRestores(doc: Doc, others: set<Provider>, p: Provider, s: State)
    requires Target(GoalOf(doc, others), s) == s
    requires forall k :: k in Keys(Candidates(doc.agents, {p})) ==> Found(s.rows, k).None?
    ensures Target(GoalOf(doc, others), Target(GoalOf(doc, others + {p}), s)) == s
  {
    forall k | k in Keys(Candidates(doc.agents, others)) ensures k !in Keys(Candidates(doc.agents, {p})) {
      FoundInTarget(GoalOf(doc, others), s, k);
    }
    DisconnectUndoesConnect(doc, others, p, s);
  }
}
