/** One reconciliation run, step by step, over a store that may stop taking writes at any point. */
module AgentModelSync {
  import opened AgentCatalog
  import opened AgentModels
  import opened Options
  import opened Text

  // ---- the writes of a whole run, in order ----

  /** `log` followed by the deletions among the first `n` rows of the listing. */
  function Reclaims(goal: Goal, seen: State, listing: seq<string>, n: nat, log: Log): Log
    requires n <= |listing|
  {
    if n == 0 then log
    else
      var before := Reclaims(goal, seen, listing, n - 1, log);
      if Doomed(goal, seen, listing[n - 1]) then Then(before, Delete(listing[n - 1])) else before
  }

  function Repricing(e: Entry, n: string, row: Row, log: Log): Log {
    if e.price != "" && e.price != row.pricing then Then(log, SetPricing(n, e.price)) else log
  }

  function Enabling(n: string, row: Row, log: Log): Log {
    if row.disabled then Then(log, Enable(n)) else log
  }

  /** `log` followed by the writes that settle one wanted name, given the row found under it. */
  function Settling(e: Entry, found: Option<string>, rows: Table, log: Log): Log
    requires found.Some? ==> found.value in rows
  {
    match found
    case None => Then(log, Create(e.name, NewRow(e)))
    case Some(n) => Enabling(n, rows[n], Repricing(e, n, rows[n], log))
  }

  ghost function SettlingKey(goal: Goal, rows: Table, k: string, log: Log): Log {
    if k in goal && Claimable(rows, k) then Settling(goal[k], Found(rows, k), rows, log) else log
  }

  /** `log` followed by the creations and repairs for the first `n` wanted names, in catalogue order. */
  ghost function Settlings(goal: Goal, rows: Table, order: seq<string>, n: nat, log: Log): Log
    requires n <= |order|
  {
    if n == 0 then log else SettlingKey(goal, rows, order[n - 1], Settlings(goal, rows, order, n - 1, log))
  }

  ghost function Saving(goal: Goal, seen: State, log: Log): Log {
    if Claims(goal, seen.rows) == seen.ledger then log else Then(log, SaveLedger(Claims(goal, seen.rows)))
  }

  /** Everything an uninterrupted run writes: reclaim, then settle, then the ledger if it changed. */
  ghost function Plan(goal: Goal, seen: State, listing: seq<string>, order: seq<string>): Log {
    Saving(goal, seen, Settlings(goal, seen.rows, order, |order|, Reclaims(goal, seen, listing, |listing|, Empty)))
  }

  /** Rows to create and rows to repair among the first `n` wanted names, and the names claimed. */
  ghost function CreatedIn(rows: Table, order: seq<string>, n: nat): nat
    requires n <= |order|
  {
    if n == 0 then 0 else CreatedIn(rows, order, n - 1) + if Found(rows, order[n - 1]).None? then 1 else 0
  }

  ghost function MendedIn(goal: Goal, rows: Table, order: seq<string>, n: nat): nat
    requires n <= |order|
  {
    if n == 0 then 0
    else MendedIn(goal, rows, order, n - 1) + if NeedsMending(goal, rows, order[n - 1]) then 1 else 0
  }

  ghost predicate NeedsMending(goal: Goal, rows: Table, k: string) {
    Found(rows, k).Some? && SettlingKey(goal, rows, k, Empty) != Empty
  }

  ghost function ClaimsIn(rows: Table, order: seq<string>, n: nat): set<string>
    requires n <= |order|
  {
    if n == 0 then {} else ClaimsIn(rows, order, n - 1) + if Claimable(rows, order[n - 1]) then {order[n - 1]} else {}
  }

  lemma TalliesGrow(goal: Goal, rows: Table, order: seq<string>, n: nat)
    requires n < |order|
    ensures ClaimsIn(rows, order, n + 1) ==
      if Claimable(rows, order[n]) then ClaimsIn(rows, order, n) + {order[n]} else ClaimsIn(rows, order, n)
    ensures CreatedIn(rows, order, n + 1) == CreatedIn(rows, order, n) + if Found(rows, order[n]).None? then 1 else 0
    ensures MendedIn(goal, rows, order, n + 1) == MendedIn(goal, rows, order, n) + if NeedsMending(goal, rows, order[n]) then 1 else 0
  {
  }

  lemma {:induction false} ClaimsInMembers(rows: Table, order: seq<string>, n: nat, k: string)
    requires n <= |order|
    ensures k in ClaimsIn(rows, order, n) <==> k in order[..n] && Claimable(rows, k)
  {
    if n > 0 {
      ClaimsInMembers(rows, order, n - 1, k);
      assert order[..n] == order[..n - 1] + [order[n - 1]];
    }
  }

  // ---- how settling one name moves the shape ----

  lemma FoundInShaped(goal: Goal, s: State, done: set<string>, k: string)
    requires k in goal && k !in done
    ensures Found(Shaped(goal, s, done), k) == Found(s.rows, k)
  {
    var t := Shaped(goal, s, done);
    forall m ensures Holds(t, k, m) <==> Holds(s.rows, k, m) {}
    FoundDependsOnNames(t, s.rows, k);
  }

  lemma ShapedSkip(goal: Goal, s: State, done: set<string>, k: string)
    requires k in goal && !Claimable(s.rows, k)
    ensures Shaped(goal, s, done + {k}) == Shaped(goal, s, done)
  {
    NoMoreMissing(goal, s.rows, done, k);
    SameKeysShaped(goal, s, done, done + {k});
    var a, b := Shaped(goal, s, done + {k}), Shaped(goal, s, done);
    forall m | m in a ensures a[m] == b[m] {
      if Mendable(goal, s.rows, m) { assert Fold(m) != k; }
    }
  }

  lemma NoMoreMissing(goal: Goal, rows: Table, done: set<string>, k: string)
    requires k in goal && Found(rows, k).Some?
    ensures Missing(goal, rows, done + {k}) == Missing(goal, rows, done)
  {
  }

  lemma SameKeysShaped(goal: Goal, s: State, done: set<string>, more: set<string>)
    requires Missing(goal, s.rows, more) == Missing(goal, s.rows, done)
    ensures Shaped(goal, s, more).Keys == Shaped(goal, s, done).Keys
  {
  }

  lemma OneMoreMissing(goal: Goal, rows: Table, done: set<string>, k: string)
    requires k in goal && k !in done && Found(rows, k).None?
    ensures Missing(goal, rows, done + {k}) == Missing(goal, rows, done) + {goal[k].name}
  {
  }

  lemma OneMoreShaped(goal: Goal, s: State, done: set<string>, k: string)
    requires k in goal && k !in done && Found(s.rows, k).None?
    requires Missing(goal, s.rows, done + {k}) == Missing(goal, s.rows, done) + {goal[k].name}
    ensures Shaped(goal, s, done + {k}).Keys == Shaped(goal, s, done).Keys + {goal[k].name}
  {
    var n := goal[k].name;
    assert !Holds(s.rows, k, n);
    assert !Doomed(goal, s, n);
  }

  lemma ShapedCreate(goal: Goal, s: State, done: set<string>, k: string)
    requires k in goal && k !in done && Found(s.rows, k).None?
    ensures Shaped(goal, s, done + {k}) == Shaped(goal, s, done)[goal[k].name := NewRow(goal[k])]
  {
    var n := goal[k].name;
    assert !Holds(s.rows, k, n);
    OneMoreMissing(goal, s.rows, done, k);
    var a, b := Shaped(goal, s, done + {k}), Shaped(goal, s, done);
    OneMoreShaped(goal, s, done, k);
    forall m | m in a && m != n ensures a[m] == b[m] {
      if Mendable(goal, s.rows, m) { assert Fold(m) != k; }
    }
  }

  lemma ShapedMend(goal: Goal, s: State, done: set<string>, k: string)
    requires k in goal && k !in done && Found(s.rows, k).Some? && Bare(s.rows[Found(s.rows, k).value])
    ensures var n := Found(s.rows, k).value; var t := Shaped(goal, s, done);
      && n in t && t[n] == s.rows[n]
      && Mendable(goal, t, n)
      && Shaped(goal, s, done + {k}) == t[n := Mended(t[n], goal[k])]
  {
    var n := Found(s.rows, k).value;
    FoundInShaped(goal, s, done, k);
    NoMoreMissing(goal, s.rows, done, k);
    SameKeysShaped(goal, s, done, done + {k});
    forall m | m in Shaped(goal, s, done) && m != n
      ensures Shaped(goal, s, done + {k})[m] == Shaped(goal, s, done)[m]
    {
      if Mendable(goal, s.rows, m) { assert Fold(m) != k; }
    }
  }

  // ---- the plan is legal and reaches the target ----

  ghost predicate Distinct(names: seq<string>) {
    forall i, j :: 0 <= i < j < |names| ==> names[i] != names[j]
  }

  lemma {:induction false} ReclaimsAreLegal(goal: Goal, s: State, listing: seq<string>, i: nat)
    requires Distinct(listing) && i <= |listing|
    ensures var log := Reclaims(goal, s, listing, i, Empty); var t := Replay(log, s);
      && Legal(goal, s, log) && t.ledger == s.ledger
      && (forall n :: n in t.rows <==> n in s.rows && !(n in listing[..i] && Doomed(goal, s, n)))
      && (forall n :: n in t.rows ==> t.rows[n] == s.rows[n])
  {
    if i > 0 {
      var n := listing[i - 1];
      ReclaimsAreLegal(goal, s, listing, i - 1);
      assert listing[..i] == listing[..i - 1] + [n] && n !in listing[..i - 1];
    }
  }

  lemma ReclaimedShape(goal: Goal, seen: State, rows: Table)
    requires forall n :: n in rows <==> n in seen.rows && !Doomed(goal, seen, n)
    requires forall n :: n in rows ==> rows[n] == seen.rows[n]
    ensures rows == Shaped(goal, seen, {})
  {
    assert Missing(goal, seen.rows, {}) == {};
    assert rows.Keys == Shaped(goal, seen, {}).Keys;
  }

  lemma {:induction false} PricingLegal(goal: Goal, s: State, t: Table, m: string, log: Log)
    requires Mendable(goal, t, m)
    requires Legal(goal, s, log) && Replay(log, s) == State(t, s.ledger)
    ensures var e := goal[Fold(m)];
      var log' := Repricing(e, m, t[m], log);
      var t' := t[m := t[m].(pricing := if e.price != "" then e.price else t[m].pricing)];
      Legal(goal, s, log') && Replay(log', s) == State(t', s.ledger) && Mendable(goal, t', m)
  {
    var e := goal[Fold(m)];
    var t' := t[m := t[m].(pricing := if e.price != "" then e.price else t[m].pricing)];
    FoundDependsOnNames(t', t, Fold(m));
    if !(e.price != "" && e.price != t[m].pricing) { assert t' == t; }
  }

  lemma {:induction false} EnablingLegal(goal: Goal, s: State, t: Table, m: string, log: Log)
    requires Mendable(goal, t, m)
    requires Legal(goal, s, log) && Replay(log, s) == State(t, s.ledger)
    ensures var log' := Enabling(m, t[m], log);
      Legal(goal, s, log') && Replay(log', s) == State(t[m := t[m].(disabled := false)], s.ledger)
  {
    if !t[m].disabled { assert t[m := t[m].(disabled := false)] == t; }
  }

  lemma {:induction false} SettlingIsLegal(goal: Goal, s: State, done: set<string>, k: string, log: Log)
    requires k in goal && k !in done
    requires Legal(goal, s, log) && Replay(log, s) == State(Shaped(goal, s, done), s.ledger)
    ensures var log' := SettlingKey(goal, s.rows, k, log);
      Legal(goal, s, log') && Replay(log', s) == State(Shaped(goal, s, done + {k}), s.ledger)
  {
    if !Claimable(s.rows, k) {
      ShapedSkip(goal, s, done, k);
    } else if Found(s.rows, k).None? {
      FoundInShaped(goal, s, done, k);
      ShapedCreate(goal, s, done, k);
    } else {
      ShapedMend(goal, s, done, k);
      MendingIsLegal(goal, s, Shaped(goal, s, done), Found(s.rows, k).value, log);
    }
  }

  lemma {:induction false} MendingIsLegal(goal: Goal, s: State, t: Table, m: string, log: Log)
    requires Mendable(goal, t, m)
    requires Legal(goal, s, log) && Replay(log, s) == State(t, s.ledger)
    ensures var log' := Enabling(m, t[m], Repricing(goal[Fold(m)], m, t[m], log));
      Legal(goal, s, log') && Replay(log', s) == State(t[m := Mended(t[m], goal[Fold(m)])], s.ledger)
  {
    var e := goal[Fold(m)];
    PricingLegal(goal, s, t, m, log);
    var t' := t[m := t[m].(pricing := if e.price != "" then e.price else t[m].pricing)];
    EnablingLegal(goal, s, t', m, Repricing(e, m, t[m], log));
    assert t'[m := t'[m].(disabled := false)] == t[m := Mended(t[m], e)];
  }

  /** The first `n` names, as a set. */
  ghost function Firsts(names: seq<string>, n: nat): set<string>
    requires n <= |names|
  {
    if n == 0 then {} else Firsts(names, n - 1) + {names[n - 1]}
  }

  lemma {:induction false} FirstsMembers(names: seq<string>, n: nat, k: string)
    requires n <= |names|
    ensures k in Firsts(names, n) <==> exists i :: 0 <= i < n && names[i] == k
  {
    if n > 0 { FirstsMembers(names, n - 1, k); }
  }

  lemma {:induction false} SettlingsAreLegal(goal: Goal, s: State, order: seq<string>, i: nat, log: Log)
    requires Distinct(order) && i <= |order| && forall k :: k in order ==> k in goal
    requires Legal(goal, s, log) && Replay(log, s) == State(Shaped(goal, s, {}), s.ledger)
    ensures var log' := Settlings(goal, s.rows, order, i, log);
      Legal(goal, s, log') && Replay(log', s) == State(Shaped(goal, s, Firsts(order, i)), s.ledger)
  {
    if i > 0 {
      SettlingsAreLegal(goal, s, order, i - 1, log);
      FirstsMembers(order, i - 1, order[i - 1]);
      SettlingIsLegal(goal, s, Firsts(order, i - 1), order[i - 1], Settlings(goal, s.rows, order, i - 1, log));
    }
  }

  ghost predicate Orders(order: seq<string>, goal: Goal) {
    Distinct(order) && forall k :: k in order <==> k in goal
  }

  /** The plan touches only what is ours, step by step, and ends at the target. */
  lemma {:induction false} PlanReachesTarget(goal: Goal, s: State, listing: seq<string>, order: seq<string>)
    requires IsListing(listing, s.rows) && Orders(order, goal)
    ensures Legal(goal, s, Plan(goal, s, listing, order))
    ensures Replay(Plan(goal, s, listing, order), s) == Target(goal, s)
  {
    SettledRowsAreTarget(goal, s, listing, order);
    var log := Settlings(goal, s.rows, order, |order|, Reclaims(goal, s, listing, |listing|, Empty));
    LegalKeepsTarget(goal, s, log);
    SavingReachesTarget(goal, s, log);
  }

  lemma {:induction false} SettledRowsAreTarget(goal: Goal, s: State, listing: seq<string>, order: seq<string>)
    requires IsListing(listing, s.rows) && Orders(order, goal)
    ensures var log := Settlings(goal, s.rows, order, |order|, Reclaims(goal, s, listing, |listing|, Empty));
      Legal(goal, s, log) && Replay(log, s) == State(TargetRows(goal, s), s.ledger)
  {
    ListingDistinct(listing, s.rows);
    ReclaimsAreLegal(goal, s, listing, |listing|);
    assert listing[..|listing|] == listing;
    var log := Reclaims(goal, s, listing, |listing|, Empty);
    ReclaimedShape(goal, s, Replay(log, s).rows);
    SettlingsAreLegal(goal, s, order, |order|, log);
    AllFirsts(goal, order);
  }

  lemma {:induction false} AllFirsts(goal: Goal, order: seq<string>)
    requires Orders(order, goal)
    ensures Firsts(order, |order|) == goal.Keys
  {
    forall k ensures k in Firsts(order, |order|) <==> k in goal { FirstsMembers(order, |order|, k); }
  }

  lemma {:induction false} SavingReachesTarget(goal: Goal, s: State, log: Log)
    requires Legal(goal, s, log) && Replay(log, s) == State(TargetRows(goal, s), s.ledger)
    requires Target(goal, Replay(log, s)) == Target(goal, s)
    ensures Legal(goal, s, Saving(goal, s, log)) && Replay(Saving(goal, s, log), s) == Target(goal, s)
  {
  }

  lemma ListingDistinct(listing: seq<string>, rows: Table)
    requires IsListing(listing, rows)
    ensures Distinct(listing)
  {
    forall i, j | 0 <= i < j < |listing| ensures listing[i] != listing[j] { BeforeIrreflexive(listing[i]); }
  }

  // ---- the run itself ----

  /** Since it held `base`, the store has taken exactly the writes of `log`. */
  ghost predicate Wrote(st: ModelStore, journal0: Log, left0: nat, base: State, log: Log)
    reads st
  {
    st.journal == Concat(journal0, log) && st.writesLeft + Length(log) == left0 && st.Now() == Replay(log, base)
  }

  lemma {:induction false} ReclaimsGrow(goal: Goal, seen: State, listing: seq<string>, i: nat, n: nat, log: Log)
    requires i <= n <= |listing|
    ensures CutOf(Reclaims(goal, seen, listing, i, log), Reclaims(goal, seen, listing, n, log))
  {
    if i < n { ReclaimsGrow(goal, seen, listing, i, n - 1, log); }
  }

  lemma {:induction false} SettlingsGrow(goal: Goal, rows: Table, order: seq<string>, i: nat, n: nat, log: Log)
    requires i <= n <= |order|
    ensures CutOf(Settlings(goal, rows, order, i, log), Settlings(goal, rows, order, n, log))
  {
    if i < n {
      SettlingsGrow(goal, rows, order, i, n - 1, log);
      var a, b := Settlings(goal, rows, order, n - 1, log), Settlings(goal, rows, order, n, log);
      assert CutOf(a, b);
      CutTrans(Settlings(goal, rows, order, i, log), a, b);
    }
  }

  /** Reclaims every row of ours the catalogue no longer wants, in listing order. */
  method Reclaim(st: ModelStore, want: map<string, Want>, owned: set<string>, models: Table, listing: seq<string>,
                 ghost goal: Goal, ghost journal0: Log, ghost left0: nat, ghost base: State)
    returns (removed: nat, ok: bool, ghost log: Log)
    requires IsListing(listing, models) && want.Keys == goal.Keys
    requires Wrote(st, journal0, left0, base, Empty)
    modifies st
    ensures Wrote(st, journal0, left0, base, log)
    ensures CutOf(log, Reclaims(goal, State(models, owned), listing, |listing|, Empty))
    ensures ok ==> log == Reclaims(goal, State(models, owned), listing, |listing|, Empty)
    ensures !ok ==> st.writesLeft == 0
    ensures removed == Length(log)
  {
    removed, log := 0, Empty;
    ghost var seen := State(models, owned);
    for i := 0 to |listing|
      invariant Wrote(st, journal0, left0, base, log)
      invariant log == Reclaims(goal, seen, listing, i, Empty) && removed == Length(log)
    {
      var n := listing[i];
      var key := Fold(n);
      assert n in listing;
      ReclaimsGrow(goal, seen, listing, i, |listing|, Empty);
      if key in want || !(Bare(models[n]) && key in owned) { continue; }
      ok := st.Commit(Delete(n));
      if !ok { return; }
      removed, log := removed + 1, Then(log, Delete(n));
    }
    ok := true;
  }

  /** Creates the row, or reprices and enables it; stops at the first write that fails. */
  method EnsureAgentTextModel(st: ModelStore, e: Entry, found: Option<string>, models: Table,
                              ghost journal0: Log, ghost left0: nat, ghost base: State, ghost log0: Log)
    returns (created: bool, updated: bool, ok: bool, ghost log: Log)
    requires found.Some? ==> found.value in models
    requires Wrote(st, journal0, left0, base, log0)
    modifies st
    ensures Wrote(st, journal0, left0, base, log)
    ensures CutOf(log, Settling(e, found, models, log0))
    ensures ok ==> log == Settling(e, found, models, log0)
    ensures !ok ==> st.writesLeft == 0
    ensures created <==> ok && found.None?
    ensures ok ==> (updated <==> found.Some? && Settling(e, found, models, Empty) != Empty)
  {
    created, updated, ok, log := false, false, true, log0;
    match found {
      case None =>
        ok := st.Commit(Create(e.name, NewRow(e)));
        if !ok { return; }
        created, log := true, Then(log, Create(e.name, NewRow(e)));
      case Some(name) =>
        if e.price != "" && e.price != models[name].pricing {
          ok := st.Commit(SetPricing(name, e.price));
          if !ok { return; }
          updated, log := true, Then(log, SetPricing(name, e.price));
        }
        if models[name].disabled {
          ok := st.Commit(Enable(name));
          if !ok { return; }
          updated, log := true, Then(log, Enable(name));
        }
    }
  }

  /** One wanted name: skipped when another kind of row or a sourced row stands under it, otherwise claimed and settled. */
  method SettleOne(st: ModelStore, key: string, e: Entry, m: Option<string>, models: Table,
                   ghost goal: Goal, ghost journal0: Log, ghost left0: nat, ghost base: State, ghost log0: Log)
    returns (claimed: bool, created: bool, updated: bool, ok: bool, ghost log: Log)
    requires key in goal && goal[key] == e && m == Found(models, key)
    requires Wrote(st, journal0, left0, base, log0)
    modifies st
    ensures Wrote(st, journal0, left0, base, log)
    ensures CutOf(log, SettlingKey(goal, models, key, log0))
    ensures ok ==> log == SettlingKey(goal, models, key, log0)
    ensures !ok ==> st.writesLeft == 0
    ensures claimed <==> Claimable(models, key)
    ensures ok ==> (created <==> Found(models, key).None?)
    ensures ok ==> (updated <==> NeedsMending(goal, models, key))
  {
    claimed, created, updated, ok, log := false, false, false, true, log0;
    if m.Some? && (!models[m.value].kind.TextKind? || models[m.value].sources != []) { return; }
    claimed := true;
    created, updated, ok, log := EnsureAgentTextModel(st, e, m, models, journal0, left0, base, log0);
  }

  lemma {:induction false} SettlingsCut(goal: Goal, rows: Table, order: seq<string>, i: nat, log0: Log, log: Log)
    requires i <= |order| && CutOf(log, Settlings(goal, rows, order, i, log0))
    ensures CutOf(log, Settlings(goal, rows, order, |order|, log0))
  {
    SettlingsGrow(goal, rows, order, i, |order|, log0);
    CutTrans(log, Settlings(goal, rows, order, i, log0), Settlings(goal, rows, order, |order|, log0));
  }

  /** Creates or repairs a row for every wanted name that is free or ours, in catalogue order. */
  method Settle(st: ModelStore, doc: Doc, want: map<string, Want>, order: seq<string>, byName: map<string, string>, models: Table,
                ghost goal: Goal, ghost journal0: Log, ghost left0: nat, ghost base: State, ghost log0: Log)
    returns (mine: set<string>, created: nat, updated: nat, ok: bool, ghost log: Log)
    requires forall k :: k in want ==> k in goal && goal[k] == Entry(want[k].name, PriceFor(doc, want[k]))
    requires forall k :: k in order ==> k in want
    requires forall k :: Found(models, k) == if k in byName then Some(byName[k]) else None
    requires Wrote(st, journal0, left0, base, log0)
    modifies st
    ensures Wrote(st, journal0, left0, base, log)
    ensures CutOf(log, Settlings(goal, models, order, |order|, log0))
    ensures ok ==> log == Settlings(goal, models, order, |order|, log0)
    ensures ok ==> mine == ClaimsIn(models, order, |order|)
    ensures ok ==> created == CreatedIn(models, order, |order|) && updated == MendedIn(goal, models, order, |order|)
    ensures !ok ==> st.writesLeft == 0
  {
    mine, created, updated, log, ok := {}, 0, 0, log0, true;
    for i := 0 to |order|
      invariant Wrote(st, journal0, left0, base, log)
      invariant log == Settlings(goal, models, order, i, log0)
      invariant mine == ClaimsIn(models, order, i)
      invariant created == CreatedIn(models, order, i) && updated == MendedIn(goal, models, order, i)
    {
      var key := order[i];
      assert key in order;
      var m := if key in byName then Some(byName[key]) else None;
      var claimed, c, u;
      claimed, c, u, ok, log := SettleOne(st, key, Entry(want[key].name, PriceFor(doc, want[key])), m, models,
                                          goal, journal0, left0, base, log);
      if !ok {
        SettlingsCut(goal, models, order, i + 1, log0, log);
        return;
      }
      TalliesGrow(goal, models, order, i);
      mine := if claimed then mine + {key} else mine;
      created, updated := created + (if c then 1 else 0), updated + (if u then 1 else 0);
    }
  }

  /** Indexes the listing by folded name: a later row of the same folded name replaces an earlier one. */
  method IndexByName(listing: seq<string>, ghost rows: Table) returns (byName: map<string, string>)
    requires IsListing(listing, rows)
    ensures forall k :: Found(rows, k) == if k in byName then Some(byName[k]) else None
  {
    byName := map[];
    for i := 0 to |listing|
      invariant forall k :: k in byName ==> Fold(byName[k]) == k && byName[k] in listing[..i]
      invariant forall j :: 0 <= j < i ==> Fold(listing[j]) in byName
      invariant forall j :: 0 <= j < i ==> var n := byName[Fold(listing[j])]; listing[j] == n || Before(listing[j], n)
    {
      var n := listing[i];
      forall j | 0 <= j < i && Fold(listing[j]) == Fold(n) ensures Before(listing[j], n) {}
      byName := byName[Fold(n) := n];
    }
    assert listing[..|listing|] == listing;
    forall k ensures Found(rows, k) == if k in byName then Some(byName[k]) else None {
      IndexFinds(listing, rows, byName, k);
    }
  }

  lemma IndexFinds(listing: seq<string>, rows: Table, byName: map<string, string>, k: string)
    requires IsListing(listing, rows)
    requires forall k :: k in byName ==> Fold(byName[k]) == k && byName[k] in listing
    requires forall j :: 0 <= j < |listing| ==> Fold(listing[j]) in byName
    requires forall j :: 0 <= j < |listing| ==> var n := byName[Fold(listing[j])]; listing[j] == n || Before(listing[j], n)
    ensures Found(rows, k) == if k in byName then Some(byName[k]) else None
  {
    forall m | Holds(rows, k, m) ensures k in byName && (m == byName[k] || Before(m, byName[k])) {
      var j :| 0 <= j < |listing| && listing[j] == m;
    }
    if k in byName {
      assert Represents(rows, k, byName[k]);
      RepresentativeUnique(rows, k, byName[k]);
    }
  }

  ghost function Reclaimed(goal: Goal, seen: State, listing: seq<string>): Log {
    Reclaims(goal, seen, listing, |listing|, Empty)
  }

  ghost function Settled(goal: Goal, seen: State, listing: seq<string>, order: seq<string>): Log {
    Settlings(goal, seen.rows, order, |order|, Reclaimed(goal, seen, listing))
  }

  /** How far a run got: all the rows settled when it reports success, everything when the medium still takes writes. */
  ghost predicate Got(goal: Goal, seen: State, listing: seq<string>, order: seq<string>, log: Log, ok: bool, exhausted: bool) {
    var plan := Plan(goal, seen, listing, order);
    && CutOf(log, plan)
    && (ok ==> log == plan || (exhausted && log == Settled(goal, seen, listing, order)))
    && (!ok ==> exhausted)
  }

  lemma {:induction false} PlanCuts(goal: Goal, seen: State, listing: seq<string>, order: seq<string>, log: Log)
    requires CutOf(log, Reclaimed(goal, seen, listing)) || CutOf(log, Settled(goal, seen, listing, order))
    ensures CutOf(log, Plan(goal, seen, listing, order))
  {
    var r, s := Reclaimed(goal, seen, listing), Settled(goal, seen, listing, order);
    SettlingsGrow(goal, seen.rows, order, 0, |order|, r);
    if CutOf(log, r) { CutTrans(log, r, s); }
    CutTrans(log, s, Plan(goal, seen, listing, order));
  }

  lemma {:induction false} ClaimsCollected(goal: Goal, rows: Table, order: seq<string>)
    requires Orders(order, goal)
    ensures ClaimsIn(rows, order, |order|) == Claims(goal, rows)
  {
    assert order[..|order|] == order;
    forall k ensures k in ClaimsIn(rows, order, |order|) <==> k in Claims(goal, rows) {
      ClaimsInMembers(rows, order, |order|, k);
    }
  }

  /** The three phases: reclaim, settle, and the ledger when it changed. */
  method Reconcile(st: ModelStore, doc: Doc, want: map<string, Want>, order: seq<string>, owned: set<string>,
      listing: seq<string>, ghost goal: Goal)
    returns (res: Tally, ok: bool, ghost log: Log)
    requires IsListing(listing, st.rows)
    requires goal.Keys == want.Keys && forall k :: k in want ==> goal[k] == Entry(want[k].name, PriceFor(doc, want[k]))
    requires Orders(order, goal)
    modifies st
    ensures Wrote(st, old(st.journal), old(st.writesLeft), old(st.Now()), log)
    ensures Got(goal, State(old(st.rows), owned), listing, order, log, ok, st.writesLeft == 0)
    ensures ok ==> res == Tally(CreatedIn(old(st.rows), order, |order|), MendedIn(goal, old(st.rows), order, |order|),
                                Length(Reclaimed(goal, State(old(st.rows), owned), listing)))
  {
    ghost var journal0, left0, base, seen := st.journal, st.writesLeft, st.Now(), State(st.rows, owned);
    var models := st.rows;
    var byName := IndexByName(listing, models);
    var removed, created, updated, mine;
    removed, ok, log := Reclaim(st, want, owned, models, listing, goal, journal0, left0, base);
    res := Tally(0, 0, removed);
    PlanCuts(goal, seen, listing, order, log);
    if !ok { return; }
    mine, created, updated, ok, log := Settle(st, doc, want, order, byName, models, goal, journal0, left0, base, log);
    res := Tally(created, updated, removed);
    PlanCuts(goal, seen, listing, order, log);
    if !ok { return; }
    ClaimsCollected(goal, models, order);
    if owned != mine {
      var saved := st.Commit(SaveLedger(mine));
      if saved { log := Then(log, SaveLedger(mine)); }
    }
  }

  /**
   Reconciles once. `accounts` and `listing` are what the two list operations answered
   (None when they failed), `ledgerReadable` whether the ledger setting could be read.
   */
  method SyncAgentModels(st: ModelStore, doc: Doc, accounts: Option<set<Provider>>, ledgerReadable: bool, listing: Option<seq<string>>)
    returns (res: Tally, ok: bool, ghost log: Log, order: seq<string>)
    requires listing.Some? ==> IsListing(listing.value, st.rows)
    modifies st
    ensures Wrote(st, old(st.journal), old(st.writesLeft), old(st.Now()), log)
    ensures accounts.None? || listing.None? ==> !ok && log == Empty
    ensures accounts.Some? && listing.Some? ==>
      var goal := GoalOf(doc, accounts.value);
      var seen := State(old(st.rows), if ledgerReadable then old(st.ledger) else {});
      && Orders(order, goal)
      && Got(goal, seen, listing.value, order, log, ok, st.writesLeft == 0)
      && (ok ==> res == Tally(CreatedIn(seen.rows, order, |order|),
          MendedIn(goal, seen.rows, order, |order|), Length(Reclaimed(goal, seen, listing.value))))
  {
    res, ok, log, order := Tally(0, 0, 0), false, Empty, [];
    if accounts.None? { return; }
    var connected := accounts.value;
    var want;
    want, order := WantedAgentModels(doc, connected);
    GoalFromWanted(doc, connected, want, order);
    var owned := if ledgerReadable then st.ledger else {};
    if listing.None? { return; }
    res, ok, log := Reconcile(st, doc, want, order, owned, listing.value, GoalOf(doc, connected));
  }
}
