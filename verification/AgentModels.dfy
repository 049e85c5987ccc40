/**
 The reconciler that keeps the subscription model rows equal to "catalogue crossed with
 connected subscriptions": reclaim, then create or repair, then write the ledger.
 The table is keyed by exact name (names are unique in the store, letter case included),
 while the catalogue is matched by folded name, so several rows may share a folded name.
 */
module AgentModels {
  import opened AgentCatalog
  import opened Options
  import opened Text

  datatype Source = Source(catalogID: string, adapter: string)
  datatype Row = Row(kind: Kind, sources: seq<Source>, disabled: bool, pricing: string)
  type Table = map<string, Row>

  /** Model rows by exact name, and the ledger of folded names the reconciler made or claimed. */
  datatype State = State(rows: Table, ledger: set<string>)

  /** The writes a run may make, one store operation each. */
  datatype Write =
    | Delete(name: string)
    | Create(name: string, row: Row)
    | SetPricing(name: string, text: string)
    | Enable(name: string)
    | SaveLedger(names: set<string>)

  function Apply(w: Write, s: State): State {
    match w
    case Delete(n) => s.(rows := s.rows - {n})
    case Create(n, row) => s.(rows := s.rows[n := row])
    case SetPricing(n, text) => if n in s.rows then s.(rows := s.rows[n := s.rows[n].(pricing := text)]) else s
    case Enable(n) => if n in s.rows then s.(rows := s.rows[n := s.rows[n].(disabled := false)]) else s
    case SaveLedger(names) => s.(ledger := names)
  }

  /** Writes in the order they were made, the latest outermost. */
  datatype Log = Empty | Then(front: Log, last: Write)

  /** The state after the writes of a log. */
  function Replay(log: Log, s: State): State {
    match log
    case Empty => s
    case Then(front, w) => Apply(w, Replay(front, s))
  }

  function Length(log: Log): nat {
    match log
    case Empty => 0
    case Then(front, _) => Length(front) + 1
  }

  function Concat(a: Log, b: Log): Log {
    match b
    case Empty => a
    case Then(front, w) => Then(Concat(a, front), w)
  }

  /** `a` is what `b` looked like at some earlier point. */
  predicate CutOf(a: Log, b: Log) {
    a == b || (b.Then? && CutOf(a, b.front))
  }

  // ---- who owns what ----

  /** A text row with no API source attached. */
  predicate Bare(r: Row) {
    r.kind.TextKind? && r.sources == []
  }

  /** A row the reconciler owns and the catalogue no longer wants. */
  predicate Doomed(goal: Goal, s: State, n: string) {
    n in s.rows && Fold(n) !in goal && Bare(s.rows[n]) && Fold(n) in s.ledger
  }

  ghost predicate Holds(rows: Table, k: string, n: string) {
    n in rows && Fold(n) == k
  }

  /** The row found under a folded name: the last one the listing shows. */
  ghost predicate Represents(rows: Table, k: string, n: string) {
    Holds(rows, k, n) && forall m :: Holds(rows, k, m) ==> m == n || Before(m, n)
  }

  ghost function Found(rows: Table, k: string): (r: Option<string>)
    ensures r.None? <==> forall n :: !Holds(rows, k, n)
    ensures r.Some? ==> Represents(rows, k, r.value)
  {
    if n :| Holds(rows, k, n) then
      RepresentativeExists(rows, k, n);
      var last :| Represents(rows, k, last);
      Some(last)
    else None
  }

  lemma RepresentativeExists(rows: Table, k: string, n: string)
    requires Holds(rows, k, n)
    ensures exists last :: Represents(rows, k, last)
  {
    var names := set m | m in rows && Fold(m) == k;
    assert n in names;
    var last := LastExists(names);
    forall m | Holds(rows, k, m) ensures m == last || Before(m, last) { assert m in names; }
    assert Represents(rows, k, last);
  }

  lemma RepresentativeUnique(rows: Table, k: string, n: string)
    requires Represents(rows, k, n)
    ensures Found(rows, k) == Some(n)
  {
    var r := Found(rows, k);
    assert Holds(rows, k, n);
    if r.value != n { BeforeAsymmetric(r.value, n); }
  }

  /** The representative of a folded name depends only on which names carry it. */
  lemma FoundDependsOnNames(rows1: Table, rows2: Table, k: string)
    requires forall n :: Holds(rows1, k, n) <==> Holds(rows2, k, n)
    ensures Found(rows1, k) == Found(rows2, k)
  {
    match Found(rows1, k)
    case None =>
    case Some(n) =>
      assert Represents(rows2, k, n);
      RepresentativeUnique(rows2, k, n);
  }

  /** A wanted name is ours unless another kind of row, or a sourced one, stands under it. */
  ghost predicate Claimable(rows: Table, k: string) {
    match Found(rows, k)
    case None => true
    case Some(n) => Bare(rows[n])
  }

  /** The ledger a completed run leaves. */
  ghost function Claims(goal: Goal, rows: Table): set<string> {
    set k | k in goal && Claimable(rows, k)
  }

  // ---- the target of a run ----

  function NewRow(e: Entry): Row {
    Row(TextKind, [], false, e.price)
  }

  /** Enabled, and carrying the catalogue price whenever the catalogue has one. */
  function Mended(r: Row, e: Entry): Row {
    r.(disabled := false, pricing := if e.price != "" then e.price else r.pricing)
  }

  ghost predicate Mendable(goal: Goal, rows: Table, n: string) {
    n in rows && Fold(n) in goal && Found(rows, Fold(n)) == Some(n) && Bare(rows[n])
  }

  ghost function Missing(goal: Goal, rows: Table, done: set<string>): set<string> {
    set k | k in done && k in goal && Found(rows, k).None? :: goal[k].name
  }

  ghost function ShapedRow(goal: Goal, rows: Table, done: set<string>, n: string): Row
    requires n in rows || n in Missing(goal, rows, done)
  {
    if n !in rows then NewRow(goal[Fold(n)])
    else if Mendable(goal, rows, n) && Fold(n) in done then Mended(rows[n], goal[Fold(n)])
    else rows[n]
  }

  /** The table once every doomed row is gone and the wanted names in `done` are settled. */
  ghost function Shaped(goal: Goal, s: State, done: set<string>): Table {
    map n | n in s.rows.Keys + Missing(goal, s.rows, done) && !Doomed(goal, s, n) :: ShapedRow(goal, s.rows, done, n)
  }

  ghost function TargetRows(goal: Goal, s: State): Table {
    Shaped(goal, s, goal.Keys)
  }

  /** What an uninterrupted run leaves behind. */
  ghost function Target(goal: Goal, s: State): State {
    State(TargetRows(goal, s), Claims(goal, s.rows))
  }

  // ---- writes a run is entitled to ----

  /** A write that moves the state toward its target and touches nothing that is not ours. */
  ghost predicate Rightful(goal: Goal, s: State, w: Write) {
    match w
    case Delete(n) => Doomed(goal, s, n)
    case Create(n, row) => Fold(n) in goal && Found(s.rows, Fold(n)).None? && n == goal[Fold(n)].name && row == NewRow(goal[Fold(n)])
    case SetPricing(n, text) => Mendable(goal, s.rows, n) && text == goal[Fold(n)].price != "" && text != s.rows[n].pricing
    case Enable(n) => Mendable(goal, s.rows, n) && s.rows[n].disabled
    case SaveLedger(names) => names == Claims(goal, s.rows) && names != s.ledger && s.rows == TargetRows(goal, s)
  }

  /** Every write of the log is rightful when it is made. */
  ghost predicate Legal(goal: Goal, s: State, log: Log) {
    match log
    case Empty => true
    case Then(front, w) => Legal(goal, s, front) && Rightful(goal, Replay(front, s), w)
  }

  lemma DeleteKeepsTarget(goal: Goal, s: State, n: string)
    requires Rightful(goal, s, Delete(n))
    ensures Target(goal, Apply(Delete(n), s)) == Target(goal, s)
  {
    var s' := Apply(Delete(n), s);
    forall k | k in goal ensures Found(s'.rows, k) == Found(s.rows, k) {
      FoundDependsOnNames(s'.rows, s.rows, k);
    }
    DeleteKeepsRows(goal, s, n);
    assert Claims(goal, s'.rows) == Claims(goal, s.rows);
  }

  lemma DeleteKeepsRows(goal: Goal, s: State, n: string)
    requires Rightful(goal, s, Delete(n))
    requires var s' := Apply(Delete(n), s); forall k :: k in goal ==> Found(s'.rows, k) == Found(s.rows, k)
    ensures TargetRows(goal, Apply(Delete(n), s)) == TargetRows(goal, s)
  {
    var s' := Apply(Delete(n), s);
    assert Missing(goal, s'.rows, goal.Keys) == Missing(goal, s.rows, goal.Keys);
    forall m ensures m in TargetRows(goal, s') <==> m in TargetRows(goal, s) {}
  }

  lemma CreateKeepsTarget(goal: Goal, s: State, n: string, row: Row)
    requires Rightful(goal, s, Create(n, row))
    ensures Target(goal, Apply(Create(n, row), s)) == Target(goal, s)
  {
    var key := Fold(n);
    var s' := Apply(Create(n, row), s);
    assert Holds(s'.rows, key, n);
    assert Represents(s'.rows, key, n) by {
      forall m | Holds(s'.rows, key, m) ensures m == n { assert m != n ==> Holds(s.rows, key, m); }
    }
    RepresentativeUnique(s'.rows, key, n);
    forall k | k != key ensures Found(s'.rows, k) == Found(s.rows, k) {
      FoundDependsOnNames(s'.rows, s.rows, k);
    }
    assert Claims(goal, s'.rows) == Claims(goal, s.rows);
    CreateKeepsRows(goal, s, n, row);
  }

  lemma CreateKeepsRows(goal: Goal, s: State, n: string, row: Row)
    requires Rightful(goal, s, Create(n, row))
    requires Found(Apply(Create(n, row), s).rows, Fold(n)) == Some(n)
    requires forall k :: k != Fold(n) ==> Found(Apply(Create(n, row), s).rows, k) == Found(s.rows, k)
    ensures TargetRows(goal, Apply(Create(n, row), s)) == TargetRows(goal, s)
  {
    var s' := Apply(Create(n, row), s);
    assert n in Missing(goal, s.rows, goal.Keys);
    assert !Holds(s.rows, Fold(n), n);
    forall m ensures m in TargetRows(goal, s') <==> m in TargetRows(goal, s) {}
    forall m | m in TargetRows(goal, s) ensures TargetRows(goal, s')[m] == TargetRows(goal, s)[m] {
      if m == n { assert Mended(row, goal[Fold(n)]) == row; }
    }
  }

  /** Changing only price or switch of a row the run may mend leaves the target alone. */
  lemma MendKeepsTarget(goal: Goal, s: State, n: string, row: Row)
    requires Mendable(goal, s.rows, n)
    requires row.kind == s.rows[n].kind && row.sources == s.rows[n].sources
    requires Mended(row, goal[Fold(n)]) == Mended(s.rows[n], goal[Fold(n)])
    ensures Target(goal, s.(rows := s.rows[n := row])) == Target(goal, s)
  {
    var s' := s.(rows := s.rows[n := row]);
    forall k ensures Found(s'.rows, k) == Found(s.rows, k) {
      FoundDependsOnNames(s'.rows, s.rows, k);
    }
    assert Claims(goal, s'.rows) == Claims(goal, s.rows);
    assert TargetRows(goal, s').Keys == TargetRows(goal, s).Keys;
    assert TargetRows(goal, s') == TargetRows(goal, s);
  }

  /** Once a run has settled its rows, writing the ledger makes the target the present state. */
  lemma SaveKeepsTarget(goal: Goal, s: State, names: set<string>)
    requires Rightful(goal, s, SaveLedger(names))
    ensures Target(goal, Apply(SaveLedger(names), s)) == Target(goal, s) == Apply(SaveLedger(names), s)
  {
    var s' := Apply(SaveLedger(names), s);
    assert forall n :: n in s.rows ==> !Doomed(goal, s, n);
    assert TargetRows(goal, s') == TargetRows(goal, s);
  }

  lemma RightfulKeepsTarget(goal: Goal, s: State, w: Write)
    requires Rightful(goal, s, w)
    ensures Target(goal, Apply(w, s)) == Target(goal, s)
  {
    match w
    case Delete(n) => DeleteKeepsTarget(goal, s, n);
    case Create(n, row) => CreateKeepsTarget(goal, s, n, row);
    case SetPricing(n, text) => MendKeepsTarget(goal, s, n, s.rows[n].(pricing := text));
    case Enable(n) => MendKeepsTarget(goal, s, n, s.rows[n].(disabled := false));
    case SaveLedger(names) => SaveKeepsTarget(goal, s, names);
  }

  /** Wherever a run is stopped, the target has not moved. */
  lemma {:induction false} LegalKeepsTarget(goal: Goal, s: State, log: Log)
    requires Legal(goal, s, log)
    ensures Target(goal, Replay(log, s)) == Target(goal, s)
  {
    match log
    case Empty =>
    case Then(front, w) =>
      LegalKeepsTarget(goal, s, front);
      RightfulKeepsTarget(goal, Replay(front, s), w);
  }

  /** A reconciled table stays as it is: the target is its own target. */
  lemma TargetIsSettled(goal: Goal, s: State)
    ensures Target(goal, Target(goal, s)) == Target(goal, s)
  {
    var t := Target(goal, s);
    SettledClaims(goal, s);
    forall n | n in t.rows ensures n in TargetRows(goal, t) && TargetRows(goal, t)[n] == t.rows[n] {
      assert !Doomed(goal, t, n);
      if Mendable(goal, t.rows, n) { SettledRow(goal, s, n); }
    }
    assert TargetRows(goal, t) == t.rows;
  }

  lemma SettledClaims(goal: Goal, s: State)
    ensures var t := TargetRows(goal, s); Claims(goal, t) == Claims(goal, s.rows) && Missing(goal, t, goal.Keys) == {}
  {
    var t := TargetRows(goal, s);
    forall k | k in goal ensures Claimable(t, k) == Claimable(s.rows, k) && Found(t, k).Some? {
      FoundInTarget(goal, s, k);
      var n := Found(t, k).value;
      if Found(s.rows, k).None? { assert !Holds(s.rows, k, n); }
    }
  }

  lemma SettledRow(goal: Goal, s: State, n: string)
    requires n in TargetRows(goal, s) && Mendable(goal, TargetRows(goal, s), n)
    ensures var r := TargetRows(goal, s)[n]; Mended(r, goal[Fold(n)]) == r
  {
    var k := Fold(n);
    FoundInTarget(goal, s, k);
    if Found(s.rows, k).Some? {
      assert n in s.rows && Mendable(goal, s.rows, n);
    } else {
      assert !Holds(s.rows, k, n);
    }
  }

  lemma FoundInTarget(goal: Goal, s: State, k: string)
    requires k in goal
    ensures var t := TargetRows(goal, s);
      Found(t, k) == (if Found(s.rows, k).None? then Some(goal[k].name) else Found(s.rows, k))
      && t[Found(t, k).value] == ShapedRow(goal, s.rows, goal.Keys, Found(t, k).value)
  {
    var t := TargetRows(goal, s);
    match Found(s.rows, k)
    case None =>
      var n := goal[k].name;
      assert n in Missing(goal, s.rows, goal.Keys);
      forall m | Holds(t, k, m) ensures m == n {
        assert !Holds(s.rows, k, m);
        var k' :| k' in goal && Found(s.rows, k').None? && goal[k'].name == m;
      }
      assert Holds(t, k, n);
      RepresentativeUnique(t, k, n);
    case Some(n) =>
      forall m ensures Holds(t, k, m) <==> Holds(s.rows, k, m) {}
      FoundDependsOnNames(t, s.rows, k);
  }

  /** In a settled state no write is rightful. */
  lemma SettledAllowsNothing(goal: Goal, s: State, w: Write)
    requires Target(goal, s) == s
    ensures !Rightful(goal, s, w)
  {
    match w
    case Create(n, _) => if Fold(n) in goal { assert n in s.rows ==> Holds(s.rows, Fold(n), n); }
    case Delete(_) =>
    case SetPricing(_, _) =>
    case Enable(_) =>
    case SaveLedger(_) =>
  }

  /** So a second run over a settled state makes no write at all, not even of the ledger. */
  lemma {:induction false} SettledMeansQuiet(goal: Goal, s: State, log: Log)
    requires Target(goal, s) == s
    requires Legal(goal, s, log)
    ensures log == Empty
  {
    if log.Then? {
      SettledMeansQuiet(goal, s, log.front);
      SettledAllowsNothing(goal, s, log.last);
    }
  }

  lemma {:induction false} LegalCut(goal: Goal, s: State, log: Log, cut: Log)
    requires Legal(goal, s, log) && CutOf(cut, log)
    ensures Legal(goal, s, cut)
  {
    if cut != log { LegalCut(goal, s, log.front, cut); }
  }

  lemma {:induction false} CutTrans(a: Log, b: Log, c: Log)
    requires CutOf(a, b) && CutOf(b, c)
    ensures CutOf(a, c)
  {
    if b != c { CutTrans(a, b, c.front); }
  }

  // ---- the store ----

  /**
   The model table and the ledger setting. `writesLeft` is how many more writes the
   medium will take before one fails; `journal` is the audit trail of writes that took effect.
   */
  class ModelStore {
    var rows: Table
    var ledger: set<string>
    var writesLeft: nat
    var journal: Log

    constructor (rows: Table, ledger: set<string>, writesLeft: nat)
      ensures this.rows == rows && this.ledger == ledger && this.writesLeft == writesLeft && journal == Empty
    {
      this.rows, this.ledger, this.writesLeft, journal := rows, ledger, writesLeft, Empty;
    }

    ghost function Now(): State
      reads this
    {
      State(rows, ledger)
    }

    /** One store operation: it takes effect and is journalled, or fails and changes nothing. */
    method Commit(w: Write) returns (ok: bool)
      modifies this
      ensures ok <==> old(writesLeft) > 0
      ensures ok ==> Now() == Apply(w, old(Now())) && journal == Then(old(journal), w) && writesLeft == old(writesLeft) - 1
      ensures !ok ==> unchanged(this)
    {
      if writesLeft == 0 { return false; }
      match w {
        case Delete(n) => rows := rows - {n};
        case Create(n, row) => rows := rows[n := row];
        case SetPricing(n, text) => if n in rows { rows := rows[n := rows[n].(pricing := text)]; }
        case Enable(n) => if n in rows { rows := rows[n := rows[n].(disabled := false)]; }
        case SaveLedger(names) => ledger := names;
      }
      writesLeft, journal := writesLeft - 1, Then(journal, w);
      ok := true;
    }
  }

  /** The listing the store returns: every row once, in name order. */
  ghost predicate IsListing(listing: seq<string>, rows: Table) {
    && (forall n :: n in listing <==> n in rows)
    && (forall i, j :: 0 <= i < j < |listing| ==> Before(listing[i], listing[j]))
  }

  /** What a run reports: rows created, repaired and removed. */
  datatype Tally = Tally(created: nat, updated: nat, removed: nat)
}
