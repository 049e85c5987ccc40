/**
 What reconciliation comes to, told in indices of the catalogue file and of the listing alone: which
 names are wanted, under what spelling and at what price, and what becomes of every row.
 */
module AgentOutcome {
  import opened AgentCatalog
  import opened AgentModelRuns
  import opened AgentModelSync
  import opened AgentModels
  import opened Options
  import opened Text

  // ---- the catalogue ----

  /** Entry `j` of section `i` calls for a row under the folded name `k`. */
  ghost predicate ListedAt(agents: seq<Agent>, connected: set<Provider>, k: string, i: int, j: int) {
    && 0 <= i < |agents| && 0 <= j < |agents[i].models|
    && agents[i].provider in connected
    && (agents[i].provider == Codex || agents[i].provider == Grok || agents[i].provider == Claude)
    && agents[i].models[j].nameOk && agents[i].models[j].kind == TextKind && Fold(agents[i].models[j].name) == k
  }

  /** It is the first entry in the file to do so. */
  ghost predicate FirstListedAt(agents: seq<Agent>, connected: set<Provider>, k: string, i: int, j: int) {
    && ListedAt(agents, connected, k, i, j)
    && forall i', j' :: ListedAt(agents, connected, k, i', j') ==> i < i' || (i == i' && j <= j')
  }

  ghost predicate IsFirstSection(agents: seq<Agent>, p: Provider, i: int) {
    0 <= i < |agents| && agents[i].provider == p && forall h :: 0 <= h < i ==> agents[h].provider != p
  }

  ghost predicate IsFirstEntry(models: seq<AgentModel>, k: string, j: int) {
    0 <= j < |models| && Fold(models[j].name) == k && forall h :: 0 <= h < j ==> Fold(models[h].name) != k
  }

  /** The text of a price table that passes validation; anything else counts as no price. */
  ghost predicate Reads(raw: RawPrice, text: string) {
    match raw
    case PriceTable(t) => text == t
    case _ => text == ""
  }

  /** The price of `k` in the first section of `p`: that of the first entry of the name, whatever its kind. */
  ghost predicate PriceIs(agents: seq<Agent>, p: Provider, k: string, price: string) {
    || (exists i, j :: IsFirstSection(agents, p, i) && IsFirstEntry(agents[i].models, k, j) && Reads(agents[i].models[j].price, price))
    || (price == "" && forall i, j :: IsFirstSection(agents, p, i) ==> !IsFirstEntry(agents[i].models, k, j))
  }

  lemma {:induction false} SectionIsFirst(agents: seq<Agent>, p: Provider) returns (i: int)
    ensures AgentSection(agents, p).None? ==> forall h :: 0 <= h < |agents| ==> agents[h].provider != p
    ensures AgentSection(agents, p).Some? ==> IsFirstSection(agents, p, i) && AgentSection(agents, p).value == agents[i]
  {
    i := 0;
    if agents != [] && agents[0].provider != p {
      var h := SectionIsFirst(agents[1..], p);
      assert forall g :: 1 <= g < |agents| ==> agents[g] == agents[1..][g - 1];
      i := h + 1;
    }
  }

  lemma {:induction false} EntryIsFirst(models: seq<AgentModel>, k: string) returns (j: int)
    ensures EntryNamed(models, k).None? ==> forall h :: 0 <= h < |models| ==> Fold(models[h].name) != k
    ensures EntryNamed(models, k).Some? ==> IsFirstEntry(models, k, j) && EntryNamed(models, k).value == models[j]
  {
    j := 0;
    if models != [] && Fold(models[0].name) != k {
      var h := EntryIsFirst(models[1..], k);
      assert forall g :: 1 <= g < |models| ==> models[g] == models[1..][g - 1];
      j := h + 1;
    }
  }

  lemma PriceIsRight(doc: Doc, w: Want)
    ensures PriceIs(doc.agents, w.provider, Fold(w.name), PriceFor(doc, w))
  {
    var i := SectionIsFirst(doc.agents, w.provider);
    if AgentSection(doc.agents, w.provider).Some? {
      var j := EntryIsFirst(doc.agents[i].models, Fold(w.name));
      if EntryNamed(doc.agents[i].models, Fold(w.name)).Some? {
        assert Reads(doc.agents[i].models[j].price, PriceFor(doc, w));
      } else {
        forall i', j' | IsFirstSection(doc.agents, w.provider, i') ensures !IsFirstEntry(doc.agents[i'].models, Fold(w.name), j') {
          assert i' == i;
        }
      }
    }
  }

  /** There is one such price. */
  lemma PriceIsUnique(agents: seq<Agent>, p: Provider, k: string, x: string, y: string)
    requires PriceIs(agents, p, k, x) && PriceIs(agents, p, k, y)
    ensures x == y
  {
    if i, j :| IsFirstSection(agents, p, i) && IsFirstEntry(agents[i].models, k, j) && Reads(agents[i].models[j].price, x) {
      if i', j' :| IsFirstSection(agents, p, i') && IsFirstEntry(agents[i'].models, k, j') && Reads(agents[i'].models[j'].price, y) {
        assert i == i' && j == j';
      }
    }
  }

  lemma {:induction false} FirstAccepted(p: Provider, models: seq<AgentModel>, k: string) returns (j: int)
    requires k in Keys(Accepted(p, models))
    ensures 0 <= j < |models| && models[j].nameOk && models[j].kind == TextKind && Fold(models[j].name) == k
    ensures forall h :: 0 <= h < j && models[h].nameOk && models[h].kind == TextKind ==> Fold(models[h].name) != k
    ensures FirstWith(Accepted(p, models), k) == Want(p, models[j].name)
    decreases |models|
  {
    var n := |models| - 1;
    var m, front := models[n], models[..n];
    var tail := if Admissible(m) then [Want(p, m.name)] else [];
    KeysOfConcat(Accepted(p, front), tail);
    if k in Keys(Accepted(p, front)) {
      j := FirstAccepted(p, front, k);
      FirstOfConcat(Accepted(p, front), tail, k);
    } else {
      j := n;
      AcceptedExactly(p, front, k);
      FirstAfterConcat(Accepted(p, front), tail, k);
      FirstWithAt(tail, k, 0);
    }
  }

  /** What is wanted under a name is what the first entry that calls for it says. */
  lemma {:induction false} FirstWanted(agents: seq<Agent>, connected: set<Provider>, k: string) returns (i: int, j: int)
    requires k in Keys(Candidates(agents, connected))
    ensures FirstListedAt(agents, connected, k, i, j)
    ensures FirstWith(Candidates(agents, connected), k) == Want(agents[i].provider, agents[i].models[j].name)
    decreases |agents|
  {
    var n := |agents| - 1;
    var a, front := agents[n], agents[..n];
    var tail := if Eligible(a, connected) then Accepted(a.provider, a.models) else [];
    KeysOfConcat(Candidates(front, connected), tail);
    if k in Keys(Candidates(front, connected)) {
      i, j := FirstWanted(front, connected, k);
      FirstOfConcat(Candidates(front, connected), tail, k);
      forall i', j' | ListedAt(agents, connected, k, i', j') ensures i < i' || (i == i' && j <= j') {
        if i' < n { assert ListedAt(front, connected, k, i', j'); }
      }
    } else {
      i := n;
      j := FirstAccepted(a.provider, a.models, k);
      FirstAfterConcat(Candidates(front, connected), tail, k);
      NotListedBefore(front, connected, k);
      forall i', j' | ListedAt(agents, connected, k, i', j') ensures i < i' || (i == i' && j <= j') {
        if i' < n { assert ListedAt(front, connected, k, i', j'); }
      }
    }
  }

  lemma {:induction false} NotListedBefore(agents: seq<Agent>, connected: set<Provider>, k: string)
    requires k !in Keys(Candidates(agents, connected))
    ensures forall i, j :: !ListedAt(agents, connected, k, i, j)
  {
    WantedExactly(agents, connected, k);
    forall i, j ensures !ListedAt(agents, connected, k, i, j) {
      if ListedAt(agents, connected, k, i, j) { assert Lists(agents, connected, i, j); }
    }
  }

  /**
   The names a device should have are those some entry calls for; each is spelled as the first such
   entry spells it, and its price is the one its subscription's first section has for the name.
   */
  lemma GoalMeans(doc: Doc, connected: set<Provider>, k: string)
    ensures k in GoalOf(doc, connected) <==> exists i, j :: FirstListedAt(doc.agents, connected, k, i, j)
    ensures (exists i, j :: ListedAt(doc.agents, connected, k, i, j)) ==> exists i, j :: FirstListedAt(doc.agents, connected, k, i, j)
    ensures forall i, j :: FirstListedAt(doc.agents, connected, k, i, j) ==>
      && k in GoalOf(doc, connected) && GoalOf(doc, connected)[k].name == doc.agents[i].models[j].name
      && PriceIs(doc.agents, doc.agents[i].provider, k, GoalOf(doc, connected)[k].price)
  {
    var cs := Candidates(doc.agents, connected);
    if k in Keys(cs) {
      var i, j := FirstWanted(doc.agents, connected, k);
      PriceIsRight(doc, FirstWith(cs, k));
      forall i', j' | FirstListedAt(doc.agents, connected, k, i', j') ensures i' == i && j' == j {}
    } else {
      NotListedBefore(doc.agents, connected, k);
    }
  }

  // ---- the rows ----

  /** Row `l` of the listing is the last to carry the folded name `k`. */
  ghost predicate LastListedAt(listing: seq<string>, k: string, l: int) {
    0 <= l < |listing| && Fold(listing[l]) == k && forall h :: l < h < |listing| ==> Fold(listing[h]) != k
  }

  ghost predicate IsWanted(agents: seq<Agent>, connected: set<Provider>, k: string) {
    exists i, j :: ListedAt(agents, connected, k, i, j)
  }

  /** The row and the claim a run leaves under a wanted name. */
  ghost predicate RowSettled(s: State, t: State, listing: seq<string>, k: string, name: string, price: string)
    requires IsListing(listing, s.rows)
  {
    && ((forall l :: !LastListedAt(listing, k, l)) ==>
          name in t.rows && t.rows[name] == Row(TextKind, [], false, price) && k in t.ledger)
    && forall l :: LastListedAt(listing, k, l) ==>
         var r := s.rows[listing[l]];
         && listing[l] in t.rows
         && (if r.kind == TextKind && r.sources == []
             then t.rows[listing[l]] == Row(TextKind, [], false, if price != "" then price else r.pricing) && k in t.ledger
             else t.rows[listing[l]] == r && k !in t.ledger)
  }

  lemma FoundIsLastListed(rows: Table, listing: seq<string>, k: string)
    requires IsListing(listing, rows)
    ensures forall l :: LastListedAt(listing, k, l) ==> Found(rows, k) == Some(listing[l])
    ensures (forall l :: !LastListedAt(listing, k, l)) <==> Found(rows, k) == None
  {
    forall l | LastListedAt(listing, k, l) ensures Found(rows, k) == Some(listing[l]) {
      LastListedRepresents(rows, listing, k, l);
      RepresentativeUnique(rows, k, listing[l]);
    }
    if Found(rows, k).Some? { var l := FoundIsListed(rows, listing, k); }
  }

  lemma LastListedRepresents(rows: Table, listing: seq<string>, k: string, l: int)
    requires IsListing(listing, rows) && LastListedAt(listing, k, l)
    ensures Represents(rows, k, listing[l])
  {
    forall m | Holds(rows, k, m) ensures m == listing[l] || Before(m, listing[l]) {
      var h :| 0 <= h < |listing| && listing[h] == m;
    }
  }

  lemma FoundIsListed(rows: Table, listing: seq<string>, k: string) returns (l: int)
    requires IsListing(listing, rows) && Found(rows, k).Some?
    ensures LastListedAt(listing, k, l)
  {
    var n := Found(rows, k).value;
    l :| 0 <= l < |listing| && listing[l] == n;
    forall h | l < h < |listing| ensures Fold(listing[h]) != k {
      if Fold(listing[h]) == k {
        assert Holds(rows, k, listing[h]);
        BeforeAsymmetric(listing[l], listing[h]);
      }
    }
  }

  lemma TargetSettles(goal: Goal, s: State, listing: seq<string>, k: string)
    requires IsListing(listing, s.rows) && k in goal
    ensures RowSettled(s, Target(goal, s), listing, k, goal[k].name, goal[k].price)
  {
    FoundIsLastListed(s.rows, listing, k);
    FoundInTarget(goal, s, k);
    if Found(s.rows, k).None? {
      assert !Holds(s.rows, k, goal[k].name);
    }
  }

  /** A run removes a row exactly when it is a bare text row, not wanted, and the ledger has its name. */
  ghost predicate RemovesOnlyOurs(agents: seq<Agent>, connected: set<Provider>, s: State, t: State) {
    forall n :: n in s.rows ==>
      (n !in t.rows <==>
         !IsWanted(agents, connected, Fold(n)) && s.rows[n].kind == TextKind && s.rows[n].sources == [] && Fold(n) in s.ledger)
  }

  /** Every other row that is not the last of a wanted name stays as it is, and no row appears but under a wanted name nobody carried. */
  ghost predicate TouchesNothingElse(agents: seq<Agent>, connected: set<Provider>, s: State, t: State, listing: seq<string>) {
    && (forall n :: n in s.rows && n in t.rows && t.rows[n] != s.rows[n] ==>
          IsWanted(agents, connected, Fold(n)) && exists l :: LastListedAt(listing, Fold(n), l) && listing[l] == n)
    && (forall n :: n in t.rows && n !in s.rows ==>
          exists i, j :: FirstListedAt(agents, connected, Fold(n), i, j) && agents[i].models[j].name == n
                         && forall m :: m in s.rows ==> Fold(m) != Fold(n))
    && forall k :: k in t.ledger ==> IsWanted(agents, connected, k)
  }

  lemma WantedIsGoal(doc: Doc, connected: set<Provider>)
    ensures forall k :: k in GoalOf(doc, connected) <==> IsWanted(doc.agents, connected, k)
  {
    forall k ensures k in GoalOf(doc, connected) <==> IsWanted(doc.agents, connected, k) {
      GoalMeans(doc, connected, k);
      if i, j :| FirstListedAt(doc.agents, connected, k, i, j) { assert ListedAt(doc.agents, connected, k, i, j); }
    }
  }

  lemma TargetRemovesOnlyOurs(doc: Doc, connected: set<Provider>, s: State)
    ensures RemovesOnlyOurs(doc.agents, connected, s, Target(GoalOf(doc, connected), s))
  {
    WantedIsGoal(doc, connected);
  }

  lemma TargetTouchesNothingElse(doc: Doc, connected: set<Provider>, s: State, listing: seq<string>)
    requires IsListing(listing, s.rows)
    ensures TouchesNothingElse(doc.agents, connected, s, Target(GoalOf(doc, connected), s), listing)
  {
    var goal := GoalOf(doc, connected);
    var t := Target(goal, s);
    WantedIsGoal(doc, connected);
    forall n | n in s.rows && n in t.rows && t.rows[n] != s.rows[n]
      ensures exists l :: LastListedAt(listing, Fold(n), l) && listing[l] == n
    {
      FoundIsLastListed(s.rows, listing, Fold(n));
      assert Found(s.rows, Fold(n)) == Some(n);
      var l :| LastListedAt(listing, Fold(n), l);
    }
    forall n | n in t.rows && n !in s.rows
      ensures exists i, j :: FirstListedAt(doc.agents, connected, Fold(n), i, j) && doc.agents[i].models[j].name == n
                             && forall m :: m in s.rows ==> Fold(m) != Fold(n)
    {
      CreatedWasMissing(goal, s, n);
      GoalMeans(doc, connected, Fold(n));
      var i, j :| FirstListedAt(doc.agents, connected, Fold(n), i, j);
      forall m | m in s.rows ensures Fold(m) != Fold(n) { assert !Holds(s.rows, Fold(n), m); }
    }
  }

  lemma CreatedWasMissing(goal: Goal, s: State, n: string)
    requires n in TargetRows(goal, s) && n !in s.rows
    ensures Fold(n) in goal && Found(s.rows, Fold(n)).None? && goal[Fold(n)].name == n
  {
    assert n in Missing(goal, s.rows, goal.Keys);
  }

  /**
   The outcome of a complete run over any table, in the file's and the listing's own terms. `price`
   is whatever the catalogue says: there is exactly one.
   */
  lemma {:induction false} RunMeans(doc: Doc, connected: set<Provider>, s: State, listing: seq<string>, order: seq<string>)
    requires IsListing(listing, s.rows) && Orders(order, GoalOf(doc, connected))
    ensures var t := Replay(Plan(GoalOf(doc, connected), s, listing, order), s);
      && RemovesOnlyOurs(doc.agents, connected, s, t) && TouchesNothingElse(doc.agents, connected, s, t, listing)
      && forall k, i, j, price ::
           FirstListedAt(doc.agents, connected, k, i, j) && PriceIs(doc.agents, doc.agents[i].provider, k, price) ==>
           RowSettled(s, t, listing, k, doc.agents[i].models[j].name, price)
  {
    var goal := GoalOf(doc, connected);
    PlanReachesTarget(goal, s, listing, order);
    TargetRemovesOnlyOurs(doc, connected, s);
    TargetTouchesNothingElse(doc, connected, s, listing);
    forall k, i, j, price | FirstListedAt(doc.agents, connected, k, i, j) && PriceIs(doc.agents, doc.agents[i].provider, k, price)
      ensures RowSettled(s, Target(goal, s), listing, k, doc.agents[i].models[j].name, price)
    {
      GoalMeans(doc, connected, k);
      PriceIsUnique(doc.agents, doc.agents[i].provider, k, price, goal[k].price);
      TargetSettles(goal, s, listing, k);
    }
  }

  // ---- what a run reports ----

  /** The rows that appear, that change, and that go. */
  ghost function Appeared(s: State, t: State): set<string> {
    set n | n in t.rows && n !in s.rows
  }

  ghost function Altered(s: State, t: State): set<string> {
    set n | n in s.rows && n in t.rows && t.rows[n] != s.rows[n]
  }

  ghost function Gone(s: State, t: State): set<string> {
    set n | n in s.rows && n !in t.rows
  }

  function CountSome(xs: seq<Option<string>>, n: nat): nat
    requires n <= |xs|
  {
    if n == 0 then 0 else CountSome(xs, n - 1) + if xs[n - 1].Some? then 1 else 0
  }

  function Values(xs: seq<Option<string>>, n: nat): set<string>
    requires n <= |xs|
  {
    set i | 0 <= i < n && xs[i].Some? :: xs[i].value
  }

  ghost predicate AllDiffer(xs: seq<Option<string>>) {
    forall i, j :: 0 <= i < j < |xs| && xs[i].Some? && xs[j].Some? ==> xs[i] != xs[j]
  }

  lemma {:induction false} CountIsSize(xs: seq<Option<string>>, n: nat)
    requires n <= |xs| && AllDiffer(xs)
    ensures CountSome(xs, n) == |Values(xs, n)|
  {
    if n > 0 {
      CountIsSize(xs, n - 1);
      if xs[n - 1].Some? {
        assert xs[n - 1].value !in Values(xs, n - 1);
        assert Values(xs, n) == Values(xs, n - 1) + {xs[n - 1].value};
      } else {
        assert Values(xs, n) == Values(xs, n - 1);
      }
    }
  }

  // The name, if any, that each wanted name creates, each repairs, and each listed row that goes.

  ghost function Creating(goal: Goal, rows: Table, order: seq<string>): seq<Option<string>>
    requires forall k :: k in order ==> k in goal
  {
    seq(|order|, i requires 0 <= i < |order| => if Found(rows, order[i]).None? then Some(goal[order[i]].name) else None)
  }

  ghost function Mending(goal: Goal, rows: Table, order: seq<string>): seq<Option<string>> {
    seq(|order|, i requires 0 <= i < |order| => if NeedsMending(goal, rows, order[i]) then Found(rows, order[i]) else None)
  }

  ghost function Going(goal: Goal, s: State, listing: seq<string>): seq<Option<string>> {
    seq(|listing|, i requires 0 <= i < |listing| => if Doomed(goal, s, listing[i]) then Some(listing[i]) else None)
  }

  lemma {:induction false} CreatedCounts(goal: Goal, rows: Table, order: seq<string>, n: nat)
    requires n <= |order| && forall k :: k in order ==> k in goal
    ensures CreatedIn(rows, order, n) == CountSome(Creating(goal, rows, order), n)
  {
    if n > 0 { CreatedCounts(goal, rows, order, n - 1); }
  }

  lemma {:induction false} MendedCounts(goal: Goal, rows: Table, order: seq<string>, n: nat)
    requires n <= |order|
    ensures MendedIn(goal, rows, order, n) == CountSome(Mending(goal, rows, order), n)
  {
    if n > 0 {
      MendedCounts(goal, rows, order, n - 1);
      MendingAt(goal, rows, order, n - 1);
    }
  }

  lemma MendingAt(goal: Goal, rows: Table, order: seq<string>, i: nat)
    requires i < |order|
    ensures Mending(goal, rows, order)[i].Some? <==> NeedsMending(goal, rows, order[i])
    ensures NeedsMending(goal, rows, order[i]) ==> Mending(goal, rows, order)[i] == Found(rows, order[i])
  {
  }

  lemma {:induction false} RemovedCounts(goal: Goal, s: State, listing: seq<string>, n: nat)
    requires n <= |listing|
    ensures Length(Reclaims(goal, s, listing, n, Empty)) == CountSome(Going(goal, s, listing), n)
  {
    if n > 0 { RemovedCounts(goal, s, listing, n - 1); }
  }

  lemma CreatingDiffers(goal: Goal, rows: Table, order: seq<string>)
    requires Orders(order, goal)
    ensures AllDiffer(Creating(goal, rows, order))
  {
    var xs := Creating(goal, rows, order);
    forall i, j | 0 <= i < j < |xs| && xs[i].Some? && xs[j].Some? ensures xs[i] != xs[j] {
      assert Fold(xs[i].value) == order[i] && Fold(xs[j].value) == order[j];
    }
  }

  lemma MendingDiffers(goal: Goal, rows: Table, order: seq<string>)
    requires Orders(order, goal)
    ensures AllDiffer(Mending(goal, rows, order))
  {
    var xs := Mending(goal, rows, order);
    forall i, j | 0 <= i < j < |xs| && xs[i].Some? && xs[j].Some? ensures xs[i] != xs[j] {
      MendingAt(goal, rows, order, i);
      MendingAt(goal, rows, order, j);
      assert Fold(xs[i].value) == order[i] && Fold(xs[j].value) == order[j];
    }
  }

  lemma CreatedAppear(goal: Goal, s: State, order: seq<string>)
    requires Orders(order, goal)
    ensures Values(Creating(goal, s.rows, order), |order|) == Appeared(s, Target(goal, s))
  {
    var xs, t := Creating(goal, s.rows, order), Target(goal, s);
    forall i | 0 <= i < |order| && xs[i].Some? ensures xs[i].value in Appeared(s, t) {
      FoundInTarget(goal, s, order[i]);
      assert !Holds(s.rows, order[i], xs[i].value);
    }
    forall n | n in Appeared(s, t) ensures n in Values(xs, |order|) {
      CreatedWasMissing(goal, s, n);
      var i :| 0 <= i < |order| && order[i] == Fold(n);
      assert xs[i] == Some(n);
    }
  }

  lemma MendedAlters(goal: Goal, s: State, k: string)
    requires k in goal && Found(s.rows, k).Some?
    ensures var n := Found(s.rows, k).value;
      n in TargetRows(goal, s) && (NeedsMending(goal, s.rows, k) <==> TargetRows(goal, s)[n] != s.rows[n])
  {
    FoundInTarget(goal, s, k);
  }

  lemma MendedAreAltered(goal: Goal, s: State, order: seq<string>)
    requires Orders(order, goal)
    ensures Values(Mending(goal, s.rows, order), |order|) == Altered(s, Target(goal, s))
  {
    var xs, t := Mending(goal, s.rows, order), Target(goal, s);
    forall i | 0 <= i < |order| && xs[i].Some? ensures xs[i].value in Altered(s, t) {
      MendingAt(goal, s.rows, order, i);
      MendedAlters(goal, s, order[i]);
    }
    forall n | n in Altered(s, t) ensures n in Values(xs, |order|) {
      AlteredIsFound(goal, s, n);
      MendedAlters(goal, s, Fold(n));
      var i :| 0 <= i < |order| && order[i] == Fold(n);
      MendingAt(goal, s.rows, order, i);
      assert xs[i] == Some(n);
    }
  }

  lemma AlteredIsFound(goal: Goal, s: State, n: string)
    requires n in Altered(s, Target(goal, s))
    ensures Fold(n) in goal && Found(s.rows, Fold(n)) == Some(n)
  {
    assert Mendable(goal, s.rows, n);
  }

  lemma DoomedGo(goal: Goal, s: State, listing: seq<string>)
    requires IsListing(listing, s.rows)
    ensures Values(Going(goal, s, listing), |listing|) == Gone(s, Target(goal, s))
  {
    var xs := Going(goal, s, listing);
    forall n | n in Gone(s, Target(goal, s)) ensures n in Values(xs, |listing|) {
      var i :| 0 <= i < |listing| && listing[i] == n;
      assert xs[i] == Some(n);
    }
  }

  /** A complete run reports as many rows created, repaired and removed as have appeared, changed and gone. */
  lemma {:induction false} TallyCounts(goal: Goal, s: State, listing: seq<string>, order: seq<string>)
    requires IsListing(listing, s.rows) && Orders(order, goal)
    ensures var t := Replay(Plan(goal, s, listing, order), s);
      && CreatedIn(s.rows, order, |order|) == |Appeared(s, t)|
      && MendedIn(goal, s.rows, order, |order|) == |Altered(s, t)|
      && Length(Reclaimed(goal, s, listing)) == |Gone(s, t)|
  {
    PlanReachesTarget(goal, s, listing, order);
    CreatedCounts(goal, s.rows, order, |order|);
    CreatingDiffers(goal, s.rows, order);
    CountIsSize(Creating(goal, s.rows, order), |order|);
    CreatedAppear(goal, s, order);
    MendedCounts(goal, s.rows, order, |order|);
    MendingDiffers(goal, s.rows, order);
    CountIsSize(Mending(goal, s.rows, order), |order|);
    MendedAreAltered(goal, s, order);
    ListingDistinct(listing, s.rows);
    RemovedCounts(goal, s, listing, |listing|);
    CountIsSize(Going(goal, s, listing), |listing|);
    DoomedGo(goal, s, listing);
  }
}
