/**
 The model catalogue document and the part of it that tells which subscription
 models a device should show (the agents section, filtered by the connected
 subscriptions).
 */
module AgentCatalog {
  import opened Options
  import opened Text

  /** Subscription providers. This firmware recognizes the first four. */
  datatype Provider = Codex | Grok | Claude | Cursor | Other(id: string)

  datatype Kind = TextKind | Video | Image | SystemOne | Unlisted(text: string)

  /**
   What the price validator makes of the raw price of an entry: no bytes at all, an
   empty object or null, something it rejects, or a table with its normalized text.
   */
  datatype RawPrice = NoBytes | EmptyTable | Malformed | PriceTable(text: string)

  /** The price a row would be given: empty text stands for "unpriced". */
  function Normalized(p: RawPrice): string {
    if p.PriceTable? then p.text else ""
  }

  /** `nameOk` is the verdict of the catalogue name validator. */
  datatype AgentModel = AgentModel(name: string, nameOk: bool, kind: Kind, price: RawPrice)
  datatype Agent = Agent(provider: Provider, models: seq<AgentModel>)

  datatype PlatformModel = PlatformModel(name: string, kind: Kind, price: RawPrice)
  /** `adapter` is the platform type, the identity of accounts made before platforms had ids. */
  datatype Platform = Platform(id: string, adapter: string, models: seq<PlatformModel>)

  datatype Doc = Doc(platforms: seq<Platform>, agents: seq<Agent>)

  /** A catalogue entry this device should have a row for. */
  datatype Want = Want(provider: Provider, name: string)

  const RECOGNIZED: set<Provider> := {Codex, Grok, Claude, Cursor}

  predicate Admissible(m: AgentModel) {
    m.nameOk && m.kind.TextKind?
  }

  /** A section the reconciler looks at: connected, recognized, and not the pricing-only provider. */
  predicate Eligible(a: Agent, connected: set<Provider>) {
    !a.provider.Cursor? && a.provider in connected && a.provider in RECOGNIZED
  }

  /** The admissible entries of one section, in file order. */
  function Accepted(provider: Provider, models: seq<AgentModel>): seq<Want> {
    if models == [] then []
    else
      var m := models[|models| - 1];
      Accepted(provider, models[..|models| - 1]) + if Admissible(m) then [Want(provider, m.name)] else []
  }

  /** All admissible entries of the eligible sections, in file order, repetitions included. */
  function Candidates(agents: seq<Agent>, connected: set<Provider>): seq<Want> {
    if agents == [] then []
    else
      var a := agents[|agents| - 1];
      Candidates(agents[..|agents| - 1], connected)
      + if Eligible(a, connected) then Accepted(a.provider, a.models) else []
  }

  /** `want` and `order` are the first occurrences, by folded name, in the candidate list. */
  ghost predicate FirstOccurrences(cs: seq<Want>, want: map<string, Want>, order: seq<string>) {
    && (forall i :: 0 <= i < |cs| ==> Fold(cs[i].name) in want)
    && (forall k :: k in want ==> exists i :: IsFirst(cs, k, i) && want[k] == cs[i])
    && (forall k :: k in order <==> k in want)
    && (forall i, j :: 0 <= i < j < |order| ==> order[i] != order[j])
  }

  ghost predicate IsFirst(cs: seq<Want>, k: string, i: int) {
    0 <= i < |cs| && Fold(cs[i].name) == k && forall j :: 0 <= j < i ==> Fold(cs[j].name) != k
  }

  /** Walks the catalogue the way the reconciler does and collects what should exist. */
  method WantedAgentModels(doc: Doc, connected: set<Provider>) returns (want: map<string, Want>, order: seq<string>)
    ensures FirstOccurrences(Candidates(doc.agents, connected), want, order)
  {
    want, order := map[], [];
    for i := 0 to |doc.agents|
      invariant FirstOccurrences(Candidates(doc.agents[..i], connected), want, order)
    {
      assert doc.agents[..i + 1][..i] == doc.agents[..i];
      var a := doc.agents[i];
      ghost var before := Candidates(doc.agents[..i], connected);
      ghost var after := Candidates(doc.agents[..i + 1], connected);
      assert Eligible(a, connected) ==> after == before + Accepted(a.provider, a.models);
      assert !Eligible(a, connected) ==> after == before;
      if a.provider.Cursor? { continue; }
      if a.provider !in connected || a.provider !in RECOGNIZED { continue; }
      assert before + Accepted(a.provider, a.models[..0]) == before;
      for j := 0 to |a.models|
        invariant FirstOccurrences(before + Accepted(a.provider, a.models[..j]), want, order)
      {
        assert a.models[..j + 1][..j] == a.models[..j];
        var m := a.models[j];
        ghost var seen := before + Accepted(a.provider, a.models[..j]);
        ghost var next := before + Accepted(a.provider, a.models[..j + 1]);
        var w := Want(a.provider, m.name);
        assert next == if Admissible(m) then seen + [w] else seen;
        if !Admissible(m) { continue; }
        var key := Fold(m.name);
        if key in want {
          KeepFirst(seen, w, want, order);
          continue;
        }
        AddFirst(seen, w, want, order);
        want := want[key := w];
        order := order + [key];
      }
      assert a.models[..|a.models|] == a.models;
    }
    assert doc.agents[..|doc.agents|] == doc.agents;
  }

  lemma KeepFirst(cs: seq<Want>, w: Want, want: map<string, Want>, order: seq<string>)
    requires FirstOccurrences(cs, want, order) && Fold(w.name) in want
    ensures FirstOccurrences(cs + [w], want, order)
  {
    forall k | k in want ensures exists i :: IsFirst(cs + [w], k, i) && want[k] == (cs + [w])[i] {
      var i :| IsFirst(cs, k, i) && want[k] == cs[i];
      assert IsFirst(cs + [w], k, i);
    }
  }

  lemma AddFirst(cs: seq<Want>, w: Want, want: map<string, Want>, order: seq<string>)
    requires FirstOccurrences(cs, want, order) && Fold(w.name) !in want
    ensures FirstOccurrences(cs + [w], want[Fold(w.name) := w], order + [Fold(w.name)])
  {
    var key := Fold(w.name);
    var cs', want' := cs + [w], want[key := w];
    forall k | k in want' ensures exists i :: IsFirst(cs', k, i) && want'[k] == cs'[i] {
      if k == key {
        assert IsFirst(cs', k, |cs|);
      } else {
        var i :| IsFirst(cs, k, i) && want[k] == cs[i];
        assert IsFirst(cs', k, i);
      }
    }
  }

  // ---- lookups in the document ----

  /** The first section of a provider, if any. */
  function AgentSection(agents: seq<Agent>, p: Provider): Option<Agent> {
    if agents == [] then None
    else if agents[0].provider == p then Some(agents[0])
    else AgentSection(agents[1..], p)
  }

  /** The first entry of a section with the same folded name, admissible or not. */
  function EntryNamed(models: seq<AgentModel>, key: string): Option<AgentModel> {
    if models == [] then None
    else if Fold(models[0].name) == key then Some(models[0])
    else EntryNamed(models[1..], key)
  }

  /** The price text the reconciler would write for a wanted entry. */
  function PriceFor(doc: Doc, w: Want): string {
    match AgentSection(doc.agents, w.provider)
    case None => ""
    case Some(a) =>
      match EntryNamed(a.models, Fold(w.name))
      case None => ""
      case Some(m) => Normalized(m.price)
  }

  // ---- what is wanted, as one map ----

  datatype Entry = Entry(name: string, price: string)

  /** What the device should have, by folded name. */
  type Goal = g: map<string, Entry> | forall k :: k in g ==> Fold(g[k].name) == k witness map[]

  ghost function Keys(cs: seq<Want>): set<string> {
    set i | 0 <= i < |cs| :: Fold(cs[i].name)
  }

  lemma FirstIndex(cs: seq<Want>, k: string)
    requires k in Keys(cs)
    ensures exists i :: IsFirst(cs, k, i)
  {
    var i := 0;
    while Fold(cs[i].name) != k
      invariant 0 <= i < |cs|
      invariant forall j :: 0 <= j < i ==> Fold(cs[j].name) != k
      invariant exists j :: i <= j < |cs| && Fold(cs[j].name) == k
      decreases |cs| - i
    {
      i := i + 1;
    }
    assert IsFirst(cs, k, i);
  }

  ghost function FirstWith(cs: seq<Want>, k: string): (w: Want)
    requires k in Keys(cs)
    ensures Fold(w.name) == k
  {
    FirstIndex(cs, k);
    var i :| IsFirst(cs, k, i);
    cs[i]
  }

  /** The rows this device should have: catalogue crossed with connected subscriptions. */
  ghost function GoalOf(doc: Doc, connected: set<Provider>): (g: Goal)
    ensures g.Keys == Keys(Candidates(doc.agents, connected))
  {
    var cs := Candidates(doc.agents, connected);
    map k | k in Keys(cs) :: Entry(FirstWith(cs, k).name, PriceFor(doc, FirstWith(cs, k)))
  }

  /** The collected map and the goal say the same. */
  lemma {:induction false} GoalFromWanted(doc: Doc, connected: set<Provider>, want: map<string, Want>, order: seq<string>)
    requires FirstOccurrences(Candidates(doc.agents, connected), want, order)
    ensures GoalOf(doc, connected) == map k | k in want :: Entry(want[k].name, PriceFor(doc, want[k]))
  {
    var cs := Candidates(doc.agents, connected);
    forall k ensures k in want <==> k in Keys(cs) {
      if k in want { var i :| IsFirst(cs, k, i) && want[k] == cs[i]; }
    }
    forall k | k in want ensures want[k] == FirstWith(cs, k) { CollectedIsFirst(cs, want, order, k); }
  }

  lemma CollectedIsFirst(cs: seq<Want>, want: map<string, Want>, order: seq<string>, k: string)
    requires FirstOccurrences(cs, want, order) && k in want && k in Keys(cs)
    ensures want[k] == FirstWith(cs, k)
  {
    var i :| IsFirst(cs, k, i) && want[k] == cs[i];
    FirstIndex(cs, k);
    var j :| IsFirst(cs, k, j) && FirstWith(cs, k) == cs[j];
    assert i == j;
  }

  /**
   A name is wanted exactly when some eligible section lists it admissibly: the declarative
   reading of the two nested loops.
   */
  lemma {:induction false} WantedExactly(agents: seq<Agent>, connected: set<Provider>, k: string)
    ensures k in Keys(Candidates(agents, connected)) <==>
            exists i, j :: Lists(agents, connected, i, j) && Fold(agents[i].models[j].name) == k
  {
    var cs := Candidates(agents, connected);
    if agents != [] {
      var n := |agents| - 1;
      var a, front := agents[n], agents[..n];
      WantedExactly(front, connected, k);
      KeysOfConcat(Candidates(front, connected), if Eligible(a, connected) then Accepted(a.provider, a.models) else []);
      AcceptedExactly(a.provider, a.models, k);
      if k in Keys(cs) {
        if k in Keys(Candidates(front, connected)) {
          var i, j :| Lists(front, connected, i, j) && Fold(front[i].models[j].name) == k;
          assert Lists(agents, connected, i, j);
        } else {
          var j :| 0 <= j < |a.models| && Admissible(a.models[j]) && Fold(a.models[j].name) == k;
          assert Lists(agents, connected, n, j);
        }
      }
      if i, j :| Lists(agents, connected, i, j) && Fold(agents[i].models[j].name) == k {
        if i < n { assert Lists(front, connected, i, j) && front[i] == agents[i]; }
      }
    }
  }

  ghost predicate Lists(agents: seq<Agent>, connected: set<Provider>, i: int, j: int) {
    0 <= i < |agents| && Eligible(agents[i], connected) && 0 <= j < |agents[i].models| && Admissible(agents[i].models[j])
  }

  lemma KeysOfConcat(a: seq<Want>, b: seq<Want>)
    ensures Keys(a + b) == Keys(a) + Keys(b)
  {
    forall k | k in Keys(a) + Keys(b) ensures k in Keys(a + b) {
      if k in Keys(a) {
        var i :| 0 <= i < |a| && Fold(a[i].name) == k;
        assert (a + b)[i] == a[i];
      } else {
        var i :| 0 <= i < |b| && Fold(b[i].name) == k;
        assert (a + b)[|a| + i] == b[i];
      }
    }
  }

  lemma {:induction false} AcceptedExactly(p: Provider, models: seq<AgentModel>, k: string)
    ensures k in Keys(Accepted(p, models)) <==>
            exists j :: 0 <= j < |models| && Admissible(models[j]) && Fold(models[j].name) == k
  {
    if models != [] {
      var n := |models| - 1;
      var m, front := models[n], models[..n];
      AcceptedExactly(p, front, k);
      KeysOfConcat(Accepted(p, front), if Admissible(m) then [Want(p, m.name)] else []);
      assert Keys([Want(p, m.name)]) == {Fold(m.name)} by { assert [Want(p, m.name)][0].name == m.name; }
      if j :| 0 <= j < n && Admissible(front[j]) && Fold(front[j].name) == k { assert models[j] == front[j]; }
    }
  }

  /** Connecting more subscriptions never removes a wanted name. */
  lemma {:induction false} MoreConnectedMoreWanted(doc: Doc, few: set<Provider>, many: set<Provider>)
    requires few <= many
    ensures Keys(Candidates(doc.agents, few)) <= Keys(Candidates(doc.agents, many))
  {
    forall k | k in Keys(Candidates(doc.agents, few)) ensures k in Keys(Candidates(doc.agents, many)) {
      WantedExactly(doc.agents, few, k);
      WantedExactly(doc.agents, many, k);
      var i, j :| Lists(doc.agents, few, i, j) && Fold(doc.agents[i].models[j].name) == k;
      assert Lists(doc.agents, many, i, j);
    }
  }
}
