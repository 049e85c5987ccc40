/**
 The fill-only price pass that runs before the reconciler in every data sync, and what the two
 local steps promise together.
 */
module CatalogPricing {
  import opened AgentCatalog
  import opened AgentModelRuns
  import opened AgentModelSync
  import opened AgentModels
  import opened Options
  import opened Text

  datatype Skip = AlreadyPriced | AgentManaged | KindMismatch | NotInFile | NoPriceInFile | InvalidPrice

  datatype Hit = Hit(platform: Platform, model: PlatformModel)
  datatype Choice = Chosen(hit: Hit) | Refused(reason: Skip)

  // ---- lookups ----

  /** The first platform with the given id; an empty id falls back to the adapter's identity. */
  function PlatformByID(platforms: seq<Platform>, catalogID: string, adapter: string): Option<Platform> {
    var wanted := if catalogID == "" then adapter else catalogID;
    FirstPlatform(platforms, wanted)
  }

  function FirstPlatform(platforms: seq<Platform>, id: string): Option<Platform> {
    if platforms == [] then None
    else if platforms[0].id == id then Some(platforms[0])
    else FirstPlatform(platforms[1..], id)
  }

  function FirstModel(models: seq<PlatformModel>, name: string, kind: Kind): Option<PlatformModel> {
    if models == [] then None
    else if Fold(models[0].name) == Fold(name) && models[0].kind == kind then Some(models[0])
    else FirstModel(models[1..], name, kind)
  }

  /** The entry a source's platform has for a model of this name and kind. */
  function HitFor(doc: Doc, catalogID: string, adapter: string, name: string, kind: Kind): Option<Hit> {
    match PlatformByID(doc.platforms, catalogID, adapter)
    case None => None
    case Some(p) =>
      match PlatformByID(doc.platforms, p.id, p.adapter)
      case None => None
      case Some(q) =>
        match FirstModel(q.models, name, kind)
        case None => None
        case Some(m) => Some(Hit(p, m))
  }

  /** The entry platform `p` itself leads to when no source says where to look. */
  function HitOn(doc: Doc, p: Platform, name: string, kind: Kind): Option<Hit> {
    match PlatformByID(doc.platforms, p.id, p.adapter)
    case None => None
    case Some(q) =>
      match FirstModel(q.models, name, kind)
      case None => None
      case Some(m) => Some(Hit(p, m))
  }

  /** The lookups in the order they are tried: by source, or by platform when there is no source. */
  function Tries(doc: Doc, name: string, kind: Kind, sources: seq<Source>): seq<Option<Hit>> {
    if sources != [] then seq(|sources|, i requires 0 <= i < |sources| => HitFor(doc, sources[i].catalogID, sources[i].adapter, name, kind))
    else seq(|doc.platforms|, i requires 0 <= i < |doc.platforms| => HitOn(doc, doc.platforms[i], name, kind))
  }

  lemma TriedBySource(doc: Doc, name: string, kind: Kind, sources: seq<Source>, i: nat)
    requires i < |sources|
    ensures |Tries(doc, name, kind, sources)| == |sources|
    ensures Tries(doc, name, kind, sources)[i] == HitFor(doc, sources[i].catalogID, sources[i].adapter, name, kind)
  {
  }

  lemma TriedByPlatform(doc: Doc, name: string, kind: Kind, i: nat)
    requires i < |doc.platforms|
    ensures |Tries(doc, name, kind, [])| == |doc.platforms|
    ensures Tries(doc, name, kind, [])[i] == HitOn(doc, doc.platforms[i], name, kind)
  {
  }

  predicate Priced(t: Option<Hit>) {
    t.Some? && !t.value.model.price.NoBytes?
  }

  predicate NamedAnywhere(doc: Doc, name: string) {
    exists i, j :: 0 <= i < |doc.platforms| && 0 <= j < |doc.platforms[i].models| && Fold(doc.platforms[i].models[j].name) == Fold(name)
  }

  /** The file's answer for one model, as a function of what the lookups found. */
  function ChoiceOf(doc: Doc, name: string, ts: seq<Option<Hit>>): Choice {
    match FirstPriced(ts)
    case Some(hit) => Chosen(hit)
    case None =>
      if exists i :: 0 <= i < |ts| && ts[i].Some? then Refused(NoPriceInFile)
      else if NamedAnywhere(doc, name) then Refused(KindMismatch)
      else Refused(NotInFile)
  }

  function PriceChoice(doc: Doc, name: string, kind: Kind, sources: seq<Source>): Choice {
    ChoiceOf(doc, name, Tries(doc, name, kind, sources))
  }

  lemma FirstIsChosen(doc: Doc, name: string, ts: seq<Option<Hit>>, i: nat)
    requires i < |ts| && Priced(ts[i]) && forall j :: 0 <= j < i ==> !Priced(ts[j])
    ensures ChoiceOf(doc, name, ts) == Chosen(ts[i].value)
  {
    var r := FirstPriced(ts);
    var k :| 0 <= k < |ts| && Priced(ts[k]) && ts[k].value == r.value && forall j :: 0 <= j < k ==> !Priced(ts[j]);
    assert k == i;
  }

  function FirstPriced(ts: seq<Option<Hit>>): (r: Option<Hit>)
    ensures r.None? <==> forall i :: 0 <= i < |ts| ==> !Priced(ts[i])
    ensures r.Some? ==> exists i :: 0 <= i < |ts| && Priced(ts[i]) && ts[i].value == r.value && forall j :: 0 <= j < i ==> !Priced(ts[j])
  {
    if ts == [] then None
    else if Priced(ts[0]) then Some(ts[0].value)
    else
      assert forall j :: 1 <= j < |ts| ==> ts[j] == ts[1..][j - 1];
      FirstPriced(ts[1..])
  }

  /** Looks the price up source by source, or platform by platform, remembering the first unpriced entry. */
  method CatalogPricingFor(doc: Doc, name: string, kind: Kind, sources: seq<Source>) returns (c: Choice)
    ensures c == PriceChoice(doc, name, kind, sources)
  {
    ghost var ts := Tries(doc, name, kind, sources);
    var unpriced := false;
    for i := 0 to |sources|
      invariant forall j :: 0 <= j < i ==> !Priced(ts[j])
      invariant unpriced <==> exists j :: 0 <= j < i && ts[j].Some?
    {
      var t := HitFor(doc, sources[i].catalogID, sources[i].adapter, name, kind);
      TriedBySource(doc, name, kind, sources, i);
      if t.None? { continue; }
      if !t.value.model.price.NoBytes? {
        FirstIsChosen(doc, name, ts, i);
        return Chosen(t.value);
      }
      unpriced := true;
    }
    if |sources| == 0 {
      for i := 0 to |doc.platforms|
        invariant forall j :: 0 <= j < i ==> !Priced(ts[j])
        invariant unpriced <==> exists j :: 0 <= j < i && ts[j].Some?
      {
        var t := HitOn(doc, doc.platforms[i], name, kind);
        TriedByPlatform(doc, name, kind, i);
        if t.None? { continue; }
        if !t.value.model.price.NoBytes? {
          FirstIsChosen(doc, name, ts, i);
          return Chosen(t.value);
        }
        unpriced := true;
      }
    }
    if unpriced {
      c := Refused(NoPriceInFile);
    } else if NamedAnywhere(doc, name) {
      c := Refused(KindMismatch);
    } else {
      c := Refused(NotInFile);
    }
  }

  // ---- the pass ----

  /** Text rows without sources under a name some recognized subscription lists, connected or not. */
  ghost predicate Managed(doc: Doc, n: string, row: Row) {
    Bare(row) && Fold(n) in Keys(Candidates(doc.agents, RECOGNIZED))
  }

  datatype Verdict = Fill(text: string) | Leave(reason: Skip)

  /** What the pass does with one row: only an unpriced row that nobody else prices is filled. */
  ghost function VerdictFor(doc: Doc, n: string, row: Row): Verdict {
    if row.pricing != "" then Leave(AlreadyPriced)
    else if Managed(doc, n, row) then Leave(AgentManaged)
    else
      match PriceChoice(doc, n, row.kind, row.sources)
      case Refused(reason) => Leave(reason)
      case Chosen(hit) =>
        if hit.model.price.Malformed? then Leave(InvalidPrice)
        else if Normalized(hit.model.price) == "" then Leave(NoPriceInFile)
        else Fill(Normalized(hit.model.price))
  }

  ghost function FilledRow(doc: Doc, n: string, row: Row): Row {
    match VerdictFor(doc, n, row)
    case Fill(text) => row.(pricing := text)
    case Leave(_) => row
  }

  ghost function Filled(doc: Doc, rows: Table): Table {
    map n | n in rows :: FilledRow(doc, n, rows[n])
  }

  ghost function Verdicts(doc: Doc, rows: Table): map<string, Verdict> {
    map n | n in rows :: VerdictFor(doc, n, rows[n])
  }

  /** The writes that verdicts call for over the first `n` rows of a listing. */
  function FillingsOf(vs: map<string, Verdict>, listing: seq<string>, n: nat): Log
    requires n <= |listing| && forall m :: m in listing ==> m in vs
  {
    if n == 0 then Empty
    else
      match vs[listing[n - 1]]
      case Fill(text) => Then(FillingsOf(vs, listing, n - 1), SetPricing(listing[n - 1], text))
      case Leave(_) => FillingsOf(vs, listing, n - 1)
  }

  /** What is reported of the first `n` rows: those left, each with its reason. */
  function SkipsOf(vs: map<string, Verdict>, listing: seq<string>, n: nat): seq<(string, Skip)>
    requires n <= |listing| && forall m :: m in listing ==> m in vs
  {
    if n == 0 then []
    else
      match vs[listing[n - 1]]
      case Fill(_) => SkipsOf(vs, listing, n - 1)
      case Leave(why) => SkipsOf(vs, listing, n - 1) + [(listing[n - 1], why)]
  }

  /** The writes and the report of the pass over the first `n` rows of the listing. */
  ghost function Fillings(doc: Doc, rows: Table, listing: seq<string>, n: nat): Log
    requires n <= |listing| && forall m :: m in listing ==> m in rows
  {
    FillingsOf(Verdicts(doc, rows), listing, n)
  }

  ghost function Skips(doc: Doc, rows: Table, listing: seq<string>, n: nat): seq<(string, Skip)>
    requires n <= |listing| && forall m :: m in listing ==> m in rows
  {
    SkipsOf(Verdicts(doc, rows), listing, n)
  }

  lemma {:induction false} FillingsGrow(vs: map<string, Verdict>, listing: seq<string>, i: nat, n: nat)
    requires i <= n <= |listing| && forall m :: m in listing ==> m in vs
    ensures CutOf(FillingsOf(vs, listing, i), FillingsOf(vs, listing, n))
  {
    if i < n { FillingsGrow(vs, listing, i, n - 1); }
  }

  /** The checks of one row, in the order they are made. */
  method Judge(doc: Doc, index: map<string, Want>, n: string, m: Row) returns (v: Verdict)
    requires index.Keys == Keys(Candidates(doc.agents, RECOGNIZED))
    ensures v == VerdictFor(doc, n, m)
  {
    if m.pricing != "" { return Leave(AlreadyPriced); }
    if m.kind.TextKind? && m.sources == [] && Fold(n) in index { return Leave(AgentManaged); }
    var c := CatalogPricingFor(doc, n, m.kind, m.sources);
    if c.Refused? { return Leave(c.reason); }
    if c.hit.model.price.Malformed? { return Leave(InvalidPrice); }
    var pricing := Normalized(c.hit.model.price);
    if pricing == "" { return Leave(NoPriceInFile); }
    v := Fill(pricing);
  }

  /** The rows a log wrote, in order. */
  function Written(log: Log): seq<string> {
    match log
    case Empty => []
    case Then(front, w) => Written(front) + if w.SetPricing? then [w.name] else []
  }

  lemma {:induction false} ReportsAreOfRows(vs: map<string, Verdict>, listing: seq<string>, n: nat)
    requires n <= |listing| && (forall m :: m in listing ==> m in vs)
    ensures var applied, skipped := Written(FillingsOf(vs, listing, n)), SkipsOf(vs, listing, n);
      && |applied| + |skipped| == n
      && (forall m :: m in applied ==> m in listing[..n]) && (forall e :: e in skipped ==> e.0 in listing[..n])
  {
    if n > 0 {
      ReportsAreOfRows(vs, listing, n - 1);
      assert listing[..n] == listing[..n - 1] + [listing[n - 1]];
    }
  }

  lemma {:induction false} RowIsReported(vs: map<string, Verdict>, listing: seq<string>, n: nat, j: nat)
    requires j < n <= |listing| && (forall m :: m in listing ==> m in vs) && Distinct(listing)
    ensures listing[j] in Written(FillingsOf(vs, listing, n)) <==> vs[listing[j]].Fill?
    ensures forall why :: (listing[j], why) in SkipsOf(vs, listing, n) <==> vs[listing[j]] == Leave(why)
  {
    if j < n - 1 {
      RowIsReported(vs, listing, n - 1, j);
    } else {
      ReportsAreOfRows(vs, listing, n - 1);
      assert listing[n - 1] !in listing[..n - 1];
    }
  }

  /** Every row is reported exactly once: as priced when the pass fills it, and else as left with its own reason. */
  lemma EveryRowIsReported(doc: Doc, rows: Table, listing: seq<string>)
    requires IsListing(listing, rows)
    ensures var applied, skipped := Written(Fillings(doc, rows, listing, |listing|)), Skips(doc, rows, listing, |listing|);
      && |applied| + |skipped| == |listing|
      && forall n :: n in rows ==>
           && (n in applied <==> Verdicts(doc, rows)[n].Fill?)
           && forall why :: (n, why) in skipped <==> Verdicts(doc, rows)[n] == Leave(why)
  {
    var vs := Verdicts(doc, rows);
    ListingDistinct(listing, rows);
    ReportsAreOfRows(vs, listing, |listing|);
    forall n | n in rows
      ensures n in Written(FillingsOf(vs, listing, |listing|)) <==> vs[n].Fill?
      ensures forall why :: (n, why) in SkipsOf(vs, listing, |listing|) <==> vs[n] == Leave(why)
    {
      var j :| 0 <= j < |listing| && listing[j] == n;
      RowIsReported(vs, listing, |listing|, j);
    }
  }

  /** The one write of the pass for a row that can be filled. */
  method FillPrice(st: ModelStore, n: string, text: string, ghost journal0: Log, ghost left0: nat, ghost base: State, ghost log0: Log)
    returns (ok: bool, ghost log: Log)
    requires Wrote(st, journal0, left0, base, log0)
    modifies st
    ensures Wrote(st, journal0, left0, base, log)
    ensures log == if ok then Then(log0, SetPricing(n, text)) else log0
    ensures !ok ==> st.writesLeft == 0
  {
    log := log0;
    ok := st.Commit(SetPricing(n, text));
    if ok { log := Then(log0, SetPricing(n, text)); }
  }

  /** The walk over the listing: fills what can be filled, and reports every row as applied or skipped; `done` rows are dealt with. */
  method FillRows(st: ModelStore, doc: Doc, index: map<string, Want>, names: seq<string>, models: Table,
                  ghost vs: map<string, Verdict>, ghost journal0: Log, ghost left0: nat, ghost base: State)
    returns (applied: seq<string>, skipped: seq<(string, Skip)>, ok: bool, ghost log: Log, ghost done: nat)
    requires index.Keys == Keys(Candidates(doc.agents, RECOGNIZED))
    requires vs == Verdicts(doc, models) && forall n :: n in names ==> n in models
    requires Wrote(st, journal0, left0, base, Empty)
    modifies st
    ensures Wrote(st, journal0, left0, base, log)
    ensures done <= |names| && log == FillingsOf(vs, names, done) && skipped == SkipsOf(vs, names, done)
    ensures applied == Written(log)
    ensures if ok then done == |names| else st.writesLeft == 0
  {
    applied, skipped, ok, log, done := [], [], true, Empty, 0;
    for i := 0 to |names|
      invariant done == i && Wrote(st, journal0, left0, base, log)
      invariant log == FillingsOf(vs, names, i) && applied == Written(log) && skipped == SkipsOf(vs, names, i)
    {
      var n := names[i];
      assert n in names;
      var v := Judge(doc, index, n, models[n]);
      assert v == vs[n];
      if v.Leave? {
        skipped := skipped + [(n, v.reason)];
      } else {
        ok, log := FillPrice(st, n, v.text, journal0, left0, base, log);
        if !ok { return; }
        applied := applied + [n];
      }
      done := i + 1;
    }
    ok := true;
  }

  /** Fills prices in listing order, a part of them when a write fails, and reports what was done with each row. */
  method ApplyCatalogPricing(st: ModelStore, doc: Doc, listing: Option<seq<string>>)
    returns (applied: seq<string>, skipped: seq<(string, Skip)>, ok: bool, ghost log: Log, ghost done: nat)
    requires listing.Some? ==> IsListing(listing.value, st.rows)
    modifies st
    ensures Wrote(st, old(st.journal), old(st.writesLeft), old(st.Now()), log)
    ensures listing.None? ==> !ok && log == Empty
    ensures listing.Some? ==>
      && done <= |listing.value| && log == Fillings(doc, old(st.rows), listing.value, done)
      && skipped == Skips(doc, old(st.rows), listing.value, done)
      && (if ok then done == |listing.value| else st.writesLeft == 0)
    ensures applied == Written(log)
  {
    applied, skipped, ok, log, done := [], [], false, Empty, 0;
    if listing.None? { return; }
    var index, _ := WantedAgentModels(doc, RECOGNIZED);
    GoalFromWantedKeys(doc, index);
    applied, skipped, ok, log, done :=
      FillRows(st, doc, index, listing.value, st.rows, Verdicts(doc, st.rows), st.journal, st.writesLeft, st.Now());
  }

  lemma GoalFromWantedKeys(doc: Doc, index: map<string, Want>)
    requires exists order :: FirstOccurrences(Candidates(doc.agents, RECOGNIZED), index, order)
    ensures index.Keys == Keys(Candidates(doc.agents, RECOGNIZED))
  {
    var order :| FirstOccurrences(Candidates(doc.agents, RECOGNIZED), index, order);
    GoalFromWanted(doc, RECOGNIZED, index, order);
  }

  // ---- what the pass achieves ----

  /** Each row once settled by the pass has the same verdict as any filled row: leave it. */
  lemma FilledRowIsFinal(doc: Doc, n: string, row: Row)
    ensures VerdictFor(doc, n, FilledRow(doc, n, row)).Leave? && FilledRow(doc, n, FilledRow(doc, n, row)) == FilledRow(doc, n, row)
  {
  }

  function Judged(row: Row, v: Verdict): Row {
    match v
    case Fill(text) => row.(pricing := text)
    case Leave(_) => row
  }

  /** After any part of the pass, every row is either untouched or as the whole pass would leave it. */
  lemma {:induction false} FillingsReach(vs: map<string, Verdict>, s: State, listing: seq<string>, i: nat)
    requires Distinct(listing) && (forall n :: n in listing ==> n in s.rows) && i <= |listing| && vs.Keys == s.rows.Keys
    ensures var t := Replay(FillingsOf(vs, listing, i), s);
      && t.ledger == s.ledger && t.rows.Keys == s.rows.Keys
      && forall n :: n in s.rows ==> t.rows[n] == if n in listing[..i] then Judged(s.rows[n], vs[n]) else s.rows[n]
  {
    if i > 0 {
      FillingsReach(vs, s, listing, i - 1);
      var m := listing[i - 1];
      assert m in listing && m !in listing[..i - 1];
      assert listing[..i] == listing[..i - 1] + [m];
      var t0, t := Replay(FillingsOf(vs, listing, i - 1), s), Replay(FillingsOf(vs, listing, i), s);
      assert t0.rows[m] == s.rows[m];
      assert t.rows == if vs[m].Fill? then t0.rows[m := Judged(s.rows[m], vs[m])] else t0.rows;
    }
  }

  lemma JudgedIsFilled(doc: Doc, rows: Table)
    ensures forall n :: n in rows ==> Judged(rows[n], Verdicts(doc, rows)[n]) == Filled(doc, rows)[n]
  {
  }

  /** The complete pass leaves the filled table and the ledger as it was. */
  lemma {:induction false} FillingsComplete(doc: Doc, s: State, listing: seq<string>)
    requires IsListing(listing, s.rows)
    ensures Replay(Fillings(doc, s.rows, listing, |listing|), s) == State(Filled(doc, s.rows), s.ledger)
  {
    ListingDistinct(listing, s.rows);
    FillingsReach(Verdicts(doc, s.rows), s, listing, |listing|);
    JudgedIsFilled(doc, s.rows);
    assert listing[..|listing|] == listing;
  }

  lemma {:induction false} CutOfFillings(vs: map<string, Verdict>, listing: seq<string>, n: nat, cut: Log) returns (i: nat)
    requires n <= |listing| && (forall m :: m in listing ==> m in vs) && CutOf(cut, FillingsOf(vs, listing, n))
    ensures i <= n && cut == FillingsOf(vs, listing, i)
  {
    if cut == FillingsOf(vs, listing, n) {
      i := n;
    } else {
      i := CutOfFillings(vs, listing, n - 1, cut);
    }
  }

  /** The pass only fills empty prices; name, kind, sources and switch stay, and no set price changes. */
  lemma FillOnlyEmpty(doc: Doc, rows: Table, n: string)
    requires n in rows
    ensures n in Filled(doc, rows)
      && (rows[n].pricing != "" ==> Filled(doc, rows)[n] == rows[n])
      && Filled(doc, rows)[n].(pricing := "") == rows[n].(pricing := "")
  {
  }

  // ---- the two local steps of a data sync ----

  /** What a whole data sync leaves: prices filled, then the subscription rows reconciled. */
  ghost function DataSync(doc: Doc, connected: set<Provider>, s: State): State {
    Target(GoalOf(doc, connected), State(Filled(doc, s.rows), s.ledger))
  }

  lemma GoalIsIndexed(doc: Doc, connected: set<Provider>, k: string)
    requires k in GoalOf(doc, connected)
    ensures k in Keys(Candidates(doc.agents, RECOGNIZED))
  {
    WantedExactly(doc.agents, connected, k);
    WantedExactly(doc.agents, RECOGNIZED, k);
    var i, j :| Lists(doc.agents, connected, i, j) && Fold(doc.agents[i].models[j].name) == k;
    assert Lists(doc.agents, RECOGNIZED, i, j);
  }

  /** No row the price pass may fill is one the reconciler may create, reprice or enable. */
  lemma WritesAreDisjoint(doc: Doc, connected: set<Provider>, s: State, n: string, w: Write)
    requires n in s.rows && VerdictFor(doc, n, s.rows[n]).Fill?
    requires Rightful(GoalOf(doc, connected), s, w) && (w.Create? || w.SetPricing? || w.Enable?)
    ensures w.name != n
  {
    if w.name == n {
      GoalIsIndexed(doc, connected, Fold(n));
      if w.Create? { assert Holds(s.rows, Fold(n), n); }
    }
  }

  /** A rightful write of the reconciler leaves the price pass nothing to do where it had nothing to do. */
  lemma RightfulKeepsFilled(doc: Doc, connected: set<Provider>, s: State, w: Write)
    requires Filled(doc, s.rows) == s.rows && Rightful(GoalOf(doc, connected), s, w)
    ensures Filled(doc, Apply(w, s).rows) == Apply(w, s).rows
  {
    var t := Apply(w, s).rows;
    forall n | n in t ensures FilledRow(doc, n, t[n]) == t[n] {
      if n in s.rows && t[n] == s.rows[n] {
        assert Filled(doc, s.rows)[n] == s.rows[n];
      } else {
        GoalIsIndexed(doc, connected, Fold(n));
        assert Managed(doc, n, t[n]);
      }
    }
  }

  lemma {:induction false} LegalKeepsFilled(doc: Doc, connected: set<Provider>, s: State, log: Log)
    requires Filled(doc, s.rows) == s.rows && Legal(GoalOf(doc, connected), s, log)
    ensures Filled(doc, Replay(log, s).rows) == Replay(log, s).rows
  {
    match log
    case Empty =>
    case Then(front, w) =>
      LegalKeepsFilled(doc, connected, s, front);
      RightfulKeepsFilled(doc, connected, Replay(front, s), w);
  }

  lemma FilledIsFilled(doc: Doc, rows: Table)
    ensures Filled(doc, Filled(doc, rows)) == Filled(doc, rows)
  {
    forall n | n in rows ensures FilledRow(doc, n, FilledRow(doc, n, rows[n])) == FilledRow(doc, n, rows[n]) {
      FilledRowIsFinal(doc, n, rows[n]);
    }
  }

  /** A data sync cut off during the price pass, repeated, ends where an uninterrupted one would. */
  lemma {:induction false} CutFillConverges(doc: Doc, connected: set<Provider>, s: State, listing: seq<string>, cut: Log)
    requires IsListing(listing, s.rows) && CutOf(cut, Fillings(doc, s.rows, listing, |listing|))
    ensures DataSync(doc, connected, Replay(cut, s)) == DataSync(doc, connected, s)
  {
    var vs := Verdicts(doc, s.rows);
    var i := CutOfFillings(vs, listing, |listing|, cut);
    ListingDistinct(listing, s.rows);
    FillingsReach(vs, s, listing, i);
    JudgedIsFilled(doc, s.rows);
    PartlyFilled(doc, s.rows, Replay(cut, s).rows);
  }

  /** Filling the rest of a table of which some rows are filled already fills it. */
  lemma PartlyFilled(doc: Doc, rows: Table, partly: Table)
    requires partly.Keys == rows.Keys && forall n :: n in rows ==> partly[n] == rows[n] || partly[n] == Filled(doc, rows)[n]
    ensures Filled(doc, partly) == Filled(doc, rows)
  {
    forall n | n in rows ensures FilledRow(doc, n, partly[n]) == FilledRow(doc, n, rows[n]) {
      FilledRowIsFinal(doc, n, rows[n]);
      assert Filled(doc, rows)[n] == FilledRow(doc, n, rows[n]);
    }
  }

  /** So does one cut off during the reconciliation that follows. */
  lemma CutReconcileConverges(doc: Doc, connected: set<Provider>, s: State, t: State)
    requires CutRun(GoalOf(doc, connected), State(Filled(doc, s.rows), s.ledger), t)
    ensures Filled(doc, t.rows) == t.rows
    ensures DataSync(doc, connected, t) == DataSync(doc, connected, s)
  {
    var goal := GoalOf(doc, connected);
    var f := State(Filled(doc, s.rows), s.ledger);
    var readable, listing, order, cut :| CutRunBy(goal, f, readable, listing, order, cut) && t == Replay(cut, f);
    CutRunIsLegal(goal, f, readable, listing, order, cut);
    FilledIsFilled(doc, s.rows);
    LegalKeepsFilled(doc, connected, f, cut);
    LegalKeepsTarget(goal, f, cut);
  }

  /**
   The two steps are jointly idempotent: after a complete data sync a second one prices no row,
   creates, repairs and removes none, and does not write the ledger.
   */
  lemma SecondDataSyncIsSilent(doc: Doc, connected: set<Provider>, s: State, listing: seq<string>,
      order: seq<string>, listing': seq<string>)
    requires IsListing(listing, Filled(doc, s.rows)) && Orders(order, GoalOf(doc, connected))
    requires IsListing(listing', DataSync(doc, connected, s).rows)
    ensures var t := DataSync(doc, connected, s);
      && Fillings(doc, t.rows, listing', |listing'|) == Empty
      && Plan(GoalOf(doc, connected), t, listing', order) == Empty
      && DataSync(doc, connected, t) == t
  {
    var goal := GoalOf(doc, connected);
    var f := State(Filled(doc, s.rows), s.ledger);
    var t := DataSync(doc, connected, s);
    PlanReachesTarget(goal, f, listing, order);
    assert CutRunBy(goal, f, true, listing, order, Plan(goal, f, listing, order));
    CutReconcileConverges(doc, connected, s, t);
    SecondRunIsSilent(goal, f, listing', order);
    NothingToFill(doc, t.rows, listing');
  }

  lemma {:induction false} NothingToFillOf(vs: map<string, Verdict>, listing: seq<string>, n: nat)
    requires n <= |listing| && (forall m :: m in listing ==> m in vs && vs[m].Leave?)
    ensures FillingsOf(vs, listing, n) == Empty
  {
    if n > 0 { NothingToFillOf(vs, listing, n - 1); }
  }

  lemma NothingToFill(doc: Doc, rows: Table, listing: seq<string>)
    requires (forall m :: m in listing ==> m in rows) && Filled(doc, rows) == rows
    ensures Fillings(doc, rows, listing, |listing|) == Empty
  {
    forall m | m in listing ensures Verdicts(doc, rows)[m].Leave? {
      assert Filled(doc, rows)[m] == rows[m];
      UnfilledIsLeft(doc, m, rows[m]);
    }
    NothingToFillOf(Verdicts(doc, rows), listing, |listing|);
  }

  lemma UnfilledIsLeft(doc: Doc, n: string, row: Row)
    requires FilledRow(doc, n, row) == row
    ensures VerdictFor(doc, n, row).Leave?
  {
  }

  /**
   The writes are disjoint but for deletion: a row the pass fills is gone after the same data sync
   exactly when it is a text row without sources whose name the ledger holds.
   */
  lemma FilledThenReclaimedIff(doc: Doc, connected: set<Provider>, s: State, n: string)
    requires n in s.rows && VerdictFor(doc, n, s.rows[n]).Fill?
    ensures n !in DataSync(doc, connected, s).rows <==> Bare(s.rows[n]) && Fold(n) in s.ledger
  {
    if Fold(n) in GoalOf(doc, connected) { GoalIsIndexed(doc, connected, Fold(n)); }
    assert n in Filled(doc, s.rows) && Bare(Filled(doc, s.rows)[n]) == Bare(s.rows[n]);
  }

  /** And that does occur: a row of ours that the subscriptions dropped while a platform lists its name. */
  lemma FilledThenReclaimed()
    ensures exists doc: Doc, s: State, n: string ::
      n in s.rows && VerdictFor(doc, n, s.rows[n]).Fill? && n !in DataSync(doc, {}, s).rows
  {
    var doc := Doc([Platform("p", "t", [PlatformModel("m", TextKind, PriceTable("1"))])], []);
    var row := Row(TextKind, [], false, "");
    var s := State(map["m" := row], {Fold("m")});
    assert PlatformByID(doc.platforms, "p", "t") == Some(doc.platforms[0]);
    assert HitOn(doc, doc.platforms[0], "m", TextKind) == Some(Hit(doc.platforms[0], doc.platforms[0].models[0]));
    assert Tries(doc, "m", TextKind, []) == [Some(Hit(doc.platforms[0], doc.platforms[0].models[0]))];
    assert Keys(Candidates(doc.agents, RECOGNIZED)) == {};
    assert VerdictFor(doc, "m", row) == Fill("1");
    FilledThenReclaimedIff(doc, {}, s, "m");
  }

  /** What the price pass wrote, all of it or a part, has not moved what the data sync is heading for. */
  lemma {:induction false} FillingsKeepTarget(doc: Doc, accounts: Option<set<Provider>>, s: State, listing: seq<string>, done: nat)
    requires IsListing(listing, s.rows) && done <= |listing|
    ensures accounts.Some? ==>
      DataSync(doc, accounts.value, Replay(Fillings(doc, s.rows, listing, done), s)) == DataSync(doc, accounts.value, s)
  {
    FillingsGrow(Verdicts(doc, s.rows), listing, done, |listing|);
    if accounts.Some? { CutFillConverges(doc, accounts.value, s, listing, Fillings(doc, s.rows, listing, done)); }
  }

  /** A run of the reconciler after a complete price pass: it has not moved the target, and reached it if nothing failed. */
  lemma {:induction false} ReconciledAfterFilling(doc: Doc, connected: set<Provider>, s: State, listing: seq<string>, order: seq<string>,
      log: Log, ok: bool, exhausted: bool)
    requires var f := State(Filled(doc, s.rows), s.ledger);
      && IsListing(listing, f.rows) && Orders(order, GoalOf(doc, connected))
      && Got(GoalOf(doc, connected), f, listing, order, log, ok, exhausted)
    ensures var t := Replay(log, State(Filled(doc, s.rows), s.ledger));
      && DataSync(doc, connected, t) == DataSync(doc, connected, s)
      && (!exhausted ==> t == DataSync(doc, connected, s))
  {
    var goal := GoalOf(doc, connected);
    var f := State(Filled(doc, s.rows), s.ledger);
    assert CutRunBy(goal, f, true, listing, order, log);
    CutReconcileConverges(doc, connected, s, Replay(log, f));
    PlanReachesTarget(goal, f, listing, order);
  }

  /**
   The two local steps of a data sync on the store, any operation of which may fail: `listing` and
   `relisted` are what listing the rows gave before each of them. However far it gets, a later sync
   ends where this one would have; and it ends there itself if nothing fails.
   */
  method SyncLocally(st: ModelStore, doc: Doc, listing: Option<seq<string>>, accounts: Option<set<Provider>>,
      ledgerReadable: bool, relisted: Option<seq<string>>) returns (ok: bool)
    requires listing.Some? ==> IsListing(listing.value, st.rows)
    requires relisted.Some? ==> IsListing(relisted.value, st.rows)
    modifies st
    ensures ledgerReadable && accounts.Some? ==>
      DataSync(doc, accounts.value, st.Now()) == DataSync(doc, accounts.value, old(st.Now()))
    ensures ledgerReadable && accounts.Some? && listing.Some? && relisted.Some? && st.writesLeft > 0 ==>
      ok && st.Now() == DataSync(doc, accounts.value, old(st.Now()))
  {
    ghost var before := st.Now();
    ghost var log;
    var applied, skipped;
    ghost var done;
    applied, skipped, ok, log, done := ApplyCatalogPricing(st, doc, listing);
    if listing.Some? { FillingsKeepTarget(doc, accounts, before, listing.value, done); }
    if !ok { return; }
    FillingsComplete(doc, before, listing.value);
    assert st.Now() == State(Filled(doc, before.rows), before.ledger);
    var res, synced, order;
    ghost var log2;
    res, synced, log2, order := SyncAgentModels(st, doc, accounts, ledgerReadable, relisted);
    if ledgerReadable && accounts.Some? && relisted.Some? {
      ReconciledAfterFilling(doc, accounts.value, before, relisted.value, order, log2, synced, st.writesLeft == 0);
    }
  }
}
