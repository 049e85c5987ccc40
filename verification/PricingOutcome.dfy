/** What the price pass fills, told in indices of the catalogue file alone. */
module PricingOutcome {
  import opened AgentCatalog
  import opened AgentModels
  import opened AgentOutcome
  import opened CatalogPricing
  import opened Options
  import opened Text

  ghost predicate IsFirstPlatform(platforms: seq<Platform>, id: string, p: int) {
    0 <= p < |platforms| && platforms[p].id == id && forall h :: 0 <= h < p ==> platforms[h].id != id
  }

  ghost predicate IsFirstModel(models: seq<PlatformModel>, name: string, kind: Kind, m: int) {
    && 0 <= m < |models| && Fold(models[m].name) == Fold(name) && models[m].kind == kind
    && forall h :: 0 <= h < m ==> !(Fold(models[h].name) == Fold(name) && models[h].kind == kind)
  }

  /** An id, or what stands in for an empty one. */
  function OrElse(id: string, other: string): string {
    if id != "" then id else other
  }

  /** Platform `p` leads to entry `m` of platform `q`, itself unless its id is empty. */
  ghost predicate LeadsTo(doc: Doc, name: string, kind: Kind, p: int, q: int, m: int) {
    && 0 <= p < |doc.platforms|
    && IsFirstPlatform(doc.platforms, OrElse(doc.platforms[p].id, doc.platforms[p].adapter), q)
    && IsFirstModel(doc.platforms[q].models, name, kind, m)
  }

  /**
   The `r`-th place to look leads to entry `m` of platform `q`, by way of platform `p`: the `r`-th
   source's platform, or, without any source, the `r`-th platform of the file.
   */
  ghost predicate Offers(doc: Doc, name: string, kind: Kind, sources: seq<Source>, r: int, p: int, q: int, m: int) {
    && LeadsTo(doc, name, kind, p, q, m)
    && if sources == [] then r == p
       else 0 <= r < |sources| && IsFirstPlatform(doc.platforms, OrElse(sources[r].catalogID, sources[r].adapter), p)
  }

  /** The entry carries a price, whatever its worth. */
  ghost predicate HasBytes(doc: Doc, q: int, m: int) {
    0 <= q < |doc.platforms| && 0 <= m < |doc.platforms[q].models| && doc.platforms[q].models[m].price != NoBytes
  }

  /** It is the first to do so. */
  ghost predicate FirstPricedOffer(doc: Doc, name: string, kind: Kind, sources: seq<Source>, r: int, p: int, q: int, m: int) {
    && Offers(doc, name, kind, sources, r, p, q, m) && HasBytes(doc, q, m)
    && forall r', p', q', m' :: Offers(doc, name, kind, sources, r', p', q', m') && HasBytes(doc, q', m') ==> r <= r'
  }

  lemma {:induction false} PlatformIsFirst(platforms: seq<Platform>, id: string) returns (p: int)
    ensures FirstPlatform(platforms, id).None? ==> forall h :: 0 <= h < |platforms| ==> platforms[h].id != id
    ensures FirstPlatform(platforms, id).Some? ==> IsFirstPlatform(platforms, id, p) && FirstPlatform(platforms, id).value == platforms[p]
  {
    p := 0;
    if platforms != [] && platforms[0].id != id {
      var h := PlatformIsFirst(platforms[1..], id);
      assert forall g :: 1 <= g < |platforms| ==> platforms[g] == platforms[1..][g - 1];
      p := h + 1;
    }
  }

  lemma {:induction false} ModelIsFirst(models: seq<PlatformModel>, name: string, kind: Kind) returns (m: int)
    ensures FirstModel(models, name, kind).None? ==>
      forall h :: 0 <= h < |models| ==> !(Fold(models[h].name) == Fold(name) && models[h].kind == kind)
    ensures FirstModel(models, name, kind).Some? ==>
      IsFirstModel(models, name, kind, m) && FirstModel(models, name, kind).value == models[m]
  {
    m := 0;
    if models != [] && !(Fold(models[0].name) == Fold(name) && models[0].kind == kind) {
      var h := ModelIsFirst(models[1..], name, kind);
      assert forall g :: 1 <= g < |models| ==> models[g] == models[1..][g - 1];
      m := h + 1;
    }
  }

  /** What platform `p` leads to, if anything. */
  lemma HitIsLed(doc: Doc, name: string, kind: Kind, p: int) returns (q: int, m: int)
    requires 0 <= p < |doc.platforms|
    ensures HitOn(doc, doc.platforms[p], name, kind).Some? ==>
      LeadsTo(doc, name, kind, p, q, m) && HitOn(doc, doc.platforms[p], name, kind).value == Hit(doc.platforms[p], doc.platforms[q].models[m])
    ensures HitOn(doc, doc.platforms[p], name, kind).None? ==> forall q', m' :: !LeadsTo(doc, name, kind, p, q', m')
  {
    q := PlatformIsFirst(doc.platforms, OrElse(doc.platforms[p].id, doc.platforms[p].adapter));
    m := 0;
    if PlatformByID(doc.platforms, doc.platforms[p].id, doc.platforms[p].adapter).Some? {
      m := ModelIsFirst(doc.platforms[q].models, name, kind);
      forall q', m' | LeadsTo(doc, name, kind, p, q', m') ensures q' == q {}
    }
  }

  /** The `r`-th lookup finds what the `r`-th place leads to. */
  lemma TryIsOffer(doc: Doc, name: string, kind: Kind, sources: seq<Source>, r: int) returns (p: int, q: int, m: int)
    requires 0 <= r < |Tries(doc, name, kind, sources)|
    ensures var t := Tries(doc, name, kind, sources)[r];
      && (t.Some? ==> Offers(doc, name, kind, sources, r, p, q, m) && t.value == Hit(doc.platforms[p], doc.platforms[q].models[m]))
      && (t.None? ==> forall p', q', m' :: !Offers(doc, name, kind, sources, r, p', q', m'))
  {
    if sources == [] {
      p := r;
      TriedByPlatform(doc, name, kind, r);
      q, m := HitIsLed(doc, name, kind, p);
    } else {
      TriedBySource(doc, name, kind, sources, r);
      p := PlatformIsFirst(doc.platforms, OrElse(sources[r].catalogID, sources[r].adapter));
      q, m := 0, 0;
      if PlatformByID(doc.platforms, sources[r].catalogID, sources[r].adapter).Some? {
        q, m := HitIsLed(doc, name, kind, p);
        forall p', q', m' | Offers(doc, name, kind, sources, r, p', q', m') ensures p' == p {}
      }
    }
  }

  /** A place leads to one entry. */
  lemma OffersAreUnique(doc: Doc, name: string, kind: Kind, sources: seq<Source>, r: int, p: int, q: int, m: int, p': int, q': int, m': int)
    requires Offers(doc, name, kind, sources, r, p, q, m) && Offers(doc, name, kind, sources, r, p', q', m')
    ensures p == p' && q == q' && m == m'
  {
  }

  lemma OfferIsTried(doc: Doc, name: string, kind: Kind, sources: seq<Source>, r: int, p: int, q: int, m: int)
    requires Offers(doc, name, kind, sources, r, p, q, m)
    ensures 0 <= r < |Tries(doc, name, kind, sources)|
    ensures Tries(doc, name, kind, sources)[r] == Some(Hit(doc.platforms[p], doc.platforms[q].models[m]))
  {
    var p', q', m' := TryIsOffer(doc, name, kind, sources, r);
    if Tries(doc, name, kind, sources)[r].Some? { OffersAreUnique(doc, name, kind, sources, r, p, q, m, p', q', m'); }
  }

  /**
   The entry chosen for a row is the first, in the order of its sources or else of the file, that has
   its name and kind and carries a price; there is a choice exactly when there is such an entry, and
   otherwise the reason tells how close the file comes.
   */
  lemma ChoiceMeans(doc: Doc, name: string, kind: Kind, sources: seq<Source>)
    ensures var c := PriceChoice(doc, name, kind, sources);
      && (c.Chosen? ==> exists r, p, q, m :: FirstPricedOffer(doc, name, kind, sources, r, p, q, m)
                                             && c.hit == Hit(doc.platforms[p], doc.platforms[q].models[m]))
      && (c.Chosen? ==> Fold(c.hit.model.name) == Fold(name) && c.hit.model.kind == kind)
      && (c.Refused? ==> forall r, p, q, m :: Offers(doc, name, kind, sources, r, p, q, m) ==> !HasBytes(doc, q, m))
      && (c == Refused(NoPriceInFile) <==> c.Refused? && exists r, p, q, m :: Offers(doc, name, kind, sources, r, p, q, m))
      && (c == Refused(KindMismatch) ==> exists p, m :: Mentions(doc, name, p, m))
      && (c == Refused(NotInFile) ==> forall p, m :: !Mentions(doc, name, p, m))
      && (c.Refused? ==> c.reason == NoPriceInFile || c.reason == KindMismatch || c.reason == NotInFile)
  {
    var ts := Tries(doc, name, kind, sources);
    var c := PriceChoice(doc, name, kind, sources);
    if c.Chosen? {
      ChosenIsFirst(doc, name, kind, sources);
    } else {
      forall r, p, q, m | Offers(doc, name, kind, sources, r, p, q, m) ensures !HasBytes(doc, q, m) && c.reason == NoPriceInFile {
        OfferIsTried(doc, name, kind, sources, r, p, q, m);
      }
      if c.reason == NoPriceInFile {
        var r :| 0 <= r < |ts| && ts[r].Some?;
        var p, q, m := TryIsOffer(doc, name, kind, sources, r);
      }
      if p, m :| Mentions(doc, name, p, m) { assert NamedAnywhere(doc, name); }
      if NamedAnywhere(doc, name) {
        var p, m :| 0 <= p < |doc.platforms| && 0 <= m < |doc.platforms[p].models| && Fold(doc.platforms[p].models[m].name) == Fold(name);
        assert Mentions(doc, name, p, m);
      }
    }
  }

  /**
   The answer for a row, told in places: the first entry offered that carries a price; or, if none
   does, how close the file comes.
   */
  ghost predicate IsChoice(doc: Doc, name: string, kind: Kind, sources: seq<Source>, c: Choice) {
    match c
    case Chosen(hit) =>
      exists r, p, q, m :: FirstPricedOffer(doc, name, kind, sources, r, p, q, m) && hit == Hit(doc.platforms[p], doc.platforms[q].models[m])
    case Refused(reason) =>
      && (forall r, p, q, m :: Offers(doc, name, kind, sources, r, p, q, m) ==> !HasBytes(doc, q, m))
      && reason == if exists r, p, q, m :: Offers(doc, name, kind, sources, r, p, q, m) then NoPriceInFile
                   else if exists p, m :: Mentions(doc, name, p, m) then KindMismatch
                   else NotInFile
  }

  /** There is one such answer, and it is the one found. */
  lemma ChoiceIsDetermined(doc: Doc, name: string, kind: Kind, sources: seq<Source>, c: Choice)
    ensures IsChoice(doc, name, kind, sources, c) <==> c == PriceChoice(doc, name, kind, sources)
  {
    ChoiceMeans(doc, name, kind, sources);
    var found := PriceChoice(doc, name, kind, sources);
    if IsChoice(doc, name, kind, sources, c) && c.Chosen? {
      var r, p, q, m :| FirstPricedOffer(doc, name, kind, sources, r, p, q, m) && c.hit == Hit(doc.platforms[p], doc.platforms[q].models[m]);
      assert found.Chosen?;
      ChosenIsThis(doc, name, kind, sources, r, p, q, m);
    }
  }

  lemma ChosenIsThis(doc: Doc, name: string, kind: Kind, sources: seq<Source>, r: int, p: int, q: int, m: int)
    requires FirstPricedOffer(doc, name, kind, sources, r, p, q, m) && PriceChoice(doc, name, kind, sources).Chosen?
    ensures PriceChoice(doc, name, kind, sources).hit == Hit(doc.platforms[p], doc.platforms[q].models[m])
  {
    ChosenIsFirst(doc, name, kind, sources);
    var r', p', q', m' :| FirstPricedOffer(doc, name, kind, sources, r', p', q', m')
                          && PriceChoice(doc, name, kind, sources).hit == Hit(doc.platforms[p'], doc.platforms[q'].models[m']);
    OffersAreUnique(doc, name, kind, sources, r, p, q, m, p', q', m');
  }

  ghost predicate Mentions(doc: Doc, name: string, p: int, m: int) {
    0 <= p < |doc.platforms| && 0 <= m < |doc.platforms[p].models| && Fold(doc.platforms[p].models[m].name) == Fold(name)
  }

  lemma ChosenIsFirst(doc: Doc, name: string, kind: Kind, sources: seq<Source>)
    requires PriceChoice(doc, name, kind, sources).Chosen?
    ensures exists r, p, q, m :: FirstPricedOffer(doc, name, kind, sources, r, p, q, m)
              && PriceChoice(doc, name, kind, sources).hit == Hit(doc.platforms[p], doc.platforms[q].models[m])
  {
    var ts := Tries(doc, name, kind, sources);
    var hit := PriceChoice(doc, name, kind, sources).hit;
    var r :| 0 <= r < |ts| && Priced(ts[r]) && ts[r].value == hit && forall j :: 0 <= j < r ==> !Priced(ts[j]);
    var p, q, m := TryIsOffer(doc, name, kind, sources, r);
    forall r', p', q', m' | Offers(doc, name, kind, sources, r', p', q', m') && HasBytes(doc, q', m') ensures r <= r' {
      OfferIsTried(doc, name, kind, sources, r', p', q', m');
    }
    assert FirstPricedOffer(doc, name, kind, sources, r, p, q, m);
  }

  /** A platform with an id of its own leads to itself, if it is the first with that id. */
  lemma LeadsToItself(doc: Doc, name: string, kind: Kind, sources: seq<Source>, r: int, p: int, q: int, m: int)
    requires Offers(doc, name, kind, sources, r, p, q, m) && sources != [] && doc.platforms[p].id != ""
    ensures q == p
  {
  }

  // ---- the rows ----

  /** Some subscription section this firmware recognizes calls for a row of this name. */
  ghost predicate SubscriptionLists(doc: Doc, k: string) {
    IsWanted(doc.agents, {Codex, Grok, Claude}, k)
  }

  lemma IndexedIsListed(doc: Doc, k: string)
    ensures k in Keys(Candidates(doc.agents, RECOGNIZED)) <==> SubscriptionLists(doc, k)
  {
    WantedExactly(doc.agents, RECOGNIZED, k);
    if i, j :| Lists(doc.agents, RECOGNIZED, i, j) && Fold(doc.agents[i].models[j].name) == k {
      assert ListedAt(doc.agents, {Codex, Grok, Claude}, k, i, j);
    }
    if i, j :| ListedAt(doc.agents, {Codex, Grok, Claude}, k, i, j) { assert Lists(doc.agents, RECOGNIZED, i, j); }
  }

  /** The price `text` is what the file has for an unpriced row that no subscription prices. */
  ghost predicate FileHas(doc: Doc, n: string, row: Row, text: string) {
    && row.pricing == "" && text != ""
    && !(row.kind == TextKind && row.sources == [] && SubscriptionLists(doc, Fold(n)))
    && exists r, p, q, m :: FirstPricedOffer(doc, n, row.kind, row.sources, r, p, q, m) && doc.platforms[q].models[m].price == PriceTable(text)
  }

  lemma FirstPricedOfferIsUnique(doc: Doc, name: string, kind: Kind, sources: seq<Source>,
      r: int, p: int, q: int, m: int, r': int, p': int, q': int, m': int)
    requires FirstPricedOffer(doc, name, kind, sources, r, p, q, m) && FirstPricedOffer(doc, name, kind, sources, r', p', q', m')
    ensures r == r' && q == q' && m == m'
  {
    OffersAreUnique(doc, name, kind, sources, r, p, q, m, p', q', m');
  }

  /** A complete pass gives a row the file's price exactly when the file has one for it, and else leaves it alone. */
  lemma FillMeans(doc: Doc, rows: Table, n: string)
    requires n in rows
    ensures n in Filled(doc, rows)
    ensures forall text :: FileHas(doc, n, rows[n], text) ==> Filled(doc, rows)[n] == rows[n].(pricing := text)
    ensures (forall text :: !FileHas(doc, n, rows[n], text)) ==> Filled(doc, rows)[n] == rows[n]
  {
    var row := rows[n];
    forall text | FileHas(doc, n, row, text) ensures Filled(doc, rows)[n] == row.(pricing := text) {
      FileHasFills(doc, n, row, text);
    }
    if VerdictFor(doc, n, row).Fill? { FilledHas(doc, n, row); }
  }

  lemma FilledHas(doc: Doc, n: string, row: Row)
    requires VerdictFor(doc, n, row).Fill?
    ensures FileHas(doc, n, row, VerdictFor(doc, n, row).text)
  {
    IndexedIsListed(doc, Fold(n));
    ChosenIsFirst(doc, n, row.kind, row.sources);
    var text := VerdictFor(doc, n, row).text;
    var r, p, q, m :| FirstPricedOffer(doc, n, row.kind, row.sources, r, p, q, m)
                      && PriceChoice(doc, n, row.kind, row.sources).hit == Hit(doc.platforms[p], doc.platforms[q].models[m]);
    assert doc.platforms[q].models[m].price == PriceTable(text);
  }

  lemma FileHasFills(doc: Doc, n: string, row: Row, text: string)
    requires FileHas(doc, n, row, text)
    ensures VerdictFor(doc, n, row) == Fill(text)
  {
    IndexedIsListed(doc, Fold(n));
    var r, p, q, m :| FirstPricedOffer(doc, n, row.kind, row.sources, r, p, q, m) && doc.platforms[q].models[m].price == PriceTable(text);
    FirstPricedIsChosen(doc, n, row.kind, row.sources, r, p, q, m);
  }

  /** The first entry that carries a price for the row carries one that does not pass. */
  ghost predicate HasMalformed(doc: Doc, n: string, row: Row) {
    exists r, p, q, m :: FirstPricedOffer(doc, n, row.kind, row.sources, r, p, q, m) && doc.platforms[q].models[m].price == Malformed
  }

  /** A row that is left is reported as priced, as a subscription's, or as having a price that does not pass, exactly when it is. */
  lemma SkipMeans(doc: Doc, rows: Table, n: string)
    requires n in rows
    ensures var row, v := rows[n], Verdicts(doc, rows)[n];
      var theirs := row.kind == TextKind && row.sources == [] && SubscriptionLists(doc, Fold(n));
      && (v == Leave(AlreadyPriced) <==> row.pricing != "")
      && (v == Leave(AgentManaged) <==> row.pricing == "" && theirs)
      && (v == Leave(InvalidPrice) <==> row.pricing == "" && !theirs && HasMalformed(doc, n, row))
      && (v == Leave(KindMismatch) <==> row.pricing == "" && !theirs && PriceChoice(doc, n, row.kind, row.sources) == Refused(KindMismatch))
      && (v == Leave(NotInFile) <==> row.pricing == "" && !theirs && PriceChoice(doc, n, row.kind, row.sources) == Refused(NotInFile))
      && (v.Fill? <==> FileHas(doc, n, row, if v.Fill? then v.text else ""))
  {
    var row := rows[n];
    IndexedIsListed(doc, Fold(n));
    ChoiceMeans(doc, n, row.kind, row.sources);
    var v := VerdictFor(doc, n, row);
    if v.Fill? { FilledHas(doc, n, row); }
    if r, p, q, m :| FirstPricedOffer(doc, n, row.kind, row.sources, r, p, q, m) && doc.platforms[q].models[m].price == Malformed {
      FirstPricedIsChosen(doc, n, row.kind, row.sources, r, p, q, m);
    }
  }

  lemma FirstPricedIsChosen(doc: Doc, name: string, kind: Kind, sources: seq<Source>, r: int, p: int, q: int, m: int)
    requires FirstPricedOffer(doc, name, kind, sources, r, p, q, m)
    ensures PriceChoice(doc, name, kind, sources).Chosen? && PriceChoice(doc, name, kind, sources).hit.model == doc.platforms[q].models[m]
  {
    ChoiceMeans(doc, name, kind, sources);
    var c := PriceChoice(doc, name, kind, sources);
    assert c.Chosen?;
    var r', p', q', m' :| FirstPricedOffer(doc, name, kind, sources, r', p', q', m') && c.hit == Hit(doc.platforms[p'], doc.platforms[q'].models[m']);
    FirstPricedOfferIsUnique(doc, name, kind, sources, r, p, q, m, r', p', q', m');
  }
}
