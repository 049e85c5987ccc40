/** Merging a submitted Claude credential into the stored one: each kind replaces only its own part. */
module ClaudeCredential {
  import opened Options

  /** A setup token ("" when there is none) and a quota login, side by side. */
  datatype Credential = Credential(setupToken: string, oauth: Option<string>, expired: bool)

  datatype Status = Active | AuthExpired | Disabled

  /** `version` stands for the sealed text and the time of the last write, which change with every write. */
  datatype Row = Row(credential: Credential, status: Status, title: string, model: string, version: nat)

  datatype Submission = Submission(credential: Credential, title: string, model: string)

  predicate IsToken(given: Submission) {
    given.credential.setupToken != ""
  }

  function MergedCredential(c: Credential, given: Submission): Credential {
    if IsToken(given) then c.(setupToken := given.credential.setupToken)
    else c.(oauth := given.credential.oauth, expired := given.credential.expired)
  }

  function Merged(r: Row, given: Submission): Row {
    r.(credential := MergedCredential(r.credential, given),
       status := if IsToken(given) && r.status != Disabled then Active else r.status,
       title := if given.title != "" then given.title else r.title,
       model := if given.model != "" then given.model else r.model,
       version := r.version + 1)
  }

  const ATTEMPTS := 8

  /** The row, which others may write between a reader's look and its own conditional write. */
  class Store {
    var row: Row

    constructor (r: Row)
      ensures row == r
    {
      row := r;
    }

    /** Writes only if the row is still the one that was read. */
    method WriteIf(read: Row, next: Row) returns (ok: bool)
      modifies this
      ensures ok <==> old(row).version == read.version
      ensures row == if ok then next else old(row)
    {
      ok := row.version == read.version;
      if ok { row := next; }
    }

    /** Somebody else's write. */
    method Interfere(other: Row)
      requires other.version > row.version
      modifies this
      ensures row == other
    {
      row := other;
    }

    /**
     Reads, merges and writes conditionally, at most eight times; `others` are the writes that
     slip in between, one for each attempt they disturb.
     */
    method Save(given: Submission, others: seq<Option<Row>>) returns (ok: bool)
      requires |others| == ATTEMPTS && InOrder(row, others)
      modifies this
      ensures ok <==> exists k :: 0 <= k < ATTEMPTS && others[k].None?
      ensures ok ==> exists k :: IsFirstCalm(others, k) && row == Merged(Latest(old(row), others, k), given)
      ensures !ok ==> row == Latest(old(row), others, ATTEMPTS)
    {
      ghost var before := row;
      for attempt := 0 to ATTEMPTS
        invariant row == Latest(before, others, attempt)
        invariant forall k :: 0 <= k < attempt ==> others[k].Some?
      {
        var read := row;
        var next := Merged(read, given);
        if others[attempt].Some? { Interfere(others[attempt].value); }
        var wrote := WriteIf(read, next);
        if wrote {
          assert IsFirstCalm(others, attempt);
          return true;
        }
      }
      ok := false;
    }
  }

  /** The first attempt nobody disturbs. */
  predicate IsFirstCalm(others: seq<Option<Row>>, k: nat) {
    k < |others| && others[k].None? && forall j :: 0 <= j < k ==> others[j].Some?
  }

  /** The row after the first `n` disturbances. */
  function Latest(r: Row, others: seq<Option<Row>>, n: nat): Row
    requires n <= |others|
  {
    if n == 0 then r else if others[n - 1].Some? then others[n - 1].value else Latest(r, others, n - 1)
  }

  /** Every write, whoever does it, has a version above what it finds. */
  predicate InOrder(r: Row, others: seq<Option<Row>>) {
    forall n :: 0 <= n < |others| && others[n].Some? ==> others[n].value.version > Latest(r, others, n).version
  }

  // ---- any number of savers at once ----

  type SaverId = nat

  /** A saver between attempts, between its look at the row and its write, or done. */
  datatype Phase = Idle(left: nat) | Looked(read: Row, left: nat) | Saved | GaveUp

  datatype Saver = Saver(given: Submission, phase: Phase)

  datatype Entry = Entry(saver: SaverId, given: Submission)

  /** `saved` are the writes that took effect, in that order. */
  datatype World = World(row: Row, savers: map<SaverId, Saver>, saved: seq<Entry>)

  datatype Step =
    | Submit(i: SaverId, given: Submission)
    | Look(i: SaverId)
    | Write(i: SaverId)
    | Touch(status: Status, title: string, model: string)  // somebody else edits the row, not its credential

  predicate Enabled(w: World, a: Step) {
    match a
    case Submit(i, _) => i !in w.savers
    case Look(i) => i in w.savers && w.savers[i].phase.Idle?
    case Write(i) => i in w.savers && w.savers[i].phase.Looked?
    case Touch(_, _, _) => true
  }

  function Do(w: World, a: Step): World
    requires Enabled(w, a)
  {
    match a
    case Submit(i, given) => w.(savers := w.savers[i := Saver(given, Idle(ATTEMPTS))])
    case Look(i) =>
      var s := w.savers[i];
      w.(savers := w.savers[i := s.(phase := if s.phase.left == 0 then GaveUp else Looked(w.row, s.phase.left - 1))])
    case Write(i) =>
      var s := w.savers[i];
      if w.row.version == s.phase.read.version
      then World(Merged(s.phase.read, s.given), w.savers[i := s.(phase := Saved)], w.saved + [Entry(i, s.given)])
      else w.(savers := w.savers[i := s.(phase := Idle(s.phase.left))])
    case Touch(status, title, model) =>
      w.(row := w.row.(status := status, title := title, model := model, version := w.row.version + 1))
  }

  datatype Trace = Begin(row: Row) | Then(front: Trace, step: Step)

  predicate Valid(t: Trace)
    decreases t, 0
  {
    match t
    case Begin(_) => true
    case Then(front, a) => Valid(front) && Enabled(End(front), a)
  }

  function End(t: Trace): World
    requires Valid(t)
    decreases t, 1
  {
    match t
    case Begin(row) => World(row, map[], [])
    case Then(front, a) => Do(End(front), a)
  }

  function Initial(t: Trace): Credential {
    match t
    case Begin(row) => row.credential
    case Then(front, _) => Initial(front)
  }

  /** What a series of merges makes of a credential. */
  function MergedAll(c: Credential, saved: seq<Entry>): Credential {
    if saved == [] then c else MergedCredential(MergedAll(c, saved[..|saved| - 1]), saved[|saved| - 1].given)
  }

  /** Write `k` is the last of its kind. */
  predicate LastOfKind(saved: seq<Entry>, k: nat, token: bool) {
    && k < |saved| && IsToken(saved[k].given) == token
    && forall j :: k < j < |saved| ==> IsToken(saved[j].given) != token
  }

  predicate NoneOfKind(saved: seq<Entry>, token: bool) {
    forall j :: 0 <= j < |saved| ==> IsToken(saved[j].given) != token
  }

  /** The part of a credential that belongs to one kind. */
  function Part(c: Credential, token: bool): Credential {
    if token then c.(oauth := None, expired := false) else c.(setupToken := "")
  }

  lemma {:induction false} LastOfKindCounts(c: Credential, saved: seq<Entry>, k: nat, token: bool)
    requires LastOfKind(saved, k, token)
    ensures Part(MergedAll(c, saved), token) == Part(saved[k].given.credential, token)
    decreases |saved|
  {
    var front := saved[..|saved| - 1];
    if k < |front| {
      assert LastOfKind(front, k, token);
      LastOfKindCounts(c, front, k, token);
    }
  }

  lemma {:induction false} NoneOfKindKeeps(c: Credential, saved: seq<Entry>, token: bool)
    requires NoneOfKind(saved, token)
    ensures Part(MergedAll(c, saved), token) == Part(c, token)
    decreases |saved|
  {
    if saved != [] { NoneOfKindKeeps(c, saved[..|saved| - 1], token); }
  }

  /** The row is what the writes made of it, and a look is never ahead of it; who counts as saved has written. */
  ghost predicate Inv(w: World, c0: Credential) {
    && w.row.credential == MergedAll(c0, w.saved)
    && (forall e :: e in w.saved ==> e.saver in w.savers && w.savers[e.saver].given == e.given)
    && (forall i :: i in w.savers && w.savers[i].phase.Saved? ==> Entry(i, w.savers[i].given) in w.saved)
    && (forall i :: i in w.savers && w.savers[i].phase.Looked? ==>
          var read := w.savers[i].phase.read; read.version <= w.row.version && (read.version == w.row.version ==> read == w.row))
  }

  lemma StepKeepsInv(w: World, a: Step, c0: Credential)
    requires Inv(w, c0) && Enabled(w, a)
    ensures Inv(Do(w, a), c0)
  {
    if a.Write? && w.row.version == w.savers[a.i].phase.read.version {
      SaveKeepsInv(w, a.i, c0);
    } else {
      assert Do(w, a).saved == w.saved;
    }
  }

  /** A write that takes effect merges into the row as it is, for the row has not changed since the look. */
  lemma SaveKeepsInv(w: World, i: SaverId, c0: Credential)
    requires Inv(w, c0) && Enabled(w, Write(i)) && w.row.version == w.savers[i].phase.read.version
    ensures Inv(Do(w, Write(i)), c0)
  {
    var w' := Do(w, Write(i));
    var e := Entry(i, w.savers[i].given);
    assert w'.saved[..|w'.saved| - 1] == w.saved;
    assert MergedAll(c0, w'.saved) == MergedCredential(MergedAll(c0, w.saved), e.given);
    assert e in w'.saved;
  }

  lemma {:induction false} RunsKeepInv(t: Trace)
    requires Valid(t)
    ensures Inv(End(t), Initial(t))
  {
    if t.Then? {
      RunsKeepInv(t.front);
      StepKeepsInv(End(t.front), t.step, Initial(t));
    }
  }

  /**
   No update is lost: in every interleaving of any number of savers, each kind's part of the
   credential is what the last successful saver of that kind gave, or the initial one if there was
   none, whatever savers of the other kind and other edits did in between.
   */
  lemma {:induction false} NoUpdateIsLost(t: Trace, k: nat, token: bool)
    requires Valid(t)
    ensures var w := End(t);
      && (LastOfKind(w.saved, k, token) ==> Part(w.row.credential, token) == Part(w.saved[k].given.credential, token))
      && (NoneOfKind(w.saved, token) ==> Part(w.row.credential, token) == Part(Initial(t), token))
  {
    RunsKeepInv(t);
    var w := End(t);
    if LastOfKind(w.saved, k, token) { LastOfKindCounts(Initial(t), w.saved, k, token); }
    if NoneOfKind(w.saved, token) { NoneOfKindKeeps(Initial(t), w.saved, token); }
  }

  /** So of one setup token and one login submitted at once, both are there when both succeeded. */
  lemma {:induction false} TokenAndLoginBothStay(t: Trace, i: SaverId, j: SaverId)
    requires Valid(t) && End(t).savers.Keys == {i, j}
    requires End(t).savers[i].phase.Saved? && IsToken(End(t).savers[i].given)
    requires End(t).savers[j].phase.Saved? && !IsToken(End(t).savers[j].given)
    ensures var token, login := End(t).savers[i].given.credential, End(t).savers[j].given.credential;
      End(t).row.credential == Credential(token.setupToken, login.oauth, login.expired)
  {
    var w := End(t);
    var k := SavedLast(t, i, true);
    var l := SavedLast(t, j, false);
    NoUpdateIsLost(t, k, true);
    NoUpdateIsLost(t, l, false);
  }

  /**
   What a save makes of the row as it stands at that moment: a setup token puts an account back into
   use unless it is disabled, a login leaves that alone; a title and a model replace the row's own
   when they are given.
   */
  lemma {:induction false} SaveLeaves(t: Trace, i: SaverId)
    requires Valid(Then(t, Write(i))) && End(Then(t, Write(i))).savers[i].phase.Saved?
    ensures var given, r, r' := End(t).savers[i].given, End(t).row, End(Then(t, Write(i))).row;
      && r'.status == (if given.credential.setupToken != "" && r.status == AuthExpired then Active else r.status)
      && r'.title == (if given.title == "" then r.title else given.title)
      && r'.model == (if given.model == "" then r.model else given.model)
      && (given.credential.setupToken != "" ==>
            r'.credential == Credential(given.credential.setupToken, r.credential.oauth, r.credential.expired))
      && (given.credential.setupToken == "" ==>
            r'.credential == Credential(r.credential.setupToken, given.credential.oauth, given.credential.expired))
  {
    RunsKeepInv(t);
  }

  /** `u` goes on from `t`, and nobody but the savers sets the status in between. */
  predicate StatusLeft(t: Trace, u: Trace)
    requires Valid(u)
  {
    u == t || (u.Then? && StatusLeft(t, u.front) && (u.step.Touch? ==> u.step.status == End(u.front).row.status))
  }

  /** No saver takes a disabled account back into use; nor takes an active one out of use. */
  lemma {:induction false} SaversNeverEnable(t: Trace, u: Trace)
    requires Valid(t) && Valid(u) && StatusLeft(t, u)
    ensures End(t).row.status == Disabled <==> End(u).row.status == Disabled
    ensures End(t).row.status == Active ==> End(u).row.status == Active
    decreases u
  {
    if u != t {
      SaversNeverEnable(t, u.front);
      RunsKeepInv(u.front);
    }
  }

  lemma LastBy(saved: seq<Entry>, e: Entry) returns (k: nat)
    requires e in saved
    ensures k < |saved| && saved[k].saver == e.saver && forall l :: k < l < |saved| ==> saved[l].saver != e.saver
    decreases |saved|
  {
    k := |saved| - 1;
    if saved[k].saver != e.saver {
      assert saved == saved[..k] + [saved[k]];
      k := LastBy(saved[..k], e);
    }
  }

  /** The only saver of its kind is the last of its kind. */
  lemma SavedLast(t: Trace, i: SaverId, token: bool) returns (k: nat)
    requires Valid(t) && i in End(t).savers && End(t).savers[i].phase.Saved?
    requires forall j :: j in End(t).savers ==> (IsToken(End(t).savers[j].given) == token <==> j == i)
    ensures LastOfKind(End(t).saved, k, token) && End(t).saved[k].given == End(t).savers[i].given
  {
    RunsKeepInv(t);
    var w := End(t);
    k := LastBy(w.saved, Entry(i, w.savers[i].given));
    assert w.saved[k] in w.saved;
    forall l | k < l < |w.saved| ensures IsToken(w.saved[l].given) != token { assert w.saved[l] in w.saved; }
  }

  /** The two kinds commute on the credential and on the status: whichever is merged first, both are there. */
  lemma KindsCommute(r: Row, token: Submission, login: Submission)
    requires token.credential.setupToken != "" && login.credential.setupToken == ""
    ensures Merged(Merged(r, token), login).credential == Merged(Merged(r, login), token).credential
    ensures Merged(Merged(r, token), login).status == Merged(Merged(r, login), token).status
  {
  }
}
