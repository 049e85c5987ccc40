/**
 Rotations of the device's access key interleaved with pushes to hosts. Keys are numbered in the
 order they became current; a push reads the current key, later the previous one, then logs in, and
 later still runs the installing script on the connection it has.
 */
module KeyRotation {
  import opened KeyFile
  import opened Options

  type HostId = nat
  type PushId = nat

  datatype Push =
    | Reading(h: HostId, cert: nat)
    | Loaded(h: HostId, cert: nat, prev: Option<nat>)
    | Connected(h: HostId, cert: nat, prev: Option<nat>)
    | Over

  /** What a rotation owes a host: one push of the key it made current. */
  datatype Debt = Debt(h: HostId, cert: nat)

  /** `due` are the pushes a rotation still has to begin: each host once, with the key of that rotation. */
  datatype State = State(keys: seq<string>, hosts: map<HostId, File>, pushes: map<PushId, Push>, due: set<Debt>)

  datatype Step =
    | Rotate(key: string)
    | RotationPush(p: PushId, h: HostId, cert: nat)  // the push a rotation does with its own pair of keys
    | ReadCurrent(p: PushId, h: HostId)
    | ReadPrevious(p: PushId)
    | Connect(p: PushId)
    | LogIn(p: PushId)                               // an enrolment connects with the user's password instead
    | Install(p: PushId)
    | GiveUp(p: PushId)                              // the host cannot be reached, or refuses both keys
    | Edit(h: HostId, f: File)                       // somebody else edits lines of their own

  predicate Holds(s: State, h: HostId, g: nat)
    requires h in s.hosts && g < |s.keys|
  {
    Has(s.hosts[h], s.keys[g])
  }

  function Latest(s: State): nat
    requires |s.keys| > 0
  {
    |s.keys| - 1
  }

  function Previous(s: State): Option<nat> {
    if |s.keys| < 2 then None else Some(|s.keys| - 2)
  }

  function KeyOf(s: State, g: Option<nat>): string
    requires g.Some? ==> g.value < |s.keys|
  {
    if g.None? then "" else s.keys[g.value]
  }

  /** The host lets the push in with one of the two keys it has. */
  predicate LetsIn(s: State, q: Push)
    requires q.Loaded? && q.h in s.hosts && q.cert < |s.keys| && (q.prev.Some? ==> q.prev.value < |s.keys|)
  {
    Holds(s, q.h, q.cert) || (q.prev.Some? && Holds(s, q.h, q.prev.value))
  }

  /** Device keys are distinct lines, and every file ends in a newline, as every install leaves it. */
  predicate Sound(s: State) {
    && |s.keys| > 0
    && (forall g :: 0 <= g < |s.keys| ==> s.keys[g] != "")
    && (forall g, g' :: 0 <= g < g' < |s.keys| ==> s.keys[g] != s.keys[g'])
    && (forall h :: h in s.hosts ==> s.hosts[h].tail == "")
    && (forall p :: p in s.pushes ==> PushOk(s, s.pushes[p]))
  }

  predicate PushOk(s: State, q: Push) {
    && (q.Reading? ==> q.h in s.hosts && q.cert < |s.keys|)
    && (q.Loaded? || q.Connected? ==> q.h in s.hosts && q.cert < |s.keys| && (q.prev.Some? ==> q.prev.value < |s.keys|))
  }

  predicate Enabled(s: State, a: Step) {
    match a
    case Rotate(key) => key != "" && key !in s.keys && forall h :: h in s.hosts ==> !Has(s.hosts[h], key)
    case RotationPush(p, h, cert) => p !in s.pushes && h in s.hosts && 0 < cert < |s.keys| && Debt(h, cert) in s.due
    case ReadCurrent(p, h) => p !in s.pushes && h in s.hosts
    case ReadPrevious(p) => p in s.pushes && s.pushes[p].Reading?
    case Connect(p) => p in s.pushes && s.pushes[p].Loaded? && PushOk(s, s.pushes[p]) && LetsIn(s, s.pushes[p])
    case LogIn(p) => p in s.pushes && s.pushes[p].Loaded? && PushOk(s, s.pushes[p])
    case Install(p) => p in s.pushes && s.pushes[p].Connected? && PushOk(s, s.pushes[p])
    case GiveUp(p) => p in s.pushes
    case Edit(h, f) =>
      h in s.hosts && f.tail == "" && forall g :: 0 <= g < |s.keys| ==> (Has(f, s.keys[g]) <==> Has(s.hosts[h], s.keys[g]))
  }

  function Do(s: State, a: Step): State
    requires Sound(s) && Enabled(s, a)
  {
    match a
    case Rotate(key) => s.(keys := s.keys + [key], due := s.due + set h | h in s.hosts :: Debt(h, |s.keys|))
    case RotationPush(p, h, cert) => s.(pushes := s.pushes[p := Loaded(h, cert, Some(cert - 1))], due := s.due - {Debt(h, cert)})
    case ReadCurrent(p, h) => s.(pushes := s.pushes[p := Reading(h, Latest(s))])
    case ReadPrevious(p) => s.(pushes := s.pushes[p := Loaded(s.pushes[p].h, s.pushes[p].cert, Previous(s))])
    case Connect(p) => var q := s.pushes[p]; s.(pushes := s.pushes[p := Connected(q.h, q.cert, q.prev)])
    case LogIn(p) => var q := s.pushes[p]; s.(pushes := s.pushes[p := Connected(q.h, q.cert, q.prev)])
    case Install(p) =>
      var q := s.pushes[p];
      s.(hosts := s.hosts[q.h := Installed(s.hosts[q.h], s.keys[q.cert], KeyOf(s, q.prev))], pushes := s.pushes[p := Over])
    case GiveUp(p) => s.(pushes := s.pushes[p := Over])
    case Edit(h, f) => s.(hosts := s.hosts[h := f])
  }

  datatype Trace = Begin(s: State) | Then(front: Trace, step: Step)

  predicate Valid(t: Trace)
    decreases t, 0
  {
    match t
    case Begin(s) => Sound(s) && s.pushes == map[] && s.due == {}
    case Then(front, a) => Valid(front) && Enabled(End(front), a)
  }

  function End(t: Trace): (s: State)
    requires Valid(t)
    ensures Sound(s)
    decreases t, 1
  {
    match t
    case Begin(s) => s
    case Then(front, a) =>
      StepSound(End(front), a);
      Do(End(front), a)
  }

  lemma StepSound(s: State, a: Step)
    requires Sound(s) && Enabled(s, a)
    ensures Sound(Do(s, a))
  {
    var s' := Do(s, a);
    forall p | p in s'.pushes ensures PushOk(s', s'.pushes[p]) {
      if p in s.pushes { assert PushOk(s, s.pushes[p]); }
    }
  }

  // ---- what one install does to the device keys on a host ----

  lemma InstallEffect(s: State, p: PushId, h: HostId, g: nat)
    requires Sound(s) && Enabled(s, Install(p)) && h in s.hosts && g < |s.keys|
    ensures var q := s.pushes[p];
      Holds(Do(s, Install(p)), h, g) <==>
        if h == q.h then g == q.cert || (Holds(s, h, g) && q.prev != Some(g)) else Holds(s, h, g)
  {
    var q := s.pushes[p];
    InstallHas(s.hosts[q.h], s.keys[q.cert], KeyOf(s, q.prev), s.keys[g]);
  }

  predicate Pushable(s: State, h: HostId)
    requires Sound(s) && h in s.hosts
  {
    Holds(s, h, Latest(s)) || (Previous(s).Some? && Holds(s, h, Previous(s).value))
  }

  /**
   A completed push leaves the pushed key present, the superseded one absent, and all other lines
   in their order; no other host is touched.
   */
  lemma PushCompletes(s: State, p: PushId)
    requires Sound(s) && Enabled(s, Install(p))
    ensures var q, s' := s.pushes[p], Do(s, Install(p)); var key, gone := s.keys[q.cert], KeyOf(s, q.prev);
      && Holds(s', q.h, q.cert)
      && (q.prev.Some? && q.prev.value != q.cert ==> !Holds(s', q.h, q.prev.value))
      && Without(Without(AllLines(s'.hosts[q.h]), gone), key) == Without(Without(AllLines(s.hosts[q.h]), gone), key)
      && forall h :: h in s.hosts && h != q.h ==> s'.hosts[h] == s.hosts[h]
  {
    var q := s.pushes[p];
    InstallEffect(s, p, q.h, q.cert);
    if q.prev.Some? { InstallEffect(s, p, q.h, q.prev.value); }
    InstallKeepsOthers(s.hosts[q.h], s.keys[q.cert], KeyOf(s, q.prev));
  }

  /** A push of its own, from the first read to the install, with nothing in between. */
  function FreshPush(t: Trace, h: HostId, p: PushId): Trace {
    Then(Then(Then(Then(t, ReadCurrent(p, h)), ReadPrevious(p)), Connect(p)), Install(p))
  }

  /** What such a push does to a file: the last key in, the one before it out, all else as it stood. */
  predicate Pushed(keys: seq<string>, f: File, f': File)
    requires |keys| > 0
  {
    var n := |keys| - 1;
    var gone := if n == 0 then "" else keys[n - 1];
    && Has(f', keys[n])
    && (n > 0 ==> !Has(f', gone))
    && (forall g :: 0 <= g < n - 1 ==> (Has(f', keys[g]) <==> Has(f, keys[g])))
    && Without(Without(AllLines(f'), gone), keys[n]) == Without(Without(AllLines(f), gone), keys[n])
  }

  /** The file after such a push. */
  function AfterPush(s: State, h: HostId): File
    requires |s.keys| > 0 && h in s.hosts
  {
    Installed(s.hosts[h], s.keys[Latest(s)], KeyOf(s, Previous(s)))
  }

  lemma PushedWhen(keys: seq<string>, f: File, f': File)
    requires |keys| > 0 && forall g: nat :: g < |keys| ==> (Has(f', keys[g]) <==> g + 1 == |keys| || (Has(f, keys[g]) && g + 2 != |keys|))
    requires var key, gone := keys[|keys| - 1], if |keys| == 1 then "" else keys[|keys| - 2];
      Without(Without(AllLines(f'), gone), key) == Without(Without(AllLines(f), gone), key)
    ensures Pushed(keys, f, f')
  {
  }

  lemma KeyAfterPush(s: State, h: HostId, g: nat)
    requires Sound(s) && h in s.hosts && g < |s.keys|
    ensures Has(AfterPush(s, h), s.keys[g]) <==> g == Latest(s) || (Has(s.hosts[h], s.keys[g]) && g + 1 != Latest(s))
  {
    InstallHas(s.hosts[h], s.keys[Latest(s)], KeyOf(s, Previous(s)), s.keys[g]);
  }

  lemma InstallIsPush(s: State, h: HostId)
    requires Sound(s) && h in s.hosts
    ensures Pushed(s.keys, s.hosts[h], AfterPush(s, h))
  {
    var n := Latest(s);
    var key, gone := s.keys[n], KeyOf(s, Previous(s));
    forall g: nat | g <= n ensures Has(AfterPush(s, h), s.keys[g]) <==> g == n || (Has(s.hosts[h], s.keys[g]) && g + 1 != n) {
      KeyAfterPush(s, h, g);
    }
    InstallKeepsOthers(s.hosts[h], key, gone);
    PushedWhen(s.keys, s.hosts[h], AfterPush(s, h));
  }

  lemma ConnectGoes(s: State, s': State, p: PushId, q: Push)
    requires Sound(s) && p in s.pushes && s.pushes[p] == q && q.Loaded? && LetsIn(s, q)
    requires s' == s.(pushes := s.pushes[p := Connected(q.h, q.cert, q.prev)])
    ensures Enabled(s, Connect(p)) && Do(s, Connect(p)) == s'
  {
    assert PushOk(s, s.pushes[p]);
  }

  lemma Go(t: Trace, s: State, a: Step, s': State) returns (t': Trace)
    requires Valid(t) && End(t) == s && Enabled(s, a) && Do(s, a) == s'
    ensures t' == Then(t, a) && Valid(t') && End(t') == s'
  {
    t' := Then(t, a);
  }

  /** After its two reads a push has the present pair. */
  lemma PairIsRead(t: Trace, h: HostId, p: PushId) returns (u: Trace, s: State)
    requires Valid(t) && h in End(t).hosts && p !in End(t).pushes
    ensures u == Then(Then(t, ReadCurrent(p, h)), ReadPrevious(p)) && Valid(u) && End(u) == s
    ensures s == End(t).(pushes := End(t).pushes[p := Loaded(h, Latest(End(t)), Previous(End(t)))])
  {
    var s0 := End(t);
    var s1 := s0.(pushes := s0.pushes[p := Reading(h, Latest(s0))]);
    u := Go(t, s0, ReadCurrent(p, h), s1);
    s := s0.(pushes := s0.pushes[p := Loaded(h, Latest(s0), Previous(s0))]);
    assert s1.pushes[p := Loaded(h, Latest(s0), Previous(s0))] == s.pushes;
    u := Go(u, s1, ReadPrevious(p), s);
  }

  /** From there it goes through exactly where it is let in. */
  lemma {:induction false} PairIsPushed(t: Trace, s: State, h: HostId, p: PushId)
    requires Valid(t) && End(t) == s && h in s.hosts && p in s.pushes && s.pushes[p] == Loaded(h, Latest(s), Previous(s))
    ensures var u := Then(Then(t, Connect(p)), Install(p));
      && (Valid(u) <==> Pushable(s, h))
      && (Pushable(s, h) ==> End(u) == s.(hosts := s.hosts[h := AfterPush(s, h)], pushes := s.pushes[p := Over]))
  {
    var q := s.pushes[p];
    assert PushOk(s, q);
    if Pushable(s, h) {
      var s' := s.(pushes := s.pushes[p := Connected(h, Latest(s), Previous(s))]);
      ConnectGoes(s, s', p, q);
      var u := Go(t, s, Connect(p), s');
      var s'' := s.(hosts := s.hosts[h := AfterPush(s, h)], pushes := s.pushes[p := Over]);
      PresentInstallGoes(s, s', s'', h, p);
      u := Go(u, s', Install(p), s'');
    } else {
      assert !LetsIn(s, q);
    }
  }

  lemma PresentInstallGoes(s: State, s': State, s'': State, h: HostId, p: PushId)
    requires Sound(s) && Sound(s') && h in s.hosts
    requires s' == s.(pushes := s.pushes[p := Connected(h, Latest(s), Previous(s))])
    requires s'' == s.(hosts := s.hosts[h := AfterPush(s, h)], pushes := s.pushes[p := Over])
    ensures Enabled(s', Install(p)) && Do(s', Install(p)) == s''
  {
    assert PushOk(s', s'.pushes[p]);
    Overwrites(s.pushes, p, s'.pushes[p], Over);
  }

  lemma Overwrites(m: map<PushId, Push>, p: PushId, a: Push, b: Push)
    ensures m[p := a][p := b] == m[p := b]
  {
  }

  /**
   At any moment of any run a push without a password goes through exactly on the hosts that hold
   the current or the previous key; it then leaves the current key there, not the previous one, and
   changes nothing else.
   */
  lemma {:induction false} ReachableIsPushed(t: Trace, h: HostId, p: PushId)
    requires Valid(t) && h in End(t).hosts && p !in End(t).pushes
    ensures Valid(FreshPush(t, h, p)) <==>
      var keys, lines := End(t).keys, End(t).hosts[h].lines;
      keys[|keys| - 1] in lines || (|keys| > 1 && keys[|keys| - 2] in lines)
    ensures Valid(FreshPush(t, h, p)) <==> Pushable(End(t), h)
    ensures Pushable(End(t), h) ==>
      var s, f' := End(t), AfterPush(End(t), h);
      && Pushed(s.keys, s.hosts[h], f')
      && End(FreshPush(t, h, p)) == s.(hosts := s.hosts[h := f'], pushes := s.pushes[p := Over])
  {
    var u, s := PairIsRead(t, h, p);
    PairIsPushed(u, s, h, p);
    InstallIsPush(End(t), h);
    Overwrites(End(t).pushes, p, s.pushes[p], Over);
  }

  // ---- hosts stay within reach ----

  /** The newest device key a host holds among the first `n`, or -1. */
  function Newest(s: State, h: HostId, n: nat): (g: int)
    requires h in s.hosts && n <= |s.keys|
    ensures -1 <= g < n && (g >= 0 ==> Holds(s, h, g)) && forall k :: g < k < n ==> !Holds(s, h, k)
  {
    if n == 0 then -1 else if Holds(s, h, n - 1) then n - 1 else Newest(s, h, n - 1)
  }

  function NewestOn(s: State, h: HostId): int
    requires h in s.hosts
  {
    Newest(s, h, |s.keys|)
  }

  /** Two rotations fell between the two reads of the push. */
  predicate Straddles(q: Push) {
    q.Connected? && q.prev.Some? && q.prev.value > q.cert
  }

  /** An install sets a host back exactly when its reads straddle two rotations and the host holds nothing newer than what it takes out. */
  lemma SetsBackIff(s: State, p: PushId)
    requires Sound(s) && Enabled(s, Install(p))
    ensures var q := s.pushes[p];
      NewestOn(Do(s, Install(p)), q.h) < NewestOn(s, q.h) <==> Straddles(q) && NewestOn(s, q.h) == q.prev.value
  {
    var q, s' := s.pushes[p], Do(s, Install(p));
    var before, after := NewestOn(s, q.h), NewestOn(s', q.h);
    InstallEffect(s, p, q.h, q.cert);
    if before >= 0 { InstallEffect(s, p, q.h, before); }
    if after >= 0 { InstallEffect(s, p, q.h, after); }
  }

  predicate Steady(s: State, a: Step) {
    a.Install? ==> a.p in s.pushes && !Straddles(s.pushes[a.p])
  }

  lemma StepNeverSetsBack(s: State, a: Step, h: HostId)
    requires Sound(s) && Enabled(s, a) && Steady(s, a) && h in s.hosts
    ensures h in Do(s, a).hosts && NewestOn(Do(s, a), h) >= NewestOn(s, h)
  {
    var s', g := Do(s, a), NewestOn(s, h);
    if a.Install? && s.pushes[a.p].h == h {
      SetsBackIff(s, a.p);
    } else if g >= 0 {
      assert Holds(s', h, g);
    }
  }

  /** The run `u` goes on from `t` with no straddling install. */
  predicate Steadily(t: Trace, u: Trace)
    requires Valid(u)
  {
    u == t || (u.Then? && Steadily(t, u.front) && Steady(End(u.front), u.step))
  }

  lemma {:induction false} NewestNeverFalls(t: Trace, u: Trace, h: HostId)
    requires Valid(t) && Valid(u) && Steadily(t, u) && h in End(t).hosts
    ensures h in End(u).hosts && NewestOn(End(u), h) >= NewestOn(End(t), h)
    decreases u
  {
    if u != t {
      NewestNeverFalls(t, u.front, h);
      StepNeverSetsBack(End(u.front), u.step, h);
    }
  }

  /**
   A host that once held the current key can be pushed to until two rotations later, whatever
   rotations, pushes (stale ones too) and edits happened in between.
   */
  lemma {:induction false} StaysPushable(t: Trace, u: Trace, h: HostId, g: nat)
    requires Valid(t) && Valid(u) && Steadily(t, u) && h in End(t).hosts
    requires g < |End(t).keys| && Holds(End(t), h, g)
    requires Latest(End(u)) <= g + 1
    ensures h in End(u).hosts && Pushable(End(u), h)
  {
    NewestNeverFalls(t, u, h);
    NewKeyIsPushable(End(u), h, NewestOn(End(t), h), g);
  }

  lemma NewKeyIsPushable(s: State, h: HostId, newest: int, g: nat)
    requires Sound(s) && h in s.hosts && NewestOn(s, h) >= newest >= g && Latest(s) <= g + 1
    ensures Pushable(s, h)
  {
  }

  // ---- runs that end badly ----

  /** Some run leads there. */
  ghost predicate Reached(s: State) {
    Sound(s) && exists t :: Valid(t) && End(t) == s
  }

  lemma Reach(s: State, a: Step, s': State)
    requires Reached(s) && Enabled(s, a) && Do(s, a) == s'
    ensures Reached(s')
  {
    var t :| Valid(t) && End(t) == s;
    var t' := Then(t, a);
    assert Valid(t') && End(t') == s';
  }

  lemma ReachReads(s: State, p: PushId, h: HostId, s': State)
    requires Reached(s) && h in s.hosts && p !in s.pushes
    requires s' == s.(pushes := s.pushes[p := Reading(h, Latest(s))])
    ensures Reached(s')
  {
    Reach(s, ReadCurrent(p, h), s');
  }

  lemma ReachLoads(s: State, p: PushId, h: HostId, cert: nat, s': State)
    requires Reached(s) && p in s.pushes && s.pushes[p] == Reading(h, cert)
    requires s' == s.(pushes := s.pushes[p := Loaded(h, cert, Previous(s))])
    ensures Reached(s')
  {
    Reach(s, ReadPrevious(p), s');
  }

  lemma ReachConnects(s: State, p: PushId, q: Push, s': State)
    requires Reached(s) && p in s.pushes && s.pushes[p] == q && q.Loaded? && q.h in s.hosts
    requires exists g: nat :: g < |s.keys| && Holds(s, q.h, g) && (q.cert == g || q.prev == Some(g))
    requires s' == s.(pushes := s.pushes[p := Connected(q.h, q.cert, q.prev)])
    ensures Reached(s')
  {
    assert PushOk(s, q);
    Reach(s, Connect(p), s');
  }

  lemma ReachInstalls(s: State, p: PushId, q: Push, f: File, s': State)
    requires Reached(s) && p in s.pushes && s.pushes[p] == q && q.Connected?
    requires q.h in s.hosts && q.cert < |s.keys| && (q.prev.Some? ==> q.prev.value < |s.keys|)
    requires f == Installed(s.hosts[q.h], s.keys[q.cert], KeyOf(s, q.prev))
    requires s' == s.(hosts := s.hosts[q.h := f], pushes := s.pushes[p := Over])
    ensures Reached(s')
  {
    assert PushOk(s, q);
    Reach(s, Install(p), s');
  }

  /** A rotation over the only host there is. */
  lemma ReachRotates(s: State, f: File, key: string, s': State)
    requires Reached(s) && s.hosts == map[0 := f] && key != "" && key !in s.keys && !Has(f, key)
    requires s' == State(s.keys + [key], s.hosts, s.pushes, s.due + {Debt(0, |s.keys|)})
    ensures Reached(s')
  {
    assert (set h | h in s.hosts :: Debt(h, |s.keys|)) == {Debt(0, |s.keys|)};
    Reach(s, Rotate(key), s');
  }

  lemma ReachRotationPush(s: State, f: File, p: PushId, s': State)
    requires Reached(s) && s.hosts == map[0 := f] && p !in s.pushes && Latest(s) > 0 && Debt(0, Latest(s)) in s.due
    requires s' == s.(pushes := s.pushes[p := Loaded(0, Latest(s), Some(Latest(s) - 1))], due := s.due - {Debt(0, Latest(s))})
    ensures Reached(s')
  {
    Reach(s, RotationPush(p, 0, Latest(s)), s');
  }

  /** A rotation that reaches the only host at once. */
  lemma ReachRotatesAndPushes(s: State, f: File, key: string, p: PushId, s': State)
    requires Reached(s) && s.hosts == map[0 := f] && key != "" && key !in s.keys && !Has(f, key)
    requires p !in s.pushes && Debt(0, |s.keys|) !in s.due && Has(f, s.keys[Latest(s)])
    requires s' == State(s.keys + [key], map[0 := Installed(f, key, s.keys[Latest(s)])], s.pushes[p := Over], s.due)
    ensures Reached(s')
  {
    var n := |s.keys|;
    var s2 := State(s.keys + [key], s.hosts, s.pushes[p := Loaded(0, n, Some(n - 1))], s.due);
    ReachRotationBegun(s, f, key, p, s2);
    Overwrites(s.pushes, p, Loaded(0, n, Some(n - 1)), Over);
    assert s2.keys[n - 1] == s.keys[n - 1] && s2.keys[n] == key;
    assert s2.pushes[p := Over] == s'.pushes;
    assert Has(f, s2.keys[Latest(s2) - 1]);
    ReachPushes(s2, f, p, s');
  }

  lemma ReachRotationBegun(s: State, f: File, key: string, p: PushId, s': State)
    requires Reached(s) && s.hosts == map[0 := f] && key != "" && key !in s.keys && !Has(f, key)
    requires p !in s.pushes && Debt(0, |s.keys|) !in s.due
    requires s' == State(s.keys + [key], s.hosts, s.pushes[p := Loaded(0, |s.keys|, Some(|s.keys| - 1))], s.due)
    ensures Reached(s')
  {
    var n := |s.keys|;
    var s1 := State(s.keys + [key], s.hosts, s.pushes, s.due + {Debt(0, n)});
    ReachRotates(s, f, key, s1);
    assert s1.due - {Debt(0, n)} == s.due;
    ReachRotationPush(s1, f, p, s');
  }

  lemma ReachPushes(s: State, f: File, p: PushId, s': State)
    requires Reached(s) && s.hosts == map[0 := f] && Latest(s) > 0 && Has(f, s.keys[Latest(s) - 1])
    requires p in s.pushes && s.pushes[p] == Loaded(0, Latest(s), Some(Latest(s) - 1))
    requires s' == s.(hosts := map[0 := Installed(f, s.keys[Latest(s)], s.keys[Latest(s) - 1])], pushes := s.pushes[p := Over])
    ensures Reached(s')
  {
    var n := Latest(s);
    var s1 := s.(pushes := s.pushes[p := Connected(0, n, Some(n - 1))]);
    assert Holds(s, 0, n - 1);
    ReachConnects(s, p, s.pushes[p], s1);
    Overwrites(s.pushes, p, s1.pushes[p], Over);
    ReachInstalls(s1, p, s1.pushes[p], Installed(f, s.keys[n], s.keys[n - 1]), s');
  }

  /** Three keys in turn, as a device may come to have them. */
  predicate ThreeKeys(k0: string, k1: string, k2: string) {
    k0 != "" && k1 != "" && k2 != "" && k0 != k1 && k0 != k2 && k1 != k2
  }

  function Only(key: string): map<HostId, File> {
    map[0 := File([key], "")]
  }

  /** On a file holding one device key, a push from it to another leaves the other alone. */
  lemma SwapsKeys(a: string, b: string)
    requires a != "" && b != "" && a != b
    ensures Installed(File([a], ""), b, a) == File([b], "")
  {
    assert WithoutFirst([a], 1, a) == [];
    assert "" + b == b;
    assert [] + [b] == [b];
  }

  /** A push that has read the first key as current, before a rotation that went through, and has not read on. */
  lemma ReachHalfRead(k0: string, k1: string, k2: string)
    requires ThreeKeys(k0, k1, k2)
    ensures Reached(State([k0, k1], Only(k1), map[7 := Reading(0, 0), 8 := Over], {}))
  {
    var s0 := State([k0], Only(k0), map[], {});
    assert Valid(Begin(s0)) && End(Begin(s0)) == s0;
    var s1 := State([k0], Only(k0), map[7 := Reading(0, 0)], {});
    ReachReads(s0, 7, 0, s1);
    SwapsKeys(k0, k1);
    assert [k0] + [k1] == [k0, k1];
    ReachRotatesAndPushes(s1, File([k0], ""), k1, 8, State([k0, k1], Only(k1), map[7 := Reading(0, 0), 8 := Over], {}));
  }

  lemma Rebinds(a: Push, b: Push)
    ensures map[7 := a, 8 := Over][7 := b] == map[7 := b, 8 := Over]
  {
  }

  lemma ReachConnectedLate(s: State, k0: string, k1: string, k2: string)
    requires ThreeKeys(k0, k1, k2) && Reached(s)
    requires s == State([k0, k1, k2], Only(k1), map[7 := Reading(0, 0), 8 := Over], {Debt(0, 2)})
    ensures Reached(s.(pushes := map[7 := Connected(0, 0, Some(1)), 8 := Over]))
  {
    var s4 := s.(pushes := map[7 := Loaded(0, 0, Some(1)), 8 := Over]);
    Rebinds(Reading(0, 0), Loaded(0, 0, Some(1)));
    ReachLoads(s, 7, 0, 0, s4);
    assert Holds(s4, 0, 1);
    Rebinds(Loaded(0, 0, Some(1)), Connected(0, 0, Some(1)));
    ReachConnects(s4, 7, Loaded(0, 0, Some(1)), s4.(pushes := map[7 := Connected(0, 0, Some(1)), 8 := Over]));
  }

  /** It then reads on after a second rotation, and connects with what is by then the previous key. */
  lemma ReachStraddling(k0: string, k1: string, k2: string)
    requires ThreeKeys(k0, k1, k2)
    ensures Reached(State([k0, k1, k2], Only(k1), map[7 := Connected(0, 0, Some(1)), 8 := Over], {Debt(0, 2)}))
  {
    ReachHalfRead(k0, k1, k2);
    var s2 := State([k0, k1], Only(k1), map[7 := Reading(0, 0), 8 := Over], {});
    assert [k0, k1] + [k2] == [k0, k1, k2];
    var s3 := State([k0, k1, k2], Only(k1), map[7 := Reading(0, 0), 8 := Over], {Debt(0, 2)});
    ReachRotates(s2, File([k1], ""), k2, s3);
    ReachConnectedLate(s3, k0, k1, k2);
  }

  /** Without that condition it fails: a push that reads across two rotations can shut the device out of a host it had just been on. */
  lemma StraddlingPushLocksOut(k0: string, k1: string, k2: string) returns (t: Trace)
    requires ThreeKeys(k0, k1, k2)
    ensures Valid(t) && End(t).keys == [k0, k1, k2] && 0 in End(t).hosts && !Pushable(End(t), 0)
    ensures t.Then? && t.step == Install(7) && 0 in End(t.front).hosts && Pushable(End(t.front), 0)
  {
    ReachStraddling(k0, k1, k2);
    var s := State([k0, k1, k2], Only(k1), map[7 := Connected(0, 0, Some(1)), 8 := Over], {Debt(0, 2)});
    t :| Valid(t) && End(t) == s;
    LockingInstall(s, k0, k1, k2);
    t := Go(t, s, Install(7), Do(s, Install(7)));
  }

  lemma LockingInstall(s: State, k0: string, k1: string, k2: string)
    requires ThreeKeys(k0, k1, k2) && Sound(s) && s.keys == [k0, k1, k2] && s.hosts == Only(k1)
    requires 7 in s.pushes && s.pushes[7] == Connected(0, 0, Some(1))
    ensures Pushable(s, 0) && Enabled(s, Install(7))
    ensures var s' := Do(s, Install(7)); Sound(s') && s'.keys == s.keys && 0 in s'.hosts && !Pushable(s', 0)
  {
    assert PushOk(s, s.pushes[7]);
    SwapsKeys(k1, k0);
    StepSound(s, Install(7));
  }

  // ---- superseded keys ----

  /** The pair the push carries is the present one. */
  predicate IsTimely(s: State, q: Push)
    requires |s.keys| > 0
  {
    q.Connected? && q.cert == Latest(s) && q.prev == Previous(s)
  }

  /** Every device key on the host is one of the two the push carries. */
  predicate Fits(s: State, q: Push)
    requires PushOk(s, q) && (q.Loaded? || q.Connected?)
  {
    forall g :: 0 <= g < |s.keys| && Holds(s, q.h, g) ==> g == q.cert || q.prev == Some(g)
  }

  /** Installs carry the present pair, and no password is used on a host with a key outside the pair. */
  predicate Timely(s: State, a: Step)
    requires Enabled(s, a)
  {
    && (a.Install? ==> |s.keys| > 0 && IsTimely(s, s.pushes[a.p]))
    && (a.LogIn? ==> Fits(s, s.pushes[a.p]))
  }

  predicate AllTimely(t: Trace)
    requires Valid(t)
  {
    t.Begin? || (AllTimely(t.front) && Timely(End(t.front), t.step))
  }

  predicate OneKeyEach(s: State) {
    forall h, g, g' :: h in s.hosts && 0 <= g < g' < |s.keys| ==> !(Holds(s, h, g) && Holds(s, h, g'))
  }

  /** From one key each, an install leaves one key each exactly when it fits. */
  lemma InstallLeavesOneIff(s: State, p: PushId)
    requires Sound(s) && Enabled(s, Install(p)) && OneKeyEach(s)
    ensures OneKeyEach(Do(s, Install(p))) <==> Fits(s, s.pushes[p])
  {
    var q, s' := s.pushes[p], Do(s, Install(p));
    forall h, g: nat | h in s.hosts && g < |s.keys|
      ensures Holds(s', h, g) <==> if h == q.h then g == q.cert || (Holds(s, h, g) && q.prev != Some(g)) else Holds(s, h, g)
    {
      InstallEffect(s, p, h, g);
    }
    if !Fits(s, q) {
      var g :| 0 <= g < |s.keys| && Holds(s, q.h, g) && g != q.cert && q.prev != Some(g);
      assert Holds(s', q.h, g) && Holds(s', q.h, q.cert);
    }
  }

  lemma OtherStepsLeaveOne(s: State, a: Step)
    requires Sound(s) && Enabled(s, a) && OneKeyEach(s) && !a.Install?
    ensures OneKeyEach(Do(s, a))
  {
    var s' := Do(s, a);
    forall h, g, g' | h in s'.hosts && 0 <= g < g' < |s'.keys| ensures !(Holds(s', h, g) && Holds(s', h, g')) {
      if a.Rotate? && g' == |s.keys| {
        assert !Has(s.hosts[h], a.key);
      } else {
        assert !(Holds(s, h, g) && Holds(s, h, g'));
      }
    }
  }

  predicate AlwaysOneKey(t: Trace)
    requires Valid(t)
  {
    OneKeyEach(End(t)) && (t.Then? ==> AlwaysOneKey(t.front))
  }

  predicate EveryInstallFits(t: Trace)
    requires Valid(t)
  {
    t.Begin? || (EveryInstallFits(t.front) && (t.step.Install? ==> Fits(End(t.front), End(t.front).pushes[t.step.p])))
  }

  /** Over a whole run no host ever holds two device keys exactly when none did at first and every install fits when it is made. */
  lemma {:induction false} AlwaysOneKeyIff(t: Trace)
    requires Valid(t)
    ensures AlwaysOneKey(t) <==> OneKeyEach(Start(t)) && EveryInstallFits(t)
  {
    match t
    case Begin(_) =>
    case Then(front, a) =>
      AlwaysOneKeyIff(front);
      if OneKeyEach(End(front)) {
        if a.Install? { InstallLeavesOneIff(End(front), a.p); } else { OtherStepsLeaveOne(End(front), a); }
      }
  }

  /** A push connected with the present pair still fits. */
  predicate StillFit(s: State)
    requires Sound(s)
  {
    forall p :: p in s.pushes && IsTimely(s, s.pushes[p]) ==> PushOk(s, s.pushes[p]) && Fits(s, s.pushes[p])
  }

  /** A timely install leaves exactly the current key. */
  lemma TimelyInstall(s: State, p: PushId, h: HostId, g: nat)
    requires Sound(s) && Enabled(s, Install(p)) && IsTimely(s, s.pushes[p]) && StillFit(s)
    requires h == s.pushes[p].h && g < |s.keys|
    ensures Holds(Do(s, Install(p)), h, g) <==> g == Latest(s)
  {
    InstallEffect(s, p, h, g);
    assert Fits(s, s.pushes[p]);
  }

  lemma TimelyStep(s: State, a: Step)
    requires Sound(s) && Enabled(s, a) && Timely(s, a) && OneKeyEach(s) && StillFit(s)
    ensures Sound(Do(s, a)) && StillFit(Do(s, a))
  {
    StepSound(s, a);
    var s' := Do(s, a);
    forall p | p in s'.pushes && IsTimely(s', s'.pushes[p]) ensures PushOk(s', s'.pushes[p]) && Fits(s', s'.pushes[p]) {
      assert PushOk(s', s'.pushes[p]);
      var h := s'.pushes[p].h;
      if a.Install? && s.pushes[a.p].h == h {
        forall g: nat | g < |s.keys| ensures Holds(s', h, g) <==> g == Latest(s) { TimelyInstall(s, a.p, h, g); }
      } else if a.Connect? && a.p == p {
        ConnectedFits(s, p);
      } else if !a.Rotate? {
        assert Fits(s, s.pushes[p]);
      }
    }
  }

  lemma HoldsOne(s: State, h: HostId, g: nat, k: nat)
    requires OneKeyEach(s) && h in s.hosts && g < |s.keys| && k < |s.keys| && Holds(s, h, g) && Holds(s, h, k)
    ensures g == k
  {
  }

  /** On a host with one device key, being let in with one of the pair means there is no other. */
  lemma ConnectedFits(s: State, p: PushId)
    requires Sound(s) && Enabled(s, Connect(p)) && OneKeyEach(s)
    ensures Fits(s, s.pushes[p])
  {
    var q := s.pushes[p];
    var k := if Holds(s, q.h, q.cert) then q.cert else q.prev.value;
    forall g: nat | g < |s.keys| && Holds(s, q.h, g) ensures g == q.cert || q.prev == Some(g) {
      HoldsOne(s, q.h, g, k);
    }
  }

  /** As long as no push is stale every install fits, so a host never holds two device keys, and after a push exactly the current one. */
  lemma {:induction false} TimelyPushesLeaveOneKey(t: Trace, h: HostId)
    requires Valid(t) && AllTimely(t) && OneKeyEach(Start(t))
    ensures EveryInstallFits(t) && AlwaysOneKey(t) && StillFit(End(t))
    ensures t.Then? && t.step.Install? && h in End(t).hosts && End(t.front).pushes[t.step.p].h == h ==>
      forall g :: 0 <= g < |End(t).keys| ==> (Holds(End(t), h, g) <==> g == Latest(End(t)))
  {
    match t
    case Begin(_) =>
    case Then(front, a) =>
      TimelyPushesLeaveOneKey(front, h);
      var s := End(front);
      TimelyStep(s, a);
      AlwaysOneKeyIff(t);
      if a.Install? && h in End(t).hosts && s.pushes[a.p].h == h {
        forall g: nat | g < |s.keys| ensures Holds(Do(s, a), h, g) <==> g == Latest(s) { TimelyInstall(s, a.p, h, g); }
      }
  }

  function Start(t: Trace): State {
    match t
    case Begin(s) => s
    case Then(front, _) => Start(front)
  }

  // ---- superseded keys that stay for good ----

  /** The run `u` goes on from `t`. */
  predicate After(t: Trace, u: Trace) {
    u == t || (u.Then? && After(t, u.front))
  }

  /** The push, begun but not yet over, takes key `g` out of host `h`. */
  predicate Carries(q: Push, h: HostId, g: nat) {
    (q.Loaded? || q.Connected?) && q.h == h && q.prev == Some(g) && q.cert != g
  }

  /** The host holds a key older than the previous one, and of the pushes that would take it out none is under way or due. */
  predicate Stuck(s: State, h: HostId, g: nat)
    requires Sound(s) && h in s.hosts && g < |s.keys|
  {
    && Holds(s, h, g) && g + 1 < Latest(s)
    && Debt(h, g + 1) !in s.due
    && forall p :: p in s.pushes ==> !Carries(s.pushes[p], h, g)
  }

  /** Only an install that carries a key as the previous one takes it out. */
  lemma KeyLeavesIff(s: State, a: Step, h: HostId, g: nat)
    requires Sound(s) && Enabled(s, a) && h in s.hosts && g < |s.keys| && Holds(s, h, g)
    ensures h in Do(s, a).hosts && g < |Do(s, a).keys|
    ensures !Holds(Do(s, a), h, g) <==> a.Install? && Carries(s.pushes[a.p], h, g)
  {
    if a.Install? { InstallEffect(s, a.p, h, g); }
  }

  lemma StepKeepsStuck(s: State, a: Step, h: HostId, g: nat)
    requires Sound(s) && Enabled(s, a) && h in s.hosts && g < |s.keys| && Stuck(s, h, g)
    ensures var s' := Do(s, a); Sound(s') && h in s'.hosts && g < |s'.keys| && Stuck(s', h, g)
  {
    StepSound(s, a);
    KeyLeavesIff(s, a, h, g);
    var s' := Do(s, a);
    forall p | p in s'.pushes ensures !Carries(s'.pushes[p], h, g) {
      if p in s.pushes { assert !Carries(s.pushes[p], h, g); }
    }
  }

  lemma {:induction false} StuckStays(t: Trace, u: Trace, h: HostId, g: nat)
    requires Valid(t) && Valid(u) && After(t, u) && h in End(t).hosts && g < |End(t).keys| && Stuck(End(t), h, g)
    ensures h in End(u).hosts && g < |End(u).keys| && Stuck(End(u), h, g)
    decreases u
  {
    if u != t {
      StuckStays(t, u.front, h, g);
      StepKeepsStuck(End(u.front), u.step, h, g);
    }
  }

  /** A number no push has yet. */
  lemma Bound(ids: set<PushId>) returns (b: PushId)
    ensures forall p :: p in ids ==> p < b
    decreases |ids|
  {
    b := 0;
    if p :| p in ids {
      var rest := Bound(ids - {p});
      b := if rest > p then rest else p + 1;
      forall q | q in ids ensures q < b { assert q == p || q in ids - {p}; }
    }
  }

  /** A push that has its pair, and carries a key the host holds, can go through; then the key is gone. */
  lemma CarriedKeyLeaves(t: Trace, p: PushId, h: HostId, g: nat) returns (u: Trace)
    requires Valid(t) && p in End(t).pushes && Carries(End(t).pushes[p], h, g)
    requires h in End(t).hosts && g < |End(t).keys| && Holds(End(t), h, g)
    ensures Valid(u) && After(t, u) && h in End(u).hosts && g < |End(u).keys| && !Holds(End(u), h, g)
  {
    u := t;
    var s := End(t);
    var q := s.pushes[p];
    assert PushOk(s, q);
    if q.Loaded? {
      var s' := s.(pushes := s.pushes[p := Connected(q.h, q.cert, q.prev)]);
      ConnectGoes(s, s', p, q);
      u := Go(u, s, Connect(p), s');
      s := s';
      assert PushOk(s, s.pushes[p]);
    }
    KeyLeavesIff(s, Install(p), h, g);
    u := Go(u, s, Install(p), Do(s, Install(p)));
  }

  lemma PreviousLeaves(t: Trace, h: HostId, p: PushId) returns (u: Trace)
    requires Valid(t) && h in End(t).hosts && p !in End(t).pushes && Latest(End(t)) > 0 && Holds(End(t), h, Latest(End(t)) - 1)
    ensures Valid(u) && After(t, u) && h in End(u).hosts && End(u).keys == End(t).keys && !Holds(End(u), h, Latest(End(t)) - 1)
  {
    ReachableIsPushed(t, h, p);
    u := FreshPush(t, h, p);
    AfterFour(t, h, p);
  }

  lemma DuePushLeaves(t: Trace, h: HostId, g: nat, p: PushId) returns (u: Trace)
    requires Valid(t) && h in End(t).hosts && g < Latest(End(t)) && Holds(End(t), h, g)
    requires p !in End(t).pushes && Debt(h, g + 1) in End(t).due
    ensures Valid(u) && After(t, u) && h in End(u).hosts && g < |End(u).keys| && !Holds(End(u), h, g)
  {
    var s := End(t);
    var t' := Go(t, s, RotationPush(p, h, g + 1), Do(s, RotationPush(p, h, g + 1)));
    u := CarriedKeyLeaves(t', p, h, g);
    AfterOne(t, t', u);
  }

  /** A superseded key that is not stuck can still be taken out. */
  lemma UnstuckLeaves(t: Trace, h: HostId, g: nat) returns (u: Trace)
    requires Valid(t) && h in End(t).hosts && g < Latest(End(t)) && Holds(End(t), h, g) && !Stuck(End(t), h, g)
    ensures Valid(u) && After(t, u) && h in End(u).hosts && g < |End(u).keys| && !Holds(End(u), h, g)
  {
    var s := End(t);
    var p := Bound(s.pushes.Keys);
    if g + 1 == Latest(s) {
      u := PreviousLeaves(t, h, p);
    } else if Debt(h, g + 1) in s.due {
      u := DuePushLeaves(t, h, g, p);
    } else {
      var p' :| p' in s.pushes && Carries(s.pushes[p'], h, g);
      u := CarriedKeyLeaves(t, p', h, g);
    }
  }

  lemma {:induction false} AfterFour(t: Trace, h: HostId, p: PushId)
    ensures After(t, FreshPush(t, h, p))
  {
    var t1 := Then(t, ReadCurrent(p, h));
    var t2 := Then(t1, ReadPrevious(p));
    var t3 := Then(t2, Connect(p));
    assert After(t, t1) && After(t, t2) && After(t, t3);
  }

  lemma {:induction false} AfterOne(t: Trace, t': Trace, u: Trace)
    requires t'.Then? && t'.front == t && After(t', u)
    ensures After(t, u)
    decreases u
  {
    if u == t' { assert After(t, t'.front); } else { AfterOne(t, t', u.front); }
  }

  ghost predicate StaysForGood(t: Trace, h: HostId, g: nat)
    requires Valid(t)
  {
    forall u :: Valid(u) && After(t, u) ==> h in End(u).hosts && g < |End(u).keys| && Holds(End(u), h, g)
  }

  /**
   A superseded key on a host stays there in every continuation, whatever is rotated, pushed and
   edited, exactly when it is older than the previous one and no push that carries it is left.
   */
  lemma {:induction false} StaysForGoodIff(t: Trace, h: HostId, g: nat)
    requires Valid(t) && h in End(t).hosts && g < Latest(End(t)) && Holds(End(t), h, g)
    ensures StaysForGood(t, h, g) <==> Stuck(End(t), h, g)
  {
    if Stuck(End(t), h, g) {
      forall u | Valid(u) && After(t, u) ensures h in End(u).hosts && g < |End(u).keys| && Holds(End(u), h, g) {
        StuckStays(t, u, h, g);
      }
    } else {
      var u := UnstuckLeaves(t, h, g);
      assert Valid(u) && After(t, u);
    }
  }

  /** That happens: a push that connected before a rotation and installs after it leaves a key behind for good. */
  lemma StalePushLeavesSupersededKey(k0: string, k1: string, k2: string) returns (t: Trace)
    requires ThreeKeys(k0, k1, k2)
    ensures Valid(t) && End(t).keys == [k0, k1, k2] && End(t).hosts == map[0 := File([k0, k2], "")]
    ensures StaysForGood(t, 0, 0)
  {
    ReachLeftBehind(k0, k1, k2);
    var s := State([k0, k1, k2], map[0 := File([k0, k2], "")], map[7 := Over, 8 := Over, 9 := Over], {});
    t :| Valid(t) && End(t) == s;
    assert Holds(s, 0, 0) && Stuck(s, 0, 0);
    StaysForGoodIff(t, 0, 0);
  }

  /** The push connects before the first rotation. */
  lemma ReachConnectedEarly(k0: string)
    requires k0 != ""
    ensures Reached(State([k0], Only(k0), map[7 := Connected(0, 0, None)], {}))
  {
    var s0 := State([k0], Only(k0), map[], {});
    assert Valid(Begin(s0)) && End(Begin(s0)) == s0;
    var s1 := State([k0], Only(k0), map[7 := Reading(0, 0)], {});
    ReachReads(s0, 7, 0, s1);
    var s2 := State([k0], Only(k0), map[7 := Loaded(0, 0, None)], {});
    ReachLoads(s1, 7, 0, 0, s2);
    assert Holds(s2, 0, 0);
    ReachConnects(s2, 7, Loaded(0, 0, None), State([k0], Only(k0), map[7 := Connected(0, 0, None)], {}));
  }

  lemma InstallsBeside(k0: string, k1: string)
    requires k0 != "" && k1 != "" && k0 != k1
    ensures Installed(File([k1], ""), k0, "") == File([k1, k0], "")
  {
    assert "" + k0 == k0;
    assert [k1] + [k0] == [k1, k0];
  }

  lemma ReachStale(k0: string, k1: string)
    requires k0 != "" && k1 != "" && k0 != k1
    ensures Reached(State([k0, k1], Only(k1), map[7 := Connected(0, 0, None), 8 := Over], {}))
  {
    ReachConnectedEarly(k0);
    var s3 := State([k0], Only(k0), map[7 := Connected(0, 0, None)], {});
    SwapsKeys(k0, k1);
    assert [k0] + [k1] == [k0, k1];
    ReachRotatesAndPushes(s3, File([k0], ""), k1, 8, State([k0, k1], Only(k1), map[7 := Connected(0, 0, None), 8 := Over], {}));
  }

  /** It installs after it, beside the new key. */
  lemma ReachTwoKeys(k0: string, k1: string, k2: string)
    requires ThreeKeys(k0, k1, k2)
    ensures Reached(State([k0, k1], map[0 := File([k1, k0], "")], map[7 := Over, 8 := Over], {}))
  {
    ReachStale(k0, k1);
    var s4 := State([k0, k1], Only(k1), map[7 := Connected(0, 0, None), 8 := Over], {});
    Rebinds(Connected(0, 0, None), Over);
    InstallsBeside(k0, k1);
    ReachInstalls(s4, 7, Connected(0, 0, None), File([k1, k0], ""),
                  State([k0, k1], map[0 := File([k1, k0], "")], map[7 := Over, 8 := Over], {}));
  }

  lemma ReachLeftBehind(k0: string, k1: string, k2: string)
    requires ThreeKeys(k0, k1, k2)
    ensures Reached(State([k0, k1, k2], map[0 := File([k0, k2], "")], map[7 := Over, 8 := Over, 9 := Over], {}))
  {
    ReachTwoKeys(k0, k1, k2);
    var s := State([k0, k1], map[0 := File([k1, k0], "")], map[7 := Over, 8 := Over], {});
    LastInstall(k0, k1, k2);
    assert [k0, k1] + [k2] == [k0, k1, k2];
    ReachRotatesAndPushes(s, File([k1, k0], ""), k2, 9,
                          State([k0, k1, k2], map[0 := File([k0, k2], "")], map[7 := Over, 8 := Over, 9 := Over], {}));
  }

  lemma LastInstall(k0: string, k1: string, k2: string)
    requires ThreeKeys(k0, k1, k2)
    ensures Installed(File([k1, k0], ""), k2, k1) == File([k0, k2], "")
  {
    var l := [k1, k0];
    assert WithoutFirst(l, 1, k1) == [];
    assert WithoutFirst(l, 2, k1) == [] + [k0] == [k0];
    assert "" + k2 == k2;
    assert [k0] + [k2] == [k0, k2];
  }
}
