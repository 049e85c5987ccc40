/** Argon2id password hashes in PHC string form: how they are printed, parsed and checked. */
module PasswordHash {
  import Base64
  import opened Decimal
  import opened Octets
  import opened Options
  import opened Text

  const VERSION := 19
  const MAX_MEMORY := 262144
  const MAX_TIME := 16
  const MAX_THREADS := 8
  const MAX_UINT32 := 0xFFFF_FFFF

  datatype Params = Params(memory: nat, time: nat, threads: nat, salt: Bytes, key: Bytes)

  datatype Reason = Malformed | WrongAlgorithm | WrongVersion | OutOfRange | BadSalt | BadKey

  datatype Result<+T> = Ok(value: T) | Err(reason: Reason)

  // ---- printing ----

  function Print(p: Params): string {
    "" + ['$'] + ("argon2id" + ['$'] + (("v=" + Decimal.Print(VERSION)) + ['$'] + (PrintCosts(p) + ['$']
      + (Base64.Encode(p.salt) + ['$'] + Base64.Encode(p.key)))))
  }

  function PrintCosts(p: Params): string {
    ("m=" + Decimal.Print(p.memory)) + [','] + (("t=" + Decimal.Print(p.time)) + [','] + ("p=" + Decimal.Print(p.threads)))
  }

  // ---- parsing ----

  function CutPrefix(s: string, prefix: string): Option<string> {
    if prefix <= s then Some(s[|prefix|..]) else None
  }

  /** A prefixed unsigned 32-bit number; leading zeros pass, signs do not. */
  function CutUint(field: string, prefix: string): Option<nat> {
    match CutPrefix(field, prefix)
    case None => None
    case Some(v) => if v != "" && AllDigits(v) && Number(v) <= MAX_UINT32 then Some(Number(v)) else None
  }

  predicate CostsInRange(m: nat, t: nat, p: nat) {
    1 <= p <= MAX_THREADS && 1 <= t <= MAX_TIME && 8 * p <= m <= MAX_MEMORY
  }

  predicate LengthsInRange(salt: Bytes, key: Bytes) {
    8 <= |salt| <= 64 && 16 <= |key| <= 128
  }

  function ParseSecrets(m: nat, t: nat, p: nat, salt: string, key: string): Result<Params> {
    match Base64.Decode(salt)
    case None => Err(BadSalt)
    case Some(s) =>
      if |s| < 8 || |s| > 64 then Err(BadSalt)
      else match Base64.Decode(key)
        case None => Err(BadKey)
        case Some(k) => if |k| < 16 || |k| > 128 then Err(BadKey) else Ok(Params(m, t, p, s, k))
  }

  function ParseCosts(costs: string): Result<(nat, nat, nat)> {
    var fields := Split(costs, ',');
    if |fields| != 3 then Err(Malformed)
    else
      match (CutUint(fields[0], "m="), CutUint(fields[1], "t="), CutUint(fields[2], "p="))
      case (Some(m), Some(t), Some(p)) => if CostsInRange(m, t, p) then Ok((m, t, p)) else Err(OutOfRange)
      case _ => Err(Malformed)
  }

  function Parse(s: string): Result<Params> {
    var parts := Split(s, '$');
    if |parts| != 6 || parts[0] != "" then Err(Malformed)
    else if parts[1] != "argon2id" then Err(WrongAlgorithm)
    else match CutPrefix(parts[2], "v=")
      case None => Err(Malformed)
      case Some(v) =>
        if ParseInt(v) != Read(VERSION, true) then Err(WrongVersion)
        else match ParseCosts(parts[3])
          case Err(e) => Err(e)
          case Ok((m, t, p)) => ParseSecrets(m, t, p, parts[4], parts[5])
  }

  // ---- checking ----

  /** The key derivation: password, salt, time, memory, threads and length of the key. */
  type Derivation = (string, Bytes, nat, nat, nat, nat) -> Bytes

  function HashWith(h: Derivation, password: string, memory: nat, time: nat, threads: nat, salt: Bytes): string {
    Print(Params(memory, time, threads, salt, h(password, salt, time, memory, threads, 32)))
  }

  /** Recomputes with the parameters in the string and compares. */
  function Verify(h: Derivation, phc: string, password: string): Result<bool> {
    match Parse(phc)
    case Err(e) => Err(e)
    case Ok(p) => Ok(h(password, p.salt, p.time, p.memory, p.threads, |p.key|) == p.key)
  }

  // ---- parsing undoes printing ----

  lemma CutOf(prefix: string, v: string)
    ensures CutPrefix(prefix + v, prefix) == Some(v)
  {
    assert (prefix + v)[|prefix|..] == v;
  }

  lemma {:induction false} CutUintOfPrint(prefix: string, n: nat)
    ensures CutUint(prefix + Decimal.Print(n), prefix) == if n <= MAX_UINT32 then Some(n) else None
  {
    CutOf(prefix, Decimal.Print(n));
    NumberOfPrint(n);
  }

  lemma {:induction false} DigitsHoldNo(n: nat, c: char)
    requires !IsDigit(c)
    ensures c !in Decimal.Print(n)
  {
    forall i | 0 <= i < |Decimal.Print(n)| ensures Decimal.Print(n)[i] != c { assert IsDigit(Decimal.Print(n)[i]); }
  }

  lemma CostsReadBack(p: Params)
    requires p.memory <= MAX_UINT32 && p.time <= MAX_UINT32 && p.threads <= MAX_UINT32
    ensures ParseCosts(PrintCosts(p))
         == if CostsInRange(p.memory, p.time, p.threads) then Ok((p.memory, p.time, p.threads)) else Err(OutOfRange)
  {
    var m, t, q := "m=" + Decimal.Print(p.memory), "t=" + Decimal.Print(p.time), "p=" + Decimal.Print(p.threads);
    DigitsHoldNo(p.memory, ',');
    DigitsHoldNo(p.time, ',');
    DigitsHoldNo(p.threads, ',');
    SplitFirst(m, ',', t + [','] + q);
    SplitFirst(t, ',', q);
    SplitOnly(q, ',');
    CutUintOfPrint("m=", p.memory);
    CutUintOfPrint("t=", p.time);
    CutUintOfPrint("p=", p.threads);
    assert Split(PrintCosts(p), ',') == [m] + ([t] + [q]);
  }

  lemma PiecesHoldNoDollar(p: Params)
    ensures '$' !in "argon2id" && '$' !in "v=" + Decimal.Print(VERSION) && '$' !in PrintCosts(p)
    ensures '$' !in Base64.Encode(p.salt) && '$' !in Base64.Encode(p.key)
  {
    DigitsHoldNo(VERSION, '$');
    DigitsHoldNo(p.memory, '$');
    DigitsHoldNo(p.time, '$');
    DigitsHoldNo(p.threads, '$');
    Base64.EncodeHoldsSymbols(p.salt);
    Base64.EncodeHoldsSymbols(p.key);
    assert Base64.Digit('$') == None;
  }

  lemma {:induction false} ThreePieces(a: string, b: string, c: string)
    requires '$' !in a && '$' !in b && '$' !in c
    ensures Split(a + ['$'] + (b + ['$'] + c), '$') == [a, b, c]
  {
    SplitOnly(c, '$');
    SplitMore(b, '$', c, [c]);
    SplitMore(a, '$', b + ['$'] + c, [b, c]);
  }

  lemma {:induction false} TwoMore(a: string, b: string, rest: string, pieces: seq<string>)
    requires '$' !in a && '$' !in b && Split(rest, '$') == pieces
    ensures Split(a + ['$'] + (b + ['$'] + rest), '$') == [a, b] + pieces
  {
    SplitMore(b, '$', rest, pieces);
    SplitMore(a, '$', b + ['$'] + rest, [b] + pieces);
    assert [a] + ([b] + pieces) == [a, b] + pieces;
  }

  lemma {:induction false} FourPieces(c: string, d: string, e: string, f: string)
    requires '$' !in c && '$' !in d && '$' !in e && '$' !in f
    ensures Split(c + ['$'] + (d + ['$'] + (e + ['$'] + f)), '$') == [c, d, e, f]
  {
    ThreePieces(d, e, f);
    SplitMore(c, '$', d + ['$'] + (e + ['$'] + f), [d, e, f]);
  }

  lemma {:induction false} SixPieces(b: string, rest: string, c: string, d: string, e: string, f: string)
    requires '$' !in b && Split(rest, '$') == [c, d, e, f]
    ensures Split("" + ['$'] + (b + ['$'] + rest), '$') == ["", b, c, d, e, f]
  {
    TwoMore("", b, rest, [c, d, e, f]);
    assert ["", b] + [c, d, e, f] == ["", b, c, d, e, f];
  }

  lemma PrintedPieces(p: Params)
    ensures Split(Print(p), '$')
         == ["", "argon2id", "v=" + Decimal.Print(VERSION), PrintCosts(p), Base64.Encode(p.salt), Base64.Encode(p.key)]
  {
    var v, costs, salt, key := "v=" + Decimal.Print(VERSION), PrintCosts(p), Base64.Encode(p.salt), Base64.Encode(p.key);
    PiecesHoldNoDollar(p);
    FourPieces(v, costs, salt, key);
    SixPieces("argon2id", v + ['$'] + (costs + ['$'] + (salt + ['$'] + key)), v, costs, salt, key);
  }

  lemma SecretsReadBack(p: Params)
    ensures ParseSecrets(p.memory, p.time, p.threads, Base64.Encode(p.salt), Base64.Encode(p.key)) == Ok(p)
       <==> LengthsInRange(p.salt, p.key)
    ensures ParseSecrets(p.memory, p.time, p.threads, Base64.Encode(p.salt), Base64.Encode(p.key)).Ok?
       <==> LengthsInRange(p.salt, p.key)
  {
    Base64.DecodeUndoesEncode(p.salt);
    Base64.DecodeUndoesEncode(p.key);
  }

  /** The text printed, from left to right. */
  lemma PrintReads(p: Params)
    ensures Print(p) == "$argon2id$v=19$m=" + Decimal.Print(p.memory) + ",t=" + Decimal.Print(p.time) + ",p=" + Decimal.Print(p.threads)
                        + "$" + Base64.Encode(p.salt) + "$" + Base64.Encode(p.key)
  {
    assert Decimal.Print(19) == "19" by {
      assert Decimal.Print(19) == Decimal.Print(1) + [DigitOf(9)];
      assert Decimal.Print(1) == "1" && DigitOf(9) == '9';
    }
    var m, t, q := Decimal.Print(p.memory), Decimal.Print(p.time), Decimal.Print(p.threads);
    CostsRead(m, t, q);
    PartsRead("m=" + m + ",t=" + t + ",p=" + q, Base64.Encode(p.salt), Base64.Encode(p.key));
    assert "$argon2id$v=19$" + ("m=" + m + ",t=" + t + ",p=" + q) == "$argon2id$v=19$m=" + m + ",t=" + t + ",p=" + q;
  }

  lemma CostsRead(m: string, t: string, q: string)
    ensures ("m=" + m) + [','] + (("t=" + t) + [','] + ("p=" + q)) == "m=" + m + ",t=" + t + ",p=" + q
  {
  }

  lemma PartsRead(costs: string, salt: string, key: string)
    ensures "" + ['$'] + ("argon2id" + ['$'] + (("v=" + "19") + ['$'] + (costs + ['$'] + (salt + ['$'] + key))))
         == "$argon2id$v=19$" + costs + "$" + salt + "$" + key
  {
  }

  /** What is printed parses exactly when it is in range, and then to what was printed. */
  lemma ParseUndoesPrintIff(p: Params)
    requires p.memory <= MAX_UINT32 && p.time <= MAX_UINT32 && p.threads < 256
    ensures Parse(Print(p)) == Ok(p) <==>
      && 1 <= p.threads <= 8 && 1 <= p.time <= 16 && 8 * p.threads <= p.memory <= 262144
      && 8 <= |p.salt| <= 64 && 16 <= |p.key| <= 128
    ensures Parse(Print(p)).Ok? ==> Parse(Print(p)) == Ok(p)
  {
    PrintedPieces(p);
    ParseOfPieces(Print(p), PrintCosts(p), Base64.Encode(p.salt), Base64.Encode(p.key));
    CostsReadBack(p);
    SecretsReadBack(p);
  }

  /** With algorithm and version right, it is the costs and then the secrets that count. */
  lemma {:induction false} ParseOfPieces(s: string, costs: string, salt: string, key: string)
    requires Split(s, '$') == ["", "argon2id", "v=" + Decimal.Print(VERSION), costs, salt, key]
    ensures ParseCosts(costs).Err? ==> Parse(s) == Err(ParseCosts(costs).reason)
    ensures ParseCosts(costs).Ok? ==>
      var c := ParseCosts(costs).value; Parse(s) == ParseSecrets(c.0, c.1, c.2, salt, key)
  {
    CutOf("v=", Decimal.Print(VERSION));
    ParseIntOfPrintInt(VERSION);
  }

  /** A fresh hash accepts the password it was made from, and accepts another only if it derives the same key. */
  lemma HashVerifies(h: Derivation, password: string, other: string, memory: nat, time: nat, threads: nat, salt: Bytes)
    requires CostsInRange(memory, time, threads) && |salt| == 16
    requires |h(password, salt, time, memory, threads, 32)| == 32
    ensures Verify(h, HashWith(h, password, memory, time, threads, salt), other)
         == Ok(h(other, salt, time, memory, threads, 32) == h(password, salt, time, memory, threads, 32))
  {
    ParseUndoesPrintIff(Params(memory, time, threads, salt, h(password, salt, time, memory, threads, 32)));
  }

  /** Whatever parses is in range, printed by this program or not. */
  lemma ParsedIsInRange(s: string)
    requires Parse(s).Ok?
    ensures var p := Parse(s).value;
      && 1 <= p.threads <= 8 && 1 <= p.time <= 16 && 8 * p.threads <= p.memory <= 262144
      && 8 <= |p.salt| <= 64 && 16 <= |p.key| <= 128
    ensures Parse(Print(Parse(s).value)) == Parse(s)
  {
    ParseUndoesPrintIff(Parse(s).value);
  }
}
