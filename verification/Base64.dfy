/** Unpadded standard base64 (sections 3.2 and 4 of RFC 4648), as it is printed and as it is read. */
module Base64 {
  import opened Octets
  import opened Options

  type sextet = n: nat | n < 64 witness 0

  function Symbol(n: sextet): char {
    if n < 26 then (65 + n) as char
    else if n < 52 then (97 + (n - 26)) as char
    else if n < 62 then (48 + (n - 52)) as char
    else if n == 62 then '+' else '/'
  }

  function Digit(c: char): Option<sextet> {
    if 'A' <= c <= 'Z' then Some(c as int - 65)
    else if 'a' <= c <= 'z' then Some(c as int - 97 + 26)
    else if '0' <= c <= '9' then Some(c as int - 48 + 52)
    else if c == '+' then Some(62) else if c == '/' then Some(63) else None
  }

  lemma DigitOfSymbol(n: sextet)
    ensures Digit(Symbol(n)) == Some(n)
  {
  }

  // ---- three bytes are four sextets ----

  function First(b: byte): sextet {
    b / 4
  }

  function Second(b: byte, c: byte): sextet {
    (b % 4) * 16 + c / 16
  }

  function Third(c: byte, d: byte): sextet {
    (c % 16) * 4 + d / 64
  }

  function Fourth(d: byte): sextet {
    d % 64
  }

  function High(p: sextet, q: sextet): byte {
    p * 4 + q / 16
  }

  function Middle(q: sextet, r: sextet): byte {
    (q % 16) * 16 + r / 4
  }

  function Low(r: sextet, s: sextet): byte {
    (r % 4) * 64 + s
  }

  lemma HighOf(b: byte, c: byte)
    ensures High(First(b), Second(b, c)) == b
  {
    assert ((b % 4) * 16 + c / 16) / 16 == b % 4;
  }

  lemma MiddleOf(b: byte, c: byte, d: byte)
    ensures Middle(Second(b, c), Third(c, d)) == c
  {
    assert ((b % 4) * 16 + c / 16) % 16 == c / 16;
    assert ((c % 16) * 4 + d / 64) / 4 == c % 16;
  }

  lemma LowOf(c: byte, d: byte)
    ensures Low(Third(c, d), Fourth(d)) == d
  {
    assert ((c % 16) * 4 + d / 64) % 4 == d / 64;
  }

  // ---- whole texts ----

  function Encode(b: Bytes): string
    decreases |b|
  {
    if |b| == 0 then ""
    else if |b| == 1 then [Symbol(First(b[0])), Symbol(Second(b[0], 0))]
    else if |b| == 2 then [Symbol(First(b[0])), Symbol(Second(b[0], b[1])), Symbol(Third(b[1], 0))]
    else [Symbol(First(b[0])), Symbol(Second(b[0], b[1])), Symbol(Third(b[1], b[2])), Symbol(Fourth(b[2]))] + Encode(b[3..])
  }

  /** Line breaks are skipped wherever they stand. */
  function Stripped(s: string, n: nat): string
    requires n <= |s|
  {
    if n == 0 then "" else if s[n - 1] == '\n' || s[n - 1] == '\r' then Stripped(s, n - 1) else Stripped(s, n - 1) + [s[n - 1]]
  }

  function Digits(s: string): Option<seq<sextet>> {
    DigitsTo(s, |s|)
  }

  function DigitsTo(s: string, n: nat): Option<seq<sextet>>
    requires n <= |s|
  {
    if n == 0 then Some([])
    else match DigitsTo(s, n - 1)
      case None => None
      case Some(ds) => match Digit(s[n - 1]) case None => None case Some(d) => Some(ds + [d])
  }

  /** Whole quanta, then a partial one of two or three symbols whose spare bits are not looked at. */
  function Unpacked(ds: seq<sextet>): Option<Bytes>
    decreases |ds|
  {
    if |ds| == 0 then Some([])
    else if |ds| == 1 then None
    else if |ds| == 2 then Some([High(ds[0], ds[1])])
    else if |ds| == 3 then Some([High(ds[0], ds[1]), Middle(ds[1], ds[2])])
    else match Unpacked(ds[4..])
      case None => None
      case Some(rest) => Some([High(ds[0], ds[1]), Middle(ds[1], ds[2]), Low(ds[2], ds[3])] + rest)
  }

  function Decode(s: string): Option<Bytes> {
    match Digits(Stripped(s, |s|))
    case None => None
    case Some(ds) => Unpacked(ds)
  }

  // ---- decoding undoes encoding ----

  /** The sextets an encoding stands for. */
  function Sextets(b: Bytes): seq<sextet>
    decreases |b|
  {
    if |b| == 0 then []
    else if |b| == 1 then [First(b[0]), Second(b[0], 0)]
    else if |b| == 2 then [First(b[0]), Second(b[0], b[1]), Third(b[1], 0)]
    else [First(b[0]), Second(b[0], b[1]), Third(b[1], b[2]), Fourth(b[2])] + Sextets(b[3..])
  }

  function Symbols(ds: seq<sextet>): string {
    seq(|ds|, i requires 0 <= i < |ds| => Symbol(ds[i]))
  }

  lemma SymbolsConcat(a: seq<sextet>, b: seq<sextet>)
    ensures Symbols(a + b) == Symbols(a) + Symbols(b)
  {
  }

  lemma {:induction false} EncodeIsSymbols(b: Bytes)
    ensures Encode(b) == Symbols(Sextets(b))
    decreases |b|
  {
    if |b| >= 3 {
      EncodeIsSymbols(b[3..]);
      var quantum: seq<sextet> := [First(b[0]), Second(b[0], b[1]), Third(b[1], b[2]), Fourth(b[2])];
      SymbolsConcat(quantum, Sextets(b[3..]));
      assert Symbols(quantum) == [Symbol(quantum[0]), Symbol(quantum[1]), Symbol(quantum[2]), Symbol(quantum[3])];
    }
  }

  lemma {:induction false} UnpackedOfSextets(b: Bytes)
    ensures Unpacked(Sextets(b)) == Some(b)
    decreases |b|
  {
    if |b| == 1 {
      HighOf(b[0], 0);
      var ds := Sextets(b);
      assert |ds| == 2 && Unpacked(ds) == Some([High(ds[0], ds[1])]);
      assert b == [b[0]];
    } else if |b| == 2 {
      HighOf(b[0], b[1]);
      MiddleOf(b[0], b[1], 0);
      var ds := Sextets(b);
      assert |ds| == 3 && Unpacked(ds) == Some([High(ds[0], ds[1]), Middle(ds[1], ds[2])]);
      assert b == [b[0], b[1]];
    } else if |b| >= 3 {
      UnpackedOfSextets(b[3..]);
      HighOf(b[0], b[1]);
      MiddleOf(b[0], b[1], b[2]);
      LowOf(b[1], b[2]);
      OneQuantum([First(b[0]), Second(b[0], b[1]), Third(b[1], b[2]), Fourth(b[2])], Sextets(b[3..]));
      assert b == [b[0], b[1], b[2]] + b[3..];
    }
  }

  lemma {:induction false} OneQuantum(q: seq<sextet>, rest: seq<sextet>)
    requires |q| == 4 && Unpacked(rest).Some?
    ensures Unpacked(q + rest) == Some([High(q[0], q[1]), Middle(q[1], q[2]), Low(q[2], q[3])] + Unpacked(rest).value)
  {
    assert (q + rest)[4..] == rest;
  }

  lemma {:induction false} SymbolsStay(ds: seq<sextet>, n: nat)
    requires n <= |ds|
    ensures Stripped(Symbols(ds), n) == Symbols(ds)[..n] && DigitsTo(Symbols(ds), n) == Some(ds[..n])
  {
    if n > 0 {
      SymbolsStay(ds, n - 1);
      DigitOfSymbol(ds[n - 1]);
      assert Symbols(ds)[..n] == Symbols(ds)[..n - 1] + [Symbol(ds[n - 1])];
      assert ds[..n] == ds[..n - 1] + [ds[n - 1]];
    }
  }

  /** Decoding undoes encoding, for every sequence of bytes. */
  lemma {:induction false} DecodeUndoesEncode(b: Bytes)
    ensures Decode(Encode(b)) == Some(b)
  {
    var ds := Sextets(b);
    EncodeIsSymbols(b);
    SymbolsStay(ds, |ds|);
    assert Symbols(ds)[..|ds|] == Symbols(ds) && ds[..|ds|] == ds;
    UnpackedOfSextets(b);
  }

  /** An encoding holds only symbols. */
  lemma {:induction false} EncodeHoldsSymbols(b: Bytes)
    ensures forall c :: c in Encode(b) ==> Digit(c).Some?
  {
    EncodeIsSymbols(b);
    forall i | 0 <= i < |Sextets(b)| ensures Digit(Symbols(Sextets(b))[i]).Some? { DigitOfSymbol(Sextets(b)[i]); }
  }

  // ---- the standard's own characters ----

  /** Table 1 of RFC 4648: the capitals, the small letters and the digits, each in order, then plus and slash. */
  lemma SymbolsAreStandard()
    ensures Symbol(0) == 'A' && Symbol(26) == 'a' && Symbol(52) == '0' && Symbol(62) == '+' && Symbol(63) == '/'
    ensures forall n: sextet :: n < 25 || 26 <= n < 51 || 52 <= n < 61 ==> Symbol(n + 1) as int == Symbol(n) as int + 1
  {
  }

  /** The test vectors of section 10 of RFC 4648, without their padding. */
  lemma StandardVectors()
    ensures Encode([]) == "" && Encode([102]) == "Zg" && Encode([102, 111]) == "Zm8" && Encode([102, 111, 111]) == "Zm9v"
    ensures Encode([102, 111, 111, 98]) == "Zm9vYg" && Encode([102, 111, 111, 98, 97]) == "Zm9vYmE"
    ensures Encode([102, 111, 111, 98, 97, 114]) == "Zm9vYmFy"
  {
    assert [102, 111, 111][3..] == [];
    assert [102, 111, 111, 98][3..] == [98];
    assert [102, 111, 111, 98, 97][3..] == [98, 97];
    assert [102, 111, 111, 98, 97, 114][3..] == [98, 97, 114];
    assert [98, 97, 114][3..] == [];
  }
}
