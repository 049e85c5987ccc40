/** Small facts about strings that several models share. */
module Text {

  /** ASCII lower-casing of one character. */
  function Lower(c: char): char {
    if 'A' <= c <= 'Z' then (c as int + 32) as char else c
  }

  /** The form under which names are compared without regard to case. */
  function Fold(s: string): string {
    seq(|s|, i requires 0 <= i < |s| => Lower(s[i]))
  }

  /** Two names fold to one exactly when they are the same but for the case of ASCII letters. */
  lemma FoldSame(a: string, b: string)
    ensures Fold(a) == Fold(b) <==>
      |a| == |b| && forall i :: 0 <= i < |a| ==>
        a[i] == b[i] || ('A' <= a[i] <= 'Z' && b[i] as int == a[i] as int + 32) || ('A' <= b[i] <= 'Z' && a[i] as int == b[i] as int + 32)
  {
    var x, y := Fold(a), Fold(b);
    if |a| == |b| {
      forall i | 0 <= i < |a|
        ensures x[i] == y[i] <==>
          a[i] == b[i] || ('A' <= a[i] <= 'Z' && b[i] as int == a[i] as int + 32) || ('A' <= b[i] <= 'Z' && a[i] as int == b[i] as int + 32)
      {
        LowerSame(a[i], b[i]);
      }
    }
  }

  lemma LowerSame(a: char, b: char)
    ensures Lower(a) == Lower(b) <==>
      a == b || ('A' <= a <= 'Z' && b as int == a as int + 32) || ('A' <= b <= 'Z' && a as int == b as int + 32)
  {
  }

  /** Strict lexicographic order by code point: the order in which the store lists names. */
  predicate Before(a: string, b: string) {
    |b| > 0 && (|a| == 0 || a[0] < b[0] || (a[0] == b[0] && Before(a[1..], b[1..])))
  }

  lemma {:induction false} BeforeIrreflexive(a: string)
    ensures !Before(a, a)
  {
    if |a| > 0 { BeforeIrreflexive(a[1..]); }
  }

  lemma {:induction false} BeforeTransitive(a: string, b: string, c: string)
    requires Before(a, b) && Before(b, c)
    ensures Before(a, c)
  {
    if |a| > 0 && a[0] == b[0] == c[0] { BeforeTransitive(a[1..], b[1..], c[1..]); }
  }

  lemma {:induction false} BeforeTotal(a: string, b: string)
    ensures a == b || Before(a, b) || Before(b, a)
  {
    if |a| > 0 && |b| > 0 && a[0] == b[0] {
      BeforeTotal(a[1..], b[1..]);
      assert a == [a[0]] + a[1..] && b == [b[0]] + b[1..];
    }
  }

  lemma {:induction false} BeforeAsymmetric(a: string, b: string)
    requires Before(a, b)
    ensures !Before(b, a) && a != b
  {
    BeforeIrreflexive(a);
    if Before(b, a) { BeforeTransitive(a, b, a); }
  }

  /** `x` comes before `y`: at the first place where they differ it has the smaller character, or it ends there. */
  ghost predicate Precedes(x: string, y: string) {
    exists i :: 0 <= i <= |x| && i < |y| && x[..i] == y[..i] && (i == |x| || x[i] < y[i])
  }

  lemma {:induction false} BeforeMeans(x: string, y: string)
    ensures Before(x, y) <==> Precedes(x, y)
  {
    forall i | 0 < i <= |x| && i <= |y| && x[..i] == y[..i] ensures x[0] == y[0] { assert x[..i][0] == y[..i][0]; }
    if |x| > 0 && |y| > 0 && x[0] == y[0] {
      BeforeMeans(x[1..], y[1..]);
      if i :| 0 <= i <= |x[1..]| && i < |y[1..]| && x[1..][..i] == y[1..][..i] && (i == |x[1..]| || x[1..][i] < y[1..][i]) {
        assert x[..i + 1] == [x[0]] + x[1..][..i] && y[..i + 1] == [y[0]] + y[1..][..i];
        assert Precedes(x, y);
      }
      if i :| 0 <= i <= |x| && i < |y| && x[..i] == y[..i] && (i == |x| || x[i] < y[i]) {
        assert i > 0;
        assert x[1..][..i - 1] == x[..i][1..] && y[1..][..i - 1] == y[..i][1..];
        assert Precedes(x[1..], y[1..]);
      }
    } else if |y| > 0 && (|x| == 0 || x[0] < y[0]) {
      assert x[..0] == y[..0];
      assert Precedes(x, y);
    }
  }

  /** Every non-empty set of names has a last one. */
  lemma {:induction false} LastExists(names: set<string>) returns (last: string)
    requires names != {}
    ensures last in names && forall n :: n in names ==> n == last || Before(n, last)
    decreases |names|
  {
    var pick :| pick in names;
    last := pick;
    var rest := names - {pick};
    if rest != {} {
      var other := LastExists(rest);
      BeforeTotal(pick, other);
      if Before(pick, other) {
        last := other;
      } else {
        forall n | n in names ensures n == last || Before(n, last) {
          if n in rest && n != other { BeforeTransitive(n, other, pick); }
        }
      }
    }
  }

  /** Where `c` first occurs, or the length of the text. */
  function Find(s: string, c: char): (k: nat)
    ensures k <= |s| && (k < |s| ==> s[k] == c) && forall i :: 0 <= i < k ==> s[i] != c
  {
    if s == "" || s[0] == c then 0 else
      var k := Find(s[1..], c);
      assert forall i :: 1 <= i < k + 1 ==> s[i] == s[1..][i - 1];
      k + 1
  }

  lemma {:induction false} FindIs(s: string, c: char, k: nat)
    requires k <= |s| && (k < |s| ==> s[k] == c) && forall i :: 0 <= i < k ==> s[i] != c
    ensures Find(s, c) == k
  {
  }

  /** The pieces between separators: always at least one. */
  function Split(s: string, c: char): (pieces: seq<string>)
    ensures |pieces| >= 1
    decreases |s|
  {
    var k := Find(s, c);
    if k == |s| then [s] else [s[..k]] + Split(s[k + 1..], c)
  }

  lemma {:induction false} SplitFirst(piece: string, c: char, rest: string)
    requires c !in piece
    ensures Split(piece + [c] + rest, c) == [piece] + Split(rest, c)
  {
    var s := piece + [c] + rest;
    assert forall i :: 0 <= i < |piece| ==> s[i] == piece[i];
    FindIs(s, c, |piece|);
    assert s[..|piece|] == piece && s[|piece| + 1..] == rest;
  }

  lemma {:induction false} SplitMore(piece: string, c: char, rest: string, pieces: seq<string>)
    requires c !in piece && Split(rest, c) == pieces
    ensures Split(piece + [c] + rest, c) == [piece] + pieces
  {
    SplitFirst(piece, c, rest);
  }

  lemma {:induction false} SplitOnly(piece: string, c: char)
    requires c !in piece
    ensures Split(piece, c) == [piece]
  {
    FindIs(piece, c, |piece|);
  }

  predicate IsSpace(c: char) {
    c == ' ' || '\t' <= c <= '\r'
  }

  function TrimFront(s: string): string {
    if s != "" && IsSpace(s[0]) then TrimFront(s[1..]) else s
  }

  function TrimBack(s: string): string {
    if s != "" && IsSpace(s[|s| - 1]) then TrimBack(s[..|s| - 1]) else s
  }

  function TrimSpace(s: string): string {
    TrimBack(TrimFront(s))
  }

  lemma {:induction false} TrimFrontMeans(s: string) returns (i: nat)
    ensures i <= |s| && TrimFront(s) == s[i..] && (i < |s| ==> !(s[i] == ' ' || 9 <= s[i] as int <= 13))
    ensures forall k :: 0 <= k < i ==> s[k] == ' ' || 9 <= s[k] as int <= 13
  {
    i := 0;
    if s != "" && IsSpace(s[0]) {
      var j := TrimFrontMeans(s[1..]);
      i := j + 1;
    }
  }

  lemma {:induction false} TrimBackMeans(s: string) returns (j: nat)
    ensures j <= |s| && TrimBack(s) == s[..j] && (j > 0 ==> !(s[j - 1] == ' ' || 9 <= s[j - 1] as int <= 13))
    ensures forall k :: j <= k < |s| ==> s[k] == ' ' || 9 <= s[k] as int <= 13
  {
    j := |s|;
    if s != "" && IsSpace(s[|s| - 1]) { j := TrimBackMeans(s[..|s| - 1]); }
  }

  /** Trimming takes off the spaces, tabs and line breaks at both ends, and nothing else. */
  lemma TrimMeans(s: string) returns (i: nat, j: nat)
    ensures i <= j <= |s| && TrimSpace(s) == s[i..j]
    ensures forall k :: 0 <= k < i || j <= k < |s| ==> s[k] == ' ' || 9 <= s[k] as int <= 13
    ensures i < j ==> !(s[i] == ' ' || 9 <= s[i] as int <= 13) && !(s[j - 1] == ' ' || 9 <= s[j - 1] as int <= 13)
  {
    i := TrimFrontMeans(s);
    var t := s[i..];
    var k := TrimBackMeans(t);
    j := i + k;
    assert t[..k] == s[i..j];
  }
}
