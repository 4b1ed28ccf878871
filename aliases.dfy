/**
  The alias alphabet of the obfuscator: the words it may hand out, the
  shortlex order they are handed out in, and the little-endian digit buffer
  whose increment-with-carry produces them (bijective base 26 over 'a'..'z').
 */
module Aliases {

  /** `keyword.kwlist` of Python 2.7: `keyword.iskeyword(s)` is `s in Keywords`. */
  const Keywords: set<string> := {
    "and", "as", "assert", "break", "class", "continue", "def", "del", "elif",
    "else", "except", "exec", "finally", "for", "from", "global", "if", "import",
    "in", "is", "lambda", "not", "or", "pass", "print", "raise", "return", "try",
    "while", "with", "yield"
  }

  predicate IsLetter(c: char) {
    'a' <= c <= 'z'
  }

  predicate AllLetters(s: string) {
    forall i :: 0 <= i < |s| ==> IsLetter(s[i])
  }

  /** A non-empty word of lower-case letters: the shape of every alias and of the digit buffer. */
  predicate IsAlias(s: string) {
    |s| > 0 && AllLetters(s)
  }

  function Reverse(s: string): string {
    seq(|s|, i requires 0 <= i < |s| => s[|s| - 1 - i])
  }

  function Repeat(c: char, n: nat): string {
    seq(n, _ => c)
  }

  // ---------------------------------------------------------------------------
  // Shortlex order: shorter words first, words of one length in dictionary order.
  // ---------------------------------------------------------------------------

  predicate LexLess(a: string, b: string)
    decreases |a|
  {
    |a| > 0 && |b| > 0 && (a[0] < b[0] || (a[0] == b[0] && LexLess(a[1..], b[1..])))
  }

  predicate ShortLexLess(a: string, b: string) {
    |a| < |b| || (|a| == |b| && LexLess(a, b))
  }

  lemma {:induction false} LexLessIrreflexive(a: string)
    ensures !LexLess(a, a)
    decreases |a|
  {
    if |a| > 0 {
      LexLessIrreflexive(a[1..]);
    }
  }

  lemma {:induction false} LexLessTransitive(a: string, b: string, c: string)
    requires |a| == |b| == |c|
    requires LexLess(a, b) && LexLess(b, c)
    ensures LexLess(a, c)
    decreases |a|
  {
    if a[0] == b[0] && b[0] == c[0] {
      LexLessTransitive(a[1..], b[1..], c[1..]);
    }
  }

  lemma ShortLexIrreflexive(a: string)
    ensures !ShortLexLess(a, a)
  {
    LexLessIrreflexive(a);
  }

  lemma ShortLexTransitive(a: string, b: string, c: string)
    requires ShortLexLess(a, b) && ShortLexLess(b, c)
    ensures ShortLexLess(a, c)
  {
    if |a| == |b| == |c| {
      LexLessTransitive(a, b, c);
    }
  }

  /** Appending one letter to each of two equal-length words keeps their dictionary order. */
  lemma {:induction false} LexLessAppend(a: string, b: string, x: char, y: char)
    requires |a| == |b| && LexLess(a, b)
    ensures LexLess(a + [x], b + [y])
    decreases |a|
  {
    assert (a + [x])[1..] == a[1..] + [x];
    assert (b + [y])[1..] == b[1..] + [y];
    if a[0] == b[0] {
      LexLessAppend(a[1..], b[1..], x, y);
    }
  }

  /** Two words that differ only in their last letter are ordered by that letter. */
  lemma {:induction false} LexLessLast(p: string, x: char, y: char)
    requires x < y
    ensures LexLess(p + [x], p + [y])
    decreases |p|
  {
    if |p| > 0 {
      assert (p + [x])[1..] == p[1..] + [x];
      assert (p + [y])[1..] == p[1..] + [y];
      LexLessLast(p[1..], x, y);
    }
  }

  lemma ReverseCons(d: char, rest: string)
    ensures Reverse([d] + rest) == Reverse(rest) + [d]
  {
  }

  // ---------------------------------------------------------------------------
  // The digit buffer: least significant digit first, digits 'a' (1) .. 'z' (26).
  // ---------------------------------------------------------------------------

  function Digit(c: char): int {
    c as int - 'a' as int + 1
  }

  /** The positive number a buffer stands for in bijective base 26. */
  function Weight(ds: string): nat
    requires AllLetters(ds)
  {
    if ds == [] then 0 else Digit(ds[0]) + 26 * Weight(ds[1..])
  }

  /** The buffer after one increment with carry (obfuscator.py:34-42). */
  function Succ(ds: string): (r: string)
    requires IsAlias(ds)
    ensures IsAlias(r)
    ensures |r| == |ds| || (|r| == |ds| + 1 && r == Repeat('a', |r|))
    decreases |ds|
  {
    if ds[0] != 'z' then [(ds[0] as int + 1) as char] + ds[1..]
    else if |ds| == 1 then "aa"
    else ['a'] + Succ(ds[1..])
  }

  /** Each increment adds exactly one to the number the buffer stands for. */
  lemma {:induction false} SuccWeight(ds: string)
    requires IsAlias(ds)
    ensures Weight(Succ(ds)) == Weight(ds) + 1
    decreases |ds|
  {
    var r := Succ(ds);
    if ds[0] != 'z' {
      assert r[1..] == ds[1..];
    } else if |ds| == 1 {
      assert ds[1..] == [];
      assert r[1..][1..] == [];
    } else {
      assert r[1..] == Succ(ds[1..]);
      SuccWeight(ds[1..]);
    }
  }

  /** Bijective base 26: a buffer is determined by the number it stands for. */
  lemma {:induction false} WeightInjective(a: string, b: string)
    requires AllLetters(a) && AllLetters(b)
    requires Weight(a) == Weight(b)
    ensures a == b
    decreases |a|
  {
    if a != [] && b != [] {
      var wa, wb := Weight(a[1..]), Weight(b[1..]);
      assert Weight(a) - 1 == (Digit(a[0]) - 1) + 26 * wa;
      assert Weight(b) - 1 == (Digit(b[0]) - 1) + 26 * wb;
      DivModUnique(Digit(a[0]) - 1, wa, Digit(b[0]) - 1, wb);
      assert a[0] == b[0];
      WeightInjective(a[1..], b[1..]);
    }
  }

  lemma DivModUnique(r1: int, q1: int, r2: int, q2: int)
    requires 0 <= r1 < 26 && 0 <= r2 < 26
    requires r1 + 26 * q1 == r2 + 26 * q2
    ensures r1 == r2 && q1 == q2
  {
  }

  /** Each increment yields the next word in shortlex order, read most significant digit first. */
  lemma {:induction false} SuccOrdered(ds: string)
    requires IsAlias(ds)
    ensures ShortLexLess(Reverse(ds), Reverse(Succ(ds)))
    decreases |ds|
  {
    var r := Succ(ds);
    ReverseCons(ds[0], ds[1..]);
    assert [ds[0]] + ds[1..] == ds;
    ReverseCons(r[0], r[1..]);
    assert [r[0]] + r[1..] == r;
    if ds[0] != 'z' {
      assert r[1..] == ds[1..];
      LexLessLast(Reverse(ds[1..]), ds[0], r[0]);
    } else if |ds| == 1 {
    } else {
      assert r[1..] == Succ(ds[1..]);
      SuccOrdered(ds[1..]);
      if |r[1..]| == |ds[1..]| {
        LexLessAppend(Reverse(ds[1..]), Reverse(r[1..]), ds[0], r[0]);
      }
    }
  }

  /** The buffer gains a digit exactly when every digit carries. */
  lemma {:induction false} SuccGrows(ds: string)
    requires IsAlias(ds)
    ensures |Succ(ds)| == |ds| + 1 <==> ds == Repeat('z', |ds|)
    decreases |ds|
  {
    if ds[0] != 'z' {
      assert ds[0] != Repeat('z', |ds|)[0];
    } else if |ds| == 1 {
      assert ds == Repeat('z', 1);
    } else {
      SuccGrows(ds[1..]);
      if ds[1..] == Repeat('z', |ds| - 1) {
        assert ds == Repeat('z', |ds|);
      }
    }
  }

  /** Succ spelled out as the carry loop computes it: k wrapped digits, then one raised digit. */
  lemma {:induction false} SuccAt(ds: string, k: nat)
    requires IsAlias(ds) && k < |ds| && ds[k] != 'z'
    requires forall i :: 0 <= i < k ==> ds[i] == 'z'
    ensures Succ(ds) == Repeat('a', k) + [(ds[k] as int + 1) as char] + ds[k + 1..]
    decreases k
  {
    if k > 0 {
      SuccAt(ds[1..], k - 1);
      assert ds[1..][k..] == ds[k + 1..];
      assert Repeat('a', k) == ['a'] + Repeat('a', k - 1);
    }
  }

  /** When every digit carries the buffer becomes one digit longer and all 'a'. */
  lemma {:induction false} SuccAllCarry(ds: string)
    requires IsAlias(ds)
    requires forall i :: 0 <= i < |ds| ==> ds[i] == 'z'
    ensures Succ(ds) == Repeat('a', |ds| + 1)
    decreases |ds|
  {
    if |ds| > 1 {
      SuccAllCarry(ds[1..]);
      assert Repeat('a', |ds| + 1) == ['a'] + Repeat('a', |ds|);
    }
  }

  // ---------------------------------------------------------------------------
  // The n-th alias of a run.
  // ---------------------------------------------------------------------------

  /** The buffer after n draws from a fresh run (obfuscator.py:15 starts it at 'a'). */
  function BufferAfter(n: nat): (r: string)
    ensures IsAlias(r)
  {
    if n == 0 then "a" else Succ(BufferAfter(n - 1))
  }

  /** The alias returned by the (n+1)-th draw of a run. */
  function NthAlias(n: nat): string {
    Reverse(BufferAfter(n))
  }

  /** The n-th alias is the word that stands for n + 1 in bijective base 26. */
  lemma {:induction false} NthAliasWeight(n: nat)
    ensures Weight(BufferAfter(n)) == n + 1
  {
    if n > 0 {
      NthAliasWeight(n - 1);
      SuccWeight(BufferAfter(n - 1));
    }
  }

  /** Aliases are handed out in strictly increasing shortlex order, so none repeats. */
  lemma {:induction false} NthAliasOrdered(m: nat, n: nat)
    requires m < n
    ensures ShortLexLess(NthAlias(m), NthAlias(n))
    decreases n
  {
    SuccOrdered(BufferAfter(n - 1));
    if m < n - 1 {
      NthAliasOrdered(m, n - 1);
      ShortLexTransitive(NthAlias(m), NthAlias(n - 1), NthAlias(n));
    }
  }

  // ---------------------------------------------------------------------------
  // Drawing past the keywords
  // ---------------------------------------------------------------------------

  /** The buffer after n increments. */
  function Iterate(buf: string, n: nat): (r: string)
    requires IsAlias(buf)
    ensures IsAlias(r)
  {
    if n == 0 then buf else Succ(Iterate(buf, n - 1))
  }

  /** The words of `kw` that do not precede `w`. */
  function Ahead(kw: set<string>, w: string): set<string> {
    set k | k in kw && !ShortLexLess(k, w)
  }

  /** Moving past a word of `kw` leaves fewer words of `kw` ahead. */
  lemma AheadShrinks(kw: set<string>, w: string, w': string)
    requires w in kw && ShortLexLess(w, w')
    ensures Ahead(kw, w') < Ahead(kw, w)
  {
    ShortLexIrreflexive(w);
    forall k | k in Ahead(kw, w')
      ensures k in Ahead(kw, w)
    {
      if ShortLexLess(k, w) {
        ShortLexTransitive(k, w, w');
      }
    }
    assert w in Ahead(kw, w);
  }

  /**
    The first buffer, from `buf` on, whose word is not in `kw`: the draw that a
    keyword redraw (obfuscator.py:52-53) settles on.
   */
  function NextFree(kw: set<string>, buf: string): (r: string)
    requires IsAlias(buf)
    ensures IsAlias(r) && Reverse(r) !in kw
    decreases Ahead(kw, Reverse(buf))
  {
    if Reverse(buf) !in kw then buf
    else
      SuccOrdered(buf);
      AheadShrinks(kw, Reverse(buf), Reverse(Succ(buf)));
      NextFree(kw, Succ(buf))
  }

  /** `n` increments take `buf` to NextFree, and every word drawn on the way is in `kw`. */
  predicate SkipsTo(kw: set<string>, buf: string, n: nat)
    requires IsAlias(buf)
  {
    NextFree(kw, buf) == Iterate(buf, n) && forall m: nat :: m < n ==> Reverse(Iterate(buf, m)) in kw
  }

  /** NextFree is the first buffer reached by increments whose word is not in `kw`. */
  lemma {:induction false} NextFreeFirst(kw: set<string>, buf: string)
    requires IsAlias(buf)
    ensures exists n: nat :: SkipsTo(kw, buf, n)
    decreases Ahead(kw, Reverse(buf))
  {
    if Reverse(buf) in kw {
      SuccOrdered(buf);
      AheadShrinks(kw, Reverse(buf), Reverse(Succ(buf)));
      NextFreeFirst(kw, Succ(buf));
      var n: nat :| SkipsTo(kw, Succ(buf), n);
      IterateShift(buf, n);
      forall m: nat | m < n + 1
        ensures Reverse(Iterate(buf, m)) in kw
      {
        if m > 0 {
          IterateShift(buf, m - 1);
        }
      }
      assert SkipsTo(kw, buf, n + 1);
    } else {
      assert SkipsTo(kw, buf, 0);
    }
  }

  lemma {:induction false} IterateShift(buf: string, m: nat)
    requires IsAlias(buf)
    ensures Iterate(Succ(buf), m) == Iterate(buf, m + 1)
  {
    if m > 0 {
      IterateShift(buf, m - 1);
    }
  }
}
