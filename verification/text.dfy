/**
 * String facts the command builders and result wrappers rely on: the
 * JavaScript `||` chain over strings, substring occurrence, and strings
 * made of tokens joined by a separator character.
 */
module Text {

  /**
   * The value of the JavaScript chain `c0 || c1 || ... || cn` when every
   * operand is a string: `""` is falsy and every other string is truthy, so
   * the chain yields the first non-empty operand, or the last operand (which
   * is then `""`) when all of them are empty.
   */
  function FirstNonEmpty(cands: seq<string>): (r: string)
    requires |cands| > 0
    ensures r in cands
    ensures r == "" <==> forall i :: 0 <= i < |cands| ==> cands[i] == ""
    ensures forall i :: 0 <= i < |cands| && cands[i] != "" && (forall j :: 0 <= j < i ==> cands[j] == "") ==> r == cands[i]
  {
    if |cands| == 1 || cands[0] != "" then cands[0] else FirstNonEmpty(cands[1..])
  }

  /** `n` occurs in `s` starting at index `i`. */
  predicate OccursAt(s: string, n: string, i: int) {
    0 <= i && i + |n| <= |s| && s[i..i + |n|] == n
  }

  /** `n` occurs somewhere in `s` (JavaScript's `s.includes(n)`). */
  ghost predicate Contains(s: string, n: string) {
    exists i :: OccursAt(s, n, i)
  }

  /** An occurrence in a part is an occurrence in the whole. */
  lemma ContainsInPart(a: string, b: string, n: string)
    requires Contains(a, n) || Contains(b, n)
    ensures Contains(a + b, n)
  {
    if Contains(a, n) {
      var i :| OccursAt(a, n, i);
      assert (a + b)[i..i + |n|] == a[i..i + |n|];
      assert OccursAt(a + b, n, i);
    } else {
      var i :| OccursAt(b, n, i);
      assert (a + b)[|a| + i..|a| + i + |n|] == b[i..i + |n|];
      assert OccursAt(a + b, n, |a| + i);
    }
  }

  /**
   * A needle that does not hold the character `c` occurs in `a + [c] + b`
   * exactly when it occurs in `a` or in `b`: no occurrence can straddle `c`.
   */
  lemma ContainsAround(a: string, c: char, b: string, n: string)
    requires c !in n
    ensures Contains(a + [c] + b, n) <==> Contains(a, n) || Contains(b, n)
  {
    var s := a + [c] + b;
    if Contains(s, n) {
      var i :| OccursAt(s, n, i);
      forall m | i <= m < i + |n| ensures s[m] != c {
        assert s[m] == s[i..i + |n|][m - i];
      }
      assert s[|a|] == c;
      if i + |n| <= |a| {
        assert s[i..i + |n|] == a[i..i + |n|];
        assert OccursAt(a, n, i);
      } else {
        assert i > |a|;
        assert s[i..i + |n|] == b[i - |a| - 1..i - |a| - 1 + |n|];
        assert OccursAt(b, n, i - |a| - 1);
      }
    }
    if Contains(a, n) || Contains(b, n) {
      assert s == a + ([c] + b);
      if !Contains(a, n) {
        ContainsInPart([c], b, n);
      }
      ContainsInPart(a, [c] + b, n);
    }
  }

  /**
   * A needle is absent from `s` when, at every place it could start, the
   * character at offset `k` differs from the needle's.
   */
  lemma NotContainsByChar(s: string, n: string, k: nat)
    requires k < |n|
    requires forall j :: k <= j && j - k + |n| <= |s| ==> s[j] != n[k]
    ensures !Contains(s, n)
  {
    forall i ensures !OccursAt(s, n, i) {
      if 0 <= i && i + |n| <= |s| {
        assert s[i..i + |n|][k] == s[i + k];
      }
    }
  }

  /** The tokens written one after the other with `sep` between neighbours. */
  function Join(tokens: seq<string>, sep: char): string {
    if |tokens| == 0 then ""
    else if |tokens| == 1 then tokens[0]
    else tokens[0] + [sep] + Join(tokens[1..], sep)
  }

  /**
   * A non-empty needle without the separator occurs in a joined string
   * exactly when it occurs in one of the tokens.
   */
  lemma {:induction false} JoinContains(tokens: seq<string>, sep: char, n: string)
    requires n != [] && sep !in n
    ensures Contains(Join(tokens, sep), n) <==> exists k :: 0 <= k < |tokens| && Contains(tokens[k], n)
  {
    if |tokens| == 0 {
      assert !OccursAt("", n, 0);
    } else if |tokens| == 1 {
      assert Join(tokens, sep) == tokens[0];
    } else {
      var rest := tokens[1..];
      JoinContains(rest, sep, n);
      ContainsAround(tokens[0], sep, Join(rest, sep), n);
      if exists k :: 0 <= k < |tokens| && Contains(tokens[k], n) {
        var k :| 0 <= k < |tokens| && Contains(tokens[k], n);
        if k > 0 {
          assert rest[k - 1] == tokens[k];
        }
      }
      if exists k :: 0 <= k < |rest| && Contains(rest[k], n) {
        var k :| 0 <= k < |rest| && Contains(rest[k], n);
        assert tokens[k + 1] == rest[k];
      }
    }
  }

  /** Joining `xs + ys` puts one separator between the two joined halves. */
  lemma {:induction false} JoinAppend(xs: seq<string>, ys: seq<string>, sep: char)
    requires |xs| > 0 && |ys| > 0
    ensures Join(xs + ys, sep) == Join(xs, sep) + [sep] + Join(ys, sep)
  {
    if |xs| == 1 {
      assert (xs + ys)[1..] == ys;
    } else {
      assert (xs + ys)[1..] == xs[1..] + ys;
      JoinAppend(xs[1..], ys, sep);
    }
  }

  /** No token holds the needle. */
  ghost predicate NoneContain(tokens: seq<string>, n: string) {
    forall k :: 0 <= k < |tokens| ==> !Contains(tokens[k], n)
  }

  /** A needle without the separator is absent from a join of tokens none of which holds it. */
  lemma JoinLacks(tokens: seq<string>, sep: char, n: string)
    requires n != [] && sep !in n && NoneContain(tokens, n)
    ensures !Contains(Join(tokens, sep), n)
  {
    JoinContains(tokens, sep, n);
  }

  /** A needle held by one token is present in the join. */
  lemma JoinHas(tokens: seq<string>, sep: char, n: string, k: nat)
    requires n != [] && sep !in n && k < |tokens| && Contains(tokens[k], n)
    ensures Contains(Join(tokens, sep), n)
  {
    JoinContains(tokens, sep, n);
  }

  /** Every string contains itself. */
  lemma ContainsSelf(s: string)
    ensures Contains(s, s)
  {
    assert OccursAt(s, s, 0);
  }

  /** Joining a token in front of a non-empty list. */
  lemma JoinCons(t: string, ts: seq<string>, sep: char)
    requires |ts| > 0
    ensures Join([t] + ts, sep) == t + [sep] + Join(ts, sep)
  {
    assert ([t] + ts)[1..] == ts;
  }
}
