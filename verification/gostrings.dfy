/**
 * Go's `strings.Replace(s, old, new, n)` when `old` and `new` are single
 * characters: the first `n` occurrences of `old` are replaced, all of them
 * when `n < 0`, none when `n == 0`.
 */
module GoStrings {
  import opened Text

  function Replace(s: string, c: char, d: char, n: int): (r: string)
    ensures |r| == |s|
  {
    if |s| == 0 || n == 0 then s
    else if s[0] == c then [d] + Replace(s[1..], c, d, n - 1)
    else [s[0]] + Replace(s[1..], c, d, n)
  }

  /** The replacement budget left once `Replace` has walked over all of `s`. */
  function Remaining(s: string, c: char, n: int): (m: int)
    ensures n >= 0 ==> 0 <= m <= n
    ensures n < 0 ==> m < 0
  {
    if |s| == 0 || n == 0 then n
    else if s[0] == c then Remaining(s[1..], c, n - 1)
    else Remaining(s[1..], c, n)
  }

  /** Whether the budget still allows a replacement after `k` earlier ones. */
  predicate Allows(n: int, k: nat)
  {
    n < 0 || k < n
  }

  /**
   * Position-wise meaning of `Replace`: a character changes exactly when it is
   * the needle and fewer than `n` needles precede it.
   */
  lemma {:induction false} ReplaceAt(s: string, c: char, d: char, n: int, i: nat)
    requires i < |s|
    ensures Replace(s, c, d, n)[i] ==
            (if s[i] == c && Allows(n, Occurrences(s[..i], c)) then d else s[i])
  {
    if n == 0 {
    } else if i == 0 {
      assert s[..0] == [];
    } else {
      var m := if s[0] == c then n - 1 else n;
      ReplaceAt(s[1..], c, d, m, i - 1);
      assert s[..i] == [s[0]] + s[1..][..i - 1];
      assert s[..i][1..] == s[1..][..i - 1];
    }
  }

  /** Replacing over a concatenation continues on the right with the budget the left part leaves. */
  lemma {:induction false} ReplaceConcat(a: string, b: string, c: char, d: char, n: int)
    ensures Replace(a + b, c, d, n) == Replace(a, c, d, n) + Replace(b, c, d, Remaining(a, c, n))
  {
    if |a| == 0 {
      assert a + b == b;
    } else if n == 0 {
      ReplaceZero(a + b, c, d);
      ReplaceZero(a, c, d);
      ReplaceZero(b, c, d);
    } else {
      assert (a + b)[1..] == a[1..] + b;
      ReplaceConcat(a[1..], b, c, d, if a[0] == c then n - 1 else n);
    }
  }

  lemma ReplaceZero(s: string, c: char, d: char)
    ensures Replace(s, c, d, 0) == s
  {
  }

  /** With a negative count every occurrence goes: none of the needle is left. */
  lemma {:induction false} ReplaceAllRemovesNeedle(s: string, c: char, d: char, n: int)
    requires n < 0
    requires c != d
    ensures c !in Replace(s, c, d, n)
  {
    if |s| > 0 {
      ReplaceAllRemovesNeedle(s[1..], c, d, if s[0] == c then n - 1 else n);
    }
  }

  /** A non-negative count replaces min(n, count) needles: that many fewer remain. */
  lemma {:induction false} ReplaceCount(s: string, c: char, d: char, n: int)
    requires n >= 0
    requires c != d
    ensures Occurrences(Replace(s, c, d, n), c) ==
            if Occurrences(s, c) <= n then 0 else Occurrences(s, c) - n
  {
    if |s| > 0 && n > 0 {
      ReplaceCount(s[1..], c, d, if s[0] == c then n - 1 else n);
    }
  }
}
