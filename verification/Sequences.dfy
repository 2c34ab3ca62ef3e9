/** The ends of a sequence and its prefixes. */
module Sequences {
  function Front<T>(s: seq<T>): seq<T>
    requires s != []
  {
    s[..|s| - 1]
  }

  function Last<T>(s: seq<T>): T
    requires s != []
  {
    s[|s| - 1]
  }

  function Max(a: nat, b: nat): nat {
    if a < b then b else a
  }

  /** The first `n` pieces put together. */
  function Join<T>(pieces: seq<seq<T>>, n: nat): seq<T>
    requires n <= |pieces|
  {
    if n == 0 then [] else Join(pieces, n - 1) + pieces[n - 1]
  }

  lemma {:induction false} JoinKept<T>(pieces: seq<seq<T>>, piece: seq<T>, n: nat)
    requires n <= |pieces|
    ensures Join(pieces + [piece], n) == Join(pieces, n)
  {
    if n > 0 {
      JoinKept(pieces, piece, n - 1);
    }
  }

  lemma {:induction false} JoinFirst<T>(a: seq<seq<T>>, b: seq<seq<T>>, n: nat)
    requires n <= |a|
    ensures Join(a + b, n) == Join(a, n)
  {
    if n > 0 {
      JoinFirst(a, b, n - 1);
    }
  }

  lemma {:induction false} JoinBoth<T>(a: seq<seq<T>>, b: seq<seq<T>>, n: nat)
    requires n <= |b|
    ensures Join(a + b, |a| + n) == Join(a, |a|) + Join(b, n)
  {
    if n == 0 {
      JoinFirst(a, b, |a|);
      assert Join(a, |a|) + [] == Join(a, |a|);
    } else {
      JoinBoth(a, b, n - 1);
      assert Join(a, |a|) + Join(b, n - 1) + b[n - 1] == Join(a, |a|) + (Join(b, n - 1) + b[n - 1]);
    }
  }

  /** A list that grows by at most one element with each step has passed through each of its prefixes; `n` is
      where it did so first. */
  lemma PrefixWasReached<T, U>(g: seq<T> -> seq<U>, s: seq<T>, m: nat) returns (n: nat)
    requires forall k :: 0 <= k < |s| ==> g(s[..k]) <= g(s[..k + 1]) && |g(s[..k + 1])| <= |g(s[..k])| + 1
    requires g(s[..0]) == [] && m <= |g(s[..|s|])|
    ensures n <= |s| && g(s[..n]) == g(s[..|s|])[..m] && (n > 0 ==> |g(s[..n - 1])| < m)
  {
    n := 0;
    while |g(s[..n])| < m
      invariant 0 <= n <= |s| && |g(s[..n])| <= m && (n > 0 ==> |g(s[..n - 1])| < m)
      decreases |s| - n
    {
      n := n + 1;
    }
    GrowsOn(g, s, n, |s|);
  }

  lemma {:induction false} GrowsOn<T, U>(g: seq<T> -> seq<U>, s: seq<T>, n: nat, m: nat)
    requires forall k :: 0 <= k < |s| ==> g(s[..k]) <= g(s[..k + 1])
    requires n <= m <= |s|
    ensures g(s[..n]) <= g(s[..m])
    decreases m - n
  {
    if n < m {
      GrowsOn(g, s, n, m - 1);
      assert g(s[..m - 1]) <= g(s[..m - 1 + 1]);
    }
  }
}
