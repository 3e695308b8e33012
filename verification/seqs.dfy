/** Positional matching of a pattern inside a larger sequence. */
module Seqs {

  /** `xs` occurs in `s` starting at index `i`, one element after the other. */
  ghost predicate At<T>(s: seq<T>, i: nat, xs: seq<T>)
    ensures At(s, i, xs) ==> i + |xs| <= |s|
    decreases |xs|
  {
    if |xs| == 0 then i <= |s| else i < |s| && s[i] == xs[0] && At(s, i + 1, xs[1..])
  }

  /** An occurrence of `a + b` is an occurrence of `a` followed by one of `b`. */
  lemma {:induction false} AtSplit<T>(s: seq<T>, i: nat, a: seq<T>, b: seq<T>)
    requires At(s, i, a + b)
    ensures At(s, i, a) && At(s, i + |a|, b)
    decreases |a|
  {
    if |a| == 0 {
      assert a + b == b;
    } else {
      assert (a + b)[1..] == a[1..] + b;
      AtSplit(s, i + 1, a[1..], b);
    }
  }

  /** An occurrence of `a` followed by one of `b` is an occurrence of `a + b`. */
  lemma {:induction false} AtJoin<T>(s: seq<T>, i: nat, a: seq<T>, b: seq<T>)
    requires At(s, i, a) && At(s, i + |a|, b)
    ensures At(s, i, a + b)
    decreases |a|
  {
    if |a| == 0 {
      assert a + b == b;
    } else {
      AtJoin(s, i + 1, a[1..], b);
      assert (a + b)[1..] == a[1..] + b;
    }
  }

  /** The elements of an occurrence are those of the pattern. */
  lemma {:induction false} AtIndex<T>(s: seq<T>, i: nat, xs: seq<T>, k: nat)
    requires At(s, i, xs) && k < |xs|
    ensures i + k < |s| && s[i + k] == xs[k]
    decreases k
  {
    if k > 0 {
      AtIndex(s, i + 1, xs[1..], k - 1);
    }
  }

  /** An occurrence of `xs + d`, where `xs` is `a + c`, is one of `a`, then one of `c + d` at `j`. */
  lemma AtHead<T>(s: seq<T>, i: nat, j: nat, xs: seq<T>, a: seq<T>, c: seq<T>, d: seq<T>)
    requires At(s, i, xs + d) && xs == a + c && j == i + |a|
    ensures At(s, i, a) && At(s, j, c + d)
  {
    AtSplit(s, i, a + c, d);
    AtSplit(s, i, a, c);
    AtJoin(s, j, c, d);
  }

  /** An occurrence of `xs + d`, where `xs` is `a + (b + c)`, is one of `a`, one of `b` at `j`, then one of `c + d` at `l`. */
  lemma AtThree<T>(s: seq<T>, i: nat, j: nat, l: nat, xs: seq<T>, a: seq<T>, b: seq<T>, c: seq<T>, d: seq<T>)
    requires At(s, i, xs + d) && xs == a + (b + c) && j == i + |a| && l == j + |b|
    ensures At(s, i, a) && At(s, j, b) && At(s, l, c + d)
  {
    AtSplit(s, i, a + (b + c), d);
    AtSplit(s, i, a, b + c);
    AtSplit(s, j, b, c);
    AtJoin(s, l, c, d);
  }

  lemma AtSingle<T>(s: seq<T>, i: nat, x: T)
    requires At(s, i, [x])
    ensures i < |s| && s[i] == x
  {
    AtIndex(s, i, [x], 0);
  }

  lemma AtPair<T>(s: seq<T>, i: nat, x: T, y: T)
    requires At(s, i, [x, y])
    ensures i + 1 < |s| && s[i] == x && s[i + 1] == y
  {
    AtIndex(s, i, [x, y], 0);
    AtIndex(s, i, [x, y], 1);
  }

  /** A sequence occurs where it is placed: after `pre`, before `rest`. */
  lemma {:induction false} AtPlaced<T>(pre: seq<T>, xs: seq<T>, rest: seq<T>)
    ensures At(pre + xs + rest, |pre|, xs)
    decreases |xs|
  {
    if |xs| > 0 {
      AtPlaced(pre + [xs[0]], xs[1..], rest);
      assert pre + [xs[0]] + xs[1..] + rest == pre + xs + rest;
    }
  }

  lemma ConcatAssoc<T>(a: seq<T>, b: seq<T>, c: seq<T>)
    ensures a + (b + c) == (a + b) + c
  {
  }

  lemma HeadTail<T>(xs: seq<T>)
    requires |xs| > 0
    ensures [xs[0]] + xs[1..] == xs
  {
  }

  /** A suffix starting at `k` is its first element followed by the suffix after it. */
  lemma SuffixCons<T>(xs: seq<T>, k: nat)
    requires k < |xs|
    ensures xs[k..] == [xs[k]] + xs[k + 1..]
  {
  }
}
