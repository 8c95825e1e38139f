/** Sequence vocabulary shared by the pipeline's models: Python's stepped slicing
    `[xs[i:i+k] for i in range(0, len(xs), k)]`, concatenation, order-preserving
    filtering, and permutations given as index orders. */
module Sequences {

  function Min(a: int, b: int): int { if a <= b then a else b }

  function Max(a: int, b: int): int { if a >= b then a else b }

  /** Concatenation of all the pieces, in order. */
  function Flatten<X>(xss: seq<seq<X>>): seq<X> {
    if |xss| == 0 then [] else xss[0] + Flatten(xss[1..])
  }

  lemma {:induction false} FlattenAppend<X>(a: seq<seq<X>>, b: seq<seq<X>>)
    ensures Flatten(a + b) == Flatten(a) + Flatten(b)
    decreases |a|
  {
    if |a| == 0 {
      assert a + b == b;
    } else {
      assert (a + b)[1..] == a[1..] + b;
      FlattenAppend(a[1..], b);
    }
  }

  lemma FlattenCons<X>(x: seq<X>, ys: seq<seq<X>>)
    ensures Flatten([x] + ys) == x + Flatten(ys)
  {
    assert ([x] + ys)[1..] == ys;
  }

  /** `f` applied to every element, in order (a list comprehension). */
  function MapSeq<A, B>(f: A -> B, s: seq<A>): (r: seq<B>)
    ensures |r| == |s| && forall i :: 0 <= i < |s| ==> r[i] == f(s[i])
  {
    seq(|s|, i requires 0 <= i < |s| => f(s[i]))
  }

  lemma AppendAssoc<X>(a: seq<X>, b: seq<X>, c: seq<X>)
    ensures a + (b + c) == (a + b) + c
  {
  }

  lemma MapSeqAppend<A, B>(f: A -> B, a: seq<A>, b: seq<A>)
    ensures MapSeq(f, a + b) == MapSeq(f, a) + MapSeq(f, b)
  {
  }

  /** `[x for x in xs if p(x)]`. */
  function Filter<X>(xs: seq<X>, p: X -> bool): (r: seq<X>)
    ensures |r| <= |xs|
    ensures forall i :: 0 <= i < |r| ==> r[i] in xs && p(r[i])
    ensures forall i :: 0 <= i < |xs| && p(xs[i]) ==> xs[i] in r
  {
    if |xs| == 0 then [] else (if p(xs[0]) then [xs[0]] else []) + Filter(xs[1..], p)
  }

  lemma {:induction false} FilterAppend<X>(a: seq<X>, b: seq<X>, p: X -> bool)
    ensures Filter(a + b, p) == Filter(a, p) + Filter(b, p)
    decreases |a|
  {
    if |a| == 0 {
      assert a + b == b;
    } else {
      assert (a + b)[1..] == a[1..] + b;
      FilterAppend(a[1..], b, p);
    }
  }

  /** Filtering with a condition every element meets keeps the whole sequence. */
  lemma {:induction false} FilterAll<X>(xs: seq<X>, p: X -> bool)
    requires forall i :: 0 <= i < |xs| ==> p(xs[i])
    ensures Filter(xs, p) == xs
    decreases |xs|
  {
    if |xs| > 0 {
      FilterAll(xs[1..], p);
    }
  }

  /** The consecutive slices `xs[i:i+k]` for `i` in `range(0, len(xs), k)`. */
  function Groups<X>(xs: seq<X>, k: nat): seq<seq<X>>
    requires k >= 1
    decreases |xs|
  {
    if |xs| == 0 then []
    else if |xs| <= k then [xs]
    else [xs[..k]] + Groups(xs[k..], k)
  }

  /** The groups of a non-empty suffix: its first `k` elements (or all of it), then
      the groups of what is left. */
  lemma GroupsStep<X>(xs: seq<X>, i: nat, k: nat)
    requires k >= 1 && i < |xs|
    ensures Groups(xs[i..], k) == [xs[i..Min(i + k, |xs|)]] + Groups(xs[Min(i + k, |xs|)..], k)
  {
    var rest := xs[i..];
    if |xs| - i > k {
      assert rest[..k] == xs[i..i + k] && rest[k..] == xs[i + k..];
    } else {
      assert Min(i + k, |xs|) == |xs| && xs[i..|xs|] == rest;
      assert Groups(rest, k) == [rest];
      assert xs[|xs|..] == [];
    }
  }

  /** Concatenating the groups gives back the input. */
  lemma {:induction false} GroupsFlatten<X>(xs: seq<X>, k: nat)
    requires k >= 1
    ensures Flatten(Groups(xs, k)) == xs
    decreases |xs|
  {
    if |xs| == 0 {
    } else if |xs| <= k {
      assert Flatten([xs]) == xs + Flatten([xs][1..]);
    } else {
      var rest := Groups(xs[k..], k);
      GroupsFlatten(xs[k..], k);
      assert ([xs[..k]] + rest)[1..] == rest;
      assert xs == xs[..k] + xs[k..];
    }
  }

  /** Every group is non-empty and holds at most k elements; all but the last hold
      exactly k. */
  lemma {:induction false} GroupsShape<X>(xs: seq<X>, k: nat)
    requires k >= 1
    ensures forall j :: 0 <= j < |Groups(xs, k)| ==> 1 <= |Groups(xs, k)[j]| <= k
    ensures forall j :: 0 <= j < |Groups(xs, k)| - 1 ==> |Groups(xs, k)[j]| == k
    decreases |xs|
  {
    if |xs| > k {
      GroupsShape(xs[k..], k);
      var gs := Groups(xs, k);
      assert forall j :: 1 <= j < |gs| ==> gs[j] == Groups(xs[k..], k)[j - 1];
    }
  }

  /** The groups are the only way to cut `xs` into pieces of 1..k elements of which all
      but the last hold exactly k. */
  lemma {:induction false} GroupsUnique<X>(ws: seq<seq<X>>, xs: seq<X>, k: nat)
    requires k >= 1 && Flatten(ws) == xs
    requires forall j :: 0 <= j < |ws| ==> 1 <= |ws[j]| <= k
    requires forall j :: 0 <= j < |ws| - 1 ==> |ws[j]| == k
    ensures ws == Groups(xs, k)
    decreases |ws|
  {
    if |ws| == 1 {
      assert ws[1..] == [];
      assert Flatten(ws) == ws[0] + Flatten(ws[1..]);
      assert xs == ws[0] && 1 <= |xs| <= k;
      assert Groups(xs, k) == [xs];
      assert ws == [ws[0]];
    } else if |ws| > 1 {
      var tail := Flatten(ws[1..]);
      assert xs == ws[0] + tail;
      assert tail == ws[1] + Flatten(ws[2..]) by { assert ws[1..][1..] == ws[2..]; }
      assert xs[..k] == ws[0] && xs[k..] == tail;
      GroupsUnique(ws[1..], tail, k);
      assert ws == [ws[0]] + ws[1..];
    }
  }

  /** Extending a slice by one element on the right. */
  lemma SliceSnoc<X>(xs: seq<X>, a: nat, b: nat)
    requires a <= b < |xs|
    ensures xs[a..b + 1] == xs[a..b] + [xs[b]]
  {
  }

  /** Appending a piece to a sequence of pieces appends its elements. */
  lemma FlattenSnoc<X>(ws: seq<seq<X>>, w: seq<X>)
    ensures Flatten(ws + [w]) == Flatten(ws) + w
  {
    FlattenAppend(ws, [w]);
    assert Flatten([w]) == w + Flatten([w][1..]);
  }

  /** The last piece comes last. */
  lemma FlattenLast<X>(ws: seq<seq<X>>)
    requires |ws| > 0
    ensures Flatten(ws) == Flatten(ws[..|ws| - 1]) + ws[|ws| - 1]
  {
    FlattenSnoc(ws[..|ws| - 1], ws[|ws| - 1]);
    assert ws[..|ws| - 1] + [ws[|ws| - 1]] == ws;
  }

  lemma MulStep(j: int, k: int)
    ensures (j + 1) * k == j * k + k
  {
  }

  lemma MulAtLeast(d: int, k: int)
    requires d >= 1 && k >= 0
    ensures d * k >= k
  {
    MulStep(d - 1, k);
  }

  /** Euclidean division is determined by quotient and remainder. */
  lemma DivUnique(x: int, k: int, q: int, r: int)
    requires k > 0 && 0 <= r < k && x == q * k + r
    ensures x / k == q
  {
    var q', r' := x / k, x % k;
    assert x == q' * k + r';
    assert (q - q') * k == r' - r;
    if q > q' {
      MulAtLeast(q - q', k);
    } else if q < q' {
      MulAtLeast(q' - q, k);
    }
  }

  /** One more group of k: ceil((n-k)/k) + 1 == ceil(n/k). */
  lemma CeilStep(n: int, k: int, g: int)
    requires k >= 1 && n > k && g == (n - k + k - 1) / k
    ensures g + 1 == (n + k - 1) / k
  {
    var m := n - 1;
    assert g == m / k;
    assert m == g * k + m % k;
    assert n + k - 1 == (g + 1) * k + m % k;
    DivUnique(n + k - 1, k, g + 1, m % k);
  }

  /** There are ceil(n / k) groups. */
  lemma {:induction false} GroupsCount<X>(xs: seq<X>, k: nat)
    requires k >= 1
    ensures |Groups(xs, k)| == (|xs| + k - 1) / k
    decreases |xs|
  {
    var n := |xs|;
    if n == 0 {
      DivUnique(k - 1, k, 0, k - 1);
    } else if n <= k {
      DivUnique(n + k - 1, k, 1, n - 1);
    } else {
      GroupsCount(xs[k..], k);
      CeilStep(n, k, |Groups(xs[k..], k)|);
    }
  }

  lemma SliceOfDrop<X>(xs: seq<X>, k: nat, lo: nat, hi: nat)
    requires k <= |xs| && lo <= hi <= |xs| - k
    ensures xs[k..][lo..hi] == xs[lo + k .. hi + k]
  {
  }

  /** Group `j` is exactly the slice `xs[j*k : j*k+k]`, clamped at the end. */
  lemma {:induction false} GroupsAt<X>(xs: seq<X>, k: nat, j: nat)
    requires k >= 1 && j < |Groups(xs, k)|
    ensures j * k < |xs|
    ensures Groups(xs, k)[j] == xs[j * k .. Min(j * k + k, |xs|)]
    decreases j
  {
    if j > 0 {
      assert |xs| > k;
      var rest := xs[k..];
      assert Groups(xs, k) == [xs[..k]] + Groups(rest, k);
      assert Groups(xs, k)[j] == Groups(rest, k)[j - 1];
      GroupsAt(rest, k, j - 1);
      var lo := (j - 1) * k;
      MulStep(j - 1, k);
      assert lo + k == j * k;
      var hi := Min(lo + k, |rest|);
      assert hi + k == Min(j * k + k, |xs|);
      SliceOfDrop(xs, k, lo, hi);
    }
  }

  /** Appending one group's worth (1..k elements) after a whole number of groups
      adds exactly one group. */
  lemma {:induction false} GroupsSnoc<X>(a: seq<X>, c: seq<X>, k: nat, m: nat)
    requires k >= 1 && |a| == m * k && 1 <= |c| <= k
    ensures Groups(a + c, k) == Groups(a, k) + [c]
    decreases m
  {
    if m == 0 {
      assert a + c == c;
    } else {
      assert |a| >= k;
      assert (a + c)[..k] == a[..k];
      assert (a + c)[k..] == a[k..] + c;
      assert |a[k..]| == (m - 1) * k;
      GroupsSnoc(a[k..], c, k, m - 1);
      if |a| == k {
        assert a[k..] == [];
        assert a[..k] == a;
      }
    }
  }

  /** A whole number of full groups, then nothing more. */
  lemma {:induction false} GroupsFull<X>(xs: seq<X>, k: nat, m: nat)
    requires k >= 1 && |xs| == m * k
    ensures |Groups(xs, k)| == m
    decreases m
  {
    if m > 0 {
      assert |xs[k..]| == (m - 1) * k;
      GroupsFull(xs[k..], k, m - 1);
    }
  }

  /** `list(range(n))`. */
  function Range(n: nat): (r: seq<nat>)
    ensures |r| == n && forall i :: 0 <= i < n ==> r[i] == i
  {
    if n == 0 then [] else Range(n - 1) + [n - 1]
  }

  /** `order` lists each of 0..n-1 exactly once. */
  predicate IsPermutationOf(order: seq<nat>, n: nat) {
    multiset(order) == multiset(Range(n))
  }

  lemma PermutationBounds(order: seq<nat>, n: nat)
    requires IsPermutationOf(order, n)
    ensures |order| == n
    ensures AllBelow(order, n)
  {
    assert |multiset(order)| == |multiset(Range(n))|;
    forall j | 0 <= j < |order| ensures order[j] < n {
      assert order[j] in multiset(order);
      assert order[j] in Range(n);
    }
  }

  /** Every index in `order` is below `n`. */
  predicate AllBelow(order: seq<nat>, n: nat) {
    forall j :: 0 <= j < |order| ==> order[j] < n
  }

  /** `xs` taken in the order given by the index list `order`. */
  function Permuted<X>(xs: seq<X>, order: seq<nat>): (r: seq<X>)
    requires AllBelow(order, |xs|)
    ensures |r| == |order| && forall j :: 0 <= j < |order| ==> r[j] == xs[order[j]]
  {
    seq(|order|, j requires 0 <= j < |order| => xs[order[j]])
  }

  /** Taking one more index of `order` adds that element of `xs` at the end. */
  lemma PermutedSnoc<X>(xs: seq<X>, order: seq<nat>, j: nat)
    requires j < |order| && AllBelow(order, |xs|)
    ensures AllBelow(order[..j], |xs|) && AllBelow(order[..j + 1], |xs|)
    ensures Permuted(xs, order[..j + 1]) == Permuted(xs, order[..j]) + [xs[order[j]]]
  {
    assert Permuted(xs, order[..j + 1])[j] == xs[order[j]];
  }

  /** `b` with its element at index `k` removed. */
  function Without<X>(b: seq<X>, k: nat): (r: seq<X>)
    requires k < |b|
    ensures |r| == |b| - 1
    ensures multiset(r) == multiset(b) - multiset{b[k]}
  {
    assert b == b[..k] + [b[k]] + b[k + 1..];
    b[..k] + b[k + 1..]
  }

  lemma PermutedWithout<X>(xs: seq<X>, b: seq<nat>, k: nat)
    requires k < |b| && AllBelow(b, |xs|)
    ensures AllBelow(Without(b, k), |xs|)
    ensures multiset(Permuted(xs, b))
         == multiset(Permuted(xs, Without(b, k))) + multiset{xs[b[k]]}
  {
    var p := Permuted(xs, b);
    assert p == p[..k] + [p[k]] + p[k + 1..];
    assert Permuted(xs, Without(b, k)) == p[..k] + p[k + 1..];
  }

  /** Two index lists with the same elements pick the same multiset of values. */
  lemma {:induction false} PermutedSameMultiset<X>(xs: seq<X>, a: seq<nat>, b: seq<nat>)
    requires multiset(a) == multiset(b)
    requires AllBelow(a, |xs|) && AllBelow(b, |xs|)
    ensures multiset(Permuted(xs, a)) == multiset(Permuted(xs, b))
    decreases |a|
  {
    if |a| == 0 {
      assert |multiset(b)| == 0;
    } else {
      var x := a[0];
      assert x in multiset(b);
      var k :| 0 <= k < |b| && b[k] == x;
      PermutedWithout(xs, a, 0);
      PermutedWithout(xs, b, k);
      PermutedSameMultiset(xs, Without(a, 0), Without(b, k));
    }
  }

  /** Taking the values of `xs` in any permutation order yields the same multiset. */
  lemma PermutedMultiset<X>(xs: seq<X>, order: seq<nat>)
    requires IsPermutationOf(order, |xs|)
    ensures AllBelow(order, |xs|)
    ensures multiset(Permuted(xs, order)) == multiset(xs)
  {
    PermutationBounds(order, |xs|);
    PermutedSameMultiset(xs, order, Range(|xs|));
    assert Permuted(xs, Range(|xs|)) == xs;
  }

  /** No value occurs twice. */
  predicate NoDup<X(==)>(xs: seq<X>) {
    forall i, j :: 0 <= i < j < |xs| ==> xs[i] != xs[j]
  }

  /** The elements of `xs`. */
  function Elems<X(==)>(xs: seq<X>): set<X> {
    set i | 0 <= i < |xs| :: xs[i]
  }

  lemma ElemsSnoc<X>(xs: seq<X>, x: X)
    ensures Elems(xs + [x]) == Elems(xs) + {x}
  {
    var ys := xs + [x];
    forall y | y in Elems(ys) ensures y in Elems(xs) + {x} {
      var i :| 0 <= i < |ys| && ys[i] == y;
      if i < |xs| { assert ys[i] == xs[i]; }
    }
    forall y | y in Elems(xs) ensures y in Elems(ys) {
      var i :| 0 <= i < |xs| && xs[i] == y;
      assert ys[i] == xs[i];
    }
    assert ys[|xs|] == x;
  }

  lemma InElems<X>(xs: seq<X>, x: X)
    ensures x in Elems(xs) <==> x in xs
  {
    if x in xs {
      var i :| 0 <= i < |xs| && xs[i] == x;
    }
  }

  /** The first occurrence of each value, in order: `xs[i]` is kept exactly when it
      does not occur in `xs[:i]`. */
  function Dedup<X(==)>(xs: seq<X>): seq<X>
    decreases |xs|
  {
    if |xs| == 0 then []
    else
      var init := xs[..|xs| - 1];
      Dedup(init) + (if xs[|xs| - 1] in init then [] else [xs[|xs| - 1]])
  }

  /** Deduplication keeps exactly the values of the input, each once. */
  lemma {:induction false} DedupProperties<X>(xs: seq<X>)
    ensures NoDup(Dedup(xs))
    ensures Elems(Dedup(xs)) == Elems(xs)
    ensures |Dedup(xs)| <= |xs|
    decreases |xs|
  {
    if |xs| > 0 {
      var init, x := xs[..|xs| - 1], xs[|xs| - 1];
      DedupProperties(init);
      assert xs == init + [x];
      ElemsSnoc(init, x);
      InElems(init, x);
      if x !in init {
        assert Dedup(xs) == Dedup(init) + [x];
        ElemsSnoc(Dedup(init), x);
        InElems(Dedup(init), x);
      } else {
        assert Dedup(xs) == Dedup(init);
      }
    }
  }

  /** A duplicate-free sequence is its own deduplication. */
  lemma {:induction false} DedupOfNoDup<X>(xs: seq<X>)
    requires NoDup(xs)
    ensures Dedup(xs) == xs
    decreases |xs|
  {
    if |xs| > 0 {
      var init := xs[..|xs| - 1];
      DedupOfNoDup(init);
      assert xs[|xs| - 1] !in init;
      assert xs == init + [xs[|xs| - 1]];
    }
  }
}
