/**
 * The graph stage (scripts/build_knowledge_graph/build_graph_data.py):
 * linked triples are counted per unordered pair of linked entities, and the
 * counts are normalised into edge weights in [0, 1], pruned below a
 * percentile and normalised again.
 *
 * Weights are exact reals; the floating-point rounding of the source is not
 * modelled.
 */
module Graph {
  import opened Base
  import opened Json

  /** Python's `<` on strings: code point by code point, a proper prefix
      first. */
  predicate Less(a: string, b: string) {
    if a == [] then b != []
    else if b == [] then false
    else if a[0] != b[0] then a[0] < b[0]
    else Less(a[1..], b[1..])
  }

  lemma {:induction false} LessTotal(a: string, b: string)
    ensures a != b ==> Less(a, b) || Less(b, a)
    ensures !(Less(a, b) && Less(b, a))
  {
    if a != [] && b != [] && a[0] == b[0] {
      LessTotal(a[1..], b[1..]);
      assert a == [a[0]] + a[1..] && b == [b[0]] + b[1..];
    }
  }

  /** An unordered pair of linked entities, head first. */
  type Key = (string, string)

  /** One linked triple's `linked_head` and `linked_tail`. */
  type Row = (string, string)

  /** `tuple(sorted([h, t]))`. */
  function Ordered(h: string, t: string): (k: (string, string))
    ensures h != t ==> Less(k.0, k.1)
    ensures k == (h, t) || k == (t, h)
  {
    LessTotal(h, t);
    if Less(t, h) then (t, h) else (h, t)
  }

  /** A pair and its reverse count under the same key. */
  lemma {:induction false} OrderedSymmetric(h: string, t: string)
    ensures Ordered(h, t) == Ordered(t, h)
  {
    LessTotal(h, t);
  }

  /** The key of every row that is not a self-loop, in row order. */
  function Pairs(rows: seq<Row>): seq<(string, string)> {
    if rows == [] then []
    else
      var row := rows[|rows| - 1];
      Pairs(rows[..|rows| - 1]) + (if row.0 == row.1 then [] else [Ordered(row.0, row.1)])
  }

  /** The keys in order of first occurrence, as a dict keeps them. */
  function Dedup(ks: seq<Key>): (ds: seq<Key>)
    ensures forall k :: k in ds <==> k in ks
    ensures Distinct(ds)
  {
    if ks == [] then []
    else
      var prev := Dedup(ks[..|ks| - 1]);
      var k := ks[|ks| - 1];
      assert ks == ks[..|ks| - 1] + [k];
      if k in prev then prev else prev + [k]
  }

  /** How many times `k` occurs in `ks`. */
  function Count(ks: seq<Key>, k: Key): nat {
    if ks == [] then 0
    else Count(ks[..|ks| - 1], k) + (if ks[|ks| - 1] == k then 1 else 0)
  }

  /** One aggregated edge: `{"head": ..., "tail": ..., "raw_edge_weight": ...}`. */
  datatype Edge = Edge(head: string, tail: string, weight: nat)

  /** The edge list of `generate_raw_edge_counts` for the given keys. */
  function EdgesOf(ps: seq<(string, string)>): (es: seq<Edge>)
    ensures |es| == |Dedup(ps)|
    ensures forall j :: 0 <= j < |es| ==>
      es[j] == Edge(Dedup(ps)[j].0, Dedup(ps)[j].1, Count(ps, Dedup(ps)[j]))
  {
    var ds := Dedup(ps);
    seq(|ds|, j requires 0 <= j < |ds| => Edge(ds[j].0, ds[j].1, Count(ps, ds[j])))
  }

  /** The loop's dict after the keys `ps`: its keys in insertion order and
      each key's count. */
  ghost predicate Counted(ps: seq<Key>, keys: seq<Key>, counts: map<Key, nat>) {
    && keys == Dedup(ps)
    && (forall k :: k in counts <==> k in keys)
    && (forall k :: k in counts ==> counts[k] == Count(ps, k))
  }

  /** `edge_counts[key] += 1` keeps the dict in step with the keys seen. */
  lemma {:induction false} CountedSnoc(ps: seq<Key>, x: Key, keys: seq<Key>, counts: map<Key, nat>)
    requires Counted(ps, keys, counts)
    ensures x in counts ==> Counted(ps + [x], keys, counts[x := counts[x] + 1])
    ensures x !in counts ==> Counted(ps + [x], keys + [x], counts[x := 1])
  {
    assert (ps + [x])[..|ps|] == ps;
    if x !in counts {
      CountAbsent(ps, x);
    }
  }

  lemma {:induction false} CountedEdges(ps: seq<Key>, keys: seq<Key>, counts: map<Key, nat>)
    requires Counted(ps, keys, counts)
    ensures EdgesOf(ps) == seq(|keys|, j requires 0 <= j < |keys| => Edge(keys[j].0, keys[j].1, counts[keys[j]]))
  {
  }

  /** `generate_raw_edge_counts`: the count loop over a `defaultdict`, then the
      list of edges in the dict's order. */
  method RawEdgeCounts(rows: seq<Row>) returns (edges: seq<Edge>)
    ensures edges == EdgesOf(Pairs(rows))
  {
    var keys: seq<Key> := [];
    var counts: map<Key, nat> := map[];
    for i := 0 to |rows|
      invariant Counted(Pairs(rows[..i]), keys, counts)
    {
      ghost var ps := Pairs(rows[..i]);
      assert rows[..i + 1][..i] == rows[..i];
      var row := rows[i];
      if row.0 != row.1 {
        var key := Ordered(row.0, row.1);
        assert Pairs(rows[..i + 1]) == ps + [key];
        CountedSnoc(ps, key, keys, counts);
        if key in counts {
          counts := counts[key := counts[key] + 1];
        } else {
          keys := keys + [key];
          counts := counts[key := 1];
        }
      } else {
        assert Pairs(rows[..i + 1]) == ps;
      }
    }
    assert rows[..|rows|] == rows;
    CountedEdges(Pairs(rows), keys, counts);
    edges := seq(|keys|, j requires 0 <= j < |keys| => Edge(keys[j].0, keys[j].1, counts[keys[j]]));
  }

  /** The sum of the counts of the given keys. */
  function WeightSum(ps: seq<(string, string)>, keys: seq<(string, string)>): nat {
    if keys == [] then 0
    else WeightSum(ps, keys[..|keys| - 1]) + Count(ps, keys[|keys| - 1])
  }

  function Total(es: seq<Edge>): nat {
    if es == [] then 0 else Total(es[..|es| - 1]) + es[|es| - 1].weight
  }

  /** Every edge has `head < tail`, each unordered pair appears once, with a
      weight equal to its number of rows, and the weights sum to the number of
      rows that are not self-loops. */
  lemma {:induction false} RawEdgeCountsMeaning(rows: seq<Row>)
    ensures var es := EdgesOf(Pairs(rows));
      && (forall j :: 0 <= j < |es| ==> Less(es[j].head, es[j].tail))
      && (forall j, m :: 0 <= j < m < |es| ==> (es[j].head, es[j].tail) != (es[m].head, es[m].tail))
      && (forall h, t :: h != t ==>
            ((exists j :: 0 <= j < |es| && (es[j].head, es[j].tail) == Ordered(h, t)) <==> Ordered(h, t) in Pairs(rows)))
      && (forall j :: 0 <= j < |es| ==> es[j].weight == Count(Pairs(rows), (es[j].head, es[j].tail)) > 0)
      && Total(es) == |Pairs(rows)|
  {
    var ps := Pairs(rows);
    var es := EdgesOf(ps);
    var ds := Dedup(ps);
    PairsOrdered(rows);
    forall j | 0 <= j < |es|
      ensures Count(ps, ds[j]) > 0
    {
      CountPositive(ps, ds[j]);
    }
    forall h, t | h != t
      ensures (exists j :: 0 <= j < |es| && (es[j].head, es[j].tail) == Ordered(h, t)) <==> Ordered(h, t) in ps
    {
      if Ordered(h, t) in ps {
        var j :| 0 <= j < |ds| && ds[j] == Ordered(h, t);
        assert (es[j].head, es[j].tail) == ds[j];
      }
    }
    TotalOfEdges(ps, ds);
    DedupCountsAll(ps);
  }

  lemma {:induction false} PairsOrdered(rows: seq<Row>)
    ensures forall k :: k in Pairs(rows) ==> Less(k.0, k.1)
  {
    if rows != [] {
      PairsOrdered(rows[..|rows| - 1]);
    }
  }

  lemma {:induction false} CountPositive(ks: seq<Key>, k: Key)
    requires k in ks
    ensures Count(ks, k) > 0
  {
    if ks[|ks| - 1] != k {
      assert ks == ks[..|ks| - 1] + [ks[|ks| - 1]];
      CountPositive(ks[..|ks| - 1], k);
    }
  }

  lemma {:induction false} TotalOfEdges(ps: seq<(string, string)>, keys: seq<(string, string)>)
    ensures Total(seq(|keys|, j requires 0 <= j < |keys| => Edge(keys[j].0, keys[j].1, Count(ps, keys[j]))))
         == WeightSum(ps, keys)
  {
    var es := seq(|keys|, j requires 0 <= j < |keys| => Edge(keys[j].0, keys[j].1, Count(ps, keys[j])));
    if keys != [] {
      var init := keys[..|keys| - 1];
      TotalOfEdges(ps, init);
      assert es[..|es| - 1] == seq(|init|, j requires 0 <= j < |init| => Edge(init[j].0, init[j].1, Count(ps, init[j])));
    }
  }

  /** The counts of the distinct keys add up to the number of keys. */
  lemma {:induction false} DedupCountsAll(ps: seq<(string, string)>)
    ensures WeightSum(ps, Dedup(ps)) == |ps|
  {
    if ps != [] {
      var init := ps[..|ps| - 1];
      var x := ps[|ps| - 1];
      assert ps == init + [x];
      DedupCountsAll(init);
      WeightSumSnoc(init, x, Dedup(init));
      if x !in init {
        assert Count(init, x) == 0 by {
          CountAbsent(init, x);
        }
        var d := Dedup(init);
        assert Dedup(ps) == d + [x];
        assert (d + [x])[..|d|] == d;
        assert WeightSum(ps, d + [x]) == WeightSum(ps, d) + Count(ps, x);
      }
    }
  }

  lemma {:induction false} CountAbsent(ks: seq<Key>, k: Key)
    requires k !in ks
    ensures Count(ks, k) == 0
  {
    if ks != [] {
      assert ks[..|ks| - 1] <= ks;
      CountAbsent(ks[..|ks| - 1], k);
    }
  }

  /** One more key adds one to the sum over distinct keys when the key is
      among them, and nothing otherwise. */
  lemma {:induction false} WeightSumSnoc(ps: seq<(string, string)>, x: (string, string), keys: seq<(string, string)>)
    requires Distinct(keys)
    ensures WeightSum(ps + [x], keys) == WeightSum(ps, keys) + (if x in keys then 1 else 0)
  {
    assert (ps + [x])[..|ps|] == ps;
    if keys != [] {
      var init := keys[..|keys| - 1];
      assert Distinct(init);
      WeightSumSnoc(ps, x, init);
      assert x in keys <==> x in init || x == keys[|keys| - 1];
      assert x in init ==> x != keys[|keys| - 1];
    }
  }

  /** The smallest and largest of a non-empty list (`min`, `max`). */
  function Min(ws: seq<real>): (m: real)
    requires ws != []
    ensures m in ws && forall w :: w in ws ==> m <= w
  {
    if |ws| == 1 then ws[0]
    else
      var rest := Min(ws[1..]);
      assert ws == [ws[0]] + ws[1..];
      if ws[0] <= rest then ws[0] else rest
  }

  function Max(ws: seq<real>): (m: real)
    requires ws != []
    ensures m in ws && forall w :: w in ws ==> w <= m
  {
    if |ws| == 1 then ws[0]
    else
      var rest := Max(ws[1..]);
      assert ws == [ws[0]] + ws[1..];
      if ws[0] >= rest then ws[0] else rest
  }

  /** `(w - lo) / (hi - lo)`: a weight between `lo` and `hi` lands in
      [0, 1], `lo` on 0 and `hi` on 1. */
  function Scale(w: real, lo: real, hi: real): (r: real)
    requires lo < hi
    ensures lo <= w <= hi ==> 0.0 <= r <= 1.0
    ensures w == lo ==> r == 0.0
    ensures w == hi ==> r == 1.0
  {
    Divided(w - lo, hi - lo);
    (w - lo) / (hi - lo)
  }

  lemma {:induction false} Divided(x: real, d: real)
    requires d > 0.0
    ensures 0.0 <= x <= d ==> 0.0 <= x / d <= 1.0
    ensures x == 0.0 ==> x / d == 0.0
    ensures x == d ==> x / d == 1.0
  {
  }

  lemma {:induction false} ScaleMonotone(v: real, w: real, lo: real, hi: real)
    requires lo < hi && v <= w
    ensures Scale(v, lo, hi) <= Scale(w, lo, hi)
  {
    DivMonotone(v - lo, w - lo, hi - lo);
  }

  lemma {:induction false} DivMonotone(x: real, y: real, d: real)
    requires x <= y && d > 0.0
    ensures x / d <= y / d
  {
  }

  /** Min-max normalisation: all 1.0 when every weight is equal, otherwise
      `(w - min) / (max - min)`. */
  function Normalize(ws: seq<real>): (rs: seq<real>)
    requires ws != []
    ensures |rs| == |ws|
  {
    var lo, hi := Min(ws), Max(ws);
    if hi == lo then seq(|ws|, _ => 1.0)
    else seq(|ws|, i requires 0 <= i < |ws| => Scale(ws[i], lo, hi))
  }

  /** Normalised weights lie in [0, 1] and keep the order of the weights;
      unless all are equal, the smallest becomes 0 and the largest 1. */
  lemma {:induction false} NormalizeRange(ws: seq<real>)
    requires ws != []
    ensures var rs := Normalize(ws);
      && (forall i :: 0 <= i < |ws| ==> 0.0 <= rs[i] <= 1.0)
      && (forall i, j :: 0 <= i < |ws| && 0 <= j < |ws| && ws[i] <= ws[j] ==> rs[i] <= rs[j])
      && (Min(ws) != Max(ws) ==>
            (exists i :: 0 <= i < |ws| && rs[i] == 0.0) && (exists i :: 0 <= i < |ws| && rs[i] == 1.0))
  {
    var lo, hi := Min(ws), Max(ws);
    var rs := Normalize(ws);
    if hi != lo {
      forall i | 0 <= i < |ws|
        ensures 0.0 <= rs[i] <= 1.0
      {
        assert ws[i] in ws;
      }
      forall i, j | 0 <= i < |ws| && 0 <= j < |ws| && ws[i] <= ws[j]
        ensures rs[i] <= rs[j]
      {
        ScaleMonotone(ws[i], ws[j], lo, hi);
      }
      var a :| 0 <= a < |ws| && ws[a] == lo;
      var b :| 0 <= b < |ws| && ws[b] == hi;
      assert rs[a] == 0.0 && rs[b] == 1.0;
    }
  }

  /** `sorted`, as an insertion sort. */
  function Sort(ws: seq<real>): (ss: seq<real>)
    ensures |ss| == |ws|
    ensures multiset(ss) == multiset(ws)
    ensures Sorted(ss)
  {
    if ws == [] then []
    else
      var init, last := ws[..|ws| - 1], ws[|ws| - 1];
      assert ws == init + [last];
      InsertSorted(Sort(init), last);
      InsertPermutes(Sort(init), last);
      Insert(Sort(init), last)
  }

  predicate Sorted(ss: seq<real>) {
    forall i, j :: 0 <= i < j < |ss| ==> ss[i] <= ss[j]
  }

  function Insert(ss: seq<real>, x: real): (r: seq<real>)
    ensures |r| == |ss| + 1
  {
    if ss == [] then [x]
    else if x <= ss[0] then [x] + ss
    else [ss[0]] + Insert(ss[1..], x)
  }

  lemma {:induction false} InsertPermutes(ss: seq<real>, x: real)
    ensures multiset(Insert(ss, x)) == multiset(ss) + multiset{x}
  {
    if ss != [] && x > ss[0] {
      var rest := Insert(ss[1..], x);
      assert multiset(rest) == multiset(ss[1..]) + multiset{x} by {
        InsertPermutes(ss[1..], x);
      }
      assert multiset(ss) == multiset{ss[0]} + multiset(ss[1..]) by {
        assert ss == [ss[0]] + ss[1..];
      }
      assert multiset(Insert(ss, x)) == multiset{ss[0]} + multiset(rest) by {
        assert Insert(ss, x) == [ss[0]] + rest;
      }
    }
  }

  lemma {:induction false} InsertSorted(ss: seq<real>, x: real)
    requires Sorted(ss)
    ensures Sorted(Insert(ss, x))
  {
    if ss != [] && x > ss[0] {
      var rest := Insert(ss[1..], x);
      assert Sorted(rest) by {
        InsertSorted(ss[1..], x);
      }
      assert forall k :: 0 <= k < |rest| ==> ss[0] <= rest[k] by {
        InsertAbove(ss[1..], x, ss[0]);
      }
      var r := [ss[0]] + rest;
      assert Insert(ss, x) == r;
      forall i, j | 0 <= i < j < |r|
        ensures r[i] <= r[j]
      {
        if i > 0 {
          assert r[i] == rest[i - 1] && r[j] == rest[j - 1];
        }
      }
    }
  }

  lemma {:induction false} InsertAbove(ss: seq<real>, x: real, lo: real)
    requires lo <= x && forall k :: 0 <= k < |ss| ==> lo <= ss[k]
    ensures forall k :: 0 <= k < |ss| + 1 ==> lo <= Insert(ss, x)[k]
  {
    if ss != [] && x > ss[0] {
      InsertAbove(ss[1..], x, lo);
      var rest := Insert(ss[1..], x);
      assert forall k :: 0 <= k < |ss| + 1 ==> Insert(ss, x)[k] == if k == 0 then ss[0] else rest[k - 1];
    }
  }

  /** How many weights are at most `c`. */
  function AtMost(ws: seq<real>, c: real): nat {
    if ws == [] then 0
    else AtMost(ws[..|ws| - 1], c) + (if ws[|ws| - 1] <= c then 1 else 0)
  }

  lemma {:induction false} AtMostPermutation(a: seq<real>, b: seq<real>, c: real)
    requires multiset(a) == multiset(b)
    ensures AtMost(a, c) == AtMost(b, c)
    decreases |a|
  {
    if a != [] {
      var n := |a| - 1;
      assert a[n] in multiset(b);
      var k :| 0 <= k < |b| && b[k] == a[n];
      assert multiset(a[..n] + a[n + 1..]) == multiset(b[..k] + b[k + 1..]) by {
        MultisetRemove(a, n);
        MultisetRemove(b, k);
      }
      AtMostPermutation(a[..n] + a[n + 1..], b[..k] + b[k + 1..], c);
      AtMostRemove(a, n, c);
      AtMostRemove(b, k, c);
    }
  }

  lemma {:induction false} MultisetRemove(s: seq<real>, k: nat)
    requires k < |s|
    ensures multiset(s[..k] + s[k + 1..]) == multiset(s) - multiset{s[k]}
  {
    assert s == s[..k] + [s[k]] + s[k + 1..];
  }

  lemma {:induction false} AtMostRemove(b: seq<real>, k: nat, c: real)
    requires k < |b|
    ensures AtMost(b, c) == AtMost(b[..k] + b[k + 1..], c) + (if b[k] <= c then 1 else 0)
  {
    var rest := b[..k] + b[k + 1..];
    if k < |b| - 1 {
      var init := b[..|b| - 1];
      AtMostRemove(init, k, c);
      assert init[..k] == b[..k] && init[k + 1..] == b[k + 1..|b| - 1];
      assert rest == (b[..k] + b[k + 1..|b| - 1]) + [b[|b| - 1]];
      assert rest[..|rest| - 1] == init[..k] + init[k + 1..];
    } else {
      assert rest == b[..|b| - 1];
    }
  }

  /** In a sorted list, the element at `i` has at least `i + 1` elements at
      most itself. */
  lemma {:induction false} AtMostSorted(ss: seq<real>, i: nat)
    requires Sorted(ss) && i < |ss|
    ensures AtMost(ss, ss[i]) >= i + 1
  {
    AtMostPrefix(ss, i + 1, ss[i]);
  }

  lemma {:induction false} AtMostPrefix(ss: seq<real>, n: nat, c: real)
    requires n <= |ss| && forall j :: 0 <= j < n ==> ss[j] <= c
    ensures AtMost(ss, c) >= n
  {
    if ss != [] {
      if n == |ss| {
        AtMostPrefix(ss[..|ss| - 1], n - 1, c);
      } else {
        AtMostPrefix(ss[..|ss| - 1], n, c);
      }
    }
  }

  /** An edge with its first normalised weight. */
  type Scored = (Edge, real)

  /** The edges whose normalised weight is above the cutoff, in order. */
  function Above(es: seq<Scored>, cutoff: real): (r: seq<Scored>)
    ensures |r| <= |es|
  {
    if es == [] then []
    else Above(es[..|es| - 1], cutoff) + (if es[|es| - 1].1 > cutoff then [es[|es| - 1]] else [])
  }

  /** An edge survives exactly when its normalised weight is strictly above
      the cutoff. */
  lemma {:induction false} AboveExactly(es: seq<Scored>, cutoff: real)
    ensures forall x :: x in Above(es, cutoff) <==> x in es && x.1 > cutoff
  {
    if es != [] {
      var init, last := es[..|es| - 1], es[|es| - 1];
      AboveExactly(init, cutoff);
      assert es == init + [last];
    }
  }

  lemma {:induction false} AboveCount(es: seq<Scored>, cutoff: real)
    ensures |Above(es, cutoff)| + AtMost(Weights(es), cutoff) == |es|
  {
    if es != [] {
      AboveCount(es[..|es| - 1], cutoff);
      assert Weights(es[..|es| - 1]) == Weights(es)[..|es| - 1];
    }
  }

  function Weights(es: seq<Scored>): (ws: seq<real>)
    ensures |ws| == |es| && forall i :: 0 <= i < |es| ==> ws[i] == es[i].1
  {
    seq(|es|, i requires 0 <= i < |es| => es[i].1)
  }

  function RawWeights(es: seq<Edge>): (ws: seq<real>)
    ensures |ws| == |es| && forall i :: 0 <= i < |es| ==> ws[i] == es[i].weight as real
  {
    seq(|es|, i requires 0 <= i < |es| => es[i].weight as real)
  }

  function Zip(es: seq<Edge>, ws: seq<real>): (r: seq<Scored>)
    requires |es| == |ws|
    ensures |r| == |es| && forall i :: 0 <= i < |es| ==> r[i] == (es[i], ws[i])
  {
    seq(|es|, i requires 0 <= i < |es| => (es[i], ws[i]))
  }

  /** One output edge: `{"head": ..., "tail": ..., "edge weight": ...}`. */
  datatype WeightedEdge = WeightedEdge(head: string, tail: string, weight: real)

  /** How `normalize_edges` ends: the edges, `min` of an empty list, or an
      index past the end of the sorted weights. */
  datatype Normalization = Normalized(edges: seq<WeightedEdge>) | EmptyInput | CutoffOutOfRange

  /** `int(len * percent / 100)` for a positive percentage: the product is a
      whole number, so the float division truncates to the integer
      quotient. */
  function CutoffIndex(n: nat, percent: int): nat
    requires percent > 0
  {
    n * percent / 100
  }

  /** The cutoff index reaches the end of a non-empty list exactly from 100
      percent on. */
  lemma {:induction false} CutoffIndexInRange(n: nat, percent: int)
    requires percent > 0 && n > 0
    ensures CutoffIndex(n, percent) < n <==> percent < 100
  {
    if percent >= 100 {
      assert n * percent >= n * 100;
    } else {
      assert n * percent < n * 100;
    }
  }

  /** The edges that survive the pruning of the bottom `percent` percent:
      those strictly above the weight at the cutoff index of the sorted
      weights; all of them when `percent` is not positive. */
  function Survivors(scored: seq<Scored>, percent: int): Option<seq<Scored>> {
    if percent <= 0 then Some(scored)
    else
      var idx := CutoffIndex(|scored|, percent);
      if idx >= |scored| then None
      else Some(Above(scored, Sort(Weights(scored))[idx]))
  }

  /** The renormalised output edges of the survivors. */
  function Renormalized(kept: seq<Scored>): (r: seq<WeightedEdge>)
    ensures |r| == |kept|
  {
    if kept == [] then []
    else
      var rs := Normalize(Weights(kept));
      seq(|kept|, i requires 0 <= i < |kept| => WeightedEdge(kept[i].0.head, kept[i].0.tail, rs[i]))
  }

  /** `normalize_edges(edges, percent)`. */
  function NormalizeSpec(edges: seq<Edge>, percent: int): Normalization {
    if edges == [] then EmptyInput
    else
      match Survivors(Zip(edges, Normalize(RawWeights(edges))), percent)
      case None => CutoffOutOfRange
      case Some(kept) => Normalized(Renormalized(kept))
  }

  /** `normalize_edges`: the weights attached to copies of the edges, the
      filter on the cutoff, and the key replacement on the survivors. */
  method NormalizeEdges(edges: seq<Edge>, percent: int) returns (r: Normalization)
    ensures r == NormalizeSpec(edges, percent)
  {
    if edges == [] {
      return EmptyInput;
    }
    var scored := Zip(edges, Normalize(RawWeights(edges)));
    var kept := scored;
    if percent > 0 {
      var idx := CutoffIndex(|scored|, percent);
      if idx >= |scored| {
        return CutoffOutOfRange;
      }
      kept := KeepAbove(scored, Sort(Weights(scored))[idx]);
    }
    var out := Renormalize(kept);
    r := Normalized(out);
  }

  /** `[e for e in kg_data if e['_normalized'] > threshold]`. */
  method KeepAbove(scored: seq<Scored>, cutoff: real) returns (kept: seq<Scored>)
    ensures kept == Above(scored, cutoff)
  {
    kept := [];
    for i := 0 to |scored|
      invariant kept == Above(scored[..i], cutoff)
    {
      assert scored[..i + 1][..i] == scored[..i];
      if scored[i].1 > cutoff {
        kept := kept + [scored[i]];
      }
    }
    assert scored[..|scored|] == scored;
  }

  /** The second normalisation: each survivor gets its `edge weight` and
      loses the intermediate keys. */
  method Renormalize(kept: seq<Scored>) returns (out: seq<WeightedEdge>)
    ensures out == Renormalized(kept)
  {
    out := [];
    if kept != [] {
      var rs := Normalize(Weights(kept));
      for i := 0 to |kept|
        invariant |out| == i
        invariant forall j :: 0 <= j < i ==> out[j] == WeightedEdge(kept[j].0.head, kept[j].0.tail, rs[j])
      {
        out := out + [WeightedEdge(kept[i].0.head, kept[i].0.tail, rs[i])];
      }
    }
  }

  /** `normalize_edges` fails exactly on an empty list and, for a positive
      percentage, when the cutoff index reaches the end, i.e. from 100
      percent on. */
  lemma {:induction false} NormalizeFails(edges: seq<Edge>, percent: int)
    ensures NormalizeSpec(edges, percent).EmptyInput? <==> edges == []
    ensures NormalizeSpec(edges, percent).CutoffOutOfRange? <==> edges != [] && percent >= 100
  {
    if edges != [] && percent > 0 {
      CutoffIndexInRange(|edges|, percent);
    }
  }

  /** Every output weight lies in [0, 1]; with no positive percentage every
      edge is kept, and otherwise at least `cutoff index + 1` edges are
      removed (the edge at the cutoff never survives). */
  lemma {:induction false} NormalizeMeaning(edges: seq<Edge>, percent: int)
    requires NormalizeSpec(edges, percent).Normalized?
    ensures var out := NormalizeSpec(edges, percent).edges;
      && (forall i :: 0 <= i < |out| ==> 0.0 <= out[i].weight <= 1.0)
      && (percent <= 0 ==> |out| == |edges|)
      && (percent > 0 ==> |out| + CutoffIndex(|edges|, percent) + 1 <= |edges|)
  {
    var scored := Zip(edges, Normalize(RawWeights(edges)));
    var kept := Survivors(scored, percent).value;
    RenormalizedRange(kept);
    if percent > 0 {
      AboveCutoff(scored, CutoffIndex(|scored|, percent));
    }
  }

  lemma {:induction false} RenormalizedRange(kept: seq<Scored>)
    ensures forall i :: 0 <= i < |kept| ==> 0.0 <= Renormalized(kept)[i].weight <= 1.0
  {
    if kept != [] {
      NormalizeRange(Weights(kept));
    }
  }

  /** Pruning at index `idx` of the sorted weights removes at least
      `idx + 1` edges. */
  lemma {:induction false} AboveCutoff(scored: seq<Scored>, idx: nat)
    requires idx < |scored|
    ensures |Above(scored, Sort(Weights(scored))[idx])| + idx + 1 <= |scored|
  {
    var sorted := Sort(Weights(scored));
    var cutoff := sorted[idx];
    AboveCount(scored, cutoff);
    AtMostPermutation(sorted, Weights(scored), cutoff);
    AtMostSorted(sorted, idx);
  }

  /** `out` is the edges of `edges` at the increasing positions `idx`, with
      the same heads and tails, and the weights rank as the raw weights did:
      a raw weight at most another's never gets the larger output weight. */
  ghost predicate Embeds(edges: seq<Edge>, out: seq<WeightedEdge>, idx: seq<nat>) {
    && |idx| == |out|
    && (forall k :: 0 <= k < |idx| ==>
          idx[k] < |edges| && out[k].head == edges[idx[k]].head && out[k].tail == edges[idx[k]].tail)
    && (forall k, m :: 0 <= k < m < |idx| ==> idx[k] < idx[m])
    && (forall k, m :: 0 <= k < |idx| && 0 <= m < |idx| && edges[idx[k]].weight <= edges[idx[m]].weight ==>
          out[k].weight <= out[m].weight)
  }

  /** The output is a subsequence of the input edges, in their order, and
      every kept edge ranks as it did. */
  lemma {:induction false} NormalizeKeepsOrder(edges: seq<Edge>, percent: int)
    requires NormalizeSpec(edges, percent).Normalized?
    ensures exists idx :: Embeds(edges, NormalizeSpec(edges, percent).edges, idx)
  {
    var scored := Zip(edges, Normalize(RawWeights(edges)));
    var kept := Survivors(scored, percent).value;
    var out := Renormalized(kept);
    assert NormalizeSpec(edges, percent).edges == out;
    var idx := SurvivorIndices(scored, percent);
    assert Embeds(edges, out, idx) by {
      KeptEmbeds(edges, kept, idx);
    }
  }

  lemma {:induction false} KeptEmbeds(edges: seq<Edge>, kept: seq<Scored>, idx: seq<nat>)
    requires edges != [] && |idx| == |kept|
    requires forall k :: 0 <= k < |idx| ==> idx[k] < |edges| && kept[k] == Zip(edges, Normalize(RawWeights(edges)))[idx[k]]
    requires forall k, m :: 0 <= k < m < |idx| ==> idx[k] < idx[m]
    ensures Embeds(edges, Renormalized(kept), idx)
  {
    var out := Renormalized(kept);
    forall k | 0 <= k < |idx|
      ensures out[k].head == edges[idx[k]].head && out[k].tail == edges[idx[k]].tail
    {
      assert kept[k].0 == edges[idx[k]];
    }
    forall k, m | 0 <= k < |idx| && 0 <= m < |idx| && edges[idx[k]].weight <= edges[idx[m]].weight
      ensures out[k].weight <= out[m].weight
    {
      KeptRank(edges, kept, idx, k, m);
    }
  }

  /** A raw weight at most another's keeps its rank through both
      normalisations. */
  lemma {:induction false} KeptRank(edges: seq<Edge>, kept: seq<Scored>, idx: seq<nat>, i: nat, j: nat)
    requires edges != []
    requires |idx| == |kept| && i < |kept| && j < |kept|
    requires forall k :: 0 <= k < |idx| ==> idx[k] < |edges| && kept[k] == Zip(edges, Normalize(RawWeights(edges)))[idx[k]]
    requires edges[idx[i]].weight <= edges[idx[j]].weight
    ensures Renormalized(kept)[i].weight <= Renormalized(kept)[j].weight
  {
    var ws := Normalize(RawWeights(edges));
    var a, b := idx[i], idx[j];
    assert ws[a] <= ws[b] by {
      NormalizeMonotone(RawWeights(edges), a, b);
    }
    assert Weights(kept)[i] == ws[a] && Weights(kept)[j] == ws[b];
    NormalizeMonotone(Weights(kept), i, j);
  }

  lemma {:induction false} NormalizeMonotone(ws: seq<real>, i: nat, j: nat)
    requires i < |ws| && j < |ws| && ws[i] <= ws[j]
    ensures Normalize(ws)[i] <= Normalize(ws)[j]
  {
    if Min(ws) != Max(ws) {
      ScaleMonotone(ws[i], ws[j], Min(ws), Max(ws));
    }
  }

  /** The positions in the input of the surviving edges, increasing. */
  lemma {:induction false} SurvivorIndices(scored: seq<Scored>, percent: int) returns (idx: seq<nat>)
    requires Survivors(scored, percent).Some?
    ensures var kept := Survivors(scored, percent).value;
      && |idx| == |kept|
      && (forall i :: 0 <= i < |idx| ==> idx[i] < |scored| && kept[i] == scored[idx[i]])
      && (forall i, j :: 0 <= i < j < |idx| ==> idx[i] < idx[j])
  {
    if percent <= 0 {
      idx := seq(|scored|, i requires 0 <= i < |scored| => i);
    } else {
      idx := AboveIndices(scored, Sort(Weights(scored))[CutoffIndex(|scored|, percent)]);
    }
  }

  lemma {:induction false} AboveIndices(scored: seq<Scored>, cutoff: real) returns (idx: seq<nat>)
    ensures var kept := Above(scored, cutoff);
      && |idx| == |kept|
      && (forall i :: 0 <= i < |idx| ==> idx[i] < |scored| && kept[i] == scored[idx[i]])
      && (forall i, j :: 0 <= i < j < |idx| ==> idx[i] < idx[j])
  {
    if scored == [] {
      idx := [];
    } else {
      var init := scored[..|scored| - 1];
      var prev := AboveIndices(init, cutoff);
      if scored[|scored| - 1].1 > cutoff {
        idx := prev + [|scored| - 1];
      } else {
        idx := prev;
      }
    }
  }

  /** (A, B) and (B, A) make one edge of weight 2; a self-loop makes none. */
  lemma {:induction false} SwappedPairExample()
    ensures EdgesOf(Pairs([("A", "B"), ("B", "A"), ("C", "C")])) == [Edge("A", "B", 2)]
  {
    var rows := [("A", "B"), ("B", "A"), ("C", "C")];
    assert Less("A", "B");
    assert Ordered("A", "B") == ("A", "B") && Ordered("B", "A") == ("A", "B");
    assert rows[..2][..1] == [("A", "B")];
    assert Pairs(rows[..2][..1]) == [("A", "B")];
    assert Pairs(rows[..2]) == [("A", "B"), ("A", "B")];
    assert Pairs(rows) == [("A", "B"), ("A", "B")];
    var ps := [("A", "B"), ("A", "B")];
    assert ps[..1] == [("A", "B")];
    assert Dedup(ps) == [("A", "B")];
    assert Count(ps, ("A", "B")) == 2;
  }

  /** Three edges with raw weights 10, 1 and 5, pruned at 0 percent: all stay,
      with weights 1, 0 and 4/9. */
  lemma {:induction false} ThreeEdgesUnpruned()
    ensures NormalizeSpec([Edge("a", "b", 10), Edge("a", "c", 1), Edge("b", "c", 5)], 0)
         == Normalized([WeightedEdge("a", "b", 1.0), WeightedEdge("a", "c", 0.0), WeightedEdge("b", "c", 4.0 / 9.0)])
  {
    ThreeEdgesScored();
    ThreeEdgesRenormalized();
  }

  /** The same edges pruned at 50 percent: the cutoff is the middle sorted
      weight 4/9, and only the edge of weight 1 survives, renormalised to 1. */
  lemma {:induction false} ThreeEdgesPruned()
    ensures NormalizeSpec([Edge("a", "b", 10), Edge("a", "c", 1), Edge("b", "c", 5)], 50) == Normalized([WeightedEdge("a", "b", 1.0)])
  {
    ThreeEdgesScored();
    ThreeEdgesCutoff();
    assert Weights([(Edge("a", "b", 10), 1.0)]) == [1.0];
  }

  lemma {:induction false} ThreeEdgesScored()
    ensures Zip([Edge("a", "b", 10), Edge("a", "c", 1), Edge("b", "c", 5)], Normalize(RawWeights([Edge("a", "b", 10), Edge("a", "c", 1), Edge("b", "c", 5)]))) == [(Edge("a", "b", 10), 1.0), (Edge("a", "c", 1), 0.0), (Edge("b", "c", 5), 4.0 / 9.0)]
  {
    assert RawWeights([Edge("a", "b", 10), Edge("a", "c", 1), Edge("b", "c", 5)]) == [10.0, 1.0, 5.0];
    FirstNormalizationExample();
  }

  lemma {:induction false} ThreeEdgesRenormalized()
    ensures Renormalized([(Edge("a", "b", 10), 1.0), (Edge("a", "c", 1), 0.0), (Edge("b", "c", 5), 4.0 / 9.0)])
         == [WeightedEdge("a", "b", 1.0), WeightedEdge("a", "c", 0.0), WeightedEdge("b", "c", 4.0 / 9.0)]
  {
    var scored := [(Edge("a", "b", 10), 1.0), (Edge("a", "c", 1), 0.0), (Edge("b", "c", 5), 4.0 / 9.0)];
    var out := Renormalized(scored);
    assert out[0] == WeightedEdge("a", "b", 1.0) && out[1] == WeightedEdge("a", "c", 0.0)
        && out[2] == WeightedEdge("b", "c", 4.0 / 9.0) by {
      assert Weights(scored) == [1.0, 0.0, 4.0 / 9.0];
      SecondNormalizationExample();
    }
    ThreeElements(out);
  }

  lemma {:induction false} ThreeElements<T>(s: seq<T>)
    requires |s| == 3
    ensures s == [s[0], s[1], s[2]]
  {
  }

  lemma {:induction false} ThreeEdgesCutoff()
    ensures Survivors([(Edge("a", "b", 10), 1.0), (Edge("a", "c", 1), 0.0), (Edge("b", "c", 5), 4.0 / 9.0)], 50) == Some([(Edge("a", "b", 10), 1.0)])
  {
    var scored := [(Edge("a", "b", 10), 1.0), (Edge("a", "c", 1), 0.0), (Edge("b", "c", 5), 4.0 / 9.0)];
    assert Sort(Weights(scored))[CutoffIndex(|scored|, 50)] == 4.0 / 9.0 by {
      assert Weights(scored) == [1.0, 0.0, 4.0 / 9.0];
      assert CutoffIndex(3, 50) == 1;
      SortExample();
    }
    ThreeEdgesAbove();
  }

  lemma {:induction false} ThreeEdgesAbove()
    ensures Above([(Edge("a", "b", 10), 1.0), (Edge("a", "c", 1), 0.0), (Edge("b", "c", 5), 4.0 / 9.0)], 4.0 / 9.0) == [(Edge("a", "b", 10), 1.0)]
  {
    var scored := [(Edge("a", "b", 10), 1.0), (Edge("a", "c", 1), 0.0), (Edge("b", "c", 5), 4.0 / 9.0)];
    assert scored[..2][..1] == [scored[0]];
    assert Above(scored[..2][..1], 4.0 / 9.0) == [scored[0]];
    assert Above(scored[..2], 4.0 / 9.0) == [scored[0]];
  }

  lemma {:induction false} FirstNormalizationExample()
    ensures Normalize([10.0, 1.0, 5.0]) == [1.0, 0.0, 4.0 / 9.0]
  {
    var raw := [10.0, 1.0, 5.0];
    assert raw[1..] == [1.0, 5.0] && raw[1..][1..] == [5.0];
    assert Min(raw[1..]) == 1.0 && Max(raw[1..]) == 5.0;
    assert Min(raw) == 1.0 && Max(raw) == 10.0;
  }

  lemma {:induction false} SecondNormalizationExample()
    ensures Normalize([1.0, 0.0, 4.0 / 9.0]) == [1.0, 0.0, 4.0 / 9.0]
  {
    var ws := [1.0, 0.0, 4.0 / 9.0];
    assert ws[1..] == [0.0, 4.0 / 9.0] && ws[1..][1..] == [4.0 / 9.0];
    assert Min(ws[1..]) == 0.0 && Max(ws[1..]) == 4.0 / 9.0;
    assert Min(ws) == 0.0 && Max(ws) == 1.0;
  }

  lemma {:induction false} SortExample()
    ensures Sort([1.0, 0.0, 4.0 / 9.0]) == [0.0, 4.0 / 9.0, 1.0]
  {
    var ws := [1.0, 0.0, 4.0 / 9.0];
    assert ws[..2] == [1.0, 0.0] && ws[..2][..1] == [1.0];
    assert Sort([1.0]) == [1.0] by {
      assert [1.0][..0] == [];
    }
    assert Sort(ws[..2]) == [0.0, 1.0];
    assert Insert([1.0], 4.0 / 9.0) == [4.0 / 9.0, 1.0];
    assert Insert([0.0, 1.0], 4.0 / 9.0) == [0.0, 4.0 / 9.0, 1.0];
  }
}
