/**
  Choosing the answer from the similarity scores: the four frames most
  similar to the object, put back in time order; one score per option,
  summed over those frames; and the first option with the largest score.
 */
module Selection {
  import opened Wrappers

  // ---------------------------------------------------------------------
  // torch.sort: ascending order of the chosen frame indices
  // ---------------------------------------------------------------------

  predicate Ascending(xs: seq<nat>) {
    forall i, j :: 0 <= i < j < |xs| ==> xs[i] <= xs[j]
  }

  function InsertAscending(x: nat, xs: seq<nat>): seq<nat> {
    if xs == [] then [x]
    else if x <= xs[0] then [x] + xs
    else [xs[0]] + InsertAscending(x, xs[1..])
  }

  /** Inserting adds exactly one `x`. */
  lemma {:induction false} InsertAscendingCount(x: nat, xs: seq<nat>)
    ensures multiset(InsertAscending(x, xs)) == multiset(xs) + multiset{x}
  {
    if xs != [] && x > xs[0] {
      var rest := InsertAscending(x, xs[1..]);
      InsertAscendingCount(x, xs[1..]);
      assert multiset([xs[0]] + rest) == multiset{xs[0]} + multiset(rest);
      MultisetCons(xs);
    }
  }

  /** A non-empty sequence counts its head once more than its tail does. */
  lemma MultisetCons(xs: seq<nat>)
    requires xs != []
    ensures multiset(xs) == multiset{xs[0]} + multiset(xs[1..])
    ensures multiset(xs[1..]) == multiset(xs) - multiset{xs[0]}
  {
    assert xs == [xs[0]] + xs[1..];
  }

  /** Every element after inserting is `x` or was already there. */
  lemma {:induction false} InsertAscendingFrom(x: nat, xs: seq<nat>)
    ensures forall k :: 0 <= k < |InsertAscending(x, xs)| ==>
      InsertAscending(x, xs)[k] == x || InsertAscending(x, xs)[k] in xs
  {
    if xs != [] && x > xs[0] {
      InsertAscendingFrom(x, xs[1..]);
    }
  }

  /** An element no larger than any of an ascending sequence can go in front. */
  lemma AscendingCons(y: nat, ys: seq<nat>)
    requires Ascending(ys) && forall k :: 0 <= k < |ys| ==> y <= ys[k]
    ensures Ascending([y] + ys)
  {
    var r := [y] + ys;
    forall i, j | 0 <= i < j < |r| ensures r[i] <= r[j] {
      assert r[j] == ys[j - 1];
      if i > 0 {
        assert r[i] == ys[i - 1];
      }
    }
  }

  /** Inserting into an ascending sequence keeps it ascending and adds exactly `x`. */
  lemma {:induction false} InsertAscendingSpec(x: nat, xs: seq<nat>)
    requires Ascending(xs)
    ensures Ascending(InsertAscending(x, xs))
    ensures multiset(InsertAscending(x, xs)) == multiset(xs) + multiset{x}
  {
    InsertAscendingCount(x, xs);
    if xs != [] && x <= xs[0] {
      AscendingCons(x, xs);
    } else if xs != [] {
      var tail := xs[1..];
      var rest := InsertAscending(x, tail);
      InsertAscendingSpec(x, tail);
      InsertAscendingFrom(x, tail);
      forall k | 0 <= k < |rest| ensures xs[0] <= rest[k] {
        if rest[k] != x {
          var m :| 0 <= m < |tail| && tail[m] == rest[k];
          assert tail[m] == xs[m + 1];
        }
      }
      AscendingCons(xs[0], rest);
    }
  }

  /** `torch.sort(xs).values` */
  function SortAscending(xs: seq<nat>): seq<nat> {
    if xs == [] then [] else InsertAscending(xs[0], SortAscending(xs[1..]))
  }

  /** Sorting gives the same elements, ascending. */
  lemma {:induction false} SortAscendingSpec(xs: seq<nat>)
    ensures Ascending(SortAscending(xs)) && multiset(SortAscending(xs)) == multiset(xs)
  {
    if xs != [] {
      SortAscendingSpec(xs[1..]);
      InsertAscendingSpec(xs[0], SortAscending(xs[1..]));
      assert xs == [xs[0]] + xs[1..];
    }
  }

  /** The least element of an ascending sequence comes first. */
  lemma AscendingHead(xs: seq<nat>, x: nat)
    requires Ascending(xs) && x in multiset(xs)
    ensures xs[0] <= x
  {
    var k :| 0 <= k < |xs| && xs[k] == x;
  }

  /**
    An ascending order is determined by its elements: whatever order
    `torch.topk` returns the chosen frames in, sorting gives the same rows.
   */
  lemma {:induction false} AscendingUnique(a: seq<nat>, b: seq<nat>)
    requires Ascending(a) && Ascending(b) && multiset(a) == multiset(b)
    ensures a == b
  {
    if a != [] {
      SameHead(a, b);
      MultisetCons(a);
      MultisetCons(b);
      AscendingTail(a);
      AscendingTail(b);
      AscendingUnique(a[1..], b[1..]);
      assert a == [a[0]] + a[1..] && b == [b[0]] + b[1..];
    } else {
      assert |b| == |multiset(b)| == 0;
    }
  }

  /** Ascending sequences with the same elements start with the same one. */
  lemma SameHead(a: seq<nat>, b: seq<nat>)
    requires Ascending(a) && Ascending(b) && multiset(a) == multiset(b) && a != []
    ensures b != [] && a[0] == b[0]
  {
    assert a[0] in multiset(a);
    assert b[0] in multiset(b);
    AscendingHead(a, b[0]);
    AscendingHead(b, a[0]);
  }

  lemma AscendingTail(xs: seq<nat>)
    requires Ascending(xs) && xs != []
    ensures Ascending(xs[1..])
  {
    forall i, j | 0 <= i < j < |xs| - 1 ensures xs[1..][i] <= xs[1..][j] {
      assert xs[1..][i] == xs[i + 1] && xs[1..][j] == xs[j + 1];
    }
  }

  /** Distinct elements in ascending order are strictly increasing. */
  lemma AscendingDistinct(xs: seq<nat>, ys: seq<nat>)
    requires Distinct(xs) && multiset(ys) == multiset(xs) && Ascending(ys)
    ensures forall i, j :: 0 <= i < j < |ys| ==> ys[i] < ys[j]
  {
    MultisetDistinct(xs, ys);
  }

  /** A sequence with the elements of a distinct one is distinct. */
  lemma MultisetDistinct(xs: seq<nat>, ys: seq<nat>)
    requires Distinct(xs) && multiset(ys) == multiset(xs)
    ensures Distinct(ys)
  {
    forall v ensures multiset(xs)[v] <= 1 {
      CountAtMostOne(xs, v);
    }
    forall i, j | 0 <= i < j < |ys| ensures ys[i] != ys[j] {
      TwoPlaces(ys, i, j);
    }
  }

  lemma {:induction false} CountAtMostOne(xs: seq<nat>, v: nat)
    requires Distinct(xs)
    ensures multiset(xs)[v] <= 1
  {
    if xs != [] {
      assert xs == [xs[0]] + xs[1..];
      CountAtMostOne(xs[1..], v);
      if xs[0] == v {
        assert v !in xs[1..];
      }
    }
  }

  /** Two places holding the same value count it twice. */
  lemma TwoPlaces(ys: seq<nat>, i: nat, j: nat)
    requires i < j < |ys|
    ensures ys[i] == ys[j] ==> multiset(ys)[ys[i]] >= 2
  {
    assert ys == ys[..j] + ys[j..];
    assert ys[i] in ys[..j] && ys[j] in ys[j..];
  }

  // ---------------------------------------------------------------------
  // torch.topk: the k largest values
  // ---------------------------------------------------------------------

  predicate InRange(keys: seq<real>, idx: seq<nat>) {
    forall t :: 0 <= t < |idx| ==> idx[t] < |keys|
  }

  predicate Descending(keys: seq<real>, idx: seq<nat>)
    requires InRange(keys, idx)
  {
    forall i, j :: 0 <= i < j < |idx| ==> keys[idx[i]] >= keys[idx[j]]
  }

  function InsertDescending(keys: seq<real>, x: nat, idx: seq<nat>): seq<nat>
    requires x < |keys| && InRange(keys, idx)
  {
    if idx == [] then [x]
    else if keys[x] >= keys[idx[0]] then [x] + idx
    else [idx[0]] + InsertDescending(keys, x, idx[1..])
  }

  /** Inserting by key adds exactly one `x`. */
  lemma {:induction false} InsertDescendingCount(keys: seq<real>, x: nat, idx: seq<nat>)
    requires x < |keys| && InRange(keys, idx)
    ensures multiset(InsertDescending(keys, x, idx)) == multiset(idx) + multiset{x}
  {
    if idx != [] && keys[x] < keys[idx[0]] {
      InsertDescendingCount(keys, x, idx[1..]);
      assert idx == [idx[0]] + idx[1..];
    }
  }

  /** Every index after inserting is `x` or was already there. */
  lemma {:induction false} InsertDescendingFrom(keys: seq<real>, x: nat, idx: seq<nat>)
    requires x < |keys| && InRange(keys, idx)
    ensures forall k :: 0 <= k < |InsertDescending(keys, x, idx)| ==>
      InsertDescending(keys, x, idx)[k] == x || InsertDescending(keys, x, idx)[k] in idx
  {
    if idx != [] && keys[x] < keys[idx[0]] {
      InsertDescendingFrom(keys, x, idx[1..]);
    }
  }

  /** An index whose key is at least every other key can go in front. */
  lemma DescendingCons(keys: seq<real>, y: nat, ys: seq<nat>)
    requires y < |keys| && InRange(keys, ys) && Descending(keys, ys)
    requires forall k :: 0 <= k < |ys| ==> keys[y] >= keys[ys[k]]
    ensures InRange(keys, [y] + ys) && Descending(keys, [y] + ys)
  {
    var r := [y] + ys;
    assert InRange(keys, r) by {
      forall t | 0 <= t < |r| ensures r[t] < |keys| {
        if t > 0 {
          assert r[t] == ys[t - 1];
        }
      }
    }
    forall i, j | 0 <= i < j < |r| ensures keys[r[i]] >= keys[r[j]] {
      assert r[j] == ys[j - 1];
      if i > 0 {
        assert r[i] == ys[i - 1];
      }
    }
  }

  /** Inserting by key keeps the keys decreasing and adds exactly `x`. */
  lemma {:induction false} InsertDescendingSpec(keys: seq<real>, x: nat, idx: seq<nat>)
    requires x < |keys| && InRange(keys, idx) && Descending(keys, idx)
    ensures multiset(InsertDescending(keys, x, idx)) == multiset(idx) + multiset{x}
    ensures InRange(keys, InsertDescending(keys, x, idx))
    ensures Descending(keys, InsertDescending(keys, x, idx))
  {
    InsertDescendingCount(keys, x, idx);
    if idx != [] && keys[x] >= keys[idx[0]] {
      DescendingCons(keys, x, idx);
    } else if idx != [] {
      var tail := idx[1..];
      var rest := InsertDescending(keys, x, tail);
      InsertDescendingSpec(keys, x, tail);
      InsertDescendingFrom(keys, x, tail);
      forall k | 0 <= k < |rest| ensures keys[idx[0]] >= keys[rest[k]] {
        if rest[k] != x {
          var m :| 0 <= m < |tail| && tail[m] == rest[k];
          assert tail[m] == idx[m + 1];
        }
      }
      DescendingCons(keys, idx[0], rest);
    }
  }

  /** Indices ordered by decreasing key. */
  function SortDescending(keys: seq<real>, idx: seq<nat>): (r: seq<nat>)
    requires InRange(keys, idx)
    ensures InRange(keys, r) && Descending(keys, r) && multiset(r) == multiset(idx)
  {
    if idx == [] then []
    else
      assert idx == [idx[0]] + idx[1..];
      var rest := SortDescending(keys, idx[1..]);
      InsertDescendingSpec(keys, idx[0], rest);
      InsertDescending(keys, idx[0], rest)
  }

  function Indices(n: nat): (r: seq<nat>)
    ensures |r| == n && forall i :: 0 <= i < n ==> r[i] == i
  {
    seq(n, i => i)
  }

  /**
    `torch.topk(keys, k).indices`, largest first; `None` when there are
    fewer than k keys (torch raises). Among equal keys the lower index
    comes first.
   */
  function TopK(keys: seq<real>, k: nat): (r: Option<seq<nat>>)
    ensures r.None? <==> k > |keys|
    ensures r.Some? ==> |r.value| == k && InRange(keys, r.value)
  {
    if k > |keys| then None
    else
      var s := SortDescending(keys, Indices(|keys|));
      assert |s| == |keys| by { assert |multiset(s)| == |multiset(Indices(|keys|))|; }
      Some(s[..k])
  }

  /**
    The top k are k distinct indices, largest key first, and no index left
    out has a larger key than one chosen.
   */
  lemma TopKSpec(keys: seq<real>, k: nat)
    requires k <= |keys|
    ensures TopK(keys, k).Some?
    ensures Distinct(TopK(keys, k).value) && Descending(keys, TopK(keys, k).value)
    ensures forall i, j :: 0 <= i < k && 0 <= j < |keys| && j !in TopK(keys, k).value ==>
      keys[TopK(keys, k).value[i]] >= keys[j]
  {
    var n := |keys|;
    var s := SortDescending(keys, Indices(n));
    assert |s| == n by { assert |multiset(s)| == |multiset(Indices(n))|; }
    var r := TopK(keys, k).value;
    assert r == s[..k];
    assert Distinct(Indices(n));
    MultisetDistinct(Indices(n), s);
    forall i, j | 0 <= i < k && 0 <= j < n && j !in r ensures keys[r[i]] >= keys[j] {
      assert Indices(n)[j] == j;
      assert j in multiset(s);
      var b :| 0 <= b < n && s[b] == j;
      forall a | 0 <= a < k ensures s[a] != j {
        assert r[a] == s[a];
      }
      assert b >= k;
    }
  }

  /**
    Putting the top indices in ascending order keeps what makes them the
    top: they become strictly increasing, and no index left out has a
    larger key than one of them.
   */
  lemma SortKeepsTop(keys: seq<real>, top: seq<nat>)
    requires InRange(keys, top) && Distinct(top)
    requires forall i, j :: 0 <= i < |top| && 0 <= j < |keys| && j !in top ==> keys[top[i]] >= keys[j]
    ensures |SortAscending(top)| == |top| && InRange(keys, SortAscending(top))
    ensures forall a, b :: 0 <= a < b < |top| ==> SortAscending(top)[a] < SortAscending(top)[b]
    ensures forall t, j :: 0 <= t < |top| && 0 <= j < |keys| && j !in SortAscending(top) ==>
      keys[SortAscending(top)[t]] >= keys[j]
  {
    var rows := SortAscending(top);
    SortAscendingSpec(top);
    assert |rows| == |top| by { assert |multiset(rows)| == |multiset(top)|; }
    AscendingDistinct(top, rows);
    forall t | 0 <= t < |rows| ensures rows[t] in top {
      assert rows[t] in multiset(top);
    }
    forall j | 0 <= j < |keys| && j !in rows ensures j !in top {
      assert j !in multiset(rows);
    }
  }

  // ---------------------------------------------------------------------
  // Per-option scores (lines 237-242)
  // ---------------------------------------------------------------------

  function Sum(xs: seq<real>): real {
    if xs == [] then 0.0 else xs[0] + Sum(xs[1..])
  }

  /**
    `rel[torch.arange(4), pos]`: one score per chosen frame. A single
    position is broadcast to all four frames; any other length, or a
    position outside a frame's row, is an indexing error.
   */
  function Gather(rel: seq<seq<real>>, pos: seq<nat>): (r: Option<seq<real>>)
    ensures r.Some? <==> (|rel| >= 4 && (|pos| == 4 || |pos| == 1) &&
      forall t :: 0 <= t < 4 ==> pos[if |pos| == 1 then 0 else t] < |rel[t]|)
    ensures r.Some? ==> (|r.value| == 4 &&
      forall t :: 0 <= t < 4 ==> r.value[t] == rel[t][pos[if |pos| == 1 then 0 else t]])
  {
    if |rel| < 4 || (|pos| != 4 && |pos| != 1) then None
    else if exists t :: 0 <= t < 4 && pos[if |pos| == 1 then 0 else t] >= |rel[t]| then None
    else Some(seq(4, t requires 0 <= t < 4 => rel[t][pos[if |pos| == 1 then 0 else t]]))
  }

  /**
    How the gather broadcasts: a single position gathers exactly as four
    copies of it would, a count other than one or four always fails, and
    only the four rows of the chosen frames are read.
   */
  lemma GatherBroadcast(rel: seq<seq<real>>, pos: seq<nat>)
    ensures |pos| == 1 ==> Gather(rel, pos) == Gather(rel, [pos[0], pos[0], pos[0], pos[0]])
    ensures |pos| != 1 && |pos| != 4 ==> Gather(rel, pos).None?
    ensures |rel| >= 4 ==> Gather(rel, pos) == Gather(rel[..4], pos)
  {
    if |pos| == 1 {
      var p4 := [pos[0], pos[0], pos[0], pos[0]];
      assert forall t :: 0 <= t < 4 ==> p4[t] == pos[0];
      if Gather(rel, pos).Some? {
        assert Gather(rel, pos).value == Gather(rel, p4).value;
      }
    }
    if |rel| >= 4 {
      var front := rel[..4];
      assert forall t :: 0 <= t < 4 ==> front[t] == rel[t];
      if Gather(rel, pos).Some? {
        assert Gather(rel, pos).value == Gather(front, pos).value;
      }
    }
  }

  /** `ordered_scores.sum()` */
  function OptionScore(rel: seq<seq<real>>, pos: seq<nat>): (r: Option<real>)
    ensures r.Some? <==> Gather(rel, pos).Some?
  {
    match Gather(rel, pos)
    case None => None
    case Some(g) => Some(Sum(g))
  }

  lemma SumOfFour(g: seq<real>)
    requires |g| == 4
    ensures Sum(g) == Sum4(g[0], g[1], g[2], g[3])
  {
    assert g[1..][1..][1..][1..] == [];
    assert Sum(g[1..][1..][1..]) == g[3];
    assert Sum(g[1..][1..]) == g[2] + g[3];
    assert Sum(g[1..]) == g[1] + g[2] + g[3];
  }

  function Sum4(a: real, b: real, c: real, d: real): real { a + b + c + d }

  /**
    An option's score is the sum, over the four chosen frames in time
    order, of the score of the object the option puts at that place; a
    single object counts at every place.
   */
  lemma OptionScoreSpec(rel: seq<seq<real>>, pos: seq<nat>)
    requires OptionScore(rel, pos).Some?
    ensures |pos| == 4 ==> (OptionScore(rel, pos).value ==
      Sum4(rel[0][pos[0]], rel[1][pos[1]], rel[2][pos[2]], rel[3][pos[3]]))
    ensures |pos| == 1 ==> (OptionScore(rel, pos).value ==
      Sum4(rel[0][pos[0]], rel[1][pos[0]], rel[2][pos[0]], rel[3][pos[0]]))
    ensures |pos| == 1 ==> OptionScore(rel, pos) == OptionScore(rel, [pos[0], pos[0], pos[0], pos[0]])
  {
    var g := Gather(rel, pos).value;
    SumOfFour(g);
    if |pos| == 1 {
      var g4 := Gather(rel, [pos[0], pos[0], pos[0], pos[0]]).value;
      assert g4 == g;
    }
  }

  /** One score per option, in option order; `None` when some option cannot be gathered. */
  function AllScores(rel: seq<seq<real>>, positions: seq<seq<nat>>): Option<seq<real>> {
    Collect(seq(|positions|, i requires 0 <= i < |positions| => OptionScore(rel, positions[i])))
  }

  /**
    With four frame rows of `n` scores, every option holding four
    positions, or one, below `n` has a score.
   */
  lemma AllScoresSome(rel: seq<seq<real>>, positions: seq<seq<nat>>, n: nat)
    requires |rel| == 4 && forall t :: 0 <= t < 4 ==> |rel[t]| == n
    requires forall i :: 0 <= i < |positions| ==>
      (|positions[i]| == 4 || |positions[i]| == 1) &&
      forall t :: 0 <= t < |positions[i]| ==> positions[i][t] < n
    ensures AllScores(rel, positions).Some?
  {
    var results := seq(|positions|, i requires 0 <= i < |positions| => OptionScore(rel, positions[i]));
    forall i | 0 <= i < |positions| ensures results[i].Some? {
      var pos := positions[i];
      assert forall t :: 0 <= t < 4 ==> pos[if |pos| == 1 then 0 else t] < |rel[t]|;
    }
  }

  /** Lines 237-242: the loop appending one summed score per option. */
  method OptionScores(rel: seq<seq<real>>, positions: seq<seq<nat>>) returns (r: Option<seq<real>>)
    ensures r.None? <==> exists i :: 0 <= i < |positions| && OptionScore(rel, positions[i]).None?
    ensures r.Some? ==> |r.value| == |positions|
    ensures r.Some? ==> forall i :: 0 <= i < |positions| ==> OptionScore(rel, positions[i]) == Some(r.value[i])
    ensures r == AllScores(rel, positions)
  {
    ghost var results := seq(|positions|, i requires 0 <= i < |positions| => OptionScore(rel, positions[i]));
    var scores: seq<real> := [];
    var i := 0;
    while i < |positions|
      invariant 0 <= i <= |positions| && |scores| == i
      invariant forall j :: 0 <= j < i ==> OptionScore(rel, positions[j]) == Some(scores[j])
    {
      var score := OptionScore(rel, positions[i]);
      if score.None? {
        assert results[i] == OptionScore(rel, positions[i]);
        return None;
      }
      scores := scores + [score.value];
      i := i + 1;
    }
    assert forall j :: 0 <= j < |positions| ==> results[j] == Some(scores[j]);
    CollectSome(results, scores);
    r := Some(scores);
  }

  // ---------------------------------------------------------------------
  // np.argmax: the first position of the largest value
  // ---------------------------------------------------------------------

  predicate IsFirstMax(xs: seq<real>, m: nat) {
    m < |xs| &&
    (forall j :: 0 <= j < |xs| ==> xs[j] <= xs[m]) &&
    (forall j :: 0 <= j < m ==> xs[j] < xs[m])
  }

  /** The first largest value among `xs[..i]`, scanning from `best`. */
  function ArgMaxFrom(xs: seq<real>, i: nat, best: nat): (r: nat)
    requires best < i <= |xs| && IsFirstMax(xs[..i], best)
    ensures IsFirstMax(xs, r)
    decreases |xs| - i
  {
    if i == |xs| then
      assert xs[..i] == xs;
      best
    else
      var next := if xs[i] > xs[best] then i else best;
      assert xs[..i + 1] == xs[..i] + [xs[i]];
      ArgMaxFrom(xs, i + 1, next)
  }

  /** `np.argmax(xs)`; `None` for an empty sequence (numpy raises). */
  function ArgMax(xs: seq<real>): (r: Option<nat>)
    ensures r.None? <==> xs == []
    ensures r.Some? ==> IsFirstMax(xs, r.value)
  {
    if xs == [] then None else Some(ArgMaxFrom(xs, 1, 0))
  }
}
