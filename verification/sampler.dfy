/**
 * The without-replacement sampler of src/emoji_sampler.py: a Fenwick tree over
 * the remaining count of every key; a draw in [1, total] picks the key whose
 * cumulative-count interval holds the draw and takes one unit from it.
 *
 * The source draws with random.Random; here the draw is a parameter.
 */
module EmojiSampler {
  import opened Options
  import opened Fenwick

  ghost predicate Distinct<K>(keys: seq<K>)
  {
    forall i, j :: 0 <= i < j < |keys| ==> keys[i] != keys[j]
  }

  ghost predicate NonNegative(counts: seq<int>)
  {
    forall j :: 0 <= j < |counts| ==> counts[j] >= 0
  }

  /** The multiset holding keys[j] exactly counts[j] times. */
  ghost function Bag<K>(keys: seq<K>, counts: seq<int>): multiset<K>
    requires |keys| == |counts| && NonNegative(counts)
  {
    if keys == [] then multiset{}
    else
      var m := Bag(keys[..|keys| - 1], counts[..|counts| - 1]);
      var k := keys[|keys| - 1];
      m[k := m[k] + counts[|counts| - 1]]
  }

  lemma {:induction false} BagCount<K>(keys: seq<K>, counts: seq<int>, x: K)
    requires |keys| == |counts| && NonNegative(counts) && Distinct(keys)
    ensures x !in keys ==> Bag(keys, counts)[x] == 0
    ensures forall j :: 0 <= j < |keys| && keys[j] == x ==> Bag(keys, counts)[x] == counts[j]
  {
    if keys != [] {
      var ks, cs := keys[..|keys| - 1], counts[..|counts| - 1];
      assert forall j :: 0 <= j < |ks| ==> ks[j] == keys[j];
      BagCount(ks, cs, x);
    }
  }

  lemma MultisetExt<K>(a: multiset<K>, b: multiset<K>)
    requires forall x :: a[x] == b[x]
    ensures a == b
  {
  }

  /** With non-negative entries, a zero total means every entry is zero. */
  lemma {:induction false} ZeroSumAllZero(s: seq<int>, hi: nat)
    requires hi <= |s| && NonNegative(s) && Sum(s, 0, hi) == 0
    ensures forall j :: 0 <= j < hi ==> s[j] == 0
  {
    if hi > 0 {
      SumMonotone(s, hi - 1, hi);
      assert Sum(s, 0, hi - 1) >= 0 by { SumMonotone(s, 0, hi - 1); }
      ZeroSumAllZero(s, hi - 1);
    }
  }

  /**
   * The draw choice fell in the cumulative-count interval of key, the i-th
   * key, and exactly that count went down by one.
   */
  ghost predicate Took<K>(keys: seq<K>, before: seq<int>, after: seq<int>, choice: int, key: K)
  {
    exists i :: 0 <= i < |keys| && i < |before| && keys[i] == key
      && Sum(before, 0, i) < choice <= Sum(before, 0, i + 1)
      && after == before[i := before[i] - 1]
  }

  /**
   * Sampling without replacement, over plain values: every key's count plus
   * the number of times it was drawn is its initial count, only keys are
   * drawn, and total plus the number of draws is the initial total.
   */
  ghost predicate Tally<K>(keys: seq<K>, counts: seq<int>, initial: seq<int>, drawn: seq<K>, total: int)
  {
    && |keys| == |counts| == |initial|
    && Distinct(keys)
    && NonNegative(counts)
    && NonNegative(initial)
    && (forall j :: 0 <= j < |keys| ==> multiset(drawn)[keys[j]] + counts[j] == initial[j])
    && (forall t :: 0 <= t < |drawn| ==> drawn[t] in keys)
    && |drawn| + total == Sum(initial, 0, |initial|)
  }

  /** Taking one unit from a positive count and recording its key keeps the tally. */
  lemma TakeOne<K>(keys: seq<K>, counts: seq<int>, initial: seq<int>, drawn: seq<K>, total: int, idx: int)
    requires Tally(keys, counts, initial, drawn, total)
    requires 0 <= idx < |keys| && counts[idx] > 0
    ensures Tally(keys, counts[idx := counts[idx] - 1], initial, drawn + [keys[idx]], total - 1)
  {
    var more := drawn + [keys[idx]];
    forall j | 0 <= j < |keys|
      ensures multiset(more)[keys[j]] == multiset(drawn)[keys[j]] + (if j == idx then 1 else 0)
    {
      assert multiset(more) == multiset(drawn) + multiset{keys[idx]};
    }
  }

  /** A draw that lands in the interval of the i-th key takes that key. */
  lemma TookAt<K>(keys: seq<K>, before: seq<int>, i: int, choice: int)
    requires 0 <= i < |keys| && i < |before|
    requires Sum(before, 0, i) < choice <= Sum(before, 0, i + 1)
    ensures Took(keys, before, before[i := before[i] - 1], choice, keys[i])
  {
  }

  function Keys<K>(frequencies: seq<(K, int)>): (ks: seq<K>)
    ensures |ks| == |frequencies|
    ensures forall j :: 0 <= j < |ks| ==> ks[j] == frequencies[j].0
  {
    seq(|frequencies|, j requires 0 <= j < |frequencies| => frequencies[j].0)
  }

  function Counts<K>(frequencies: seq<(K, int)>): (cs: seq<int>)
    ensures |cs| == |frequencies|
    ensures forall j :: 0 <= j < |cs| ==> cs[j] == frequencies[j].1
  {
    seq(|frequencies|, j requires 0 <= j < |frequencies| => frequencies[j].1)
  }

  class Sampler<K(==)> {
    /** The keys, in the order of the frequency table. */
    const keys: seq<K>
    /** The number of draws left: the sum of the remaining counts. */
    var total: int
    const tree: FenwickTree
    /** The counts the sampler started from. */
    ghost const initial: seq<int>
    /** The keys returned so far, in order. */
    ghost var drawn: seq<K>

    /** The tree holds one count per key and total is their sum. */
    ghost predicate Valid()
      reads this, tree, tree.tree
    {
      && tree.Valid()
      && |keys| == tree.n == |initial|
      && total == Sum(tree.values, 0, tree.n)
    }

    /**
     * Sampling without replacement: every key's count plus the number of
     * times it was drawn is its initial count, and total plus the number of
     * draws is the initial total.
     */
    ghost predicate Counting()
      reads this, tree, tree.tree
    {
      Valid() && Tally(keys, tree.values, initial, drawn, total)
    }

    constructor (frequencies: seq<(K, int)>)
      requires Distinct(Keys(frequencies))
      requires NonNegative(Counts(frequencies))
      ensures Counting() && fresh(tree) && fresh(tree.tree)
      ensures keys == Keys(frequencies) && initial == Counts(frequencies)
      ensures tree.values == initial && drawn == []
    {
      var values := Counts(frequencies);
      keys := Keys(frequencies);
      total := Sum(values, 0, |values|);
      tree := new FenwickTree(values);
      initial := values;
      drawn := [];
    }

    /** Whether any draw is left. */
    method HasMore() returns (more: bool)
      requires Valid()
      ensures more <==> Sum(tree.values, 0, |keys|) > 0
    {
      more := total > 0;
    }

    /** Takes one unit from the count at idx. */
    method DecreaseEmoji(idx: int)
      requires Valid() && 0 <= idx < |keys|
      modifies this, tree, tree.tree
      ensures Valid() && drawn == old(drawn)
      ensures tree.values == old(tree.values)[idx := old(tree.values)[idx] - 1]
      ensures total == old(total) - 1
    {
      SumUpdate(tree.values, idx, tree.values[idx] - 1, 0, tree.n);
      tree.Update(idx, -1);
      total := total - 1;
    }

    /**
     * One draw: the key whose cumulative-count interval (Sum(counts, 0, i),
     * Sum(counts, 0, i + 1)] holds choice loses one unit and is returned.
     * With nothing left the source's loop body never runs and it returns None.
     */
    method Sample(choice: int) returns (r: Option<K>)
      requires Counting()
      requires total > 0 ==> 1 <= choice <= total
      modifies this, tree, tree.tree
      ensures Counting()
      ensures r.Some? <==> old(total) > 0
      ensures r.None? ==> total == old(total) && drawn == old(drawn) && tree.values == old(tree.values)
      ensures r.Some? ==> total == old(total) - 1 && drawn == old(drawn) + [r.value]
      ensures r.Some? ==> Took(keys, old(tree.values), tree.values, choice, r.value)
    {
      if total <= 0 {
        return None;
      }
      var idx := tree.FindPrefixIndex(choice);
      ghost var before := tree.values;
      assert Sum(before, 0, idx) < choice;
      TookAt(keys, before, idx, choice);
      TakeOne(keys, before, initial, drawn, total, idx);
      DecreaseEmoji(idx);
      drawn := drawn + [keys[idx]];
      r := Some(keys[idx]);
      assert Tally(keys, tree.values, initial, drawn, total) by {
        assert tree.values == before[idx := before[idx] - 1];
      }
    }

    /** Python's __next__: None (StopIteration) once nothing is left, else a draw. */
    method Next(choice: int) returns (r: Option<K>)
      requires Counting()
      requires total > 0 ==> 1 <= choice <= total
      modifies this, tree, tree.tree
      ensures Counting()
      ensures r.Some? <==> old(total) > 0
      ensures r.None? ==> total == old(total) && drawn == old(drawn) && tree.values == old(tree.values)
      ensures r.Some? ==> total == old(total) - 1 && drawn == old(drawn) + [r.value]
      ensures r.Some? ==> Took(keys, old(tree.values), tree.values, choice, r.value)
    {
      var more := HasMore();
      if !more {
        return None;
      }
      r := Sample(choice);
    }

    /**
     * Once no draw is left, the keys drawn are exactly the initial table:
     * each key as many times as its initial count, sum(frequencies) draws in all.
     */
    lemma DrainedDrawsEveryUnit()
      requires Counting() && total == 0
      ensures multiset(drawn) == Bag(keys, initial)
      ensures |drawn| == Sum(initial, 0, |initial|)
    {
      ZeroSumAllZero(tree.values, tree.n);
      forall x
        ensures multiset(drawn)[x] == Bag(keys, initial)[x]
      {
        BagCount(keys, initial, x);
        if x in keys {
          var j :| 0 <= j < |keys| && keys[j] == x;
          assert tree.values[j] == 0;
        } else {
          assert x !in multiset(drawn);
        }
      }
      MultisetExt(multiset(drawn), Bag(keys, initial));
    }
  }
}
