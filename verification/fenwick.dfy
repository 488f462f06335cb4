/**
 * The Fenwick (binary indexed) tree of src/emoji_sampler.py.
 *
 * Indices of the tree are 1-based; node j stores the sum of the data entries
 * in the half-open 1-based range (j - LowBit(j), j], that is the 0-based
 * slice data[j - LowBit(j) .. j].  LowBit(j) is the value `j & -j` of the
 * source: the largest power of two that divides j.
 */
module Fenwick {

  // ---------------------------------------------------------------------------
  // Sums over slices of the data

  /** data[lo] + ... + data[hi - 1] */
  function Sum(s: seq<int>, lo: int, hi: int): int
    requires 0 <= lo <= hi <= |s|
    decreases hi - lo
  {
    if lo == hi then 0 else Sum(s, lo, hi - 1) + s[hi - 1]
  }

  lemma {:induction false} SumSplit(s: seq<int>, lo: int, mid: int, hi: int)
    requires 0 <= lo <= mid <= hi <= |s|
    ensures Sum(s, lo, hi) == Sum(s, lo, mid) + Sum(s, mid, hi)
    decreases hi - mid
  {
    if hi > mid {
      SumSplit(s, lo, mid, hi - 1);
    }
  }

  /** Changing one entry changes exactly the sums whose slice holds it. */
  lemma {:induction false} SumUpdate(s: seq<int>, k: int, v: int, lo: int, hi: int)
    requires 0 <= k < |s| && 0 <= lo <= hi <= |s|
    ensures Sum(s[k := v], lo, hi) == Sum(s, lo, hi) + (if lo <= k < hi then v - s[k] else 0)
    decreases hi - lo
  {
    if lo < hi {
      SumUpdate(s, k, v, lo, hi - 1);
    }
  }

  /** With non-negative entries, prefix sums never decrease. */
  lemma {:induction false} SumMonotone(s: seq<int>, a: int, b: int)
    requires 0 <= a <= b <= |s|
    requires forall k :: 0 <= k < |s| ==> s[k] >= 0
    ensures Sum(s, 0, a) <= Sum(s, 0, b)
    decreases b - a
  {
    if a < b {
      SumMonotone(s, a, b - 1);
    }
  }

  // ---------------------------------------------------------------------------
  // Powers of two and the lowest set bit

  function Pow2(e: nat): (p: nat)
    ensures p >= 1
  {
    if e == 0 then 1 else 2 * Pow2(e - 1)
  }

  /** Number of trailing zero bits of a positive number. */
  function Tz(i: nat): nat
    requires i > 0
  {
    if i % 2 == 1 then 0 else 1 + Tz(i / 2)
  }

  /** The odd factor left once all factors of two are divided out. */
  function OddPart(i: nat): nat
    requires i > 0
  {
    if i % 2 == 1 then i else OddPart(i / 2)
  }

  /** `i & -i`: the largest power of two dividing i. */
  function LowBit(i: nat): (b: nat)
    requires i > 0
    ensures 1 <= b <= i
  {
    Decompose(i);
    Pow2(Tz(i))
  }

  /** The number of bits of n, Python's `n.bit_length()`. */
  function BitLength(n: nat): nat
  {
    if n == 0 then 0 else 1 + BitLength(n / 2)
  }

  /**
   * `1 << n.bit_length()` is the smallest power of two strictly greater than
   * n: it exceeds n, and half of it does not.
   */
  lemma {:induction false} BitLengthBound(n: nat)
    ensures n < Pow2(BitLength(n))
    ensures n > 0 ==> Pow2(BitLength(n) - 1) <= n
  {
    if n > 0 {
      BitLengthBound(n / 2);
      if n / 2 > 0 {
        assert Pow2(BitLength(n) - 1) == 2 * Pow2(BitLength(n / 2) - 1);
      }
    }
  }

  lemma {:induction false} Pow2Add(a: nat, b: nat)
    ensures Pow2(a + b) == Pow2(a) * Pow2(b)
  {
    if a > 0 {
      Pow2Add(a - 1, b);
      assert Pow2(a + b) == 2 * Pow2(a - 1 + b);
    }
  }

  lemma {:induction false} Pow2Strict(a: nat, b: nat)
    ensures a < b <==> Pow2(a) < Pow2(b)
  {
    if a > 0 && b > 0 {
      Pow2Strict(a - 1, b - 1);
    } else if b > 0 {
      Pow2Strict(0, b - 1);
    } else if a > 0 {
      Pow2Strict(a - 1, 0);
    }
  }

  /** Every positive number is a power of two times an odd number. */
  lemma {:induction false} Decompose(i: nat)
    requires i > 0
    ensures i == Pow2(Tz(i)) * OddPart(i) && OddPart(i) % 2 == 1
  {
    if i % 2 == 0 {
      var h := i / 2;
      Decompose(h);
      var p, o := Pow2(Tz(h)), OddPart(h);
      assert Tz(i) == 1 + Tz(h) && OddPart(i) == o;
      assert Pow2(Tz(i)) == 2 * p;
      MulAssoc(2, p, o);
    }
  }

  /** Multiplying by 2^e shifts the trailing zeros by e. */
  lemma {:induction false} TzMul(e: nat, t: nat)
    requires t > 0
    ensures Pow2(e) * t > 0 && Tz(Pow2(e) * t) == e + Tz(t)
  {
    if e > 0 {
      TzMul(e - 1, t);
      var x := Pow2(e) * t;
      assert x == 2 * (Pow2(e - 1) * t);
      assert x % 2 == 0 && x / 2 == Pow2(e - 1) * t;
    }
  }

  /** A power of two times an odd number has exactly that power as its lowest bit. */
  lemma OddMul(e: nat, o: nat)
    requires o % 2 == 1
    ensures Pow2(e) * o > 0 && Tz(Pow2(e) * o) == e
  {
    TzMul(e, o);
  }

  lemma Pow2Even(e: nat)
    requires e > 0
    ensures Pow2(e) % 2 == 0
  {
  }

  lemma Pow2Split(a: nat, b: nat)
    requires a <= b
    ensures Pow2(b) == Pow2(a) * Pow2(b - a)
  {
    Pow2Add(a, b - a);
  }

  lemma Pow2Mono(a: nat, b: nat)
    requires a <= b
    ensures Pow2(a) <= Pow2(b)
  {
    Pow2Strict(a, b);
  }

  // ---------------------------------------------------------------------------
  // Small arithmetic steps, kept apart so that each is cheap to check

  lemma MulOdd(p: nat, q: nat)
    ensures 2 * p * q + p == p * (2 * q + 1)
  {
  }

  lemma MulAssoc(a: nat, b: nat, c: nat)
    ensures a * (b * c) == (a * b) * c
  {
  }

  lemma MulAddOne(p: nat, o: nat)
    ensures p * o + p == p * (o + 1)
  {
  }

  lemma MulSub(p: nat, a: nat, b: nat)
    requires b <= a
    ensures p * a - p * b == p * (a - b)
  {
  }

  lemma MulAdd(p: nat, a: nat, b: nat)
    ensures p * a + p * b == p * (a + b)
  {
  }

  lemma MulGe(p: nat, o: nat)
    requires o >= 1
    ensures p * o >= p
  {
  }

  lemma EvenTimes(e: nat, o: nat)
    requires e % 2 == 0
    ensures (e * o) % 2 == 0
  {
    var h := e / 2;
    assert e == 2 * h;
    MulAssoc(2, h, o);
  }

  // ---------------------------------------------------------------------------
  // The facts about `i & -i` the tree operations rely on

  /**
   * Binary lifting: when idx is a multiple of 2 * 2^k, the node idx + 2^k
   * covers exactly the slice data[idx .. idx + 2^k].
   */
  lemma LowBitOfLift(idx: nat, k: nat, q: nat)
    requires idx == 2 * Pow2(k) * q
    ensures LowBit(idx + Pow2(k)) == Pow2(k)
  {
    MulOdd(Pow2(k), q);
    OddMul(k, 2 * q + 1);
  }


  /** The parent i + LowBit(i) of a node has a strictly larger lowest bit. */
  lemma ParentLowBit(i: nat)
    requires i > 0
    ensures LowBit(i + LowBit(i)) >= 2 * LowBit(i)
  {
    var z, o := Tz(i), OddPart(i);
    Decompose(i);
    MulAddOne(Pow2(z), o);
    TzMul(z, o + 1);
    Pow2Mono(z + 1, Tz(i + LowBit(i)));
  }

  lemma EvenPlusOdd(a: nat, b: nat)
    requires a % 2 == 0 && b % 2 == 1
    ensures (a + b) % 2 == 1
  {
  }

  lemma EvenMinusOne(a: nat)
    requires a % 2 == 0 && a >= 1
    ensures (a - 1) % 2 == 1
  {
  }

  /** The algebra behind BetweenParent, on plain numbers. */
  lemma BetweenAlgebra(i: nat, d: nat, pz: nat, pw: nat, e: nat, o: nat, od: nat)
    requires i == pz * o && d == pw * od && pz == pw * e
    ensures i + d == pw * (e * o + od)
  {
    MulAssoc(pw, e, o);
    MulAdd(pw, e * o, od);
  }

  lemma BelowOdd(e: nat, o: nat)
    requires e % 2 == 0 && e >= 1 && o % 2 == 1
    ensures e * o >= 2 && (e * o - 1) % 2 == 1
  {
    EvenTimes(e, o);
    MulGe(e, o);
    EvenMinusOne(e * o);
  }

  /** The algebra behind LowBitBelow, on plain numbers. */
  lemma BelowAlgebra(i: nat, pz: nat, pk: nat, e: nat, o: nat)
    requires i == pz * o && pz == pk * e && e * o >= 1
    ensures i - pk == pk * (e * o - 1)
  {
    MulAssoc(pk, e, o);
    MulSub(pk, e * o, 1);
  }

  /**
   * No node strictly between i and its parent i + LowBit(i) reaches down to i:
   * each such node's slice starts at or after i.
   */
  lemma BetweenParent(i: nat, j: nat)
    requires 0 < i < j < i + LowBit(i)
    ensures j - LowBit(j) >= i
  {
    var d := j - i;
    var m := BetweenShape(i, d);
    OddMul(Tz(d), m);
    Decompose(d);
    MulGe(Pow2(Tz(d)), OddPart(d));
  }

  /** A number below i's lowest bit has fewer trailing zeros than i. */
  lemma TzBelow(i: nat, d: nat)
    requires 0 < i && 0 < d < LowBit(i)
    ensures Tz(d) < Tz(i)
  {
    Decompose(d);
    MulGe(Pow2(Tz(d)), OddPart(d));
    Pow2Strict(Tz(d), Tz(i));
  }

  /** i + d is 2^Tz(d) times an odd number, when d is below i's lowest bit. */
  lemma BetweenShape(i: nat, d: nat) returns (m: nat)
    requires 0 < i && 0 < d < LowBit(i)
    ensures m % 2 == 1 && i + d == Pow2(Tz(d)) * m
  {
    var z, o := Tz(i), OddPart(i);
    var w, od := Tz(d), OddPart(d);
    TzBelow(i, d);
    Decompose(i);
    Decompose(d);
    Pow2Split(w, z);
    Pow2Even(z - w);
    m := ShapeAlgebra(i, d, Pow2(z), Pow2(w), Pow2(z - w), o, od);
  }

  /** The algebra behind BetweenShape, on plain numbers. */
  lemma ShapeAlgebra(i: nat, d: nat, pz: nat, pw: nat, e: nat, o: nat, od: nat) returns (m: nat)
    requires i == pz * o && d == pw * od && pz == pw * e
    requires e % 2 == 0 && od % 2 == 1
    ensures m % 2 == 1 && i + d == pw * m
  {
    EvenTimes(e, o);
    m := e * o + od;
    EvenPlusOdd(e * o, od);
    BetweenAlgebra(i, d, pz, pw, e, o, od);
  }

  /** A child c of node i (c + LowBit(c) == i) has a smaller lowest bit than i. */
  lemma ChildLowBit(c: nat, i: nat)
    requires c > 0 && c + LowBit(c) == i
    ensures LowBit(c) < LowBit(i)
  {
    var t, oc := Tz(c), OddPart(c);
    Decompose(c);
    MulAddOne(Pow2(t), oc);
    TzMul(t, oc + 1);
    Pow2Strict(t, Tz(i));
  }

  /** 2^z * o - 2^k, for k < z and o odd, is 2^k times an odd number. */
  lemma BelowShape(z: nat, k: nat, o: nat) returns (m: nat)
    requires k < z && o % 2 == 1
    ensures m % 2 == 1 && Pow2(z) * o - Pow2(k) == Pow2(k) * m
  {
    var gap: nat := z - k;
    var e := Pow2(gap);
    Pow2Even(gap);
    BelowOdd(e, o);
    m := e * o - 1;
    Pow2Split(k, z);
    BelowAlgebra(Pow2(z) * o, Pow2(z), Pow2(k), e, o);
  }

  lemma BelowNode(i: nat, k: nat) returns (m: nat)
    requires i > 0 && k < Tz(i)
    ensures m % 2 == 1 && i - Pow2(k) == Pow2(k) * m
  {
    Decompose(i);
    m := BelowShape(Tz(i), k, OddPart(i));
  }

  /** Removing 2^k from i, for 2^k below LowBit(i), leaves a node whose lowest bit is 2^k. */
  lemma LowBitBelow(i: nat, k: nat)
    requires i > 0 && k < Tz(i)
    ensures i - Pow2(k) > 0 && LowBit(i - Pow2(k)) == Pow2(k)
  {
    var m := BelowNode(i, k);
    OddMul(k, m);
  }

  // ---------------------------------------------------------------------------
  // What a node holds, and how a node is made of its children

  /** The slice node c of the tree is responsible for: data[c - LowBit(c) .. c]. */
  function NodeSum(data: seq<int>, c: nat): int
    requires 0 < c <= |data|
  {
    Sum(data, c - LowBit(c), c)
  }

  /**
   * The total of NodeSum(c) over the children c of node j (those with
   * c + LowBit(c) == j) that lie in [lo, hi).
   */
  function ChildSum(data: seq<int>, j: nat, lo: nat, hi: nat): int
    requires 1 <= lo && hi <= |data| + 1
    decreases hi
  {
    if hi <= lo then 0
    else ChildSum(data, j, lo, hi - 1)
         + (if (hi - 1) + LowBit(hi - 1) == j then NodeSum(data, hi - 1) else 0)
  }

  lemma {:induction false} ChildSumSplit(data: seq<int>, j: nat, lo: nat, mid: nat, hi: nat)
    requires 1 <= lo <= mid <= hi <= |data| + 1
    ensures ChildSum(data, j, lo, hi) == ChildSum(data, j, lo, mid) + ChildSum(data, j, mid, hi)
    decreases hi
  {
    if hi > mid {
      ChildSumSplit(data, j, lo, mid, hi - 1);
    }
  }

  lemma {:induction false} ChildSumNone(data: seq<int>, j: nat, lo: nat, hi: nat)
    requires 1 <= lo && hi <= |data| + 1
    requires forall c :: lo <= c < hi ==> c + LowBit(c) != j
    ensures ChildSum(data, j, lo, hi) == 0
    decreases hi
  {
    if hi > lo {
      ChildSumNone(data, j, lo, hi - 1);
    }
  }

  /** No child of node i lies strictly between i - 2 * 2^k and i - 2^k. */
  lemma NoChildBetween(i: nat, k: nat)
    requires 0 < i && k < Tz(i)
    ensures 2 * Pow2(k) <= i
    ensures forall c :: i - 2 * Pow2(k) + 1 <= c < i - Pow2(k) && c > 0 ==> c + LowBit(c) != i
  {
    var h := Pow2(k);
    Pow2Mono(k + 1, Tz(i));
    LowBitBelow(i, k);
    forall c | i - 2 * h + 1 <= c < i - h && c > 0
      ensures c + LowBit(c) != i
    {
      if c + LowBit(c) == i {
        Pow2Strict(k, Tz(c));
        Pow2Strict(Tz(c), k + 1);
      }
    }
  }

  /**
   * The last 2^e entries below node i, for 2^e <= LowBit(i), are entry i - 1
   * plus the slices of the children of i in that range.
   */
  lemma {:induction false} ChildrenTile(data: seq<int>, i: nat, e: nat)
    requires 0 < i <= |data| && e <= Tz(i)
    ensures Pow2(e) <= i
    ensures data[i - 1] + ChildSum(data, i, i - Pow2(e) + 1, i) == Sum(data, i - Pow2(e), i)
  {
    Pow2Mono(e, Tz(i));
    if e > 0 {
      var k := e - 1;
      var h := Pow2(k);
      assert Pow2(e) == 2 * h;
      ChildrenTile(data, i, k);
      LowBitBelow(i, k);
      NoChildBetween(i, k);
      ChildSumNone(data, i, i - 2 * h + 1, i - h);
      ChildSumSplit(data, i, i - 2 * h + 1, i - h, i);
      ChildSumSplit(data, i, i - h, i - h + 1, i);
      SumSplit(data, i - 2 * h, i - h, i);
    }
  }

  /** A node's slice is its own entry plus the slices of all its children. */
  lemma NodeFromChildren(data: seq<int>, i: nat)
    requires 0 < i <= |data|
    ensures data[i - 1] + ChildSum(data, i, 1, i) == NodeSum(data, i)
  {
    var low := LowBit(i);
    forall c | 1 <= c < i - low + 1
      ensures c + LowBit(c) != i
    {
      if c + LowBit(c) == i {
        ChildLowBit(c, i);
      }
    }
    ChildSumNone(data, i, 1, i - low + 1);
    ChildSumSplit(data, i, 1, i - low + 1, i);
    ChildrenTile(data, i, Tz(i));
  }

  /** Halving the mask keeps idx (accepted or not) a multiple of twice the new mask. */
  lemma LiftHalves(mask: nat, h: nat, q: nat)
    requires mask == 2 * h
    ensures 2 * mask * q == 2 * h * (2 * q)
    ensures 2 * mask * q + mask == 2 * h * (2 * q + 1)
  {
  }

  /**
   * Where the lifting search stops: the prefix ending before idx falls short
   * of target and the one ending at idx reaches it (or idx is the length).
   * Then no shorter prefix reaches target, and a target within the total is
   * met at an entry that is positive.
   */
  lemma SearchEnd(s: seq<int>, idx: nat, target: int)
    requires forall k :: 0 <= k < |s| ==> s[k] >= 0
    requires idx <= |s|
    requires idx == 0 || Sum(s, 0, idx) < target
    requires idx + 1 > |s| || Sum(s, 0, idx + 1) >= target
    ensures forall k :: 0 < k <= idx ==> Sum(s, 0, k) < target
    ensures 1 <= target <= Sum(s, 0, |s|) ==> idx < |s| && s[idx] > 0
  {
    forall k | 0 < k <= idx
      ensures Sum(s, 0, k) < target
    {
      SumMonotone(s, k, idx);
    }
  }

  // ---------------------------------------------------------------------------
  // The tree

  /** Entries passed to the one-past-the-end test of the lifting search. */
  function Span(mask: nat): nat
  {
    if mask == 0 then 1 else 2 * mask
  }

  /**
   * One round of the lifting search on plain numbers: halving the mask
   * 2^e leaves a span equal to the old mask, and idx, a multiple of twice
   * the mask, stays a multiple of twice the halved mask whether or not the
   * round adds the mask to it.
   */
  lemma HalveMask(idx: nat, mask: nat, e: nat, q: nat)
    requires mask == Pow2(e) && idx == 2 * mask * q
    ensures Span(mask / 2) == mask
    ensures mask / 2 > 0 ==> && e > 0 && mask / 2 == Pow2(e - 1)
                             && idx == 2 * (mask / 2) * (2 * q)
                             && idx + mask == 2 * (mask / 2) * (2 * q + 1)
  {
    if e > 0 {
      assert mask / 2 == Pow2(e - 1);
      LiftHalves(mask, mask / 2, q);
    }
  }

  class FenwickTree {
    const n: nat
    const tree: array<int>
    /** The entries the tree currently sums, data[0 .. n]. */
    ghost var values: seq<int>

    ghost predicate Valid()
      reads this, tree
    {
      && tree.Length == n + 1
      && |values| == n
      && tree[0] == 0
      && forall j :: 0 < j <= n ==> tree[j] == NodeSum(values, j)
    }

    /** Linear-time construction: each node hands its total to its parent. */
    constructor (data: seq<int>)
      ensures Valid() && fresh(tree)
      ensures n == |data| && values == data
    {
      var t := new int[|data| + 1](_ => 0);
      for i := 1 to |data| + 1
        invariant t[0] == 0
        invariant forall j :: 0 < j < i ==> t[j] == NodeSum(data, j)
        invariant forall j :: i <= j <= |data| ==> t[j] == ChildSum(data, j, 1, i)
      {
        NodeFromChildren(data, i);
        t[i] := t[i] + data[i - 1];
        var r := i + LowBit(i);
        if r <= |data| {
          t[r] := t[r] + t[i];
        }
      }
      n := |data|;
      tree := t;
      values := data;
    }

    /** Adds delta to entry i (0-based); an index at or past n changes nothing. */
    method Update(i: int, delta: int)
      requires Valid() && 0 <= i
      modifies this, tree
      ensures Valid()
      ensures values == if i < n then old(values)[i := old(values)[i] + delta] else old(values)
    {
      ghost var p := i + 1;
      var k := i + 1;
      while k <= n
        invariant values == old(values)
        invariant p <= k
        invariant k <= n ==> k - LowBit(k) < p
        invariant tree[0] == 0
        invariant forall j :: 0 < j <= n ==>
          tree[j] == old(tree[j]) + (if j < k && j - LowBit(j) < p <= j then delta else 0)
        decreases n + 1 - k
      {
        tree[k] := tree[k] + delta;
        ParentLowBit(k);
        forall j | k < j < k + LowBit(k)
          ensures j - LowBit(j) >= k
        {
          BetweenParent(k, j);
        }
        k := k + LowBit(k);
      }
      if i < n {
        ghost var before := values;
        values := values[i := values[i] + delta];
        forall j | 0 < j <= n
          ensures tree[j] == NodeSum(values, j)
        {
          SumUpdate(before, i, before[i] + delta, j - LowBit(j), j);
        }
      }
    }

    /** The inclusive prefix sum data[0] + ... + data[i]; 0 when i < 0. */
    method Query(i: int) returns (res: int)
      requires Valid() && i < n
      ensures res == if i < 0 then 0 else Sum(values, 0, i + 1)
    {
      var k := i + 1;
      res := 0;
      while k > 0
        invariant k <= n
        invariant res + (if k > 0 then Sum(values, 0, k) else 0)
                  == if i < 0 then 0 else Sum(values, 0, i + 1)
        decreases k
      {
        SumSplit(values, 0, k - LowBit(k), k);
        res := res + tree[k];
        k := k - LowBit(k);
      }
    }

    /**
     * Binary lifting over non-negative entries: the smallest 0-based index
     * whose inclusive prefix sum reaches target, or n when none does.
     */
    method FindPrefixIndex(target: int) returns (idx: nat)
      requires Valid()
      requires forall j :: 0 <= j < n ==> values[j] >= 0
      ensures idx <= n
      ensures idx < n ==> Sum(values, 0, idx + 1) >= target
      ensures forall k :: 0 < k <= idx ==> Sum(values, 0, k) < target
      ensures idx > 0 ==> Sum(values, 0, idx) < target
      ensures 1 <= target <= Sum(values, 0, n) ==> idx < n && values[idx] > 0
    {
      idx := 0;
      var rest := target;
      BitLengthBound(n);
      ghost var e: nat := BitLength(n);
      ghost var q: nat := 0;
      var mask: nat := Pow2(BitLength(n));
      while mask > 0
        invariant idx <= n
        invariant mask > 0 ==> mask == Pow2(e) && idx == 2 * mask * q
        invariant rest == target - Sum(values, 0, idx)
        invariant idx == 0 || Sum(values, 0, idx) < target
        invariant idx + Span(mask) > n || Sum(values, 0, idx + Span(mask)) >= target
        decreases mask
      {
        var next := idx + mask;
        HalveMask(idx, mask, e, q);
        LowBitOfLift(idx, e, q);
        if next <= n {
          assert tree[next] == Sum(values, idx, next);
          SumSplit(values, 0, idx, next);
        }
        if next <= n && tree[next] < rest {
          rest := rest - tree[next];
          idx := next;
          q := 2 * q + 1;
        } else {
          q := 2 * q;
        }
        if e > 0 {
          e := e - 1;
        }
        mask := mask / 2;
      }
      SearchEnd(values, idx, target);
    }
  }
}
