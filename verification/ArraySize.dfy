/**
  How large the array part of a table should be: counting the integer keys by slices between powers of
  two, and choosing the largest power of two more than half of whose slots are in use.
 */
module ArraySize {
  import opened Basics
  import opened HashPart

  const MAXBITS: nat := 26

  const MIN_INT: int := -0x8000_0000
  const MAX_INT: int := 0x7FFF_FFFF

  const MAXASIZE: nat := Pow2(MAXBITS)

  lemma {:induction false} Pow2Mono(i: nat, j: nat)
    requires i <= j
    ensures Pow2(i) <= Pow2(j) && (i < j ==> Pow2(i) <= Pow2(j) / 2)
  {
    if i < j { Pow2Mono(i, j - 1); }
  }

  /** `arrayindex`: the integer a key stands for, or -1. */
  function ArrayIndex(key: Key): int {
    if key.Number? && key.n.Floor as real == key.n && MIN_INT <= key.n.Floor <= MAX_INT then key.n.Floor else -1
  }

  predicate InArray(key: Key, size: nat) { 1 <= ArrayIndex(key) <= size }

  lemma IndexKey(key: Key)
    requires ArrayIndex(key) >= 0
    ensures key == Number(ArrayIndex(key) as real)
  {}

  /** The slice of powers of two that `k` lies in: `2^(i-1) < k <= 2^i`. */
  function CeilLog2(k: nat): (i: nat)
    requires k >= 1
    ensures Low(i) < k <= Pow2(i)
  {
    if k == 1 then 0 else 1 + CeilLog2((k + 1) / 2)
  }

  function Low(i: nat): nat { if i == 0 then 0 else Pow2(i - 1) }

  lemma SliceOf(k: nat, i: nat)
    requires k >= 1 && Low(i) < k <= Pow2(i)
    ensures i == CeilLog2(k)
  {
    var j := CeilLog2(k);
    if i < j { LowAbove(i, j); } else if j < i { LowAbove(j, i); }
  }

  lemma LowAbove(i: nat, j: nat)
    requires i < j
    ensures Pow2(i) <= Low(j)
  {
    Pow2Mono(i, j - 1);
  }

  // ------------------------------------------------------------------------------------------- counting

  predicate Between(k: int, lo: int, hi: int) { lo < k <= hi }

  /** How many positions of the array part, counted from 1, hold a value and lie in `(lo, hi]`. */
  function CountArr(arr: seq<Value>, lo: nat, hi: nat): nat {
    if arr == [] then 0
    else CountArr(arr[..|arr| - 1], lo, hi) + if Between(|arr|, lo, hi) && !arr[|arr| - 1].Nil? then 1 else 0
  }

  /** The integer a node's key stands for, if the node has a value. */
  function NodeIndex(n: Node): int { if n.val.Nil? || !n.key.Live? then -1 else ArrayIndex(n.key.k) }

  /** How many nodes hold a value under an integer key in `(lo, hi]`. */
  function CountHash(nodes: seq<Node>, lo: nat, hi: nat): nat {
    if nodes == [] then 0
    else CountHash(nodes[1..], lo, hi) + if Between(NodeIndex(nodes[0]), lo, hi) then 1 else 0
  }

  /** How many nodes hold a value. */
  function Values(nodes: seq<Node>): nat {
    if nodes == [] then 0 else Values(nodes[1..]) + if nodes[0].val.Nil? then 0 else 1
  }

  function CountKey(key: Key, lo: nat, hi: nat): nat { if Between(ArrayIndex(key), lo, hi) then 1 else 0 }

  /** The integer keys in `(lo, hi]`, of the table and the key to come. */
  function Count(arr: seq<Value>, nodes: seq<Node>, key: Key, lo: nat, hi: nat): nat {
    CountArr(arr, lo, hi) + CountHash(nodes, lo, hi) + CountKey(key, lo, hi)
  }

  lemma {:induction false} CountArrStep(arr: seq<Value>, lo: nat, hi: nat)
    requires lo <= hi < |arr|
    ensures CountArr(arr, lo, hi + 1) == CountArr(arr, lo, hi) + if arr[hi].Nil? then 0 else 1
  {
    var p := arr[..|arr| - 1];
    if hi < |p| { CountArrStep(p, lo, hi); } else { CountArrPast(p, lo, hi, hi + 1); }
  }

  /** Beyond the end there is nothing to count. */
  lemma {:induction false} CountArrPast(arr: seq<Value>, lo: nat, hi: nat, top: nat)
    requires |arr| <= hi <= top
    ensures CountArr(arr, lo, top) == CountArr(arr, lo, hi)
  {
    if arr != [] { CountArrPast(arr[..|arr| - 1], lo, hi, top); }
  }

  lemma {:induction false} CountArrNone(arr: seq<Value>, lo: nat, hi: nat)
    requires |arr| <= lo || hi <= lo
    ensures CountArr(arr, lo, hi) == 0
  {
    if arr != [] { CountArrNone(arr[..|arr| - 1], lo, hi); }
  }

  lemma {:induction false} CountArrSplit(arr: seq<Value>, lo: nat, mid: nat, hi: nat)
    requires lo <= mid <= hi
    ensures CountArr(arr, lo, hi) == CountArr(arr, lo, mid) + CountArr(arr, mid, hi)
  {
    if arr != [] { CountArrSplit(arr[..|arr| - 1], lo, mid, hi); }
  }

  lemma {:induction false} CountHashSplit(nodes: seq<Node>, lo: nat, mid: nat, hi: nat)
    requires lo <= mid <= hi
    ensures CountHash(nodes, lo, hi) == CountHash(nodes, lo, mid) + CountHash(nodes, mid, hi)
  {
    if nodes != [] { CountHashSplit(nodes[1..], lo, mid, hi); }
  }

  lemma {:induction false} CountHashConcat(a: seq<Node>, b: seq<Node>, lo: nat, hi: nat)
    ensures CountHash(a + b, lo, hi) == CountHash(a, lo, hi) + CountHash(b, lo, hi)
    ensures Values(a + b) == Values(a) + Values(b)
  {
    if a == [] {
      assert a + b == b;
    } else {
      CountHashConcat(a[1..], b, lo, hi);
      assert (a + b)[1..] == a[1..] + b;
    }
  }

  lemma {:induction false} CountHashLess(nodes: seq<Node>, lo: nat, hi: nat)
    ensures CountHash(nodes, lo, hi) <= Values(nodes) <= |nodes|
  {
    if nodes != [] { CountHashLess(nodes[1..], lo, hi); }
  }

  /** What `nums` must hold: one count for each slice. */
  ghost predicate Tallied(nums: seq<nat>, arr: seq<Value>, nodes: seq<Node>, key: Key) {
    |nums| == MAXBITS + 1 && forall i :: 0 <= i <= MAXBITS ==> nums[i] == Count(arr, nodes, key, Low(i), Pow2(i))
  }

  function Sum(nums: seq<nat>, i: nat): nat
    requires i <= |nums|
  {
    if i == 0 then 0 else Sum(nums, i - 1) + nums[i - 1]
  }

  /** The first `i+1` slices together are the keys up to `2^i`. */
  lemma CountSplit(arr: seq<Value>, nodes: seq<Node>, key: Key, lo: nat, mid: nat, hi: nat)
    requires lo <= mid <= hi
    ensures Count(arr, nodes, key, lo, hi) == Count(arr, nodes, key, lo, mid) + Count(arr, nodes, key, mid, hi)
  {
    CountArrSplit(arr, lo, mid, hi);
    CountHashSplit(nodes, lo, mid, hi);
    hide CountArr;
    hide CountHash;
    hide ArrayIndex;
  }

  lemma {:induction false} SumCounts(nums: seq<nat>, arr: seq<Value>, nodes: seq<Node>, key: Key, i: nat)
    requires Tallied(nums, arr, nodes, key) && i <= MAXBITS
    ensures Sum(nums, i + 1) == Count(arr, nodes, key, 0, Pow2(i))
  {
    hide Count;
    LowPow2(i);
    hide Pow2;
    hide Low;
    assert Sum(nums, i + 1) == Sum(nums, i) + Count(arr, nodes, key, Low(i), Pow2(i));
    if i == 0 {
      assert Sum(nums, 0) == 0;
    } else {
      SumCounts(nums, arr, nodes, key, i - 1);
      CountSplit(arr, nodes, key, 0, Low(i), Pow2(i));
    }
  }

  lemma LowPow2(i: nat)
    ensures Low(i) == (if i == 0 then 0 else Pow2(i - 1)) && Low(i) <= Pow2(i)
  {
  }

  lemma {:induction false} SumMono(nums: seq<nat>, i: nat, j: nat)
    requires i <= j <= |nums|
    ensures Sum(nums, i) <= Sum(nums, j)
  {
    if i < j { SumMono(nums, i, j - 1); }
  }

  // --------------------------------------------------------------------- no more keys than slots for them

  ghost function ArrSet(arr: seq<Value>, lo: nat, hi: nat): set<int> {
    set p | 1 <= p <= |arr| && !arr[p - 1].Nil? && Between(p, lo, hi)
  }

  ghost function HashSet(nodes: seq<Node>, lo: nat, hi: nat): set<int> {
    set i | 0 <= i < |nodes| && Between(NodeIndex(nodes[i]), lo, hi) :: NodeIndex(nodes[i])
  }

  lemma {:induction false} ArrSetSize(arr: seq<Value>, lo: nat, hi: nat)
    ensures |ArrSet(arr, lo, hi)| == CountArr(arr, lo, hi)
  {
    if arr != [] {
      var p := arr[..|arr| - 1];
      ArrSetSize(p, lo, hi);
      var more := if Between(|arr|, lo, hi) && !arr[|arr| - 1].Nil? then {|arr|} else {};
      assert ArrSet(arr, lo, hi) == ArrSet(p, lo, hi) + more;
    } else {
      assert ArrSet(arr, lo, hi) == {};
    }
  }

  /** No integer is the key of two nodes that hold a value. */
  ghost predicate OneEach(nodes: seq<Node>) {
    forall i, j ::
      0 <= i < |nodes| && 0 <= j < |nodes| && NodeIndex(nodes[i]) >= 0 && NodeIndex(nodes[i]) == NodeIndex(nodes[j])
      ==> i == j
  }

  lemma KeyedOneEach(nodes: seq<Node>)
    requires Keyed(nodes)
    ensures OneEach(nodes)
  {
    forall i, j | 0 <= i < |nodes| && 0 <= j < |nodes| && NodeIndex(nodes[i]) >= 0
      && NodeIndex(nodes[i]) == NodeIndex(nodes[j])
      ensures i == j
    {
      IndexKey(nodes[i].key.k);
      IndexKey(nodes[j].key.k);
      assert nodes[i].key == nodes[j].key;
    }
  }

  lemma HashSetHead(nodes: seq<Node>, lo: nat, hi: nat)
    requires nodes != [] && OneEach(nodes)
    ensures OneEach(nodes[1..])
    ensures HashSet(nodes, lo, hi) ==
            HashSet(nodes[1..], lo, hi) + if Between(NodeIndex(nodes[0]), lo, hi) then {NodeIndex(nodes[0])} else {}
    ensures Between(NodeIndex(nodes[0]), lo, hi) ==> NodeIndex(nodes[0]) !in HashSet(nodes[1..], lo, hi)
  {
    var r := nodes[1..];
    hide NodeIndex;
    assert forall i :: 0 <= i < |r| ==> r[i] == nodes[i + 1];
    forall x | x in HashSet(nodes, lo, hi) && x != NodeIndex(nodes[0]) ensures x in HashSet(r, lo, hi) {
      var i :| 0 <= i < |nodes| && Between(NodeIndex(nodes[i]), lo, hi) && NodeIndex(nodes[i]) == x;
      assert nodes[i] == r[i - 1];
    }
    forall x | x in HashSet(r, lo, hi) ensures x in HashSet(nodes, lo, hi) {
      var i :| 0 <= i < |r| && Between(NodeIndex(r[i]), lo, hi) && NodeIndex(r[i]) == x;
      assert nodes[i + 1] == r[i];
    }
  }

  lemma {:induction false} HashSetSize(nodes: seq<Node>, lo: nat, hi: nat)
    requires OneEach(nodes)
    ensures |HashSet(nodes, lo, hi)| == CountHash(nodes, lo, hi)
  {
    if nodes != [] {
      HashSetHead(nodes, lo, hi);
      hide OneEach;
      HashSetSize(nodes[1..], lo, hi);
      hide HashSet;
    } else {
      assert HashSet(nodes, lo, hi) == {};
    }
  }

  lemma {:induction false} RangeSize(s: set<int>, m: nat)
    requires forall x :: x in s ==> 1 <= x <= m
    ensures |s| <= m
  {
    if m == 0 {
      assert forall x :: x !in s;
    } else {
      RangeSize(s - {m}, m - 1);
    }
  }

  /** Three disjoint sources of keys: the array part, the hash part, and the key to come. */
  ghost predicate Apart(arr: seq<Value>, nodes: seq<Node>, key: Key) {
    && OneEach(nodes)
    && (forall i :: 0 <= i < |nodes| ==> NodeIndex(nodes[i]) <= 0 || NodeIndex(nodes[i]) > |arr|)
    && (forall i :: 0 <= i < |nodes| ==> ArrayIndex(key) <= 0 || NodeIndex(nodes[i]) != ArrayIndex(key))
    && (ArrayIndex(key) <= 0 || ArrayIndex(key) > |arr|)
  }

  lemma CountBound(arr: seq<Value>, nodes: seq<Node>, key: Key, m: nat)
    requires Apart(arr, nodes, key)
    ensures Count(arr, nodes, key, 0, m) <= m
  {
    ArrSetSize(arr, 0, m);
    HashSetSize(nodes, 0, m);
    var a, h := ArrSet(arr, 0, m), HashSet(nodes, 0, m);
    var k := if Between(ArrayIndex(key), 0, m) then {ArrayIndex(key)} else {};
    assert a !! h;
    assert (a + h) !! k;
    RangeSize(a + h + k, m);
  }

  // ---------------------------------------------------------------------------------------- the choice

  /** More than half of the slots `1 .. 2^i` are in use. */
  predicate Dense(nums: seq<nat>, i: nat)
    requires i < |nums|
  {
    Sum(nums, i + 1) > Pow2(i) / 2
  }

  /** `n` is the largest power of two more than half of whose slots are in use, or 0; `na` is how many they are. */
  ghost predicate Best(nums: seq<nat>, n: nat, na: nat) {
    || (n == 0 && na == 0 && forall i :: 0 <= i < |nums| ==> !Dense(nums, i))
    || exists j :: 0 <= j < |nums| && BestAt(nums, n, na, j)
  }

  ghost predicate BestAt(nums: seq<nat>, n: nat, na: nat, j: nat)
    requires j < |nums|
  {
    n == Pow2(j) && na == Sum(nums, j + 1) && Dense(nums, j) && forall i :: j < i < |nums| ==> !Dense(nums, i)
  }

  /** With no more than half of a size in all, it and the larger ones are too large. */
  lemma Sparse(nums: seq<nat>, m: nat)
    requires Sum(nums, |nums|) <= Pow2(m) / 2
    ensures forall k :: m <= k < |nums| ==> !Dense(nums, k)
  {
    forall k | m <= k < |nums| ensures !Dense(nums, k) {
      SumMono(nums, k + 1, |nums|);
      Pow2Mono(m, k);
    }
  }

  /** `computesizes`. */
  method ComputeSizes(nums: seq<nat>, narray: nat) returns (n: nat, na: nat)
    requires |nums| == MAXBITS + 1 && Sum(nums, |nums|) == narray
    requires forall i :: 0 <= i < |nums| ==> Sum(nums, i + 1) <= Pow2(i)
    ensures Best(nums, n, na)
  {
    var i, twotoi, a := 0, 1, 0;
    n, na := 0, 0;
    ghost var j := 0;
    while twotoi / 2 < narray
      invariant i <= |nums| && twotoi == Pow2(i) && a == Sum(nums, i) && (i > 0 ==> a < narray)
      invariant n == 0 ==> na == 0 && forall k :: 0 <= k < i ==> !Dense(nums, k)
      invariant n != 0 ==> j < i && n == Pow2(j) && na == Sum(nums, j + 1) && Dense(nums, j)
                           && forall k :: j < k < i ==> !Dense(nums, k)
      decreases |nums| - i
    {
      SumMono(nums, i + 1, |nums|);
      if nums[i] > 0 {
        a := a + nums[i];
        if a > twotoi / 2 {
          n, na, j := twotoi, a, i;
        }
      }
      if a == narray {
        Sparse(nums, i + 1);
        assert n != 0 ==> BestAt(nums, n, na, j);
        return;
      }
      i := i + 1;
      twotoi := twotoi * 2;
    }
    Sparse(nums, i);
    assert n != 0 ==> BestAt(nums, n, na, j);
  }
}
