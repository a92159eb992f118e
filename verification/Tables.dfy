/**
  Tables: an array part for small integer keys and a hash part for the rest, both resized together when
  the hash part is full.
 */
module Tables {
  import opened Basics
  import opened HashPart
  import opened ArraySize

  /** The value of a key in a table with these two parts. */
  ghost function Lookup(arr: seq<Value>, nodes: seq<Node>, key: Key): Value {
    if InArray(key, |arr|) then arr[ArrayIndex(key) - 1] else InHash(nodes, key)
  }

  predicate Proper(key: Key) { !key.NilKey? && !key.NaN? }

  ghost predicate PowerOfTwo(n: nat) { exists i :: 0 <= i <= MAXBITS && n == Pow2(i) }

  /** No key of the hash part belongs to the array part. */
  ghost predicate Outside(arr: seq<Value>, nodes: seq<Node>) {
    forall i :: 0 <= i < |nodes| && nodes[i].key.Live? ==> !InArray(nodes[i].key.k, |arr|)
  }

  /** An array part of `size` slots: what there was, as far as it fits, and empty slots after that. */
  function Resized(arr: seq<Value>, size: nat): (r: seq<Value>)
    ensures |r| == size
  {
    if size <= |arr| then arr[..size] else arr + seq(size - |arr|, _ => Nil)
  }

  const EMPTY: Node := Node(Free, Nil, NONE)

  lemma EmptyGood(H: NumberHash, n: nat)
    ensures var nodes := seq(n, _ => EMPTY);
      && Good(H, nodes, Layout(seq(n, _ => 0), seq(n, _ => 0), 0, 0))
      && (forall key :: InHash(nodes, key) == Nil && !Holds(nodes, key)) && Used(nodes) == 0
  {
    var nodes := seq(n, _ => EMPTY);
    NoneUsed(nodes);
  }

  lemma {:induction false} NoneUsed(nodes: seq<Node>)
    requires forall i :: 0 <= i < |nodes| ==> nodes[i].key.Free?
    ensures Used(nodes) == 0
  {
    if nodes != [] { NoneUsed(nodes[..|nodes| - 1]); }
  }

  /** Where the value of a key is kept. */
  ghost predicate Keeps(arr: seq<Value>, nodes: seq<Node>, key: Key, p: Place) {
    match p
    case Nowhere => !InArray(key, |arr|) && !Holds(nodes, key)
    case Slot(i) => InArray(key, |arr|) && i == ArrayIndex(key) - 1
    case NodeAt(i) => !InArray(key, |arr|) && i < |nodes| && nodes[i].key == Live(key)
  }

  lemma KeepsLookup(arr: seq<Value>, nodes: seq<Node>, key: Key, p: Place)
    requires Keyed(nodes) && Keeps(arr, nodes, key, p)
    ensures Lookup(arr, nodes, key) ==
            match p case Nowhere => Nil case Slot(i) => arr[i] case NodeAt(i) => nodes[i].val
  {
    if p.NodeAt? { InHashAt(nodes, p.at); }
  }

  /** The values in nodes that stay in the hash part when the array part has `n` slots. */
  function Stay(nodes: seq<Node>, n: nat): nat {
    CountHashLess(nodes, 0, n);
    Values(nodes) - CountHash(nodes, 0, n)
  }

  /** The values a table holds that will need a node when its array part has `n` slots. */
  function Pending(arr: seq<Value>, nodes: seq<Node>, n: nat): nat { CountArr(arr, n, |arr|) + Stay(nodes, n) }

  /** There are not yet as many values as a table can have nodes. */
  predicate Room(arr: seq<Value>, nodes: seq<Node>) { CountArr(arr, 0, |arr|) + Values(nodes) < MAXASIZE }

  /** What the first `i` slots of the old array part held. */
  ghost function ArrPart(oldarr: seq<Value>, i: nat, q: Key): Value {
    if InArray(q, i) && i <= |oldarr| then oldarr[ArrayIndex(q) - 1] else Nil
  }

  lemma IndexOfInt(k: nat)
    requires 1 <= k <= MAXASIZE
    ensures ArrayIndex(Number(k as real)) == k
    ensures forall q :: ArrayIndex(q) == k ==> q == Number(k as real)
  {
    MaxSize();
    forall q | ArrayIndex(q) == k ensures q == Number(k as real) { IndexKey(q); }
  }

  lemma MaxSize()
    ensures MAXASIZE == 0x400_0000
  {
    assert Pow2(8) == 256;
    assert Pow2(16) == 256 * 256;
    assert Pow2(24) == 256 * 256 * 256;
  }

  lemma ArrPartNext(oldarr: seq<Value>, i: nat)
    requires i < |oldarr| && ArrayIndex(Number((i + 1) as real)) == i + 1
    requires forall q :: ArrayIndex(q) == i + 1 ==> q == Number((i + 1) as real)
    ensures forall q :: ArrPart(oldarr, i + 1, q) ==
              if q == Number((i + 1) as real) then oldarr[i] else ArrPart(oldarr, i, q)
  {
    forall q
      ensures ArrPart(oldarr, i + 1, q) == if q == Number((i + 1) as real) then oldarr[i] else ArrPart(oldarr, i, q)
    {
      assert ArrayIndex(q) == i + 1 <==> q == Number((i + 1) as real);
    }
  }

  /** With the hash part empty, only what is left of the array part is there. */
  lemma StartOver(oldarr: seq<Value>, arr: seq<Value>, nodes: seq<Node>)
    requires arr == Resized(oldarr, |arr|) && forall q :: InHash(nodes, q) == Nil
    ensures forall q :: Lookup(arr, nodes, q) ==
              ArrPart(oldarr, if |arr| < |oldarr| then |arr| else |oldarr|, q)
  {}

  lemma NothingYet(oldarr: seq<Value>, nold: seq<Node>, n: nat)
    ensures nold[|nold|..] == [] && Stay(nold[|nold|..], n) == 0
    ensures forall q :: Lookup(oldarr, nold[|nold|..], q) == ArrPart(oldarr, |oldarr|, q)
  {}

  lemma StayNext(nodes: seq<Node>, i: nat, n: nat)
    requires i < |nodes|
    ensures Stay(nodes[i..], n) == Stay(nodes[i + 1..], n) +
              if nodes[i].val.Nil? || Between(NodeIndex(nodes[i]), 0, n) then 0 else 1
    ensures Stay(nodes[i..], n) <= Stay(nodes, n)
  {
    assert nodes[i..][1..] == nodes[i + 1..];
    assert nodes == nodes[..i] + nodes[i..];
    CountHashConcat(nodes[..i], nodes[i..], 0, n);
    CountHashLess(nodes[..i], 0, n);
  }

  /** Only live keys have values. */
  ghost predicate ValuesLive(nodes: seq<Node>) {
    forall i :: 0 <= i < |nodes| && !nodes[i].val.Nil? ==> nodes[i].key.Live?
  }

  lemma GoodLive(H: NumberHash, nodes: seq<Node>, l: Layout)
    requires Good(H, nodes, l)
    ensures ValuesLive(nodes) && Keyed(nodes)
  {}

  lemma SlicesOf(i: nat)
    requires 1 <= i <= MAXASIZE
    ensures forall k :: 0 <= k <= MAXBITS ==> (Between(i, Low(k), Pow2(k)) <==> k == CeilLog2(i))
  {
    forall k | 0 <= k <= MAXBITS && Low(k) < i <= Pow2(k) ensures k == CeilLog2(i) { SliceOf(i, k); }
  }

  lemma NoSlice(i: int)
    requires i <= 0 || i > MAXASIZE
    ensures forall k :: 0 <= k <= MAXBITS ==> !Between(i, Low(k), Pow2(k))
  {
    forall k | 0 <= k <= MAXBITS ensures Pow2(k) <= MAXASIZE { Pow2Mono(k, MAXBITS); }
  }

  /** Slices beyond the end of the array part are empty. */
  lemma NoMore(arr: seq<Value>, lg: nat)
    requires Low(lg) >= |arr|
    ensures forall k :: lg <= k <= MAXBITS ==> CountArr(arr, Low(k), Pow2(k)) == 0
  {
    forall k | lg <= k <= MAXBITS ensures CountArr(arr, Low(k), Pow2(k)) == 0 {
      LowMono(lg, k);
      CountArrNone(arr, Low(k), Pow2(k));
    }
  }

  lemma Doubling(i: nat)
    ensures Pow2(i + 1) == 2 * Pow2(i) && Low(i + 1) == Pow2(i) && Pow2(0) == 1 && Low(0) == 0 && Low(i) <= Pow2(i)
  {}

  /** What one round of `numusearray` counts. */
  lemma Slice(arr: seq<Value>, lg: nat, i: nat, lim: nat)
    requires i == Low(lg) + 1 <= |arr| + 1 && lim == if Pow2(lg) > |arr| then |arr| else Pow2(lg)
    ensures i <= lim + 1 && CountArr(arr, i - 1, lim) == CountArr(arr, Low(lg), Pow2(lg))
    ensures CountArr(arr, 0, lim) == CountArr(arr, 0, i - 1) + CountArr(arr, i - 1, lim)
  {
    if Pow2(lg) > |arr| { CountArrPast(arr, i - 1, lim, Pow2(lg)); }
    CountArrSplit(arr, 0, i - 1, lim);
  }

  lemma LowMono(i: nat, j: nat)
    requires i <= j
    ensures Low(i) <= Low(j)
  {
    if 0 < i { Pow2Mono(i - 1, j - 1); }
  }

  /** The size `rehash` looks for: the largest power of two more than half of whose slots will be in use. */
  ghost predicate BestSize(arr: seq<Value>, nodes: seq<Node>, key: Key, n: nat) {
    && (n == 0 || exists j :: 0 <= j <= MAXBITS && n == Pow2(j) && Count(arr, nodes, key, 0, n) > n / 2)
    && (forall j :: 0 <= j <= MAXBITS && Count(arr, nodes, key, 0, Pow2(j)) > Pow2(j) / 2 ==> Pow2(j) <= n)
  }

  /** The slices counted by `rehash` are those of the keys there will be, and no more than there are slots. */
  lemma CountedAll(arr: seq<Value>, nodes: seq<Node>, key: Key, nums: seq<nat>, narray: nat)
    requires Keyed(nodes) && Outside(arr, nodes) && Keeps(arr, nodes, key, Nowhere) && |arr| <= MAXASIZE
    requires |nums| == MAXBITS + 1
    requires forall k :: 0 <= k <= MAXBITS ==>
               nums[k] == CountArr(arr, Low(k), Pow2(k)) + CountHash(nodes, Low(k), Pow2(k)) + CountKey(key, Low(k),
                                                                                                        Pow2(k))
    requires narray == CountArr(arr, 0, |arr|) + CountHash(nodes, 0, MAXASIZE) + CountKey(key, 0, MAXASIZE)
    ensures Tallied(nums, arr, nodes, key) && Sum(nums, |nums|) == narray
    ensures forall i :: 0 <= i < |nums| ==> Sum(nums, i + 1) <= Pow2(i)
  {
    hide CountArr;
    hide CountHash;
    hide Low;
    hide Pow2;
    hide Sum;
    assert Tallied(nums, arr, nodes, key);
    SumCounts(nums, arr, nodes, key, MAXBITS);
    CountArrPast(arr, 0, |arr|, MAXASIZE);
    hide Tallied;
    AllApart(arr, nodes, key);
    hide Outside;
    hide Keyed;
    hide Apart;
    forall i | 0 <= i < |nums| ensures Sum(nums, i + 1) <= Pow2(i) {
      SumCounts(nums, arr, nodes, key, i);
      CountBound(arr, nodes, key, Pow2(i));
    }
  }

  lemma AllApart(arr: seq<Value>, nodes: seq<Node>, key: Key)
    requires Keyed(nodes) && Outside(arr, nodes) && Keeps(arr, nodes, key, Nowhere)
    ensures Apart(arr, nodes, key)
  {
    KeyedOneEach(nodes);
    hide OneEach;
    forall i | 0 <= i < |nodes| && ArrayIndex(key) > 0 ensures NodeIndex(nodes[i]) != ArrayIndex(key) {
      if NodeIndex(nodes[i]) == ArrayIndex(key) { SameIndex(nodes[i], key); }
    }
  }

  lemma SameIndex(n: Node, key: Key)
    requires NodeIndex(n) == ArrayIndex(key) > 0
    ensures n.key == Live(key)
  {
    IndexKey(key);
    IndexKey(n.key.k);
  }

  /** What follows from the choice of `computesizes`. */
  lemma Chosen(arr: seq<Value>, nodes: seq<Node>, key: Key, nums: seq<nat>, n: nat, na: nat)
    requires Tallied(nums, arr, nodes, key) && |nums| == MAXBITS + 1 && Best(nums, n, na)
    ensures BestSize(arr, nodes, key, n) && n <= MAXASIZE && na == Count(arr, nodes, key, 0, n)
    ensures na + Pending(arr, nodes, n) == CountArr(arr, 0, |arr|) + Values(nodes) + CountKey(key, 0, n)
  {
    hide Count;
    hide Pow2;
    hide Tallied;
    if n == 0 && na == 0 && forall i :: 0 <= i < |nums| ==> !Dense(nums, i) {
      forall j | 0 <= j <= MAXBITS ensures Count(arr, nodes, key, 0, Pow2(j)) <= Pow2(j) / 2 {
        assert !Dense(nums, j);
        SumCounts(nums, arr, nodes, key, j);
      }
    } else {
      var j :| 0 <= j < |nums| && BestAt(nums, n, na, j);
      SumCounts(nums, arr, nodes, key, j);
      Pow2Mono(j, MAXBITS);
      forall i | 0 <= i <= MAXBITS && Count(arr, nodes, key, 0, Pow2(i)) > Pow2(i) / 2 ensures Pow2(i) <= n {
        SumCounts(nums, arr, nodes, key, i);
        assert Dense(nums, i);
        if i <= j { Pow2Mono(i, j); }
      }
    }
    ChosenPending(arr, nodes, key, n);
  }

  lemma ChosenPending(arr: seq<Value>, nodes: seq<Node>, key: Key, n: nat)
    ensures n == 0 ==> Count(arr, nodes, key, 0, n) == 0
    ensures Count(arr, nodes, key, 0, n) + Pending(arr, nodes, n) ==
            CountArr(arr, 0, |arr|) + Values(nodes) + CountKey(key, 0, n)
  {
    CountHashLess(nodes, 0, n);
    if n == 0 {
      CountArrNone(arr, 0, 0);
      CountHashNone(nodes, 0, 0);
    }
    if n <= |arr| {
      CountArrSplit(arr, 0, n, |arr|);
    } else {
      CountArrPast(arr, 0, |arr|, n);
      CountArrNone(arr, n, |arr|);
    }
  }

  lemma {:induction false} CountHashNone(nodes: seq<Node>, lo: nat, hi: nat)
    requires hi <= lo
    ensures CountHash(nodes, lo, hi) == 0
  {
    if nodes != [] { CountHashNone(nodes[1..], lo, hi); }
  }

  lemma SuffixKeyed(nodes: seq<Node>, i: nat)
    requires Keyed(nodes) && i <= |nodes|
    ensures Keyed(nodes[i..])
  {
    var m := nodes[i..];
    assert forall j :: 0 <= j < |m| ==> m[j] == nodes[j + i];
    assert forall j :: Taken(m, j) ==> Taken(nodes, j + i);
  }

  /** One more node of the old hash part. */
  lemma LookupNext(oldarr: seq<Value>, nodes: seq<Node>, i: nat)
    requires Keyed(nodes) && Outside(oldarr, nodes) && i < |nodes|
    ensures forall q :: Lookup(oldarr, nodes[i..], q) ==
              if !nodes[i].val.Nil? && nodes[i].key == Live(q) then nodes[i].val else Lookup(oldarr, nodes[i + 1..], q)
  {
    SuffixKeyed(nodes, i);
    SuffixKeyed(nodes, i + 1);
    var a, b := nodes[i..], nodes[i + 1..];
    forall q ensures InHash(a, q) == if nodes[i].key == Live(q) then nodes[i].val else InHash(b, q) {
      if nodes[i].key == Live(q) {
        InHashAt(a, 0);
      } else {
        forall j | 0 <= j < |a| && a[j].key == Live(q)
          ensures exists k :: 0 <= k < |b| && b[k].key == Live(q) && b[k].val == a[j].val
        {
          assert b[j - 1] == a[j];
        }
        forall j | 0 <= j < |b| && b[j].key == Live(q)
          ensures exists k :: 0 <= k < |a| && a[k].key == Live(q)
        {
          assert a[j + 1] == b[j];
        }
        InHashSame(a, b, q);
      }
    }
    forall q | nodes[i].val.Nil? && nodes[i].key == Live(q) ensures InHash(b, q) == Nil {
      forall j | 0 <= j < |b| ensures b[j].key != Live(q) { assert b[j] == nodes[j + i + 1]; }
    }
    hide InHash;
  }

  lemma SliceBound(size: nat)
    requires 1 <= size <= MAXASIZE
    ensures CeilLog2(size) <= MAXBITS
  {
    if CeilLog2(size) > MAXBITS { LowAbove(MAXBITS, CeilLog2(size)); }
  }

  lemma ImproperNowhere(arr: seq<Value>, nodes: seq<Node>, l: Layout, H: NumberHash, key: Key)
    requires Good(H, nodes, l)
    ensures !Proper(key) ==> !InArray(key, |arr|) && !Holds(nodes, key)
  {}

  lemma {:induction false} AllUsed(nodes: seq<Node>)
    requires forall i :: 0 <= i < |nodes| ==> Taken(nodes, i)
    ensures Used(nodes) == |nodes|
  {
    if nodes != [] {
      var p := nodes[..|nodes| - 1];
      forall i | 0 <= i < |p| ensures Taken(p, i) { assert Taken(nodes, i); }
      assert Taken(nodes, |nodes| - 1);
      AllUsed(p);
    }
  }

  lemma HasKey(H: NumberHash, nodes: seq<Node>, l: Layout, i: nat)
    requires Good(H, nodes, l) && i < |nodes| && nodes[i].val != Nil
    ensures nodes[i].key.Live?
  {}

  lemma NotHeld(nodes: seq<Node>, key: Key)
    requires !Holds(nodes, key) && Proper(key)
    ensures Fresh(nodes, key)
  {}

  lemma StillTaken(nodes: seq<Node>, m: seq<Node>, from: nat)
    requires |m| == |nodes| && (forall i :: Taken(nodes, i) ==> Taken(m, i))
    requires forall i :: from <= i < |nodes| ==> Taken(nodes, i)
    ensures forall i :: from <= i < |m| ==> Taken(m, i)
  {}

  lemma LayoutSize(nodes: seq<Node>, l: Layout)
    requires Chained(nodes, l)
    ensures |l.chain| == |l.depth| == |nodes|
  {}

  /** `m` has no keys but those of `nodes` and the new one. */
  ghost predicate OnlyNew(nodes: seq<Node>, m: seq<Node>, key: Key) {
    forall i :: 0 <= i < |m| && m[i].key.Live? && m[i].key != Live(key) ==> Holds(nodes, m[i].key.k)
  }

  /** A new key, without a value as yet, changes no lookup. */
  lemma Inserted(arr: seq<Value>, nodes: seq<Node>, m: seq<Node>, at: nat, key: Key)
    requires Inserts(nodes, m, at, key) && !Holds(nodes, key) && Keyed(m)
    requires Outside(arr, nodes) && !InArray(key, |arr|) && OnlyNew(nodes, m, key)
    ensures forall q :: Lookup(arr, m, q) == Lookup(arr, nodes, q)
    ensures Outside(arr, m) && Keeps(arr, m, key, NodeAt(at))
  {
    InHashAt(m, at);
    assert InHash(nodes, key) == Nil;
    forall i | 0 <= i < |m| && m[i].key.Live? ensures !InArray(m[i].key.k, |arr|) {
      if m[i].key != Live(key) { assert Holds(nodes, m[i].key.k); }
    }
    hide InHash;
  }

  lemma MovedUsed(nodes: seq<Node>, mp: nat, prev: nat, n: nat, key: Key)
    requires Taken(nodes, mp) && Taken(nodes, prev) && prev != mp && n < |nodes| && nodes[n].key.Free?
    ensures Used(Moved(nodes, mp, prev, n, key)) == Used(nodes) + 1
  {
    var a := nodes[prev := nodes[prev].(next := n)];
    UsedUpdate(nodes, prev, nodes[prev].(next := n));
    UsedUpdate(a, n, nodes[mp]);
    UsedUpdate(a[n := nodes[mp]], mp, Node(Live(key), Nil, NONE));
    hide Used;
  }

  lemma MovedOnlyNew(nodes: seq<Node>, mp: nat, prev: nat, n: nat, key: Key)
    requires Taken(nodes, mp) && Taken(nodes, prev) && prev != mp && n < |nodes| && nodes[n].key.Free?
    ensures OnlyNew(nodes, Moved(nodes, mp, prev, n, key), key)
  {
    var m := Moved(nodes, mp, prev, n, key);
    forall i | 0 <= i < |m| && m[i].key.Live? && m[i].key != Live(key) ensures Holds(nodes, m[i].key.k) {
      assert m[i].key == nodes[if i == n then mp else i].key;
    }
  }

  lemma AppendedUsed(nodes: seq<Node>, mp: nat, n: nat, key: Key)
    requires Taken(nodes, mp) && n < |nodes| && nodes[n].key.Free?
    ensures Used(Appended(nodes, mp, n, key)) == Used(nodes) + 1
    ensures OnlyNew(nodes, Appended(nodes, mp, n, key), key)
  {
    var x := Node(Live(key), nodes[n].val, nodes[mp].next);
    UsedUpdate(nodes, n, x);
    UsedUpdate(nodes[n := x], mp, nodes[mp].(next := n));
    hide Used;
    var m := Appended(nodes, mp, n, key);
    forall i | 0 <= i < |m| && m[i].key.Live? && m[i].key != Live(key) ensures Holds(nodes, m[i].key.k) {
      assert m[i].key == nodes[i].key;
    }
  }

  lemma SameDepth(nodes: seq<Node>, l: Layout, i: int, j: int)
    requires Chained(nodes, l) && Below(nodes, l, i, j) && Below(nodes, l, j, i)
    ensures i == j
  {}

  /** A live key, and a node with the same key above it: the same node. */
  lemma SameNode(nodes: seq<Node>, l: Layout, n: int, m: int)
    requires Chained(nodes, l) && Keyed(nodes) && LiveFirst(nodes, l) && Below(nodes, l, n, m)
    requires nodes[m].key.Live? && nodes[n].key.k == nodes[m].key.k
    ensures n == m
  {
    if nodes[n].key.Gone? {
      assert Below(nodes, l, m, n);
      hide LiveFirst;
      SameDepth(nodes, l, m, n);
    }
  }

  lemma NodeWritten(H: NumberHash, arr: seq<Value>, nodes: seq<Node>, l: Layout, lastfree: nat, i: nat, v: Value,
                    key: Key)
    requires Good(H, nodes, l) && Outside(arr, nodes) && i < |nodes| && nodes[i].key == Live(key)
    requires !InArray(key, |arr|)
    requires forall j :: lastfree <= j < |nodes| ==> Taken(nodes, j)
    ensures var m := Written(nodes, i, v);
      && Good(H, m, l) && Outside(arr, m) && |m| == |nodes| && m[i].key == Live(key) && Used(m) == Used(nodes)
      && (forall j :: lastfree <= j < |m| ==> Taken(m, j))
      && forall q :: Lookup(arr, m, q) == if q == key then v else Lookup(arr, nodes, q)
  {
    WrittenGood(H, nodes, l, i, v);
    UsedUpdate(nodes, i, nodes[i].(val := v));
    hide Good;
    hide InHash;
    hide Used;
    var m := Written(nodes, i, v);
    forall j | 0 <= j < |m| ensures m[j].key == nodes[j].key && Taken(m, j) == Taken(nodes, j) {}
    assert Outside(arr, m);
  }

  lemma EntryGone(H: NumberHash, arr: seq<Value>, nodes: seq<Node>, l: Layout, lastfree: nat, i: nat)
    requires Good(H, nodes, l) && Outside(arr, nodes) && i < |nodes| && nodes[i].key.Live? && nodes[i].val.Nil?
    requires forall j :: lastfree <= j < |nodes| ==> Taken(nodes, j)
    ensures var m := nodes[i := nodes[i].(key := Gone(nodes[i].key.k))];
      && Good(H, m, l) && Outside(arr, m) && (forall j :: lastfree <= j < |m| ==> Taken(m, j))
      && forall q :: Lookup(arr, m, q) == Lookup(arr, nodes, q)
  {
    GoneGood(H, nodes, l, i);
    hide Good;
    hide InHash;
    var m := nodes[i := nodes[i].(key := Gone(nodes[i].key.k))];
    StillTaken(nodes, m, lastfree);
    assert Outside(arr, m);
  }

  /** A collected key leaves everything where it was. */
  lemma GoneGood(H: NumberHash, nodes: seq<Node>, l: Layout, i: nat)
    requires Good(H, nodes, l) && i < |nodes| && nodes[i].key.Live? && nodes[i].val.Nil?
    ensures var m := nodes[i := nodes[i].(key := Gone(nodes[i].key.k))];
      Good(H, m, l) && forall q :: InHash(m, q) == InHash(nodes, q)
  {
    var m := nodes[i := nodes[i].(key := Gone(nodes[i].key.k))];
    hide LiveFirst;
    hide Keyed;
    hide Chained;
    hide Placed;
    hide InHash;
    hide Main;
    GoneKeyed(nodes, i);
    GoneFirst(nodes, l, i);
    GoneChained(nodes, l, i);
    GonePlaced(H, nodes, l, i);
  }

  lemma GonePlaced(H: NumberHash, nodes: seq<Node>, l: Layout, i: nat)
    requires Chained(nodes, l) && Placed(H, nodes, l) && i < |nodes| && nodes[i].key.Live?
    ensures Placed(H, nodes[i := nodes[i].(key := Gone(nodes[i].key.k))], l)
  {
    var m := nodes[i := nodes[i].(key := Gone(nodes[i].key.k))];
    hide Main;
    assert |l.chain| == |l.depth| == |nodes|;
    hide Chained;
    assert forall j :: (Taken(m, j) <==> Taken(nodes, j)) && (Taken(m, j) ==> MainOf(H, m, j) == MainOf(H, nodes, j));
    forall j | Taken(m, j) ensures Below(m, l, MainOf(H, m, j), j) { assert Below(nodes, l, MainOf(H, nodes, j), j); }
  }

  lemma GoneFirst(nodes: seq<Node>, l: Layout, i: nat)
    requires LiveFirst(nodes, l) && Keyed(nodes) && i < |nodes| && nodes[i].key.Live?
    ensures LiveFirst(nodes[i := nodes[i].(key := Gone(nodes[i].key.k))], l)
  {
    var m := nodes[i := nodes[i].(key := Gone(nodes[i].key.k))];
    forall a, b | 0 <= a < |m| && 0 <= b < |m| && m[a].key.Live? && m[b].key == Gone(m[a].key.k)
      ensures Below(m, l, a, b)
    {
      assert a != i && nodes[a] == m[a];
      assert b != i ==> Below(nodes, l, a, b);
    }
  }

  lemma GoneChained(nodes: seq<Node>, l: Layout, i: nat)
    requires Chained(nodes, l) && i < |nodes| && nodes[i].key.Live?
    ensures Chained(nodes[i := nodes[i].(key := Gone(nodes[i].key.k))], l)
  {
    var m := nodes[i := nodes[i].(key := Gone(nodes[i].key.k))];
    assert forall j :: Taken(m, j) == Taken(nodes, j) && (0 <= j < |m| ==> m[j].next == nodes[j].next);
    assert Ends(m, l) && Links(m, l);
    hide Ends;
    hide Links;
    assert Distinct(m, l);
    hide Distinct;
  }

  lemma GoneKeyed(nodes: seq<Node>, i: nat)
    requires Keyed(nodes) && i < |nodes| && nodes[i].key.Live? && nodes[i].val.Nil?
    ensures var m := nodes[i := nodes[i].(key := Gone(nodes[i].key.k))];
      Keyed(m) && forall q :: InHash(m, q) == InHash(nodes, q)
  {
    var m := nodes[i := nodes[i].(key := Gone(nodes[i].key.k))];
    assert forall j :: 0 <= j < |m| && j != i ==> m[j] == nodes[j];
    assert Keyed(m);
    forall q ensures InHash(m, q) == InHash(nodes, q) {
      if nodes[i].key == Live(q) {
        InHashAt(nodes, i);
        assert !Holds(m, q);
      } else {
        forall j | 0 <= j < |nodes| && nodes[j].key == Live(q)
          ensures m[j].key == Live(q) && m[j].val == nodes[j].val
        {}
        forall j | 0 <= j < |m| && m[j].key == Live(q) ensures nodes[j].key == Live(q) {}
        InHashSame(nodes, m, q);
      }
    }
  }

  lemma {:induction false} CountArrLess(arr: seq<Value>, lo: nat, hi: nat)
    ensures CountArr(arr, lo, hi) <= |arr|
  {
    if arr != [] { CountArrLess(arr[..|arr| - 1], lo, hi); }
  }

  /** The integers from 1 to `m`. */
  ghost function Row(m: nat): set<int> { if m == 0 then {} else Row(m - 1) + {m} }

  lemma {:induction false} RowSize(m: nat)
    ensures |Row(m)| == m && forall k :: k in Row(m) <==> 1 <= k <= m
  {
    if m > 0 { RowSize(m - 1); }
  }

  lemma SetLess(s: set<int>, a: set<int>, b: set<int>)
    requires s <= a + b
    ensures |s| <= |a| + |b|
  {
    SubsetLess(s, a + b);
    assert a + b == a + (b - a);
    SubsetLess(b - a, b);
  }

  lemma {:induction false} SubsetLess<T>(s: set<T>, t: set<T>)
    requires s <= t
    ensures |s| <= |t|
  {
    if |s| > 0 {
      var x :| x in s;
      SubsetLess(s - {x}, t - {x});
    }
  }

  datatype Place = Nowhere | Slot(at: nat) | NodeAt(at: nat)

  datatype Outcome = Stored | NilIndex | NaNIndex

  class Table {
    /** How the words of a number's representation add up; any function will do. */
    const H: NumberHash
    var arr: seq<Value>
    /** `[]` stands for the node that all tables with an empty hash part share. */
    var node: seq<Node>
    var lastfree: nat
    ghost var layout: Layout

    ghost predicate Valid()
      reads this
    {
      && |arr| <= MAXASIZE && (node == [] || PowerOfTwo(|node|))
      && Good(H, node, layout) && Outside(arr, node)
      && lastfree <= |node| && (forall i :: lastfree <= i < |node| ==> Taken(node, i))
    }

    ghost function At(key: Key): Value
      reads this
    {
      Lookup(arr, node, key)
    }

    /** A walk along the chain of a key, from its main position. */
    method FindNode(key: Key) returns (n: int)
      requires Good(H, node, layout) && node != [] && Proper(key)
      ensures n == NONE <==> !Holds(node, key)
      ensures n != NONE ==> 0 <= n < |node| && node[n].key == Live(key)
    {
      hide Main;
      hide InHash;
      n := Main(H, key, |node|);
      ghost var where := NONE;
      if i :| 0 <= i < |node| && node[i].key == Live(key) {
        where := i;
        Found(H, node, layout, i);
      }
      if node[n].key.Free? {
        return NONE;
      }
      while node[n].key != Live(key)
        invariant Taken(node, n)
        invariant where != NONE ==> Below(node, layout, n, where)
        decreases layout.deepest - layout.depth[n]
      {
        if node[n].next == NONE {
          if where != NONE { NextBelow(node, layout, n, where); }
          return NONE;
        }
        if where != NONE { NextBelow(node, layout, n, where); }
        n := node[n].next;
      }
    }

    /** `luaH_get`, as far as finding the place goes. */
    method Locate(key: Key) returns (p: Place)
      requires Valid()
      ensures Keeps(arr, node, key, p)
    {
      hide Main;
      hide Chained;
      hide Placed;
      if InArray(key, |arr|) {
        return Slot(ArrayIndex(key) - 1);
      }
      if node == [] || !Proper(key) {
        return Nowhere;
      }
      var n := FindNode(key);
      return if n == NONE then Nowhere else NodeAt(n);
    }

    /** `luaH_get`. */
    method Get(key: Key) returns (v: Value)
      requires Valid()
      ensures v == At(key)
    {
      var p := Locate(key);
      KeepsLookup(arr, node, key, p);
      match p
      case Nowhere => v := Nil;
      case Slot(i) => v := arr[i];
      case NodeAt(i) => v := node[i].val;
    }

    /** A value written where its key is kept. */
    method Write(ghost key: Key, p: Place, v: Value)
      requires Valid() && Keeps(arr, node, key, p) && !p.Nowhere?
      modifies `arr, `node
      ensures Valid() && Keeps(arr, node, key, p)
      ensures forall q :: At(q) == if q == key then v else old(At(q))
      ensures |arr| == old(|arr|) && |node| == old(|node|) && Used(node) == old(Used(node))
    {
      hide Chained;
      hide Placed;
      hide InHash;
      hide Used;
      if p.Slot? {
        IndexKey(key);
        arr := arr[p.at := v];
        forall q ensures At(q) == if q == key then v else old(At(q)) {
          if ArrayIndex(q) == ArrayIndex(key) { IndexKey(q); }
        }
      } else {
        NodeWritten(H, arr, node, layout, lastfree, p.at, v, key);
        hide Good;
        hide Outside;
        node := Written(node, p.at, v);
      }
    }

    /** `getfreepos`. */
    method GetFreePos() returns (n: int)
      requires lastfree <= |node| && forall i :: lastfree <= i < |node| ==> Taken(node, i)
      modifies `lastfree
      ensures n == NONE ==> Used(node) == |node| && lastfree == 0
      ensures n != NONE ==> 0 <= n < |node| && node[n].key.Free? && lastfree == n
      ensures lastfree <= |node| && forall i :: lastfree <= i < |node| && i != n ==> Taken(node, i)
    {
      while lastfree > 0
        invariant lastfree <= |node| && forall i :: lastfree <= i < |node| ==> Taken(node, i)
        decreases lastfree
      {
        lastfree := lastfree - 1;
        if node[lastfree].key.Free? {
          return lastfree;
        }
      }
      AllUsed(node);
      return NONE;
    }

    /** The node whose link leads to `mp`, from the main position of the key that is there. */
    method Previous(mp: nat) returns (prev: nat)
      requires Good(H, node, layout) && Taken(node, mp) && MainOf(H, node, mp) != mp
      ensures Taken(node, prev) && prev != mp && node[prev].next == mp
    {
      hide Main;
      hide Keyed;
      prev := Main(H, node[mp].key.k, |node|);
      Found(H, node, layout, mp);
      NextBelow(node, layout, prev, mp);
      while node[prev].next != mp
        invariant Taken(node, prev) && prev != mp && Below(node, layout, prev, mp)
        decreases layout.deepest - layout.depth[prev]
      {
        NextBelow(node, layout, prev, mp);
        prev := node[prev].next;
        NextBelow(node, layout, prev, mp);
      }
    }

    /** The cases of `newkey` that need no rehash: the main position has no value, or there is a free node. */
    method Insert(key: Key) returns (p: Place)
      requires Valid() && Proper(key) && Keeps(arr, node, key, Nowhere) && node != []
      modifies `node, `lastfree, `layout
      ensures Valid() && (p == Nowhere ==> old(Used(node)) == |node| && node == old(node) && layout == old(layout))
      ensures p != Nowhere ==> Keeps(arr, node, key, p) && |node| == old(|node|)
                               && Used(node) <= old(Used(node)) + 1 && forall q :: At(q) == old(At(q))
    {
      hide Main;
      hide Chained;
      hide Placed;
      hide InHash;
      hide PowerOfTwo;
      var mp := Main(H, key, |node|);
      if node[mp].val == Nil {
        InsertThere(mp, key);
        p := NodeAt(mp);
      } else {
        HasKey(H, node, layout, mp);
        var n := GetFreePos();
        if n == NONE {
          return Nowhere;
        }
        var othern := Main(H, node[mp].key.k, |node|);
        if othern != mp {
          var prev := Previous(mp);
          InsertMoving(mp, prev, n, key);
          p := NodeAt(mp);
        } else {
          InsertBehind(mp, n, key);
          p := NodeAt(n);
        }
      }
    }

    /** The new key goes to its main position, which has no value. */
    method InsertThere(mp: nat, key: Key)
      requires Valid() && Proper(key) && Keeps(arr, node, key, Nowhere) && node != []
      requires mp == Main(H, key, |node|) && node[mp].val == Nil
      modifies `node, `layout
      ensures Valid() && |node| == old(|node|) && Keeps(arr, node, key, NodeAt(mp))
      ensures Used(node) <= old(Used(node)) + 1 && forall q :: At(q) == old(At(q))
    {
      hide Main;
      hide Chained;
      hide Placed;
      hide InHash;
      hide Used;
      hide PowerOfTwo;
      ghost var was := node;
      NotHeld(node, key);
      ReusedGood(H, node, layout, mp, key);
      ReusedInserts(node, mp, key);
      UsedUpdate(node, mp, node[mp].(key := Live(key)));
      LayoutSize(node, layout);
      layout := ReusedLayout(node, layout, mp);
      node := node[mp := node[mp].(key := Live(key))];
      assert node == Reused(was, mp, key);
      StillTaken(was, node, lastfree);
      Inserted(arr, was, node, mp, key);
    }

    /** The colliding key, which is out of its main position, moves to the free node. */
    method InsertMoving(mp: nat, prev: nat, n: nat, key: Key)
      requires Good(H, node, layout) && Outside(arr, node) && Proper(key) && Keeps(arr, node, key, Nowhere)
      requires Taken(node, mp) && mp == Main(H, key, |node|) && MainOf(H, node, mp) != mp
      requires Taken(node, prev) && prev != mp && node[prev].next == mp && n < |node| && node[n].key.Free?
      modifies `node, `layout
      ensures Good(H, node, layout) && Outside(arr, node) && |node| == old(|node|) && Keeps(arr, node, key, NodeAt(mp))
      ensures Used(node) == old(Used(node)) + 1 && forall q :: At(q) == old(At(q))
      ensures Taken(node, n) && forall i :: old(Taken(node, i)) ==> Taken(node, i)
    {
      hide Main;
      hide Chained;
      hide Placed;
      hide InHash;
      hide Used;
      ghost var was := node;
      NotHeld(node, key);
      MovedGood(H, node, layout, mp, prev, n, key);
      MovedInserts(node, mp, prev, n, key);
      MovedUsed(node, mp, prev, n, key);
      MovedOnlyNew(node, mp, prev, n, key);
      LayoutSize(node, layout);
      layout := MovedLayout(layout, mp, n);
      node := node[prev := node[prev].(next := n)];
      node := node[n := node[mp]];
      node := node[mp := Node(Live(key), Nil, NONE)];
      assert was[prev := was[prev].(next := n)][mp] == was[mp];
      assert node == Moved(was, mp, prev, n, key);
      Inserted(arr, was, node, mp, key);
    }

    /** The colliding key is in its own main position: the new key goes behind it, to the free node. */
    method InsertBehind(mp: nat, n: nat, key: Key)
      requires Good(H, node, layout) && Outside(arr, node) && Proper(key) && Keeps(arr, node, key, Nowhere)
      requires Taken(node, mp) && mp == Main(H, key, |node|) && MainOf(H, node, mp) == mp && node[mp].key.Live?
      requires n < |node| && node[n].key.Free?
      modifies `node, `layout
      ensures Good(H, node, layout) && Outside(arr, node) && |node| == old(|node|) && Keeps(arr, node, key, NodeAt(n))
      ensures Used(node) == old(Used(node)) + 1 && forall q :: At(q) == old(At(q))
      ensures Taken(node, n) && forall i :: old(Taken(node, i)) ==> Taken(node, i)
    {
      hide Main;
      hide Placed;
      hide InHash;
      hide Used;
      ghost var was := node;
      NotHeld(node, key);
      AppendedGood(H, node, layout, mp, n, key);
      AppendedInserts(node, mp, n, key);
      AppendedUsed(node, mp, n, key);
      hide Chained;
      layout := AppendedLayout(layout, mp, n);
      node := node[n := node[n].(next := node[mp].next)];
      node := node[mp := node[mp].(next := n)];
      node := node[n := node[n].(key := Live(key))];
      assert node == Appended(was, mp, n, key);
      Inserted(arr, was, node, n, key);
    }

    // ------------------------------------------------------------------------------------- resizing

    /** `setnodevector`: an empty hash part with room for `size` keys. */
    method SetNodeVector(size: nat)
      requires size <= MAXASIZE
      modifies `node, `lastfree, `layout
      ensures size <= |node| && (node == [] || PowerOfTwo(|node|)) && (size == 0 ==> node == [])
      ensures Good(H, node, layout) && Used(node) == 0 && lastfree == |node|
      ensures forall key :: InHash(node, key) == Nil && !Holds(node, key)
      ensures forall i :: 0 <= i < |node| ==> node[i].key.Free?
    {
      var n := 0;
      if size > 0 {
        var lsize := CeilLog2(size);
        SliceBound(size);
        n := Pow2(lsize);
        assert PowerOfTwo(n);
      }
      EmptyGood(H, n);
      node := seq(n, _ => EMPTY);
      lastfree := n;
      layout := Layout(seq(n, _ => 0), seq(n, _ => 0), 0, 0);
    }

    /** No rehash is needed to give `key` a place. */
    ghost predicate Settles(key: Key)
      reads this
    {
      InArray(key, |arr|) || Holds(node, key) || Used(node) < |node|
    }

    lemma NowSettles(key: Key, need: nat)
      requires InArray(key, |arr|) || Used(node) <= need < |node|
      ensures Settles(key)
    {}

    /** `countint`. */
    method CountInt(key: Key, nums: array<nat>) returns (c: nat)
      requires nums.Length == MAXBITS + 1
      modifies nums
      ensures c == CountKey(key, 0, MAXASIZE)
      ensures forall k :: 0 <= k <= MAXBITS ==> nums[k] == old(nums[k]) + CountKey(key, Low(k), Pow2(k))
    {
      hide Pow2;
      hide Low;
      hide CeilLog2;
      hide ArrayIndex;
      var i := ArrayIndex(key);
      if 0 < i <= MAXASIZE {
        SliceBound(i);
        SlicesOf(i);
        var lg := CeilLog2(i);
        nums[lg] := nums[lg] + 1;
        return 1;
      } else {
        NoSlice(i);
        return 0;
      }
    }

    /** The inner loop of `numusearray`: the slots from `first` to `lim` that hold a value. */
    method CountSlice(first: nat, lim: nat) returns (lc: nat)
      requires 1 <= first <= lim + 1 && lim <= |arr|
      ensures lc == CountArr(arr, first - 1, lim)
    {
      lc := 0;
      var i := first;
      CountArrNone(arr, first - 1, first - 1);
      while i <= lim
        invariant first <= i <= lim + 1 && lc == CountArr(arr, first - 1, i - 1)
      {
        CountArrStep(arr, first - 1, i - 1);
        if !arr[i - 1].Nil? {
          lc := lc + 1;
        }
        i := i + 1;
      }
    }

    /** `numusearray`. */
    method NumUseArray(nums: array<nat>) returns (ause: nat)
      requires |arr| <= MAXASIZE && nums.Length == MAXBITS + 1 && forall k :: 0 <= k <= MAXBITS ==> nums[k] == 0
      modifies nums
      ensures ause == CountArr(arr, 0, |arr|)
      ensures forall k :: 0 <= k <= MAXBITS ==> nums[k] == CountArr(arr, Low(k), Pow2(k))
    {
      hide CountArr;
      hide Pow2;
      hide Low;
      Doubling(0);
      var lg, ttlg, i := 0, 1, 1;
      ause := 0;
      CountArrNone(arr, 0, 0);
      while lg <= MAXBITS
        invariant lg <= MAXBITS + 1 && ttlg == Pow2(lg) && 1 <= i <= |arr| + 1
        invariant i == (if Low(lg) <= |arr| then Low(lg) else |arr|) + 1
        invariant forall k :: 0 <= k < lg ==> nums[k] == CountArr(arr, Low(k), Pow2(k))
        invariant forall k :: lg <= k <= MAXBITS ==> nums[k] == 0
        invariant ause == CountArr(arr, 0, i - 1)
      {
        var lim := ttlg;
        Doubling(lg);
        if lim > |arr| {
          lim := |arr|;
          if i > lim {
            NoMore(arr, lg);
            return;
          }
        }
        Slice(arr, lg, i, lim);
        var lc := CountSlice(i, lim);
        nums[lg] := nums[lg] + lc;
        ause := ause + lc;
        i := lim + 1;
        lg, ttlg := lg + 1, ttlg * 2;
      }
      Doubling(MAXBITS);
    }

    /** `numusehash`. */
    method NumUseHash(nums: array<nat>) returns (totaluse: nat, ause: nat)
      requires nums.Length == MAXBITS + 1 && ValuesLive(node)
      modifies nums
      ensures totaluse == Values(node) && ause == CountHash(node, 0, MAXASIZE)
      ensures forall k :: 0 <= k <= MAXBITS ==> nums[k] == old(nums[k]) + CountHash(node, Low(k), Pow2(k))
    {
      hide Pow2;
      hide Low;
      totaluse, ause := 0, 0;
      var i := |node|;
      while i > 0
        invariant 0 <= i <= |node| && totaluse == Values(node[i..]) && ause == CountHash(node[i..], 0, MAXASIZE)
        invariant forall k :: 0 <= k <= MAXBITS ==> nums[k] == old(nums[k]) + CountHash(node[i..], Low(k), Pow2(k))
      {
        i := i - 1;
        assert node[i..][1..] == node[i + 1..] && node[i..][0] == node[i];
        if !node[i].val.Nil? {
          var c := CountInt(node[i].key.k, nums);
          ause := ause + c;
          totaluse := totaluse + 1;
        }
      }
      assert node[i..] == node;
    }

    /** `luaH_set`: the place of a key, made if need be. */
    method Set(key: Key) returns (p: Place, out: Outcome)
      requires Valid() && (Settles(key) || Room(arr, node))
      modifies this
      ensures Valid() && (forall q :: At(q) == old(At(q)))
      ensures out == if key.NilKey? then NilIndex else if key.NaN? then NaNIndex else Stored
      ensures if out == Stored then Keeps(arr, node, key, p) && p != Nowhere
              else p == Nowhere && arr == old(arr) && node == old(node)
      ensures old(Settles(key)) ==>
                |arr| == old(|arr|) && |node| == old(|node|)
                && Used(node) <= old(Used(node)) + if InArray(key, |arr|) then 0 else 1
      decreases if Settles(key) then 0 else 1, 3
    {
      hide Main;
      hide Chained;
      hide Placed;
      hide InHash;
      hide PowerOfTwo;
      hide Used;
      hide Room;
      ImproperNowhere(arr, node, layout, H, key);
      p := Locate(key);
      out := Stored;
      if p != Nowhere {
        return;
      }
      if key.NilKey? {
        return Nowhere, NilIndex;
      }
      if key.NaN? {
        return Nowhere, NaNIndex;
      }
      p := NewKey(key);
    }

    /** `newkey`. A second call from within comes only after a rehash, and finds room. */
    method NewKey(key: Key) returns (p: Place)
      requires Valid() && Proper(key) && Keeps(arr, node, key, Nowhere) && (Settles(key) || Room(arr, node))
      modifies this
      ensures Valid() && Keeps(arr, node, key, p) && p != Nowhere && (forall q :: At(q) == old(At(q)))
      ensures old(Settles(key)) ==>
                |arr| == old(|arr|) && |node| == old(|node|) && Used(node) <= old(Used(node)) + 1
      decreases if Settles(key) then 0 else 1, 2
    {
      hide Main;
      hide Chained;
      hide Placed;
      hide InHash;
      hide PowerOfTwo;
      hide Used;
      hide Room;
      p := Nowhere;
      if node != [] {
        p := Insert(key);
      }
      if p == Nowhere {
        NoneUsed(node[..0]);
        Rehash(key);
        var out;
        p, out := Set(key);
      }
    }

    /** `rehash`: new sizes for a table in which there is no place for `key`. */
    method Rehash(key: Key)
      requires Valid() && Proper(key) && Keeps(arr, node, key, Nowhere) && Room(arr, node)
      modifies this
      ensures Valid() && (forall q :: At(q) == old(At(q))) && Settles(key)
      ensures BestSize(old(arr), old(node), key, |arr|)
      decreases 1, 1
    {
      hide Main;
      hide Chained;
      hide Placed;
      hide InHash;
      hide PowerOfTwo;
      hide Used;
      hide Settles;
      var nums := new nat[MAXBITS + 1](_ => 0);
      GoodLive(H, node, layout);
      var nasize := NumUseArray(nums);
      var totaluse := nasize;
      var inHash, ints := NumUseHash(nums);
      totaluse := totaluse + inHash;
      nasize := nasize + ints;
      var c := CountInt(key, nums);
      nasize := nasize + c;
      totaluse := totaluse + 1;
      CountedAll(arr, node, key, nums[..], nasize);
      var n, na := ComputeSizes(nums[..], nasize);
      Chosen(arr, node, key, nums[..], n, na);
      ghost var before := Pending(arr, node, n);
      Resize(n, totaluse - na);
      NowSettles(key, before);
    }

    /** The loop of `resize` over the slots that vanish from the array part. */
    method ReinsertArray(oldarr: seq<Value>)
      requires Valid() && |arr| < |oldarr| <= MAXASIZE && Used(node) + CountArr(oldarr, |arr|, |oldarr|) <= |node|
      requires forall q :: At(q) == ArrPart(oldarr, |arr|, q)
      modifies this
      ensures Valid() && |arr| == old(|arr|) && |node| == old(|node|)
      ensures forall q :: At(q) == ArrPart(oldarr, |oldarr|, q)
      ensures Used(node) <= old(Used(node)) + CountArr(oldarr, |arr|, |oldarr|)
      decreases 0, 4
    {
      hide Valid;
      hide CountArr;
      hide InHash;
      hide Used;
      ghost var u := Used(node);
      var i := |arr|;
      CountArrNone(oldarr, |arr|, i);
      while i < |oldarr|
        invariant |arr| == old(|arr|) && |node| == old(|node|) && |arr| <= i <= |oldarr| && Valid()
        invariant forall q :: At(q) == ArrPart(oldarr, i, q)
        invariant Used(node) <= u + CountArr(oldarr, |arr|, i)
      {
        CountArrStep(oldarr, |arr|, i);
        CountArrSplit(oldarr, |arr|, i + 1, |oldarr|);
        IndexOfInt(i + 1);
        ArrPartNext(oldarr, i);
        if !oldarr[i].Nil? {
          var key := Number((i + 1) as real);
          var p, out := Set(key);
          Write(key, p, oldarr[i]);
        }
        i := i + 1;
      }
    }

    /** The loop of `resize` over the old nodes. */
    method ReinsertHash(ghost oldarr: seq<Value>, nold: seq<Node>)
      requires Valid() && Keyed(nold) && ValuesLive(nold) && Outside(oldarr, nold)
      requires Used(node) + Stay(nold, |arr|) <= |node|
      requires forall q :: At(q) == ArrPart(oldarr, |oldarr|, q)
      modifies this
      ensures Valid() && |arr| == old(|arr|) && |node| == old(|node|)
      ensures forall q :: At(q) == Lookup(oldarr, nold, q)
      ensures Used(node) <= old(Used(node)) + Stay(nold, |arr|)
      decreases 0, 4
    {
      hide Valid;
      hide Stay;
      hide InHash;
      hide Used;
      ghost var u := Used(node);
      var i := |nold|;
      NothingYet(oldarr, nold, |arr|);
      while i > 0
        invariant |arr| == old(|arr|) && |node| == old(|node|) && 0 <= i <= |nold| && Valid()
        invariant forall q :: At(q) == Lookup(oldarr, nold[i..], q)
        invariant Used(node) <= u + Stay(nold[i..], |arr|)
      {
        i := i - 1;
        StayNext(nold, i, |arr|);
        var n := nold[i];
        LookupNext(oldarr, nold, i);
        if !n.val.Nil? {
          var p, out := Set(n.key.k);
          Write(n.key.k, p, n.val);
        }
      }
      assert nold[i..] == nold;
    }

    /** `resize`: new sizes for both parts, and every value back in its place. */
    method Resize(nasize: nat, nhsize: nat)
      requires Valid() && nasize <= MAXASIZE && nhsize <= MAXASIZE && Pending(arr, node, nasize) <= nhsize
      modifies this
      ensures Valid() && (forall q :: At(q) == old(At(q)))
      ensures |arr| == nasize && nhsize <= |node| && Used(node) <= old(Pending(arr, node, nasize))
      decreases 1, 0
    {
      hide Chained;
      hide Placed;
      hide InHash;
      hide PowerOfTwo;
      hide Used;
      hide Keyed;
      hide CountArr;
      var oldarr, nold := arr, node;
      GoodLive(H, node, layout);
      arr := Resized(arr, nasize);
      SetNodeVector(nhsize);
      StartOver(oldarr, arr, node);
      assert Valid();
      hide Valid;
      if nasize < |oldarr| {
        ReinsertArray(oldarr);
      } else {
        CountArrNone(oldarr, nasize, |oldarr|);
      }
      ReinsertHash(oldarr, nold);
    }

    // ------------------------------------------------------------------------------ whole operations

    /** `luaH_new`. */
    constructor (H: NumberHash, narray: nat, nhash: nat)
      requires narray <= MAXASIZE && nhash <= MAXASIZE
      ensures Valid() && this.H == H && |arr| == narray && nhash <= |node| && forall q :: At(q) == Nil
    {
      this.H := H;
      arr := seq(narray, _ => Nil);
      node, lastfree, layout := [], 0, Layout([], [], 0, 0);
      new;
      SetNodeVector(nhash);
    }

    /** An assignment to a table: `luaH_set` and the write through its result. */
    method Put(key: Key, v: Value) returns (out: Outcome)
      requires Valid() && (Settles(key) || Room(arr, node))
      modifies this
      ensures Valid() && out == if key.NilKey? then NilIndex else if key.NaN? then NaNIndex else Stored
      ensures forall q :: At(q) == if out == Stored && q == key then v else old(At(q))
    {
      hide Valid;
      hide Lookup;
      hide Settles;
      hide Room;
      var p;
      p, out := Set(key);
      if out == Stored {
        Write(key, p, v);
      }
    }

    /** `luaH_resizearray`, which makes room for a list about to be stored. */
    method ResizeArray(nasize: nat)
      requires Valid() && |arr| <= nasize <= MAXASIZE
      modifies this
      ensures Valid() && |arr| == nasize && forall q :: At(q) == old(At(q))
    {
      NodesBound();
      CountArrNone(arr, nasize, |arr|);
      CountHashLess(node, 0, nasize);
      Resize(nasize, |node|);
    }

    lemma NodesBound()
      requires Valid()
      ensures |node| <= MAXASIZE
    {
      if node != [] {
        var i :| 0 <= i <= MAXBITS && |node| == Pow2(i);
        Pow2Mono(i, MAXBITS);
      }
    }

    /** The collector's `removeentry`: the key of an empty entry goes with its object. */
    method RemoveEntry(i: nat)
      requires Valid() && i < |node| && node[i].key.Live? && node[i].val.Nil?
      requires node[i].key.k.String? || node[i].key.k.Pointer?
      modifies `node
      ensures Valid() && node == old(node)[i := old(node)[i].(key := Gone(old(node)[i].key.k))]
      ensures forall q :: At(q) == old(At(q))
    {
      hide PowerOfTwo;
      hide InHash;
      EntryGone(H, arr, node, layout, lastfree, i);
      hide Good;
      hide Outside;
      node := node[i := node[i].(key := Gone(node[i].key.k))];
    }

    // --------------------------------------------------------------------------------------- traversal

    function Positions(): nat
      reads this
    {
      |arr| + |node|
    }

    function ValueAt(p: nat): Value
      requires p < Positions()
      reads this
    {
      if p < |arr| then arr[p] else node[p - |arr|].val
    }

    predicate KeyAt(p: nat, key: Key)
      requires p < Positions()
      reads this
    {
      if p < |arr| then key == Number((p + 1) as real) else node[p - |arr|].key == Live(key)
    }

    /** A node whose key is, or was, `key`. */
    predicate Matches(i: int, key: Key)
      reads this
    {
      Taken(node, i) && node[i].key.k == key
    }

    /** Every node that matches lies at or below node `n`. */
    ghost predicate FirstAt(n: int, key: Key)
      reads this
    {
      forall k :: Matches(k, key) ==> Below(node, layout, n, k)
    }

    lemma StartFirst(key: Key)
      requires Good(H, node, layout) && node != []
      ensures FirstAt(Main(H, key, |node|), key)
    {
      hide Main;
      forall k | Matches(k, key) ensures Below(node, layout, Main(H, key, |node|), k) { Found(H, node, layout, k); }
    }

    lemma NextFirst(n: int, key: Key)
      requires Chained(node, layout) && FirstAt(n, key) && Taken(node, n) && !Matches(n, key)
      ensures if node[n].next == NONE then forall k :: !Matches(k, key)
              else Taken(node, node[n].next) && FirstAt(node[n].next, key)
                   && layout.depth[node[n].next] == layout.depth[n] + 1 <= layout.deepest
    {
      forall k | Matches(k, key) ensures node[n].next != NONE && Below(node, layout, node[n].next, k) {
        NextBelow(node, layout, n, k);
      }
    }

    /** The loop of `findindex`: the first node of the chain that has, or had, the key. */
    method FindMatch(key: Key) returns (n: int)
      requires Good(H, node, layout) && node != []
      ensures n == NONE ==> forall k :: !Matches(k, key)
      ensures n != NONE ==> Matches(n, key) && FirstAt(n, key)
    {
      hide Main;
      hide Keyed;
      hide Placed;
      StartFirst(key);
      n := Main(H, key, |node|);
      if node[n].key.Free? {
        return NONE;
      }
      while node[n].key.k != key
        invariant Taken(node, n) && FirstAt(n, key)
        decreases layout.deepest - layout.depth[n]
      {
        NextFirst(n, key);
        if node[n].next == NONE {
          return NONE;
        }
        n := node[n].next;
      }
    }

    /** `findindex`: where a traversal stands. */
    method FindIndex(key: Key) returns (ok: bool, i: int)
      requires Valid()
      ensures key.NilKey? ==> ok && i == -1
      ensures InArray(key, |arr|) ==> ok && i == ArrayIndex(key) - 1
      ensures !key.NilKey? && !InArray(key, |arr|) ==> (ok <==> exists n :: Matches(n, key))
      ensures !key.NilKey? && !InArray(key, |arr|) && ok ==> Matches(i - |arr|, key) && FirstAt(i - |arr|, key)
    {
      hide Good;
      hide PowerOfTwo;
      ImproperUnmatched(key);
      if key.NilKey? {
        return true, -1;
      }
      i := ArrayIndex(key);
      if 0 < i <= |arr| {
        return true, i - 1;
      }
      if node == [] {
        return false, -1;
      }
      var n := FindMatch(key);
      ok := n != NONE;
      i := n + |arr|;
    }

    lemma ImproperUnmatched(key: Key)
      requires Valid()
      ensures !Proper(key) ==> !InArray(key, |arr|) && forall n :: !Matches(n, key)
    {}

    /** `luaH_next`: the first entry after that of `key` that has a value. */
    method Next(key: Key) returns (ok: bool, p: int)
      requires Valid()
      ensures ok <==> key.NilKey? || InArray(key, |arr|) || exists n :: Matches(n, key)
      ensures ok ==> exists i :: -1 <= i < Positions() && StandsAt(key, i) && NextFrom(i, p)
    {
      hide Valid;
      hide FirstAt;
      var i;
      ok, i := FindIndex(key);
      if !ok {
        return false, -1;
      }
      p := i + 1;
      while p < |arr| && arr[p].Nil?
        invariant i < p && (i < |arr| ==> p <= |arr|) && (|arr| <= i ==> p == i + 1)
        invariant forall k :: i < k < p && k < Positions() ==> ValueAt(k).Nil?
      {
        p := p + 1;
      }
      while p < |arr| + |node| && ValueAt(p).Nil?
        invariant i < p <= |arr| + |node| && forall k :: i < k < p ==> ValueAt(k).Nil?
      {
        p := p + 1;
      }
      assert StandsAt(key, i) && NextFrom(i, p);
    }

    /** Where the traversal stands when it is given `key`. */
    ghost predicate StandsAt(key: Key, i: int)
      reads this
    {
      if key.NilKey? then i == -1
      else if InArray(key, |arr|) then i == ArrayIndex(key) - 1
      else Matches(i - |arr|, key) && FirstAt(i - |arr|, key)
    }

    /** `p` is the first position after `i` that has a value, or the end. */
    ghost predicate NextFrom(i: int, p: int)
      reads this
    {
      0 <= p && i < p <= Positions() && (forall k :: 0 <= k && i < k < p ==> ValueAt(k).Nil?)
        && (p < Positions() ==> !ValueAt(p).Nil?)
    }

    /** A traversal stands where its key is, even if a collected key was the same: new keys come first. */
    lemma StandsThere(key: Key, p: int, i: int)
      requires Valid() && StandsAt(key, i)
      requires -1 <= p < Positions() && (p == -1 ==> key == NilKey) && (p >= 0 ==> KeyAt(p, key))
      ensures i == p
    {
      if p < 0 {
      } else if p < |arr| {
        StandsInArray(key, p, i);
      } else {
        StandsInHash(key, p, i);
      }
    }

    lemma StandsInArray(key: Key, p: int, i: int)
      requires |arr| <= MAXASIZE && StandsAt(key, i) && 0 <= p < |arr| && KeyAt(p, key)
      ensures i == p
    {
      hide PowerOfTwo;
      MaxSize();
      IndexOfInt(p + 1);
    }

    lemma StandsInHash(key: Key, p: int, i: int)
      requires Valid() && StandsAt(key, i) && |arr| <= p < Positions() && KeyAt(p, key)
      ensures i == p
    {
      hide PowerOfTwo;
      hide Placed;
      hide Chained;
      hide LiveFirst;
      hide Below;
      var n, m := i - |arr|, p - |arr|;
      assert Matches(m, key) && !InArray(key, |arr|);
      assert Matches(n, key) && Below(node, layout, n, m);
      SameNode(node, layout, n, m);
    }

    function KeyOf(p: nat): (key: Key)
      requires p < Positions() && !ValueAt(p).Nil? && ValuesLive(node)
      ensures KeyAt(p, key)
      reads this
    {
      if p < |arr| then Number((p + 1) as real) else node[p - |arr|].key.k
    }

    /** A value found on the way is the value of its key. */
    lemma EntryAt(p: nat)
      requires Valid() && ValuesLive(node) && p < Positions() && !ValueAt(p).Nil?
      ensures At(KeyOf(p)) == ValueAt(p)
    {
      hide PowerOfTwo;
      hide Chained;
      hide Placed;
      if p < |arr| {
        MaxSize();
        IndexOfInt(p + 1);
      } else {
        InHashAt(node, p - |arr|);
      }
    }

    /** Every key with a value is met. */
    lemma KeyMet(key: Key)
      requires Valid() && ValuesLive(node) && At(key) != Nil
      ensures exists p :: 0 <= p < Positions() && !ValueAt(p).Nil? && KeyOf(p) == key
    {
      hide PowerOfTwo;
      hide Chained;
      hide Placed;
      if InArray(key, |arr|) {
        IndexKey(key);
        var p := ArrayIndex(key) - 1;
        assert !ValueAt(p).Nil? && KeyOf(p) == key;
      } else {
        assert Holds(node, key);
        var n :| 0 <= n < |node| && node[n].key == Live(key);
        InHashAt(node, n);
        assert !ValueAt(n + |arr|).Nil? && KeyOf(n + |arr|) == key;
      }
    }

    /** What a traversal has met on its way up to position `at`: every value, once, in order. */
    ghost predicate Met(met: seq<nat>, entries: seq<(Key, Value)>, at: int)
      requires ValuesLive(node)
      reads this
    {
      && |met| == |entries| && at < Positions()
      && (forall i :: 0 <= i < |met| ==> met[i] <= at && !ValueAt(met[i]).Nil?)
      && (forall i :: 0 <= i < |met| ==> entries[i] == (KeyOf(met[i]), ValueAt(met[i])))
      && (forall i, j :: 0 <= i < j < |met| ==> met[i] < met[j])
      && (forall p :: 0 <= p <= at && !ValueAt(p).Nil? ==> p in met)
    }

    lemma MetNext(met: seq<nat>, entries: seq<(Key, Value)>, at: int, p: nat)
      requires ValuesLive(node) && -1 <= at && Met(met, entries, at) && NextFrom(at, p) && p < Positions()
      ensures Met(met + [p], entries + [(KeyOf(p), ValueAt(p))], p)
    {
      forall k | 0 <= k <= p && !ValueAt(k).Nil? ensures k in met + [p] {
        if k <= at { assert k in met; }
      }
      hide KeyOf;
    }

    ghost predicate Complete(entries: seq<(Key, Value)>)
      reads this
    {
      && (forall k :: At(k) != Nil <==> exists i :: 0 <= i < |entries| && entries[i] == (k, At(k)))
      && (forall i :: 0 <= i < |entries| ==> entries[i].1 == At(entries[i].0) != Nil)
      && (forall i, j :: 0 <= i < j < |entries| ==> entries[i].0 != entries[j].0)
    }

    lemma MetAll(met: seq<nat>, entries: seq<(Key, Value)>, at: int)
      requires Valid() && ValuesLive(node) && -1 <= at && Met(met, entries, at) && NextFrom(at, Positions())
      ensures Complete(entries)
    {
      hide Valid;
      hide InHash;
      forall i | 0 <= i < |entries| ensures entries[i].1 == At(entries[i].0) != Nil { EntryAt(met[i]); }
      forall k | At(k) != Nil ensures exists i :: 0 <= i < |entries| && entries[i] == (k, At(k)) {
        KeyMet(k);
        var p :| 0 <= p < Positions() && !ValueAt(p).Nil? && KeyOf(p) == k;
        assert p in met;
        var i :| 0 <= i < |met| && met[i] == p;
        EntryAt(p);
        assert entries[i] == (k, At(k));
      }
      forall i, j | 0 <= i < j < |entries| ensures entries[i].0 != entries[j].0 {
        OnePlace(met[i], met[j]);
      }
    }

    lemma OnePlace(p: nat, q: nat)
      requires Valid() && ValuesLive(node) && p < q < Positions() && !ValueAt(p).Nil? && !ValueAt(q).Nil?
      ensures KeyOf(p) != KeyOf(q)
    {
      hide Chained;
      hide Placed;
      hide PowerOfTwo;
      MaxSize();
      if p < |arr| { IndexOfInt(p + 1); }
      if q < |arr| { IndexOfInt(q + 1); }
    }

    /** A traversal from nil to the end: every key that has a value, once, with its value. */
    method Traverse() returns (entries: seq<(Key, Value)>)
      requires Valid()
      ensures Complete(entries)
    {
      hide Valid;
      hide Met;
      hide NextFrom;
      hide StandsAt;
      hide Complete;
      ValidLive();
      entries := [];
      var key := NilKey;
      ghost var at := -1;
      ghost var met: seq<nat> := [];
      MetNone();
      while true
        invariant -1 <= at < Positions() && (at == -1 ==> key == NilKey) && (at >= 0 ==> KeyAt(at, key))
        invariant Met(met, entries, at)
        decreases Positions() - at
      {
        var ok, p := Next(key);
        StandsOk(key, at);
        ghost var i :| -1 <= i < Positions() && StandsAt(key, i) && NextFrom(i, p);
        StandsThere(key, at, i);
        NextBounds(at, p);
        if p == |arr| + |node| {
          MetAll(met, entries, at);
          return;
        }
        MetNext(met, entries, at, p);
        key := KeyOf(p);
        entries := entries + [(key, ValueAt(p))];
        met := met + [p];
        at := p;
      }
    }

    lemma ValidLive()
      requires Valid()
      ensures ValuesLive(node)
    {
      hide PowerOfTwo;
      GoodLive(H, node, layout);
    }

    lemma MetNone()
      requires ValuesLive(node)
      ensures Met([], [], -1)
    {}

    lemma NextBounds(i: int, p: int)
      requires NextFrom(i, p)
      ensures 0 <= p <= Positions() && i < p && (p < Positions() ==> !ValueAt(p).Nil?)
    {}

    lemma StandsOk(key: Key, p: int)
      requires Valid() && -1 <= p < Positions() && (p == -1 ==> key == NilKey) && (p >= 0 ==> KeyAt(p, key))
      ensures key.NilKey? || InArray(key, |arr|) || exists n :: Matches(n, key)
    {
      hide PowerOfTwo;
      hide Good;
      if 0 <= p < |arr| { IndexOfInt(p + 1); } else if p >= 0 { assert Matches(p - |arr|, key); }
    }

    // ------------------------------------------------------------------------------------------ borders

    /** The value under an integer key. */
    ghost function Int(k: int): Value
      reads this
    {
      At(Number(k as real))
    }

    /** `n` is a border: nothing follows it, and it holds a value unless it is 0. */
    ghost predicate Border(n: int)
      reads this
    {
      n >= 0 && (n == 0 || Int(n) != Nil) && Int(n + 1) == Nil
    }

    /** `luaH_getnum`. */
    method GetNum(k: int) returns (v: Value)
      requires Valid()
      ensures v == Int(k)
    {
      v := Get(Number(k as real));
    }

    /** Integers in a row need as many slots or nodes. */
    lemma RowBound(m: nat)
      requires Valid() && m <= MAX_INT && forall k :: 1 <= k <= m ==> Int(k) != Nil
      ensures m <= |arr| + |node|
    {
      hide PowerOfTwo;
      hide Chained;
      hide Placed;
      hide LiveFirst;
      KeyedOneEach(node);
      ArrSetSize(arr, 0, m);
      CountArrLess(arr, 0, m);
      HashSetSize(node, 0, m);
      CountHashLess(node, 0, m);
      RowSize(m);
      forall k | k in Row(m) ensures k in ArrSet(arr, 0, m) + HashSet(node, 0, m) {
        assert Int(k) != Nil;
        RowAt(k);
      }
      SetLess(Row(m), ArrSet(arr, 0, m), HashSet(node, 0, m));
    }

    lemma RowAt(k: int)
      requires Valid() && 1 <= k <= MAX_INT && Int(k) != Nil
      ensures if k <= |arr| then arr[k - 1] != Nil else exists i :: 0 <= i < |node| && NodeIndex(node[i]) == k
    {
      hide PowerOfTwo;
      hide Chained;
      hide Placed;
      hide LiveFirst;
      assert ArrayIndex(Number(k as real)) == k;
      if k > |arr| {
        var i :| 0 <= i < |node| && node[i].key == Live(Number(k as real));
        InHashAt(node, i);
        assert NodeIndex(node[i]) == k;
      }
    }

    /** The binary searches: a border between an index that holds a value, or 0, and one that does not. */
    method Bisect(from: nat, to: nat) returns (i: nat)
      requires Valid() && from < to && (from == 0 || Int(from) != Nil) && Int(to) == Nil
      ensures Border(i) && from <= i < to
    {
      hide Valid;
      hide Lookup;
      i := from;
      var j := to;
      while j - i > 1
        invariant from <= i < j <= to && (i == 0 || Int(i) != Nil) && Int(j) == Nil
        decreases j - i
      {
        var m := (i + j) / 2;
        var v := GetNum(m);
        if v.Nil? {
          j := m;
        } else {
          i := m;
        }
      }
    }

    /** `unbound_search`: doubles until something is missing; past the integers, looks one by one. */
    method UnboundSearch(start: nat) returns (i: nat)
      requires Valid() && start <= MAX_INT - 1 && (start == 0 || Int(start) != Nil)
      requires |arr| + |node| < MAX_INT
      ensures Border(i)
    {
      hide Valid;
      hide Lookup;
      i := start;
      var j := start + 1;
      var v := GetNum(j);
      while !v.Nil?
        invariant 0 <= i < j <= MAX_INT && (i == 0 || Int(i) != Nil) && v == Int(j)
        decreases MAX_INT - j
      {
        i := j;
        j := j * 2;
        if j > MAX_INT {
          i := LinearSearch();
          return;
        }
        v := GetNum(j);
      }
      i := Bisect(i, j);
    }

    /** The linear search of `unbound_search`. */
    method LinearSearch() returns (n: nat)
      requires Valid() && |arr| + |node| < MAX_INT
      ensures Border(n)
    {
      hide Valid;
      hide Lookup;
      var i := 1;
      var v := GetNum(i);
      while !v.Nil?
        invariant 1 <= i <= |arr| + |node| + 1 && v == Int(i) && forall k :: 1 <= k < i ==> Int(k) != Nil
        decreases |arr| + |node| + 1 - i
      {
        RowBound(i);
        i := i + 1;
        v := GetNum(i);
      }
      return i - 1;
    }

    /** `luaH_getn`: a border, whatever the shape of the table. */
    method GetN() returns (n: nat)
      requires Valid()
      ensures Border(n)
    {
      hide Good;
      hide PowerOfTwo;
      hide InHash;
      var j := |arr|;
      NodesFew();
      if j > 0 { IntInArray(j); }
      if j > 0 && arr[j - 1].Nil? {
        var i := 0;
        while j - i > 1
          invariant 0 <= i < j <= |arr| && (i > 0 ==> !arr[i - 1].Nil?) && arr[j - 1].Nil?
          decreases j - i
        {
          var m := (i + j) / 2;
          if arr[m - 1].Nil? {
            j := m;
          } else {
            i := m;
          }
        }
        if i > 0 { IntInArray(i); }
        IntInArray(i + 1);
        return i;
      } else if node == [] {
        IntBeyond();
        return j;
      } else {
        n := UnboundSearch(j);
      }
    }

    lemma NodesFew()
      requires Valid()
      ensures |arr| + |node| < MAX_INT - 1
    {
      NodesBound();
      MaxSize();
    }

    lemma IntInArray(k: nat)
      requires 1 <= k <= |arr| <= MAXASIZE
      ensures Int(k) == arr[k - 1]
    {
      IndexOfInt(k);
    }

    lemma IntBeyond()
      requires node == [] && |arr| <= MAXASIZE
      ensures Int(|arr| + 1) == Nil
    {}
  }
}
