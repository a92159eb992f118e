/**
  The in-place quicksort of `table.sort`: a median of three as pivot, which also keeps the scans inside
  the array, and recursion on the smaller part only, which keeps the recursion shallow.
 */
module Sorting {
  import opened Basics

  type Less<!T> = (T, T) -> bool

  /** An order function that `sort` may be given. */
  ghost predicate StrictWeak<T(!new)>(lt: Less<T>) {
    && (forall x :: !lt(x, x))
    && (forall x, y, z :: lt(x, y) && lt(y, z) ==> lt(x, z))
    && (forall x, y, z :: !lt(x, y) && !lt(y, z) ==> !lt(x, z))
  }

  /** No two elements are less than each other. */
  ghost predicate Asymmetric<T(!new)>(lt: Less<T>) { forall x, y :: lt(x, y) ==> !lt(y, x) }

  lemma WeakAsymmetric<T(!new)>(lt: Less<T>)
    requires StrictWeak(lt)
    ensures Asymmetric(lt)
  {}

  /** Of elements in order, a later one is not less than an earlier one. */
  ghost predicate Sorted<T>(lt: Less<T>, s: seq<T>, l: int, u: int) {
    forall x, y :: 0 <= l <= x < y <= u < |s| ==> !lt(s[y], s[x])
  }

  /** All that is yet unsorted lies between `l` and `u`. */
  ghost predicate SortedBut<T>(lt: Less<T>, s: seq<T>, l0: int, u0: int, l: int, u: int) {
    forall x, y :: 0 <= l0 <= x < y <= u0 < |s| && !(l <= x && y <= u) ==> !lt(s[y], s[x])
  }

  /** `t` is `s` with the elements from `l` to `u` in another order. */
  ghost predicate Shuffled<T>(s: seq<T>, t: seq<T>, l: int, u: int) {
    && |s| == |t| && 0 <= l <= u + 1 <= |s|
    && (forall k :: 0 <= k < |s| && (k < l || k > u) ==> t[k] == s[k])
    && multiset(s[l..u + 1]) == multiset(t[l..u + 1])
  }

  lemma ShuffledRefl<T>(s: seq<T>, l: int, u: int)
    requires 0 <= l <= u + 1 <= |s|
    ensures Shuffled(s, s, l, u)
  {}

  lemma ShuffledTrans<T>(s: seq<T>, t: seq<T>, r: seq<T>, l: int, u: int)
    requires Shuffled(s, t, l, u) && Shuffled(t, r, l, u)
    ensures Shuffled(s, r, l, u)
  {}

  lemma Cut<T>(s: seq<T>, a: int, b: int, c: int, d: int)
    requires 0 <= a <= b <= c <= d <= |s|
    ensures multiset(s[a..d]) == multiset(s[a..b]) + multiset(s[b..c]) + multiset(s[c..d])
  {
    assert s[a..d] == s[a..b] + s[b..c] + s[c..d];
  }

  lemma WiderSame<T>(s: seq<T>, t: seq<T>, l: int, u: int, l0: int, u0: int)
    requires |s| == |t| && 0 <= l0 <= l <= u + 1 <= u0 + 1 <= |s|
    requires s[l0..l] == t[l0..l] && s[u + 1..u0 + 1] == t[u + 1..u0 + 1]
    requires multiset(s[l..u + 1]) == multiset(t[l..u + 1])
    ensures multiset(s[l0..u0 + 1]) == multiset(t[l0..u0 + 1])
  {
    Cut(s, l0, l, u + 1, u0 + 1);
    Cut(t, l0, l, u + 1, u0 + 1);
  }

  /** A shuffle of a part is a shuffle of the whole. */
  lemma ShuffledWider<T>(s: seq<T>, t: seq<T>, l: int, u: int, l0: int, u0: int)
    requires Shuffled(s, t, l, u) && 0 <= l0 <= l && u <= u0 < |s|
    ensures Shuffled(s, t, l0, u0)
  {
    assert s[l0..l] == t[l0..l];
    assert s[u + 1..u0 + 1] == t[u + 1..u0 + 1];
    WiderSame(s, t, l, u, l0, u0);
  }

  /** What is inside comes from inside. */
  lemma ShuffledAt<T>(s: seq<T>, t: seq<T>, l: int, u: int, k: int)
    requires Shuffled(s, t, l, u) && l <= k <= u
    ensures exists j :: l <= j <= u && s[j] == t[k]
  {
    assert t[k] == t[l..u + 1][k - l];
    assert t[k] in multiset(t[l..u + 1]);
    assert t[k] in s[l..u + 1];
    var i :| 0 <= i < |s[l..u + 1]| && s[l..u + 1][i] == t[k];
    assert s[i + l] == t[k];
  }

  lemma SwapShuffles<T>(s: seq<T>, i: int, j: int, l: int, u: int)
    requires 0 <= l <= i <= u < |s| && l <= j <= u
    ensures Shuffled(s, s[i := s[j]][j := s[i]], l, u)
  {
    var t := s[i := s[j]][j := s[i]];
    var a, b := s[l..u + 1], t[l..u + 1];
    assert b == a[i - l := a[j - l]][j - l := a[i - l]];
  }

  method Swap<T>(a: array<T>, i: int, j: int, ghost l: int, ghost u: int)
    requires 0 <= l <= i <= u < a.Length && l <= j <= u
    modifies a
    ensures a[..] == old(a[..])[i := old(a[j])][j := old(a[i])]
    ensures Shuffled(old(a[..]), a[..], l, u)
  {
    SwapShuffles(a[..], i, j, l, u);
    a[i], a[j] := a[j], a[i];
  }

  /** The elements up to `m` are not above those from `m` on. */
  ghost predicate Split<T>(lt: Less<T>, s: seq<T>, l: int, m: int, u: int) {
    0 <= l <= m <= u < |s| && (forall k :: l <= k <= m ==> !lt(s[m], s[k]))
      && (forall k :: m <= k <= u ==> !lt(s[k], s[m]))
  }

  /** The three elements `a[l]`, `a[m]` and `a[u]` put in order. */
  method MedianOfThree<T(!new)>(lt: Less<T>, a: array<T>, l: int, m: int, u: int)
    requires StrictWeak(lt) && 0 <= l < m < u < a.Length && !lt(a[u], a[l])
    modifies a
    ensures Shuffled(old(a[..]), a[..], l, u) && !lt(a[m], a[l]) && !lt(a[u], a[m])
  {
    ShuffledRefl(a[..], l, u);
    if lt(a[m], a[l]) {
      Swap(a, m, l, l, u);
    } else if lt(a[u], a[m]) {
      Swap(a, m, u, l, u);
    }
  }

  /** `repeat ++i until a[i] >= P`: something not below the pivot is met by `bound` at the latest. */
  method ScanUp<T(!new)>(lt: Less<T>, a: array<T>, p: T, from: int, ghost bound: int, ghost l: int) returns (i: int)
    requires Asymmetric(lt) && 0 <= l <= from < bound < a.Length && !lt(a[bound], p)
    requires forall k :: l <= k <= from ==> !lt(p, a[k])
    ensures from < i <= bound && !lt(a[i], p) && forall k :: l <= k < i ==> !lt(p, a[k])
  {
    i := from + 1;
    while lt(a[i], p)
      invariant from < i <= bound && forall k :: l <= k < i ==> !lt(p, a[k])
      decreases bound - i
    {
      i := i + 1;
    }
  }

  /** `repeat --j until a[j] <= P`: something not above the pivot is met by `bound` at the latest. */
  method ScanDown<T(!new)>(lt: Less<T>, a: array<T>, p: T, from: int, ghost bound: int, ghost u: int) returns (j: int)
    requires Asymmetric(lt) && 0 <= bound < from <= u < a.Length && !lt(p, a[bound])
    requires forall k :: from <= k <= u ==> !lt(a[k], p)
    ensures bound <= j < from && !lt(p, a[j]) && forall k :: j < k <= u ==> !lt(a[k], p)
  {
    j := from - 1;
    while lt(p, a[j])
      invariant bound <= j < from && forall k :: j < k <= u ==> !lt(a[k], p)
      decreases j
    {
      j := j - 1;
    }
  }

  /** When the scans have crossed, the pivot changes places with the first element not below it. */
  lemma PivotPlaced<T>(lt: Less<T>, s: seq<T>, t: seq<T>, p: T, l: int, i: int, u: int)
    requires 0 <= l < i <= u - 1 < u < |s| && s[u - 1] == p && t == s[u - 1 := s[i]][i := p] && !lt(p, p)
    requires Scanned(lt, s, p, l, i - 1, i, u)
    ensures Split(lt, t, l, i, u)
  {}

  /** What the scans have left behind on both sides: nothing above the pivot below, nothing below it above. */
  ghost predicate Scanned<T>(lt: Less<T>, s: seq<T>, p: T, l: int, i: int, j: int, u: int) {
    && (forall k :: 0 <= l <= k <= i && k < |s| ==> !lt(p, s[k]))
    && (forall k :: 0 <= j <= k <= u && k < |s| ==> !lt(s[k], p))
  }

  /** One round of the scans, up to where they cross or the exchange that follows. */
  method Round<T(!new)>(lt: Less<T>, a: array<T>, p: T, i0: int, j0: int, l: int, u: int) returns (i: int, j: int)
    requires Asymmetric(lt) && 0 <= l <= i0 <= j0 <= u - 1 < u < a.Length && (i0 == j0 ==> l < i0 && j0 < u - 1)
    requires Scanned(lt, a[..], p, l, i0, j0, u) && a[u - 1] == p
    modifies a
    ensures Shuffled(old(a[..]), a[..], l, u) && a[u - 1] == p && l < i <= u - 1 && l <= j < u - 1 && j - i < j0 - i0
    ensures if j < i then a[..] == old(a[..]) && Scanned(lt, a[..], p, l, i - 1, i, u)
      else Scanned(lt, a[..], p, l, i, j, u)
  {
    hide Shuffled;
    hide Asymmetric;
    ShuffledRefl(a[..], l, u);
    ScannedAt(lt, a, p, l, i0, j0, u);
    hide Scanned;
    i := ScanUp(lt, a, p, i0, if i0 < j0 then j0 else j0 + 1, l);
    j := ScanDown(lt, a, p, j0, if i <= j0 then i - 1 else j0 - 1, u);
    if j >= i {
      ghost var s := a[..];
      Swap(a, i, j, l, u);
      Exchanged(lt, s, a[..], p, l, i, j, u);
    } else {
      ScannedOf(lt, a, p, l, i - 1, i, u);
    }
  }

  lemma ScannedAt<T>(lt: Less<T>, a: array<T>, p: T, l: int, i: int, j: int, u: int)
    requires Scanned(lt, a[..], p, l, i, j, u) && 0 <= l && u < a.Length && i < a.Length && 0 <= j
    ensures (forall k :: l <= k <= i ==> !lt(p, a[k])) && (forall k :: j <= k <= u ==> !lt(a[k], p))
  {
    forall k | l <= k <= i ensures !lt(p, a[k]) { assert a[..][k] == a[k]; }
    forall k | j <= k <= u ensures !lt(a[k], p) { assert a[..][k] == a[k]; }
  }

  lemma ScannedOf<T>(lt: Less<T>, a: array<T>, p: T, l: int, i: int, j: int, u: int)
    requires 0 <= l && u < a.Length && i < a.Length && 0 <= j
    requires (forall k :: l <= k <= i ==> !lt(p, a[k])) && (forall k :: j <= k <= u ==> !lt(a[k], p))
    ensures Scanned(lt, a[..], p, l, i, j, u)
  {}

  lemma Exchanged<T>(lt: Less<T>, s: seq<T>, t: seq<T>, p: T, l: int, i: int, j: int, u: int)
    requires 0 <= l < i <= j <= u < |s| && t == s[i := s[j]][j := s[i]] && !lt(s[i], p) && !lt(p, s[j])
    requires (forall k :: l <= k < i ==> !lt(p, s[k])) && (forall k :: j < k <= u ==> !lt(s[k], p))
    ensures Scanned(lt, t, p, l, i, j, u)
  {}

  method PlacePivot<T(!new)>(lt: Less<T>, a: array<T>, p: T, l: int, i: int, u: int, ghost was: seq<T>)
    requires 0 <= l < i <= u - 1 < u < a.Length && !lt(p, p)
    requires a[u - 1] == p && Shuffled(was, a[..], l, u) && Scanned(lt, a[..], p, l, i - 1, i, u)
    modifies a
    ensures Shuffled(was, a[..], l, u) && Split(lt, a[..], l, i, u)
  {
    hide Shuffled;
    hide Split;
    hide Scanned;
    ghost var before := a[..];
    Swap(a, u - 1, i, l, u);
    ShuffledTrans(was, before, a[..], l, u);
    PivotPlaced(lt, before, a[..], p, l, i, u);
  }

  /** The scans: the pivot, which is at `u-1`, ends up at `m`, with nothing above it before and nothing below it
      behind. */
  method Partition<T(!new)>(lt: Less<T>, a: array<T>, l: int, u: int) returns (m: int)
    requires Asymmetric(lt) && 0 <= l && l + 3 <= u < a.Length && !lt(a[u - 1], a[l]) && !lt(a[u], a[u - 1])
    modifies a
    ensures l < m < u && Shuffled(old(a[..]), a[..], l, u) && Split(lt, a[..], l, m, u)
  {
    hide Shuffled;
    hide Split;
    ghost var was := a[..];
    var p := a[u - 1];
    assert !lt(p, p);
    hide Asymmetric;
    var i, j := l, u - 1;
    ShuffledRefl(was, l, u);
    assert Scanned(lt, a[..], p, l, i, j, u);
    hide Scanned;
    while true
      invariant l <= i <= j <= u - 1 && (i == j ==> l < i && j < u - 1)
      invariant a[u - 1] == p && Shuffled(was, a[..], l, u) && Scanned(lt, a[..], p, l, i, j, u)
      decreases j - i
    {
      ghost var before := a[..];
      i, j := Round(lt, a, p, i, j, l, u);
      ShuffledTrans(was, before, a[..], l, u);
      if j < i {
        break;
      }
    }
    PlacePivot(lt, a, p, l, i, u, was);
    m := i;
  }

  // ------------------------------------------------------------------------------------ the whole sort

  lemma NotLess<T(!new)>(lt: Less<T>, x: T, y: T, z: T)
    requires StrictWeak(lt) && !lt(x, y) && !lt(y, z)
    ensures !lt(x, z)
  {}

  /** What is in order stays so when the rest is shuffled. */
  lemma StillBut<T>(lt: Less<T>, s: seq<T>, t: seq<T>, l0: int, u0: int, l: int, u: int)
    requires SortedBut(lt, s, l0, u0, l, u) && Shuffled(s, t, l, u) && 0 <= l0 <= l <= u <= u0 < |s|
    ensures SortedBut(lt, t, l0, u0, l, u)
  {
    forall x, y | l0 <= x < y <= u0 && !(l <= x && y <= u) ensures !lt(t[y], t[x]) {
      var i := x;
      if l <= x <= u { ShuffledAt(s, t, l, u, x); i :| l <= i <= u && s[i] == t[x]; }
      var j := y;
      if l <= y <= u { ShuffledAt(s, t, l, u, y); j :| l <= j <= u && s[j] == t[y]; }
      assert !lt(s[j], s[i]);
    }
  }

  /** A shuffle on one side of the pivot leaves it a pivot. */
  lemma StillSplit<T>(lt: Less<T>, s: seq<T>, t: seq<T>, l: int, m: int, u: int, j: int, i: int)
    requires Split(lt, s, l, m, u) && Shuffled(s, t, j, i) && l <= j <= i + 1 && i <= u && (i < m || m < j)
    ensures Split(lt, t, l, m, u)
  {
    forall k | l <= k <= u ensures (k <= m ==> !lt(t[m], t[k])) && (m <= k ==> !lt(t[k], t[m])) {
      if j <= k <= i {
        ShuffledAt(s, t, j, i, k);
        var n :| j <= n <= i && s[n] == t[k];
      }
    }
  }

  /** With one side of the pivot sorted, only the other is left. */
  lemma HalfDone<T(!new)>(lt: Less<T>, t: seq<T>, l0: int, u0: int, l: int, m: int, u: int, left: bool)
    requires StrictWeak(lt) && SortedBut(lt, t, l0, u0, l, u) && Split(lt, t, l, m, u) && 0 <= l0 <= l <= u <= u0 < |t|
    requires if left then Sorted(lt, t, l, m - 1) else Sorted(lt, t, m + 1, u)
    ensures if left then SortedBut(lt, t, l0, u0, m + 1, u) else SortedBut(lt, t, l0, u0, l, m - 1)
  {
    hide StrictWeak;
    forall x, y | l0 <= x < y <= u0 && !(if left then m + 1 <= x && y <= u else l <= x && y <= m - 1)
      ensures !lt(t[y], t[x])
    {
      if l <= x && y <= u {
        if x <= m <= y { NotLess(lt, t[y], t[m], t[x]); }
      }
    }
  }

  /** The first, middle and last element put in order, in place; `i` is the middle. */
  method Order<T(!new)>(lt: Less<T>, a: array<T>, l: int, i: int, u: int)
    requires StrictWeak(lt) && 0 <= l < u < a.Length && l <= i < u && (l == i ==> u - l == 1)
    modifies a
    ensures Shuffled(old(a[..]), a[..], l, u) && !lt(a[u], a[l])
    ensures l < i ==> !lt(a[i], a[l]) && !lt(a[u], a[i])
  {
    WeakAsymmetric(lt);
    hide StrictWeak;
    hide Shuffled;
    ghost var s := a[..];
    ShuffledRefl(s, l, u);
    if lt(a[u], a[l]) {
      Swap(a, l, u, l, u);
    }
    if u - l > 1 {
      ghost var t := a[..];
      MedianOfThree(lt, a, l, i, u);
      ShuffledTrans(s, t, a[..], l, u);
      MedianOrders(lt, a, l, i, u);
    }
  }

  lemma MedianOrders<T(!new)>(lt: Less<T>, a: array<T>, l: int, i: int, u: int)
    requires StrictWeak(lt) && 0 <= l < i < u < a.Length && !lt(a[i], a[l]) && !lt(a[u], a[i])
    ensures !lt(a[u], a[l])
  {
    NotLess(lt, a[u], a[i], a[l]);
  }

  /** The pivot, which is in the middle, moved next to the end, and the rest parted around it. */
  method Part<T(!new)>(lt: Less<T>, a: array<T>, l: int, i: int, u: int) returns (m: int)
    requires Asymmetric(lt) && 0 <= l < i < u < a.Length && u - l >= 3 && i < u - 1 && !lt(a[i], a[l])
    requires !lt(a[u], a[i])
    modifies a
    ensures l < m < u && Shuffled(old(a[..]), a[..], l, u) && Split(lt, a[..], l, m, u)
  {
    hide Shuffled;
    hide Split;
    ghost var s := a[..];
    Swap(a, i, u - 1, l, u);
    ghost var t := a[..];
    assert a[u - 1] == s[i] && a[l] == s[l] && a[u] == s[u];
    m := Partition(lt, a, l, u);
    ShuffledTrans(s, t, a[..], l, u);
  }

  /** Puts the pivot in its place, unless there are so few elements that they are sorted at once. */
  method Divide<T(!new)>(lt: Less<T>, a: array<T>, l: int, u: int) returns (done: bool, m: int)
    requires StrictWeak(lt) && 0 <= l < u < a.Length
    modifies a
    ensures Shuffled(old(a[..]), a[..], l, u)
    ensures if done then Sorted(lt, a[..], l, u) else l < m < u && u - l >= 3 && Split(lt, a[..], l, m, u)
  {
    WeakAsymmetric(lt);
    hide StrictWeak;
    hide Shuffled;
    hide Split;
    hide Asymmetric;
    hide Sorted;
    ghost var s := a[..];
    var i := (l + u) / 2;
    Order(lt, a, l, i, u);
    done, m := u - l <= 2, l;
    if done {
      FewSorted(lt, a, l, u);
    } else {
      ghost var t := a[..];
      m := Part(lt, a, l, i, u);
      ShuffledTrans(s, t, a[..], l, u);
    }
  }

  lemma FewSorted<T>(lt: Less<T>, a: array<T>, l: int, u: int)
    requires 0 <= l < u < a.Length && u - l <= 2 && !lt(a[u], a[l])
    requires u - l == 2 ==> !lt(a[l + 1], a[l]) && !lt(a[u], a[l + 1])
    ensures Sorted(lt, a[..], l, u)
  {}

  /** `auxsort`; `depth` is how deep it has called itself, which is no more than the logarithm of the length. */
  method AuxSort<T(!new)>(lt: Less<T>, a: array<T>, l0: int, u0: int) returns (ghost depth: nat)
    requires StrictWeak(lt) && 0 <= l0 <= u0 + 1 <= a.Length
    modifies a
    ensures Sorted(lt, a[..], l0, u0) && Shuffled(old(a[..]), a[..], l0, u0)
    ensures Pow2(depth) <= if u0 < l0 then 1 else u0 - l0 + 1
    decreases u0 - l0 + 1
  {
    hide StrictWeak;
    hide Shuffled;
    hide Split;
    hide SortedBut;
    ghost var s := a[..];
    ShuffledRefl(s, l0, u0);
    var l, u := l0, u0;
    depth := 0;
    ButAll(lt, s, l0, u0);
    while l < u
      invariant l0 <= l && u <= u0 && l <= u + 1
      invariant SortedBut(lt, a[..], l0, u0, l, u) && Shuffled(s, a[..], l0, u0)
      invariant Pow2(depth) <= if u0 < l0 then 1 else u0 - l0 + 1
      decreases u - l
    {
      ghost var before := a[..];
      var done, m := Divide(lt, a, l, u);
      Widened(lt, s, before, a[..], l0, u0, l, u);
      if done {
        break;
      }
      ghost var cut := a[..];
      var j, i, left := m + 1, u, false;
      if m - l < u - m {
        j, i, left := l, m - 1, true;
      }
      ghost var d := AuxSort(lt, a, j, i);
      depth := if d + 1 > depth then d + 1 else depth;
      Iterated(lt, s, cut, a[..], l0, u0, l, m, u, j, i, left);
      if left {
        l := m + 1;
      } else {
        u := m - 1;
      }
    }
    AllDone(lt, a[..], l0, u0, l, u);
  }

  lemma ButAll<T>(lt: Less<T>, s: seq<T>, l: int, u: int)
    ensures SortedBut(lt, s, l, u, l, u)
  {}

  lemma Widened<T>(lt: Less<T>, s: seq<T>, t: seq<T>, r: seq<T>, l0: int, u0: int, l: int, u: int)
    requires Shuffled(s, t, l0, u0) && Shuffled(t, r, l, u) && SortedBut(lt, t, l0, u0, l, u)
    requires 0 <= l0 <= l <= u <= u0 < |s|
    ensures Shuffled(s, r, l0, u0) && SortedBut(lt, r, l0, u0, l, u)
  {
    assert |s| == |t|;
    ShuffledWider(t, r, l, u, l0, u0);
    ShuffledTrans(s, t, r, l0, u0);
    StillBut(lt, t, r, l0, u0, l, u);
  }

  /** What one round of the loop comes to, after the smaller side has been sorted. */
  lemma Iterated<T(!new)>(lt: Less<T>, s: seq<T>, t: seq<T>, r: seq<T>, l0: int, u0: int, l: int, m: int, u: int,
                          j: int, i: int,
                          left: bool)
    requires StrictWeak(lt) && Shuffled(s, t, l0, u0) && Shuffled(t, r, j, i) && SortedBut(lt, t, l0, u0, l, u)
    requires 0 <= l0 <= l < m < u <= u0 < |s| && Split(lt, t, l, m, u) && Sorted(lt, r, j, i)
    requires if left then j == l && i == m - 1 else j == m + 1 && i == u
    ensures Shuffled(s, r, l0, u0)
    ensures if left then SortedBut(lt, r, l0, u0, m + 1, u) else SortedBut(lt, r, l0, u0, l, m - 1)
  {
    hide StrictWeak;
    hide SortedBut;
    hide Sorted;
    assert |s| == |t| == |r|;
    StillSplit(lt, t, r, l, m, u, j, i);
    ShuffledWider(t, r, j, i, l, u);
    Widened(lt, s, t, r, l0, u0, l, u);
    HalfDone(lt, r, l0, u0, l, m, u, left);
  }

  lemma AllDone<T>(lt: Less<T>, s: seq<T>, l0: int, u0: int, l: int, u: int)
    requires SortedBut(lt, s, l0, u0, l, u) && (u <= l || (Sorted(lt, s, l, u) && u <= u0)) && 0 <= l0 <= l
    ensures Sorted(lt, s, l0, u0)
  {}

  /** `table.sort`, of a list of `n` elements that starts at index 1. */
  method Sort<T(!new)>(lt: Less<T>, a: array<T>, n: nat) returns (ghost depth: nat)
    requires StrictWeak(lt) && a.Length == n + 1
    modifies a
    ensures Sorted(lt, a[..], 1, n) && multiset(a[1..]) == multiset(old(a[1..]))
    ensures Pow2(depth) <= if n == 0 then 1 else n
  {
    depth := AuxSort(lt, a, 1, n);
    assert a[..][1..n + 1] == a[1..];
    assert old(a[..])[1..n + 1] == old(a[1..]);
  }
}
