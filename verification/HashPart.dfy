/**
  The hash part of a table: a chained scatter table whose chains run through the node vector itself.
 */
module HashPart {
  datatype Value = Nil | Datum(id: int)

  /** Keys. Strings are interned, so identity is equality; the hash of a string is stored with it. */
  datatype Key = NilKey | Number(n: real) | NaN | Boolean(b: bool) | String(id: nat, hash: nat) | Pointer(address: nat)

  /** What a node holds: no key yet, a key, or a key whose object has been collected. */
  datatype NodeKey = Free | Live(k: Key) | Gone(k: Key)

  const NONE: int := -1

  datatype Node = Node(key: NodeKey, val: Value, next: int)

  type NumberHash = real -> nat

  /** The divisor for hashes with many factors of two: `(size-1)|1`, for sizes that are powers of two. */
  function OddBelow(size: nat): (r: nat)
    requires size > 0
    ensures 0 < r <= size
  {
    if size == 1 then 1 else size - 1
  }

  /** `mainposition`. */
  function Main(H: NumberHash, key: Key, size: nat): (r: nat)
    requires size > 0
    ensures r < size
  {
    match key
    case Number(n) => if n == 0.0 then 0 else H(n) % OddBelow(size)
    case String(_, h) => h % size
    case Boolean(b) => (if b then 1 else 0) % size
    case Pointer(a) => a % OddBelow(size)
    case _ => 0
  }

  predicate Taken(nodes: seq<Node>, i: int) { 0 <= i < |nodes| && !nodes[i].key.Free? }

  /** Where every taken node lies: in which chain, and how far down. */
  datatype Layout = Layout(chain: seq<nat>, depth: seq<nat>, chains: nat, deepest: nat)

  predicate Same(l: Layout, i: int, j: int) {
    0 <= i < |l.chain| && 0 <= j < |l.chain| && l.chain[i] == l.chain[j]
  }

  /** A link leads to the next deeper node of the same chain. */
  ghost predicate Links(nodes: seq<Node>, l: Layout)
    requires |l.chain| == |l.depth| == |nodes|
  {
    forall i :: Taken(nodes, i) && nodes[i].next != NONE ==>
      Taken(nodes, nodes[i].next) && Same(l, i, nodes[i].next) && l.depth[nodes[i].next] == l.depth[i] + 1
  }

  /** A node without a link is the deepest of its chain. */
  ghost predicate Ends(nodes: seq<Node>, l: Layout)
    requires |l.chain| == |l.depth| == |nodes|
  {
    forall i, j :: Taken(nodes, i) && nodes[i].next == NONE && Taken(nodes, j) && Same(l, i, j) ==>
      l.depth[j] <= l.depth[i]
  }

  ghost predicate Distinct(nodes: seq<Node>, l: Layout)
    requires |l.chain| == |l.depth| == |nodes|
  {
    forall i, j :: Taken(nodes, i) && Taken(nodes, j) && Same(l, i, j) && l.depth[i] == l.depth[j] ==> i == j
  }

  /** The next-links form disjoint, acyclic paths. */
  ghost predicate Chained(nodes: seq<Node>, l: Layout) {
    && |l.chain| == |l.depth| == |nodes|
    && (forall i :: 0 <= i < |nodes| && nodes[i].key.Free? ==> nodes[i].next == NONE && nodes[i].val == Nil)
    && (forall i :: Taken(nodes, i) ==> l.chain[i] < l.chains && l.depth[i] <= l.deepest)
    && Links(nodes, l) && Ends(nodes, l) && Distinct(nodes, l)
  }

  /** Node `j` lies at or below node `i` in the same chain. */
  predicate Below(nodes: seq<Node>, l: Layout, i: int, j: int) {
    && Taken(nodes, i) && Taken(nodes, j) && Same(l, i, j) && i < |l.depth| && j < |l.depth| && l.depth[i] <= l.depth[j]
  }

  /** The main position of the key of node `i`. */
  function MainOf(H: NumberHash, nodes: seq<Node>, i: int): nat
    requires Taken(nodes, i)
  {
    Main(H, nodes[i].key.k, |nodes|)
  }

  /**
    Every key is found from its main position, and a key that is not in its main position has been kept
    from it by a key that is.
   */
  ghost predicate Placed(H: NumberHash, nodes: seq<Node>, l: Layout) {
    && (forall i :: Taken(nodes, i) ==> Below(nodes, l, MainOf(H, nodes, i), i))
    && (forall i :: Taken(nodes, i) ==>
          Taken(nodes, MainOf(H, nodes, i)) && MainOf(H, nodes, MainOf(H, nodes, i)) == MainOf(H, nodes, i))
  }

  /** No key twice; collected keys have no value; keys are proper. */
  ghost predicate Keyed(nodes: seq<Node>) {
    && (forall i, j ::
          0 <= i < |nodes| && 0 <= j < |nodes| && nodes[i].key.Live? && nodes[i].key == nodes[j].key ==> i == j)
    && (forall i :: 0 <= i < |nodes| && nodes[i].key.Gone? ==> nodes[i].val == Nil)
    && (forall i :: Taken(nodes, i) ==> !nodes[i].key.k.NilKey? && !nodes[i].key.k.NaN?)
  }

  /** A key comes before collected keys that had the same identity: new keys go to the front of their chains. */
  ghost predicate LiveFirst(nodes: seq<Node>, l: Layout) {
    forall i, j ::
      0 <= i < |nodes| && 0 <= j < |nodes| && nodes[i].key.Live? && nodes[j].key == Gone(nodes[i].key.k) ==>
      Below(nodes, l, i, j)
  }

  ghost predicate Good(H: NumberHash, nodes: seq<Node>, l: Layout) {
    Chained(nodes, l) && Placed(H, nodes, l) && Keyed(nodes) && LiveFirst(nodes, l)
  }

  /** Following the links from the main position of a key leads to the node that holds it. */
  lemma Found(H: NumberHash, nodes: seq<Node>, l: Layout, i: nat)
    requires Good(H, nodes, l) && Taken(nodes, i)
    ensures Below(nodes, l, MainOf(H, nodes, i), i)
  {}

  /** One link closer to a node further down. */
  lemma NextBelow(nodes: seq<Node>, l: Layout, n: int, i: int)
    requires Chained(nodes, l) && Below(nodes, l, n, i) && n != i
    ensures nodes[n].next != NONE && Below(nodes, l, nodes[n].next, i)
    ensures l.depth[nodes[n].next] == l.depth[n] + 1 <= l.deepest
  {}

  // ------------------------------------------------------------------------------ the cases of newkey

  /** The key goes where nothing has a value: its main position, possibly one with links through it. */
  function Reused(nodes: seq<Node>, mp: nat, key: Key): seq<Node>
    requires mp < |nodes|
  {
    nodes[mp := nodes[mp].(key := Live(key))]
  }

  ghost function ReusedLayout(nodes: seq<Node>, l: Layout, mp: nat): Layout
    requires mp < |nodes| == |l.chain| == |l.depth|
  {
    if nodes[mp].key.Free? then l.(chain := l.chain[mp := l.chains], depth := l.depth[mp := 0], chains := l.chains + 1)
    else l
  }

  /** A key that nothing equals. */
  predicate Fresh(nodes: seq<Node>, key: Key) {
    !key.NilKey? && !key.NaN? && forall i :: 0 <= i < |nodes| ==> nodes[i].key != Live(key)
  }

  lemma ReusedChained(nodes: seq<Node>, l: Layout, mp: nat, key: Key)
    requires Chained(nodes, l) && mp < |nodes|
    ensures Chained(Reused(nodes, mp, key), ReusedLayout(nodes, l, mp))
  {
    var m, k := Reused(nodes, mp, key), ReusedLayout(nodes, l, mp);
    forall i, j | Taken(m, i) && m[i].next == NONE && Taken(m, j) && Same(k, i, j) ensures k.depth[j] <= k.depth[i] {
      if i != mp && j != mp { assert Same(l, i, j); }
    }
    assert Ends(m, k);
    hide Ends;
    forall i, j | Taken(m, i) && Taken(m, j) && Same(k, i, j) && k.depth[i] == k.depth[j] ensures i == j {
      if i != mp && j != mp { assert Same(l, i, j); }
    }
    assert Distinct(m, k);
    hide Distinct;
    assert Links(m, k);
  }

  /** If a node holds a key out of its main position, no key has that node for its main position. */
  lemma Squatter(H: NumberHash, nodes: seq<Node>, l: Layout, mp: nat, i: int)
    requires Placed(H, nodes, l) && Taken(nodes, mp) && MainOf(H, nodes, mp) != mp && Taken(nodes, i)
    ensures MainOf(H, nodes, i) != mp
  {}

  lemma ReusedFirst(H: NumberHash, nodes: seq<Node>, l: Layout, mp: nat, key: Key)
    requires Good(H, nodes, l) && mp < |nodes| && Main(H, key, |nodes|) == mp && nodes[mp].val == Nil
    requires Fresh(nodes, key)
    ensures LiveFirst(Reused(nodes, mp, key), ReusedLayout(nodes, l, mp))
  {
    var m, k := Reused(nodes, mp, key), ReusedLayout(nodes, l, mp);
    assert |l.chain| == |l.depth| == |nodes|;
    hide Chained;
    hide Main;
    forall i, j | 0 <= i < |m| && 0 <= j < |m| && m[i].key.Live? && m[j].key == Gone(m[i].key.k)
      ensures Below(m, k, i, j)
    {
      assert j != mp && nodes[j].key == m[j].key && Taken(nodes, j);
      if i == mp { assert Below(nodes, l, MainOf(H, nodes, j), j); } else { assert Below(nodes, l, i, j); }
    }
  }

  lemma ReusedGood(H: NumberHash, nodes: seq<Node>, l: Layout, mp: nat, key: Key)
    requires Good(H, nodes, l) && mp < |nodes| && Main(H, key, |nodes|) == mp && nodes[mp].val == Nil
    requires Fresh(nodes, key)
    ensures Good(H, Reused(nodes, mp, key), ReusedLayout(nodes, l, mp))
  {
    var m, k := Reused(nodes, mp, key), ReusedLayout(nodes, l, mp);
    ReusedChained(nodes, l, mp, key);
    ReusedFirst(H, nodes, l, mp, key);
    ReusedPlaced(H, nodes, l, mp, key);
    hide LiveFirst;
    hide Chained;
    hide Placed;
    hide Main;
  }

  lemma ReusedPlaced(H: NumberHash, nodes: seq<Node>, l: Layout, mp: nat, key: Key)
    requires Chained(nodes, l) && Placed(H, nodes, l) && mp < |nodes| && Main(H, key, |nodes|) == mp
    ensures Placed(H, Reused(nodes, mp, key), ReusedLayout(nodes, l, mp))
  {
    var m, k := Reused(nodes, mp, key), ReusedLayout(nodes, l, mp);
    hide Links;
    hide Ends;
    hide Distinct;
    hide Main;
    forall i | Taken(m, i)
      ensures Below(m, k, MainOf(H, m, i), i) && Taken(m, MainOf(H, m, i))
      ensures MainOf(H, m, MainOf(H, m, i)) == MainOf(H, m, i)
    {
      if i != mp { assert Taken(nodes, i) && MainOf(H, m, i) == MainOf(H, nodes, i); }
    }
  }

  /** The key goes to the free node `n`, right behind the key that is in its own main position `mp`. */
  function Appended(nodes: seq<Node>, mp: nat, n: nat, key: Key): seq<Node>
    requires mp < |nodes| && n < |nodes|
  {
    nodes[n := Node(Live(key), nodes[n].val, nodes[mp].next)][mp := nodes[mp].(next := n)]
  }

  /** What lies below `mp` moves one down, to let `n` in. */
  ghost function AppendedLayout(l: Layout, mp: nat, n: nat): Layout
    requires mp < |l.chain| == |l.depth| && n < |l.chain|
  {
    Layout(l.chain[n := l.chain[mp]],
           seq(|l.depth|, i requires 0 <= i < |l.depth| => if i == n then l.depth[mp] + 1
                          else if l.chain[i] == l.chain[mp] && l.depth[i] > l.depth[mp] then l.depth[i] + 1
                            else l.depth[i]),
           l.chains, l.deepest + 1)
  }

  lemma AppendedChained(nodes: seq<Node>, l: Layout, mp: nat, n: nat, key: Key)
    requires Chained(nodes, l) && Taken(nodes, mp) && n < |nodes| && nodes[n].key.Free?
    ensures Chained(Appended(nodes, mp, n, key), AppendedLayout(l, mp, n))
  {
    var m, k := Appended(nodes, mp, n, key), AppendedLayout(l, mp, n);
    forall i, j | Taken(m, i) && m[i].next == NONE && Taken(m, j) && Same(k, i, j) ensures k.depth[j] <= k.depth[i] {
      if i != n && j != n { assert Same(l, i, j); } else if i == n && j != n { assert Same(l, mp, j); } else if i != n {
        assert Same(l, i, mp);
      }
    }
    assert Ends(m, k);
    hide Ends;
    forall i | Taken(m, i) && m[i].next != NONE
      ensures Taken(m, m[i].next) && Same(k, i, m[i].next) && k.depth[m[i].next] == k.depth[i] + 1
    {
      if i == n { assert nodes[mp].next == m[n].next; } else if i != mp {
        assert nodes[i].next == m[i].next && Taken(nodes, i);
        assert m[i].next != n;
      }
    }
    assert Links(m, k);
    hide Links;
    forall i, j | Taken(m, i) && Taken(m, j) && Same(k, i, j) && k.depth[i] == k.depth[j] ensures i == j {
      if i != n && j != n { assert Same(l, i, j); }
    }
    assert Distinct(m, k);
  }

  lemma AppendedKeyed(nodes: seq<Node>, mp: nat, n: nat, key: Key)
    requires Keyed(nodes) && Taken(nodes, mp) && n < |nodes| && nodes[n].key.Free? && Fresh(nodes, key)
    ensures Keyed(Appended(nodes, mp, n, key))
  {}

  lemma AppendedFirst(H: NumberHash, nodes: seq<Node>, l: Layout, mp: nat, n: nat, key: Key)
    requires Good(H, nodes, l) && Taken(nodes, mp) && nodes[mp].key.Live? && n < |nodes| && nodes[n].key.Free?
    requires Fresh(nodes, key) && Main(H, key, |nodes|) == mp
    ensures |l.chain| == |l.depth| == |nodes| && LiveFirst(Appended(nodes, mp, n, key), AppendedLayout(l, mp, n))
  {
    var m, k := Appended(nodes, mp, n, key), AppendedLayout(l, mp, n);
    hide Main;
    forall i, j | 0 <= i < |m| && 0 <= j < |m| && m[i].key.Live? && m[j].key == Gone(m[i].key.k)
      ensures Below(m, k, i, j)
    {
      assert j != n && nodes[j].key == m[j].key && Taken(nodes, j);
      if i == n { assert Below(nodes, l, MainOf(H, nodes, j), j); } else { assert Below(nodes, l, i, j); }
    }
  }

  lemma AppendedGood(H: NumberHash, nodes: seq<Node>, l: Layout, mp: nat, n: nat, key: Key)
    requires Good(H, nodes, l) && Taken(nodes, mp) && n < |nodes| && nodes[n].key.Free? && Fresh(nodes, key)
    requires Main(H, key, |nodes|) == mp && MainOf(H, nodes, mp) == mp && nodes[mp].key.Live?
    ensures Good(H, Appended(nodes, mp, n, key), AppendedLayout(l, mp, n))
  {
    var m, k := Appended(nodes, mp, n, key), AppendedLayout(l, mp, n);
    hide Chained;
    hide Main;
    AppendedChained(nodes, l, mp, n, key);
    AppendedKeyed(nodes, mp, n, key);
    AppendedFirst(H, nodes, l, mp, n, key);
    hide LiveFirst;
    hide Keyed;
    hide Fresh;
    forall i | Taken(m, i)
      ensures Below(m, k, MainOf(H, m, i), i) && Taken(m, MainOf(H, m, i))
      ensures MainOf(H, m, MainOf(H, m, i)) == MainOf(H, m, i)
    {
      if i != n {
        assert Taken(nodes, i) && MainOf(H, m, i) == MainOf(H, nodes, i);
        assert MainOf(H, m, i) != n;
      }
    }
  }

  /** The key at `mp`, which is out of its main position, moves to the free node `n`; the new key takes its place. */
  function Moved(nodes: seq<Node>, mp: nat, prev: nat, n: nat, key: Key): seq<Node>
    requires mp < |nodes| && n < |nodes| && prev < |nodes|
  {
    nodes[prev := nodes[prev].(next := n)][n := nodes[mp]][mp := Node(Live(key), Nil, NONE)]
  }

  ghost function MovedLayout(l: Layout, mp: nat, n: nat): Layout
    requires mp < |l.chain| == |l.depth| && n < |l.chain|
  {
    Layout(l.chain[n := l.chain[mp]][mp := l.chains], l.depth[n := l.depth[mp]][mp := 0], l.chains + 1, l.deepest)
  }

  lemma MovedChained(nodes: seq<Node>, l: Layout, mp: nat, prev: nat, n: nat, key: Key)
    requires Chained(nodes, l) && Taken(nodes, mp) && n < |nodes| && nodes[n].key.Free?
    requires Taken(nodes, prev) && nodes[prev].next == mp && prev != mp
    ensures Chained(Moved(nodes, mp, prev, n, key), MovedLayout(l, mp, n))
  {
    var m, k := Moved(nodes, mp, prev, n, key), MovedLayout(l, mp, n);
    MovedEnds(nodes, l, mp, prev, n, key);
    MovedDistinct(nodes, l, mp, prev, n, key);
    hide Ends;
    hide Distinct;
    hide Same;
    forall i | Taken(m, i) && m[i].next != NONE
      ensures Taken(m, m[i].next) && Same(k, i, m[i].next) && k.depth[m[i].next] == k.depth[i] + 1
    {
      MovedLink(nodes, l, mp, prev, n, key, i);
    }
  }

  lemma MovedEnds(nodes: seq<Node>, l: Layout, mp: nat, prev: nat, n: nat, key: Key)
    requires Chained(nodes, l) && Taken(nodes, mp) && n < |nodes| && nodes[n].key.Free?
    requires Taken(nodes, prev) && nodes[prev].next == mp && prev != mp
    ensures Ends(Moved(nodes, mp, prev, n, key), MovedLayout(l, mp, n))
  {
    var m, k := Moved(nodes, mp, prev, n, key), MovedLayout(l, mp, n);
    hide Links;
    hide Distinct;
    forall i, j | Taken(m, i) && m[i].next == NONE && Taken(m, j) && Same(k, i, j) ensures k.depth[j] <= k.depth[i] {
      if i != mp && j != mp { assert Same(l, if i == n then mp else i, if j == n then mp else j); }
    }
  }

  lemma MovedDistinct(nodes: seq<Node>, l: Layout, mp: nat, prev: nat, n: nat, key: Key)
    requires Chained(nodes, l) && Taken(nodes, mp) && n < |nodes| && nodes[n].key.Free?
    requires Taken(nodes, prev) && nodes[prev].next == mp && prev != mp
    ensures Distinct(Moved(nodes, mp, prev, n, key), MovedLayout(l, mp, n))
  {
    var m, k := Moved(nodes, mp, prev, n, key), MovedLayout(l, mp, n);
    hide Links;
    hide Ends;
    forall i, j | Taken(m, i) && Taken(m, j) && Same(k, i, j) && k.depth[i] == k.depth[j] ensures i == j {
      if i != mp && j != mp { assert Same(l, if i == n then mp else i, if j == n then mp else j); }
    }
  }

  lemma MovedLink(nodes: seq<Node>, l: Layout, mp: nat, prev: nat, n: nat, key: Key, i: int)
    requires Chained(nodes, l) && Taken(nodes, mp) && n < |nodes| && nodes[n].key.Free?
    requires Taken(nodes, prev) && nodes[prev].next == mp && prev != mp
    ensures var m, k := Moved(nodes, mp, prev, n, key), MovedLayout(l, mp, n);
      Taken(m, i) && m[i].next != NONE ==>
        Taken(m, m[i].next) && Same(k, i, m[i].next) && k.depth[m[i].next] == k.depth[i] + 1
  {
    var m := Moved(nodes, mp, prev, n, key);
    if Taken(m, i) && m[i].next != NONE && i != mp && i != prev {
      var o := if i == n then mp else i;
      OneBefore(nodes, l, prev, o, mp);
      assert m[i].next == nodes[o].next;
    }
  }

  /** No two links lead to the same node. */
  lemma OneBefore(nodes: seq<Node>, l: Layout, p: int, q: int, n: int)
    requires Chained(nodes, l) && Taken(nodes, p) && Taken(nodes, q) && nodes[p].next == n != NONE && p != q
    ensures nodes[q].next != n
  {}

  lemma MovedKeyed(nodes: seq<Node>, mp: nat, prev: nat, n: nat, key: Key)
    requires Keyed(nodes) && Taken(nodes, mp) && n < |nodes| && nodes[n].key.Free? && Fresh(nodes, key)
    requires Taken(nodes, prev) && prev != mp
    ensures Keyed(Moved(nodes, mp, prev, n, key))
  {
    var m := Moved(nodes, mp, prev, n, key);
    assert forall i :: 0 <= i < |m| && i != mp ==> m[i].key == nodes[if i == n then mp else i].key;
  }

  lemma MovedAt(H: NumberHash, nodes: seq<Node>, l: Layout, mp: nat, prev: nat, n: nat, key: Key, i: int)
    requires Good(H, nodes, l) && Taken(nodes, mp) && n < |nodes| && nodes[n].key.Free?
    requires Taken(nodes, prev) && prev != mp && |l.chain| == |l.depth| == |nodes|
    requires Main(H, key, |nodes|) == mp && MainOf(H, nodes, mp) != mp
    ensures var m, k := Moved(nodes, mp, prev, n, key), MovedLayout(l, mp, n);
      Taken(m, i) ==>
        && Below(m, k, MainOf(H, m, i), i)
        && Taken(m, MainOf(H, m, i)) && MainOf(H, m, MainOf(H, m, i)) == MainOf(H, m, i)
  {
    hide Chained;
    hide Keyed;
    hide Main;
    var m := Moved(nodes, mp, prev, n, key);
    if Taken(m, i) && i != mp {
      var o := if i == n then mp else i;
      Squatter(H, nodes, l, mp, o);
      assert MainOf(H, m, i) == MainOf(H, nodes, o);
    }
  }

  lemma MovedBelow(nodes: seq<Node>, l: Layout, mp: nat, prev: nat, n: nat, key: Key, i: int, j: int)
    requires Taken(nodes, mp) && n < |nodes| && nodes[n].key.Free? && Taken(nodes, prev) && prev != mp
    requires |l.chain| == |l.depth| == |nodes| && 0 <= i < |nodes| && 0 <= j < |nodes| && i != mp && j != mp
    requires Below(nodes, l, if i == n then mp else i, if j == n then mp else j)
    ensures Below(Moved(nodes, mp, prev, n, key), MovedLayout(l, mp, n), i, j)
  {}

  lemma MovedFirst(H: NumberHash, nodes: seq<Node>, l: Layout, mp: nat, prev: nat, n: nat, key: Key)
    requires Good(H, nodes, l) && Taken(nodes, mp) && n < |nodes| && nodes[n].key.Free? && Fresh(nodes, key)
    requires Taken(nodes, prev) && prev != mp && |l.chain| == |l.depth| == |nodes|
    requires Main(H, key, |nodes|) == mp && MainOf(H, nodes, mp) != mp
    ensures LiveFirst(Moved(nodes, mp, prev, n, key), MovedLayout(l, mp, n))
  {
    var m, k := Moved(nodes, mp, prev, n, key), MovedLayout(l, mp, n);
    hide Chained;
    hide Keyed;
    hide Main;
    assert forall i :: 0 <= i < |m| && i != mp ==> m[i].key == nodes[if i == n then mp else i].key;
    forall i, j | 0 <= i < |m| && 0 <= j < |m| && m[i].key.Live? && m[j].key == Gone(m[i].key.k)
      ensures Below(m, k, i, j)
    {
      if i == mp {
        Squatter(H, nodes, l, mp, if j == n then mp else j);
      } else {
        MovedBelow(nodes, l, mp, prev, n, key, i, j);
      }
    }
  }

  lemma MovedGood(H: NumberHash, nodes: seq<Node>, l: Layout, mp: nat, prev: nat, n: nat, key: Key)
    requires Good(H, nodes, l) && Taken(nodes, mp) && n < |nodes| && nodes[n].key.Free? && Fresh(nodes, key)
    requires Taken(nodes, prev) && nodes[prev].next == mp && prev != mp
    requires Main(H, key, |nodes|) == mp && MainOf(H, nodes, mp) != mp
    ensures Good(H, Moved(nodes, mp, prev, n, key), MovedLayout(l, mp, n))
  {
    var m, k := Moved(nodes, mp, prev, n, key), MovedLayout(l, mp, n);
    hide Main;
    MovedChained(nodes, l, mp, prev, n, key);
    MovedKeyed(nodes, mp, prev, n, key);
    assert |l.chain| == |l.depth| == |nodes|;
    MovedFirst(H, nodes, l, mp, prev, n, key);
    hide LiveFirst;
    hide Keyed;
    hide Fresh;
    hide Moved;
    hide MovedLayout;
    forall i | Taken(m, i)
      ensures Below(m, k, MainOf(H, m, i), i) && Taken(m, MainOf(H, m, i))
      ensures MainOf(H, m, MainOf(H, m, i)) == MainOf(H, m, i)
    {
      MovedAt(H, nodes, l, mp, prev, n, key, i);
    }
    hide Chained;
    hide MainOf;
    hide Below;
  }

  // ------------------------------------------------------------------------------------------ contents

  ghost predicate Holds(nodes: seq<Node>, key: Key) { exists i :: 0 <= i < |nodes| && nodes[i].key == Live(key) }

  /** The value a key has in the hash part. */
  ghost function InHash(nodes: seq<Node>, key: Key): Value {
    if Holds(nodes, key) then var i :| 0 <= i < |nodes| && nodes[i].key == Live(key); nodes[i].val else Nil
  }

  lemma InHashAt(nodes: seq<Node>, i: nat)
    requires Keyed(nodes) && i < |nodes| && nodes[i].key.Live?
    ensures InHash(nodes, nodes[i].key.k) == nodes[i].val
  {
    assert Holds(nodes, nodes[i].key.k);
  }

  /** Same keys with the same values, wherever they are. */
  lemma InHashSame(nodes: seq<Node>, m: seq<Node>, key: Key)
    requires Keyed(nodes) && Keyed(m)
    requires forall i :: 0 <= i < |nodes| && nodes[i].key == Live(key) ==>
               exists j :: 0 <= j < |m| && m[j].key == Live(key) && m[j].val == nodes[i].val
    requires forall j :: 0 <= j < |m| && m[j].key == Live(key) ==> exists i ::
      0 <= i < |nodes| && nodes[i].key == Live(key)
    ensures InHash(m, key) == InHash(nodes, key)
  {
    if Holds(nodes, key) {
      var i :| 0 <= i < |nodes| && nodes[i].key == Live(key);
      InHashAt(nodes, i);
      var j :| 0 <= j < |m| && m[j].key == Live(key) && m[j].val == nodes[i].val;
      InHashAt(m, j);
    }
  }

  /** What a new key does to the contents: it is there, without a value, and every other key has the value it had. */
  ghost predicate Inserts(nodes: seq<Node>, m: seq<Node>, at: nat, key: Key) {
    && |m| == |nodes| && at < |m| && m[at].key == Live(key) && m[at].val == Nil
    && (forall q :: q != key ==> InHash(m, q) == InHash(nodes, q))
  }

  lemma ReusedInserts(nodes: seq<Node>, mp: nat, key: Key)
    requires Keyed(nodes) && mp < |nodes| && nodes[mp].val == Nil && Fresh(nodes, key) && Keyed(Reused(nodes, mp, key))
    ensures Inserts(nodes, Reused(nodes, mp, key), mp, key)
  {
    var m := Reused(nodes, mp, key);
    forall q | q != key ensures InHash(m, q) == InHash(nodes, q) {
      if nodes[mp].key == Live(q) {
        InHashAt(nodes, mp);
        forall i | 0 <= i < |m| ensures m[i].key != Live(q) { assert m[i] == if i == mp then m[mp] else nodes[i]; }
      } else {
        forall i | 0 <= i < |nodes| && nodes[i].key == Live(q)
          ensures m[i].key == Live(q) && m[i].val == nodes[i].val
        {}
        forall i | 0 <= i < |m| && m[i].key == Live(q) ensures nodes[i].key == Live(q) {}
        InHashSame(nodes, m, q);
      }
    }
  }

  lemma AppendedInserts(nodes: seq<Node>, mp: nat, n: nat, key: Key)
    requires Keyed(nodes) && Taken(nodes, mp) && n < |nodes| && nodes[n].key.Free? && nodes[n].val == Nil
    requires Fresh(nodes, key)
    requires Keyed(Appended(nodes, mp, n, key))
    ensures Inserts(nodes, Appended(nodes, mp, n, key), n, key)
  {
    var m := Appended(nodes, mp, n, key);
    forall q | q != key ensures InHash(m, q) == InHash(nodes, q) {
      forall i | 0 <= i < |nodes| && nodes[i].key == Live(q) ensures m[i].key == Live(q) && m[i].val == nodes[i].val {}
      forall i | 0 <= i < |m| && m[i].key == Live(q) ensures nodes[i].key == Live(q) {}
      InHashSame(nodes, m, q);
    }
  }

  lemma MovedInserts(nodes: seq<Node>, mp: nat, prev: nat, n: nat, key: Key)
    requires Keyed(nodes) && Taken(nodes, mp) && n < |nodes| && nodes[n].key.Free? && Fresh(nodes, key)
    requires Taken(nodes, prev) && prev != mp && Keyed(Moved(nodes, mp, prev, n, key))
    ensures Inserts(nodes, Moved(nodes, mp, prev, n, key), mp, key)
  {
    var m := Moved(nodes, mp, prev, n, key);
    forall q | q != key ensures InHash(m, q) == InHash(nodes, q) {
      forall i | 0 <= i < |nodes| && nodes[i].key == Live(q)
        ensures exists j :: 0 <= j < |m| && m[j].key == Live(q) && m[j].val == nodes[i].val
      {
        var j := if i == mp then n else i;
        assert m[j].key == Live(q) && m[j].val == nodes[i].val;
      }
      forall i | 0 <= i < |m| && m[i].key == Live(q) ensures exists j :: 0 <= j < |nodes| && nodes[j].key == Live(q) {
        assert nodes[if i == n then mp else i].key == Live(q);
      }
      InHashSame(nodes, m, q);
    }
  }

  /** A value written into a node. */
  function Written(nodes: seq<Node>, i: nat, v: Value): seq<Node>
    requires i < |nodes|
  {
    nodes[i := nodes[i].(val := v)]
  }

  lemma WrittenChained(nodes: seq<Node>, l: Layout, i: nat, v: Value)
    requires Chained(nodes, l) && i < |nodes| && nodes[i].key.Live?
    ensures Chained(Written(nodes, i, v), l)
  {
    var m := Written(nodes, i, v);
    assert forall j :: Taken(m, j) == Taken(nodes, j) && (0 <= j < |m| ==> m[j].next == nodes[j].next);
    assert Ends(m, l) && Links(m, l);
    hide Ends;
    hide Links;
    assert Distinct(m, l);
    hide Distinct;
  }

  lemma WrittenPlaced(H: NumberHash, nodes: seq<Node>, l: Layout, i: nat, v: Value)
    requires Placed(H, nodes, l) && Keyed(nodes) && i < |nodes| && nodes[i].key.Live?
    ensures Placed(H, Written(nodes, i, v), l) && Keyed(Written(nodes, i, v))
  {
    var m := Written(nodes, i, v);
    hide Main;
    assert forall j :: 0 <= j < |m| ==> m[j].key == nodes[j].key;
    assert Keyed(m);
    hide Keyed;
    hide Written;
    assert forall j :: Taken(m, j) ==> Taken(nodes, j) && MainOf(H, m, j) == MainOf(H, nodes, j);
  }

  lemma WrittenFirst(nodes: seq<Node>, l: Layout, i: nat, v: Value)
    requires LiveFirst(nodes, l) && i < |nodes|
    ensures LiveFirst(Written(nodes, i, v), l)
  {
    var m := Written(nodes, i, v);
    forall a, b | 0 <= a < |m| && 0 <= b < |m| && m[a].key.Live? && m[b].key == Gone(m[a].key.k)
      ensures Below(m, l, a, b)
    {
      assert Below(nodes, l, a, b);
    }
  }

  lemma WrittenContents(nodes: seq<Node>, i: nat, v: Value)
    requires Keyed(nodes) && i < |nodes| && nodes[i].key.Live? && Keyed(Written(nodes, i, v))
    ensures forall q :: InHash(Written(nodes, i, v), q) == if q == nodes[i].key.k then v else InHash(nodes, q)
  {
    var m := Written(nodes, i, v);
    forall q ensures InHash(m, q) == if q == nodes[i].key.k then v else InHash(nodes, q) {
      if q == nodes[i].key.k {
        InHashAt(m, i);
      } else {
        forall j | 0 <= j < |nodes| && nodes[j].key == Live(q)
          ensures m[j].key == Live(q) && m[j].val == nodes[j].val
        {}
        forall j | 0 <= j < |m| && m[j].key == Live(q) ensures nodes[j].key == Live(q) {}
        InHashSame(nodes, m, q);
      }
    }
  }

  lemma WrittenGood(H: NumberHash, nodes: seq<Node>, l: Layout, i: nat, v: Value)
    requires Good(H, nodes, l) && i < |nodes| && nodes[i].key.Live?
    ensures Good(H, Written(nodes, i, v), l)
    ensures forall q :: InHash(Written(nodes, i, v), q) == if q == nodes[i].key.k then v else InHash(nodes, q)
  {
    hide Chained;
    hide Placed;
    hide Keyed;
    hide InHash;
    hide LiveFirst;
    WrittenFirst(nodes, l, i, v);
    WrittenChained(nodes, l, i, v);
    WrittenPlaced(H, nodes, l, i, v);
    WrittenContents(nodes, i, v);
  }

  // ------------------------------------------------------------------------------------------- counting

  /** How many nodes have a key. */
  function Used(nodes: seq<Node>): (n: nat)
    ensures n <= |nodes|
  {
    if nodes == [] then 0 else Used(nodes[..|nodes| - 1]) + if nodes[|nodes| - 1].key.Free? then 0 else 1
  }

  /** Giving one node a key makes one more. */
  lemma {:induction false} UsedUpdate(nodes: seq<Node>, i: nat, x: Node)
    requires i < |nodes| && !x.key.Free?
    ensures Used(nodes[i := x]) == Used(nodes) + if nodes[i].key.Free? then 1 else 0
  {
    var p, m := nodes[..|nodes| - 1], nodes[i := x];
    if i == |nodes| - 1 {
      assert m[..|m| - 1] == p;
    } else {
      UsedUpdate(p, i, x);
      assert m[..|m| - 1] == p[i := x];
    }
  }

  /** If not every node has a key, some node has none. */
  lemma {:induction false} SomeFree(nodes: seq<Node>) returns (i: nat)
    requires Used(nodes) < |nodes|
    ensures i < |nodes| && nodes[i].key.Free?
  {
    if nodes[|nodes| - 1].key.Free? {
      i := |nodes| - 1;
    } else {
      i := SomeFree(nodes[..|nodes| - 1]);
    }
  }
}
