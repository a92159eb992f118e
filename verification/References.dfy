/**
  References to values kept in a table: the free list of `luaL_ref` and `luaL_unref` runs through the
  slots that are not in use.
 */
module References {
  import opened Basics
  import opened HashPart
  import opened ArraySize
  import opened Tables

  const REFNIL: int := -1

  /** The slot that holds the head of the free list. */
  const FREELIST: int := 0

  /** What integer keys hold. */
  type Slots = s: imap<int, Value> | forall k :: k in s
    ghost witness imap k | true :: Nil

  /** What all keys hold. */
  type Whole = s: imap<Key, Value> | forall k :: k in s
    ghost witness imap k: Key | true :: Nil

  ghost function Ints(all: Whole): Slots { imap k | true :: all[KeyOf(k)] }

  ghost predicate AllWithin(all: Whole, keys: set<Key>) { forall key :: all[key] != Nil ==> key in keys }

  /** A write seen from the integer keys. */
  lemma WrittenInt(all: Whole, k: int, v: Value)
    ensures Ints(all[KeyOf(k) := v]) == Ints(all)[k := v]
  {
    assert forall x: int :: KeyOf(x) == KeyOf(k) ==> x == k;
  }

  lemma WrittenElse(all: Whole, key: Key, v: Value)
    ensures forall k :: KeyOf(k) != key ==> Ints(all[key := v])[k] == Ints(all)[k]
    ensures forall keys :: AllWithin(all, keys) ==> AllWithin(all[key := v], keys + {key})
    ensures forall keys :: AllWithin(all, keys) && key in keys ==> AllWithin(all[key := v], keys)
  {}

  /** All but these keys hold what they held. */
  ghost predicate Elsewhere(was: Whole, now: Whole, keys: set<Key>) {
    forall key :: key !in keys ==> now[key] == was[key]
  }

  /** Of the values in a table, every other one stands for a number. */
  function Numeral(n: int): Value { Datum(2 * n) }

  /** `lua_tointeger` */
  function ToInteger(v: Value): int { if v.Datum? && v.id % 2 == 0 then v.id / 2 else 0 }

  /** From the slot `k` on, the free list is `free`. */
  ghost predicate FreeFrom(t: Slots, k: int, free: seq<int>)
    decreases free
  {
    if free == [] then ToInteger(t[k]) == 0
    else free[0] >= 1 && ToInteger(t[k]) == free[0] && FreeFrom(t, free[0], free[1..])
  }

  /** A write elsewhere leaves the list alone. */
  lemma {:induction false} FreeElsewhere(t: Slots, u: Slots, k: int, free: seq<int>)
    requires FreeFrom(t, k, free) && u[k] == t[k] && forall x :: x in free ==> u[x] == t[x]
    ensures FreeFrom(u, k, free)
    decreases free
  {
    if free != [] {
      assert free[0] in free;
      FreeElsewhere(t, u, free[0], free[1..]);
    }
  }

  ghost predicate NoRepeat(s: seq<int>) { forall i, j :: 0 <= i < j < |s| ==> s[i] != s[j] }

  function KeyOf(k: int): Key { Number(k as real) }

  /** The keys that the free list and the references in use take up. */
  ghost function Kept(live: map<int, Value>, free: seq<int>): set<Key> {
    {KeyOf(FREELIST)} + (set r | r in live :: KeyOf(r)) + (set i | 0 <= i < |free| :: KeyOf(free[i]))
  }

  /** The free list is apart from the references in use; what else there is in the table does not matter. */
  ghost predicate Sorted(t: Slots, live: map<int, Value>, free: seq<int>) {
    && FreeFrom(t, FREELIST, free) && NoRepeat(free) && (forall x :: x in free ==> x >= 1)
    && (forall r :: r in live ==> r >= 1 && r !in free && live[r] != Nil && t[r] == live[r])
  }

  /** There are not yet as many references, given back or not, and other values as a table can have nodes. */
  predicate Fits(live: map<int, Value>, free: seq<int>, others: set<Key>) {
    |live| + |free| + |others| + 1 < MAXASIZE
  }

  class RefTable {
    const t: Table
    /** The references handed out and not given back, and what they refer to. */
    ghost var live: map<int, Value>
    ghost var free: seq<int>
    /** The keys of whatever else has been put into the table. */
    ghost var others: set<Key>

    ghost function Contents(): Slots
      reads t
    {
      Ints(All())
    }

    ghost predicate Valid()
      reads this, t
    {
      t.Valid() && Sorted(Contents(), live, free) && Within(Kept(live, free) + others)
    }

    /** What all keys hold. */
    ghost function All(): Whole
      reads t
    {
      imap key: Key | true :: t.At(key)
    }

    /** No other keys have values. */
    ghost predicate Within(keys: set<Key>)
      reads t
    {
      AllWithin(All(), keys)
    }

    constructor (H: NumberHash)
      ensures Valid() && live == map[] && free == [] && others == {} && fresh(t)
    {
      t := new Table(H, 0, 0);
      live, free, others := map[], [], {};
    }

    /** `lua_rawgeti` */
    method RawGet(k: int) returns (v: Value)
      requires t.Valid()
      ensures v == Contents()[k]
    {
      RawAt(k);
      v := t.Get(KeyOf(k));
    }

    /** A write, and nothing else. */
    method Write(key: Key, v: Value)
      requires t.Valid() && (t.At(key) != Nil || Room(t.arr, t.node)) && !key.NilKey? && !key.NaN?
      modifies t
      ensures t.Valid() && All() == old(All())[key := v]
    {
      hide Room; hide Lookup; hide Table.Valid; hide Table.Settles;
      if t.At(key) != Nil { Held(key); }
      ghost var was := All();
      var out := t.Put(key, v);
      assert forall k :: All()[k] == was[key := v][k];
    }

    /** `lua_rawseti` */
    method RawSet(k: int, v: Value)
      requires t.Valid() && (Contents()[k] != Nil || Room(t.arr, t.node))
      modifies t
      ensures t.Valid() && Contents() == old(Contents())[k := v]
      ensures All() == old(All())[KeyOf(k) := v]
      ensures forall keys :: old(Within(keys)) && KeyOf(k) in keys ==> Within(keys)
    {
      hide Room; hide Table.Valid; hide All; hide Ints; hide AllWithin;
      RawAt(k);
      WrittenInt(All(), k, v);
      WrittenElse(All(), KeyOf(k), v);
      Write(KeyOf(k), v);
    }

    lemma RawAt(k: int)
      ensures Contents()[k] == t.At(KeyOf(k))
    {
      hide Table.At;
    }

    lemma Held(key: Key)
      requires t.At(key) != Nil
      ensures t.Settles(key)
    {
    }

    /** There is room for a value under every key that takes part, and for one more. */
    lemma HasRoom(l: map<int, Value>, f: seq<int>, more: set<Key>)
      requires t.Valid() && Within(Kept(l, f) + more) && Fits(l, f, more)
      ensures Room(t.arr, t.node)
    {
      KeptSize(l, f);
      SumSize(Kept(l, f), more);
      GoodLive(t.H, t.node, t.layout);
      ValuesKept(t.arr, t.node, Kept(l, f) + more);
    }

    /** Other values are put into the table, under keys that no reference takes up. */
    method SetOther(key: Key, v: Value)
      requires Valid() && key !in Kept(live, free) && Fits(live, free, others) && !key.NilKey? && !key.NaN?
      modifies `others, t
      ensures Valid() && others == old(others) + {key} && All() == old(All())[key := v]
    {
      hide Room; hide Table.Valid; hide All; hide Ints; hide AllWithin; hide Kept; hide Sorted;
      HasRoom(live, free, others);
      ghost var was, all, keys := Contents(), All(), Kept(live, free) + others;
      WrittenElse(all, key, v);
      Write(key, v);
      others := others + {key};
      assert Kept(live, free) + others == keys + {key};
      Apart(was, Contents(), live, free, key);
    }

    lemma Apart(was: Slots, now: Slots, l: map<int, Value>, f: seq<int>, key: Key)
      requires Sorted(was, l, f) && key !in Kept(l, f) && forall k :: KeyOf(k) != key ==> now[k] == was[k]
      ensures Sorted(now, l, f)
    {
      forall x | x in f ensures now[x] == was[x] {
        var i :| 0 <= i < |f| && f[i] == x;
        assert KeyOf(f[i]) in Kept(l, f);
      }
      FreeElsewhere(was, now, FREELIST, f);
    }

    /** `luaL_ref`: a reference that nothing else is kept under. */
    method Ref(v: Value) returns (ref: int)
      requires Valid() && Fits(live, free, others)
      modifies `live, `free, t
      ensures Valid()
      ensures v == Nil ==> ref == REFNIL && live == old(live) && free == old(free) && Elsewhere(old(All()), All(), {})
      ensures v != Nil ==> ref >= 1 && ref !in old(live) && live == old(live)[ref := v]
      ensures v != Nil ==> ref in old(free) || old(Contents())[ref] == Nil
      ensures v != Nil ==> Elsewhere(old(All()), All(), {KeyOf(FREELIST), KeyOf(ref)})
      ensures v != Nil ==> |live| + |free| <= old(|live| + |free|) + 1
    {
      hide Room; hide Lookup; hide Table.Valid; hide Kept; hide Within; hide Contents; hide Sorted; hide Vacant;
      if v == Nil {
        return REFNIL;
      }
      ghost var l, f := live, free;
      ref := Obtain();
      ghost var mid := Contents();
      Added(mid, l, f, free, ref, v);
      KeptMore(l, f, free, ref, v);
      WithinMore(Kept(l, f) + others, Kept(l[ref := v], free) + others);
      RawSet(ref, v);
      assert Contents() == mid[ref := v];
      live := live[ref := v];
      Heavier(l, f, free, ref, v);
    }

    /** The first free element, which leaves the free list, or a slot never used. */
    method Obtain() returns (ref: int)
      requires Valid() && Fits(live, free, others)
      modifies `free, t
      ensures t.Valid() && Vacant(Contents(), live, old(free), free, ref) && |free| <= |old(free)|
      ensures Within(Kept(live, old(free)) + others) && Room(t.arr, t.node)
      ensures (ref in old(free) || old(Contents())[ref] == Nil) && Elsewhere(old(All()), All(), {KeyOf(FREELIST)})
    {
      hide Room; hide Lookup; hide Table.Valid; hide Kept; hide Within; hide Contents; hide Sorted; hide Vacant;
      hide Table.Border; hide ToInteger;
      var head := RawGet(FREELIST);
      ref := ToInteger(head);
      ghost var was, l, f := Contents(), live, free;
      HasRoom(l, f, others);
      FreeHead(was, l, f);
      if ref != 0 {
        var next := RawGet(ref);
        RawSet(FREELIST, next);
        HeadGone(was, Contents(), l, f);
        HeadKept(l, f);
        HasRoom(l, f, others);
        free := f[1..];
      } else {
        var n := t.GetN();
        ref := n + 1;
        BorderUnused(n);
      }
    }

    lemma WithinMore(keys: set<Key>, more: set<Key>)
      requires Within(keys) && keys <= more
      ensures Within(more)
    {
    }

    lemma FreeHead(c: Slots, l: map<int, Value>, f: seq<int>)
      requires Sorted(c, l, f)
      ensures if f == [] then ToInteger(c[FREELIST]) == 0 else f[0] >= 1 && ToInteger(c[FREELIST]) == f[0]
    {
      if f != [] { assert f[0] in f; }
    }

    lemma Heavier(l: map<int, Value>, f: seq<int>, free: seq<int>, ref: int, v: Value)
      requires |free| <= |f|
      ensures |l[ref := v]| + |free| <= |l| + |f| + 1
    {
      assert l[ref := v].Keys == l.Keys + {ref};
    }

    lemma HeadKept(l: map<int, Value>, f: seq<int>)
      ensures KeyOf(FREELIST) in Kept(l, f)
    {
    }

    /** A border is followed by a slot that is neither free nor in use. */
    lemma BorderUnused(n: nat)
      requires Valid() && free == [] && t.Border(n)
      ensures Vacant(Contents(), live, [], [], n + 1) && Contents()[n + 1] == Nil
    {
      hide Table.Valid; hide Lookup; hide Within;
      RawAt(n + 1);
      assert t.At(KeyOf(n + 1)) == t.Int(n + 1);
    }

    /** `luaL_unref`, of a reference that is not free already. */
    method Unref(ref: int)
      requires Valid() && (ref < 0 || ref in live) && Fits(live, free, others)
      modifies `live, `free, t
      ensures Valid() && live == (if ref < 0 then old(live) else old(live) - {ref})
      ensures ref >= 0 ==> free == [ref] + old(free)
      ensures Elsewhere(old(All()), All(), if ref < 0 then {} else {KeyOf(FREELIST), KeyOf(ref)})
      ensures |live| + |free| == old(|live| + |free|)
    {
      hide Room; hide Lookup; hide Table.Valid; hide Kept; hide Within; hide Contents; hide Sorted; hide Numeral;
      if ref >= 0 {
        ghost var was, l, f := Contents(), live, free;
        var head := RawGet(FREELIST);
        RefKept(was, l, f, ref);
        RawSet(ref, head);
        HasRoom(l, f, others);
        ghost var mid := Contents();
        RawSet(FREELIST, Numeral(ref));
        assert Contents() == mid[FREELIST := Numeral(ref)];
        Freed(was, Contents(), l, f, ref);
        free := [ref] + free;
        live := live - {ref};
      }
    }

    lemma RefKept(c: Slots, l: map<int, Value>, f: seq<int>, ref: int)
      requires ref in l && Sorted(c, l, f)
      ensures KeyOf(ref) in Kept(l, f) && KeyOf(FREELIST) in Kept(l, f) && c[ref] != Nil
    {
    }
  }

  /** The slot `ref` can be put to use, the free list being `free` then. */
  ghost predicate Vacant(t: Slots, live: map<int, Value>, f: seq<int>, free: seq<int>, ref: int) {
    && FreeFrom(t, FREELIST, free) && NoRepeat(free) && ref >= 1 && ref !in live && ref !in free
    && (forall x :: x in f <==> x in free || (f != [] && x == ref)) && (forall x :: x in f ==> x >= 1)
    && (forall r :: r in live ==> r >= 1 && r !in f && live[r] != Nil && t[r] == live[r])
  }

  /** The second element of the free list takes the place of the first. */
  lemma HeadGone(t: Slots, u: Slots, live: map<int, Value>, free: seq<int>)
    requires Sorted(t, live, free) && free != [] && u == t[FREELIST := t[free[0]]]
    ensures Vacant(u, live, free, free[1..], free[0])
  {
    HeadTail(free);
    RestFrom(t, u, free);
  }

  lemma HeadTail(s: seq<int>)
    requires NoRepeat(s) && s != []
    ensures NoRepeat(s[1..]) && s[0] !in s[1..] && s[0] in s && forall x :: x in s <==> x == s[0] || x in s[1..]
  {
    assert s == [s[0]] + s[1..];
  }

  lemma RestFrom(t: Slots, u: Slots, free: seq<int>)
    requires FreeFrom(t, FREELIST, free) && free != [] && u == t[FREELIST := t[free[0]]]
    requires forall x :: x in free ==> x >= 1
    ensures FreeFrom(u, FREELIST, free[1..])
  {
    var rest := free[1..];
    if rest != [] {
      assert rest[0] in free && forall x :: x in rest[1..] ==> x in free;
      FreeElsewhere(t, u, rest[0], rest[1..]);
    }
  }

  /** A list goes on from wherever its first link is copied to. */
  lemma Relinked(t: Slots, u: Slots, k: int, ref: int, free: seq<int>)
    requires FreeFrom(t, k, free) && ref !in free && u == t[ref := t[k]]
    ensures FreeFrom(u, ref, free)
  {
    if free != [] {
      assert forall x :: x in free[1..] ==> x in free;
      FreeElsewhere(t, u, free[0], free[1..]);
    }
  }

  /** A reference put to use that was the first free one, or a slot never used. */
  lemma Added(t: Slots, live: map<int, Value>, f: seq<int>, free: seq<int>, ref: int, v: Value)
    requires Vacant(t, live, f, free, ref) && v != Nil
    ensures Sorted(t[ref := v], live[ref := v], free) && ref >= 1 && ref !in live
    ensures forall x :: x in f ==> x in free || x == ref
  {
    FreeElsewhere(t, t[ref := v], FREELIST, free);
  }

  /** A reference given back is the first free one. */
  lemma Freed(t: Slots, u: Slots, live: map<int, Value>, free: seq<int>, ref: int)
    requires Sorted(t, live, free) && ref in live && u == t[ref := t[FREELIST]][FREELIST := Numeral(ref)]
    ensures Sorted(u, live - {ref}, [ref] + free)
    ensures Kept(live, free) == Kept(live - {ref}, [ref] + free) && |live - {ref}| == |live| - 1
  {
    FreedList(t, u, live, free, ref);
    KeptFreed(live, free, ref);
    assert live == (live - {ref})[ref := live[ref]];
    FirstNew(free, ref);
    hide FreeFrom;
    hide Kept;
    hide NoRepeat;
    hide Numeral;
  }

  lemma FreedList(t: Slots, u: Slots, live: map<int, Value>, free: seq<int>, ref: int)
    requires Sorted(t, live, free) && ref in live && u == t[ref := t[FREELIST]][FREELIST := Numeral(ref)]
    ensures FreeFrom(u, FREELIST, [ref] + free)
  {
    var mid := t[ref := t[FREELIST]];
    Relinked(t, mid, FREELIST, ref, free);
    FreeElsewhere(mid, u, ref, free);
    assert ([ref] + free)[1..] == free;
  }

  lemma FirstNew(free: seq<int>, ref: int)
    requires NoRepeat(free) && ref !in free
    ensures NoRepeat([ref] + free) && forall x :: x in [ref] + free <==> x == ref || x in free
  {
  }

  lemma KeptFreed(live: map<int, Value>, free: seq<int>, ref: int)
    requires ref in live
    ensures Kept(live, free) == Kept(live - {ref}, [ref] + free)
  {
    var a, b := Kept(live, free), Kept(live - {ref}, [ref] + free);
    forall key | key in a ensures key in b {
      if i :| 0 <= i < |free| && key == KeyOf(free[i]) { assert ([ref] + free)[i + 1] == free[i]; }
      if key == KeyOf(ref) { assert ([ref] + free)[0] == ref; }
    }
    forall key | key in b ensures key in a {
      if i :| 0 <= i < |free| + 1 && key == KeyOf(([ref] + free)[i]) {
        if i > 0 { assert ([ref] + free)[i] == free[i - 1]; }
      }
    }
  }

  lemma KeptMore(live: map<int, Value>, f: seq<int>, free: seq<int>, ref: int, v: Value)
    requires forall x :: x in f ==> x in free || x == ref
    ensures Kept(live, f) + {KeyOf(ref)} <= Kept(live[ref := v], free)
  {
    forall i | 0 <= i < |f| ensures KeyOf(f[i]) in Kept(live[ref := v], free) {
      assert f[i] in f;
      if f[i] in free {
        var j :| 0 <= j < |free| && free[j] == f[i];
        assert KeyOf(free[j]) in Kept(live[ref := v], free);
      }
    }
  }

  lemma KeptSize(live: map<int, Value>, free: seq<int>)
    ensures |Kept(live, free)| <= |live| + |free| + 1
  {
    var a, b := set r | r in live.Keys :: KeyOf(r), set i | 0 <= i < |free| :: KeyOf(free[i]);
    assert Kept(live, free) == {KeyOf(FREELIST)} + a + b;
    ImageSize(live.Keys);
    ListSize(free);
    SumSize({KeyOf(FREELIST)}, a);
    SumSize({KeyOf(FREELIST)} + a, b);
  }

  lemma SumSize(a: set<Key>, b: set<Key>)
    ensures |a + b| <= |a| + |b|
  {
    assert a + b == a + (b - a);
    SubsetLess(b - a, b);
  }

  lemma Member<T>(s: set<T>) returns (x: T)
    requires |s| > 0
    ensures x in s
  {
    x :| x in s;
  }

  lemma {:induction false} ImageSize(s: set<int>)
    ensures |set r | r in s :: KeyOf(r)| <= |s|
  {
    if |s| > 0 {
      var x := Member(s);
      ImageSize(s - {x});
      var a, b := set r | r in s :: KeyOf(r), set r | r in s - {x} :: KeyOf(r);
      assert a == b + {KeyOf(x)};
    } else {
      assert s == {} && (set r | r in s :: KeyOf(r)) == {};
    }
  }

  lemma {:induction false} ListSize(s: seq<int>)
    ensures |set i | 0 <= i < |s| :: KeyOf(s[i])| <= |s|
  {
    var a := set i | 0 <= i < |s| :: KeyOf(s[i]);
    if s != [] {
      var p := s[..|s| - 1];
      ListSize(p);
      var b := set i | 0 <= i < |p| :: KeyOf(p[i]);
      assert a == b + {KeyOf(s[|s| - 1])} by {
        forall key | key in a ensures key in b + {KeyOf(s[|s| - 1])} {
          var i :| 0 <= i < |s| && key == KeyOf(s[i]);
          if i < |p| { assert p[i] == s[i]; }
        }
        forall key | key in b ensures key in a {
          var i :| 0 <= i < |p| && key == KeyOf(p[i]);
          assert s[i] == p[i];
        }
      }
    } else {
      assert a == {};
    }
  }

  /** A table holds no more values than there are keys that have one. */
  lemma {:induction false} SlotsKept(arr: seq<Value>, hi: nat, nodes: seq<Node>, keys: set<Key>)
    requires |arr| <= hi && |arr| <= MAXASIZE && forall i :: 0 <= i < |arr| && arr[i] != Nil ==> KeyOf(i + 1) in keys
    requires forall i :: 0 <= i < |nodes| && nodes[i].val != Nil ==> nodes[i].key.Live? && nodes[i].key.k in keys
    requires forall i, j :: 0 <= i < j < |nodes| && nodes[i].val != Nil && nodes[j].val != Nil ==>
      nodes[i].key.k != nodes[j].key.k
    requires forall i :: 0 <= i < |nodes| && nodes[i].val != Nil ==> !InArray(nodes[i].key.k, |arr|)
    ensures CountArr(arr, 0, hi) + Values(nodes) <= |keys|
    decreases |arr| + |nodes|
  {
    if arr != [] {
      var n := |arr| - 1;
      IndexOfInt(n + 1);
      SlotsKept(arr[..n], hi, nodes, if arr[n].Nil? then keys else keys - {KeyOf(n + 1)});
    } else if nodes != [] {
      SlotsKept(arr, hi, nodes[1..], if nodes[0].val.Nil? then keys else keys - {nodes[0].key.k});
    }
  }

  lemma ValuesKept(arr: seq<Value>, nodes: seq<Node>, keys: set<Key>)
    requires Keyed(nodes) && ValuesLive(nodes) && Outside(arr, nodes) && |arr| <= MAXASIZE
    requires forall key :: Lookup(arr, nodes, key) != Nil ==> key in keys
    ensures CountArr(arr, 0, |arr|) + Values(nodes) <= |keys|
  {
    forall i | 0 <= i < |arr| && arr[i] != Nil ensures KeyOf(i + 1) in keys { IndexOfInt(i + 1); }
    forall i | 0 <= i < |nodes| && nodes[i].val != Nil ensures nodes[i].key.k in keys { InHashAt(nodes, i); }
    SlotsKept(arr, |arr|, nodes, keys);
  }
}
