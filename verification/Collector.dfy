/**
  The incremental tri-colour collector: marking through gray lists, the atomic step that ends it,
  sweeping a few objects at a time, and the barriers that keep a running program from hiding
  references while all this goes on.
 */
module Collector {
  import opened ObjectGraph
  import opened Mutating
  import opened Painting
  import opened Sweeping

  /** How many objects one step of the sweep looks at. */
  const GCSWEEPMAX: nat := 40

  const MINSTRTABSIZE: nat := 32

  /** One metatable for each basic type of value. */
  const NUM_TAGS: nat := 9

  function PhaseRank(p: Phase): nat {
    match p
    case Propagate => 4
    case SweepString => 3
    case Sweep => 2
    case Finalize => 1
    case Pause => 0
  }

  ghost function Work(g: State): int {
    match g.phase
    case Propagate => |Whites(g)| + |g.gray|
    case SweepString => |g.strings| - g.sweepString
    case Sweep => |g.root| - g.sweep + |g.openUpvals|
    case _ => 0
  }

  /** `h` is nearer to the end of the cycle than `g`. */
  ghost predicate Less(h: State, g: State) {
    || PhaseRank(h.phase) < PhaseRank(g.phase)
    || (h.phase == g.phase && Work(h) < Work(g))
  }

  /** Whatever the program can reach is still there, as it was, and nothing has been added. */
  ghost predicate Survive(g: State, h: State) {
    && (forall x :: Reach(g.(held := {}), x) ==>
          x in g.heap && x in h.heap && View(h.heap, x) == View(g.heap, x) && Reach(h, x))
    && h.heap.Keys <= g.heap.Keys
  }

  lemma SparesSurvive(g: State, h: State)
    requires Sound(g.(held := {})) && Spares(g.(held := {}), h)
    ensures Survive(g, h)
  {
    hide Sound;
    hide Reach;
    var g0 := g.(held := {});
    forall x | Reach(g0, x)
      ensures x in g.heap && x in h.heap && View(h.heap, x) == View(g.heap, x) && Reach(h, x)
    {
      SparesReachable(g0, h, x);
    }
  }

  lemma SurviveTrans(g: State, h: State, k: State)
    requires Survive(g, h) && Survive(h, k) && h.held == {}
    ensures Survive(g, k)
  {
    hide Reach;
    assert h.(held := {}) == h;
  }

  /** What is marked through references is marked by name. */
  lemma NamedMarked(g: State, o: Id)
    requires o in g.heap && AllMarked(g, Held(g.heap, o))
    ensures forall y :: Names(g.heap, o, y) ==> !IsWhite(g, y)
  {
    hide Held;
    forall y | Names(g.heap, o, y) ensures !IsWhite(g, y) {
      PointsExactly(g.heap, o, y);
      assert Marked(g, Ref(y));
    }
  }

  /** Everything there is bounds what marking may find. */
  lemma HeapBounds(g: State)
    requires Inv(g)
    ensures g.phase.Pause? || g.phase.Propagate? ==> Within(g, g.heap.Keys) && RootsWithin(g, g.heap.Keys)
  {
    if g.phase.Pause? || g.phase.Propagate? {
      hide Lists;
      HeapWithin(g);
      hide Within;
      hide Sound;
      RootsOf(g);
    }
  }

  lemma RootsOf(g: State)
    requires forall x :: x in Anchors(g) ==> x in g.heap
    ensures RootsWithin(g, g.heap.Keys)
  {
    forall v | v in g.metas ensures InSet(v, g.heap.Keys) {
      var i :| 0 <= i < |g.metas| && g.metas[i] == v;
      if v.Ref? { assert v.id in Ids(g.metas); }
    }
  }

  lemma StringSearched(g: State, text: string)
    requires Inv(g)
    ensures |g.strings| > 0
    ensures var l := g.strings[ChainOf(text, |g.strings|)];
      && (forall k :: 0 <= k < |l| ==> l[k] in g.heap)
      && (forall y :: y in g.heap && g.heap[y] == Str(text) ==> y in l)
      && (forall y, z :: y in g.heap && z in g.heap && g.heap[y] == Str(text) && g.heap[z] == Str(text) ==> y == z)
  {
    hide Sound;
    hide Basic;
    hide InPhase;
    hide RootList;
    hide OpenLists;
    SomeChain(g);
    var l := g.strings[ChainOf(text, |g.strings|)];
    forall k | 0 <= k < |l| ensures l[k] in g.heap { assert l[k] in l; }
  }

  lemma InvKeys(g: State)
    requires Inv(g)
    ensures g.mark.Keys == g.heap.Keys
  {}

  /** No text is there twice. */
  lemma OneOfText(g: State, text: string)
    requires Inv(g)
    ensures forall y, z :: y in g.heap && z in g.heap && g.heap[y] == Str(text) && g.heap[z] == Str(text) ==> y == z
  {
    StringSearched(g, text);
  }

  lemma HeldAlso(g: State, x: Id)
    requires Inv(g) && x in g.heap && !IsDead(g, x)
    ensures Inv(g.(held := g.held + {x}))
  {
    InvSound(g);
    hide Inv;
    var h := g.(held := g.held + {x});
    assert Anchors(h) == Anchors(g) + {x};
    RerootedKeeps(g, h);
  }

  /** Two upvalues that watch the same slot of the same stack. */
  predicate Shares(heap: map<Id, Object>, y: Id, u: Id) {
    y in heap && u in heap && IsOpen(heap[y]) && heap[y] == heap[u]
  }

  lemma StoreReady(g: State, o: Id, body: Object, vs: set<Value>)
    requires Inv(g) && Usable(g, Ref(o)) && (forall v :: v in vs ==> Usable(g, v))
    requires o in g.heap && SameKind(g.heap[o], body) && Fields(body) <= Held(g.heap, o) + vs
    ensures Storable(g, o, body, vs) && o in g.mark && AllAlive(Stored(g, o, body), vs)
  {
    hide Inv;
    hide Sound;
    hide Usable;
    hide Held;
    hide SameKind;
    InvSound(g);
    InvKeys(g);
    forall v | v in vs ensures Alive(g, v) { UsableAlive(g, v); }
    forall v | v in vs ensures Alive(Stored(g, o, body), v) { assert Alive(g, v); }
  }

  /** What a black object held before the write is marked, so only what has been written can be white. */
  lemma StoreSettled(g: State, o: Id, body: Object, vs: set<Value>)
    requires Inv(g) && Storable(g, o, body, vs)
    ensures var h := Stored(g, o, body);
      h.phase.Propagate? && o in h.mark && h.mark[o] == Black ==>
        forall w :: w in Held(h.heap, o) && w !in vs ==> Marked(h, w)
  {
    hide Inv;
    var h := Stored(g, o, body);
    StoredViews(g, o, body, vs);
    if h.phase.Propagate? && o in h.mark && h.mark[o] == Black {
      BlackSettled(g, o);
      forall w | w in Held(h.heap, o) && w !in vs ensures Marked(h, w) { assert Marked(g, w); }
    }
  }

  lemma NoBackNeeded(g: State, o: Id, key: Value, val: Value)
    requires Pending(g, o) && o in g.heap && o in g.mark
    requires g.mark[o] == Black ==> Marked(g, key) && Marked(g, val)
    requires g.phase.Propagate? && g.mark[o] == Black ==>
               forall w :: w in Held(g.heap, o) && w !in {key, val} ==> Marked(g, w)
    ensures Inv(g)
  {
    hide Pending;
    if g.mark[o] == Black && g.phase.Propagate? {
      forall w | w in Held(g.heap, o) && w != key ensures Marked(g, w) { if w != val { assert w !in {key, val}; } }
    }
    NoBarrier(g, o, key);
  }

  lemma StackReady(g: State, t: Id, globals: Value, stack: seq<Value>)
    requires Inv(g) && t in g.heap && g.heap[t].Thread? && Usable(g, globals)
    requires forall v :: v in stack ==> Usable(g, v)
    requires forall u :: u in g.heap[t].open ==> Slot(g.heap, u) < |stack|
    ensures Restackable(g, t, globals, stack)
  {
    InvSound(g);
    hide Inv;
    hide Slot;
    UsableAlive(g, globals);
    forall v | v in stack ensures Alive(g, v) { UsableAlive(g, v); }
    hide Usable;
    hide Sound;
  }

  lemma UpvalueReady(g: State, u: Id, v: Value)
    requires Inv(g) && u in g.heap && IsOpen(g.heap[u]) && Usable(g, v)
    ensures var t, s := g.heap[u].at.thread, g.heap[u].at.slot;
      && t in g.heap && g.heap[t].Thread? && s < |g.heap[t].stack|
      && Restackable(g, t, g.heap[t].globals, g.heap[t].stack[s := v])
  {
    hide Inv;
    hide Sound;
    hide OpenList;
    hide OpenLists;
    hide Usable;
    InvSound(g);
    InvOpens(g);
    UsableAlive(g, v);
    OpenThreads(g.heap, g.openUpvals);
    var t := g.heap[u].at.thread;
    OpenListOf(g.heap, g.openUpvals, t);
    OpenMembers(g.heap, t);
    StackWith(g, t, g.heap[u].at.slot, v);
  }

  /** A stack with one slot overwritten. */
  lemma StackWith(g: State, t: Id, s: nat, v: Value)
    requires Sound(g) && t in g.heap && g.heap[t].Thread? && s < |g.heap[t].stack| && Alive(g, v)
    requires forall u :: u in g.heap[t].open ==>
               u in g.heap && IsOpen(g.heap[u]) && g.heap[u].at.thread == t && g.heap[u].at.slot < |g.heap[t].stack|
    ensures Restackable(g, t, g.heap[t].globals, g.heap[t].stack[s := v])
  {
    var stack := g.heap[t].stack[s := v];
    if !IsDead(g, t) {
      assert AllAlive(g, Held(g.heap, t));
      assert Alive(g, g.heap[t].globals);
      forall w | w in Values(stack) ensures Alive(g, w) { if w != v { assert w in Values(g.heap[t].stack); } }
    }
    forall y | y in g.heap[t].open && !IsDead(g, y) && Slot(g.heap, y) < |stack|
      ensures Alive(g, stack[Slot(g.heap, y)])
    {
      assert AllAlive(g, Held(g.heap, y));
      assert Held(g.heap, y) == {g.heap[t].stack[Slot(g.heap, y)]};
      assert Alive(g, g.heap[t].stack[Slot(g.heap, y)]);
    }
    hide Sound;
    hide IsDead;
  }

  lemma InvOpens(g: State)
    requires Inv(g)
    ensures OpenLists(g.heap, g.openUpvals)
  {}

  lemma OpenMembers(heap: map<Id, Object>, t: Id)
    requires t in heap && heap[t].Thread? && OpenList(heap, t)
    ensures forall u :: u in heap[t].open ==>
              u in heap && IsOpen(heap[u]) && heap[u].at.thread == t && heap[u].at.slot < |heap[t].stack|
  {}

  lemma RehashStarts(heap: map<Id, Object>, chains: seq<seq<Id>>)
    requires |chains| > 0 && forall k :: 0 <= k < |chains| ==> chains[k] == []
    ensures Rehashed(heap, chains, {})
  {}

  lemma InvChains(g: State)
    requires Inv(g)
    ensures Chains(g.heap, g.strings)
  {}

  /** A chain not yet moved has nothing in common with those that have. */
  lemma RehashApart(heap: map<Id, Object>, strings: seq<seq<Id>>, i: nat, done: set<Id>)
    requires Chains(heap, strings) && i < |strings|
    requires forall x :: x in done ==> exists k :: 0 <= k < i && x in strings[k]
    ensures NoDup(strings[i]) && forall x :: x in strings[i] ==> x in heap && heap[x].Str? && x !in done
  {
    forall x | x in strings[i] ensures x in heap && heap[x].Str? && x !in done {
      if x in done {
        var k :| 0 <= k < i && x in strings[k];
        ChainsApart(heap, strings, i, k, x, x);
      }
    }
  }

  lemma RehashEnds(g: State, chains: seq<seq<Id>>, done: set<Id>)
    requires Inv(g) && Rehashed(g.heap, chains, done)
    requires forall k, x :: 0 <= k < |g.strings| && x in g.strings[k] ==> x in done
    ensures Chains(g.heap, chains)
  {
    InvChains(g);
    hide Inv;
    forall x | x in g.heap && g.heap[x].Str? ensures x in done {
      assert x in g.strings[ChainOf(g.heap[x].text, |g.strings|)];
    }
    RehashedAll(g.heap, g.strings, chains, done);
  }

  lemma RunningThere(g: State)
    requires Inv(g)
    ensures g.running in g.heap && !IsDead(g, g.running)
  {
    assert g.running in Anchors(g);
  }

  lemma SlotAlive(g: State, slot: nat)
    requires Inv(g) && g.running in g.heap && g.heap[g.running].Thread? && slot < |g.heap[g.running].stack|
    ensures Alive(g, g.heap[g.running].stack[slot])
  {
    hide Inv;
    InvSound(g);
    RunningThere(g);
    assert AllAlive(g, Held(g.heap, g.running));
    assert g.heap[g.running].stack[slot] in Held(g.heap, g.running);
  }

  lemma UpvalueAlive(g: State, slot: nat, u: Id)
    requires Inv(g) && g.running in g.heap && g.heap[g.running].Thread? && slot < |g.heap[g.running].stack|
    requires u in g.heap && g.heap[u] == UpValue(Open(g.running, slot))
    ensures AllAlive(g, Held(g.heap, u))
  {
    hide Inv;
    SlotAlive(g, slot);
  }

  lemma CapturedViews(g: State, t: Id, i: nat, x: Id, slot: nat)
    requires Inv(g) && t in g.heap && g.heap[t].Thread? && x !in g.heap && Belongs(g.heap, t, i, slot)
    ensures var h := Captured(g, t, i, x, slot).heap; forall y :: y in g.heap ==>
      y in h && View(h, y) == View(g.heap, y)
  {
    InvOpens(g);
    hide Inv;
    CapturedAdds(g, t, i, x, slot);
    hide View;
    hide OpenLists;
  }

  /** No slot has two open upvalues. */
  lemma OneUpvalue(g: State, t: Id, slot: nat, u: Id)
    requires Inv(g) && u in g.heap && g.heap[u] == UpValue(Open(t, slot))
    ensures forall y :: y in g.heap && g.heap[y] == UpValue(Open(t, slot)) ==> y == u
  {
    hide Inv;
    hide OpenLists;
    InvOpens(g);
    OpenThreads(g.heap, g.openUpvals);
    OpenListOf(g.heap, g.openUpvals, t);
    var l := g.heap[t].open;
    var i :| 0 <= i < |l| && l[i] == u;
    forall y | y in g.heap && g.heap[y] == UpValue(Open(t, slot)) ensures y == u {
      var j :| 0 <= j < |l| && l[j] == y;
      assert Slot(g.heap, l[i]) == Slot(g.heap, l[j]);
    }
  }

  lemma MetaReady(g: State, i: nat, v: Value)
    requires Inv(g) && i < |g.metas| && Usable(g, v)
    ensures Inv(g.(metas := g.metas[i := v]))
  {
    hide Inv;
    hide Reach;
    hide Held;
    InvSound(g);
    UsableAlive(g, v);
    var h := g.(metas := g.metas[i := v]);
    IdsUpdated(g.metas, i, v);
    assert Anchors(h) <= Anchors(g) + IdOf(v);
    RerootedKeeps(g, h);
  }

  lemma IdsUpdated(s: seq<Value>, i: nat, v: Value)
    requires i < |s|
    ensures Ids(s[i := v]) <= Ids(s) + IdOf(v)
  {
    var r := s[i := v];
    forall x | x in Ids(r) ensures x in Ids(s) + IdOf(v) {
      var k :| 0 <= k < |r| && r[k].Ref? && r[k].id == x;
      if k != i { assert s[k] == r[k]; }
    }
  }

  lemma SwitchReady(g: State, t: Id)
    requires Inv(g) && Reach(g, t)
    ensures Inv(g.(held := g.held + {g.running}, running := t))
  {
    hide Inv;
    hide Held;
    hide Reach;
    InvSound(g);
    ReachableAlive(g, t);
    var h := g.(held := g.held + {g.running}, running := t);
    assert Anchors(h) == Anchors(g) + {t};
    RerootedKeeps(g, h);
  }

  /** A new state: the main thread, the table of globals and the registry. */
  ghost predicate Initial(g: State) {
    && g.heap == map[0 := Thread(Ref(1), [], []), 1 := Table(Nil, []), 2 := Table(Nil, [])]
    && g.mark == map[0 := White(false), 1 := White(false), 2 := White(false)] && !g.white && g.fixed == {0}
    && g.phase.Pause? && g.openUpvals == [] && g.root == [2, 1, 0] && g.main == 0 && g.running == 0
    && |g.strings| > 0 && (forall k :: 0 <= k < |g.strings| ==> g.strings[k] == [])
    && g.registry == Ref(2) && (forall k :: 0 <= k < |g.metas| ==> g.metas[k] == Nil) && g.held == {}
  }

  lemma StartKeeps(g: State)
    requires Initial(g)
    ensures Inv(g)
  {
    hide Sound;
    hide Lists;
    hide Basic;
    StartBasic(g);
    StartLists(g);
    StartSound(g);
  }

  lemma StartBasic(g: State)
    requires Initial(g)
    ensures Basic(g)
  {}

  lemma StartSound(g: State)
    requires Initial(g)
    ensures Sound(g)
  {
    assert Anchors(g) == {0, 2};
    assert Held(g.heap, 0) == {Ref(1)};
    assert Held(g.heap, 1) == {Nil} && Held(g.heap, 2) == {Nil};
    hide Held;
    hide Anchors;
  }

  lemma StartLists(g: State)
    requires Initial(g)
    ensures Lists(g)
  {
    StartChains(g.heap, g.strings);
    StartOpens(g.heap);
    hide Chains;
    hide OpenLists;
    assert forall x :: x in [2, 1, 0] <==> x in g.heap;
  }

  lemma StartChains(heap: map<Id, Object>, strings: seq<seq<Id>>)
    requires forall x :: x in heap ==> !heap[x].Str?
    requires |strings| > 0 && (forall k :: 0 <= k < |strings| ==> strings[k] == [])
    ensures Chains(heap, strings)
  {}

  lemma StartOpens(heap: map<Id, Object>)
    requires forall x :: x in heap ==> !heap[x].UpValue? && (heap[x].Thread? ==> heap[x].open == [])
    ensures OpenLists(heap, [])
  {}

  lemma UsableFields(g: State, body: Object)
    requires Inv(g) && InRoot(body) && (body.Thread? ==> body.open == [])
    requires forall v :: v in Fields(body) ==> Usable(g, v)
    ensures Makeable(g, body)
  {
    InvSound(g);
    forall v | v in Fields(body) ensures Alive(g, v) { UsableAlive(g, v); }
  }

  lemma MainInRoot(g: State)
    requires Inv(g)
    ensures g.main in g.root
  {
    hide Sound;
    hide Chains;
    hide OpenLists;
    hide InPhase;
  }

  /** What the program can reach. */
  ghost function ReachSet(g: State): set<Id> { set x | x in g.heap && Reach(g, x) }

  lemma WorkNat(g: State)
    requires Inv(g)
    ensures Work(g) >= 0
  {
    hide Sound;
    hide Lists;
    hide Basic;
    hide Marking;
  }

  /** Nothing is dead before marking ends, so everything may simply be swept white again. */
  lemma RestartKeeps(g: State)
    requires Inv(g) && (g.phase.Pause? || g.phase.Propagate?)
    ensures var h := g.(sweepString := 0, sweep := 0, gray := [], grayAgain := [], phase := SweepString);
      Inv(h) && Spares(g, h)
  {
    hide Inv;
    hide Sound;
    hide Chains;
    hide RootList;
    hide OpenLists;
    hide Spares;
    var h := g.(sweepString := 0, sweep := 0, gray := [], grayAgain := [], phase := SweepString);
    InvParts(g);
    SomeChain(g);
    RestartSpares(g, h);
    hide Basic;
    hide AllWhite;
    hide Marking;
    Assemble(g, h);
  }

  lemma RestartSpares(g: State, h: State)
    requires Basic(g)
    requires h == g.(sweepString := 0, sweep := 0, gray := [], grayAgain := [], phase := SweepString)
    ensures Spares(g, h) && Basic(h)
  {}

  /** What is reachable is closed under reference. */
  lemma ReachClosed(g: State, S: set<Id>)
    requires Sound(g) && AllWhite(g) && g.mark.Keys == g.heap.Keys && S == ReachSet(g)
    ensures Within(g, S)
  {
    forall x, v | x in S && v in Held(g.heap, x) ensures InSet(v, S) {
      if v.Ref? {
        assert Points(g.heap, x, v.id);
        ReachNext(g, x, v.id);
        ReachableAlive(g, v.id);
      }
    }
    hide Sound;
    hide Reach;
    hide Held;
  }

  lemma ReachRoots(g: State, S: set<Id>)
    requires Sound(g) && S == ReachSet(g)
    ensures RootsWithin(g, S)
  {
    hide Reach;
    forall x | x in Anchors(g) ensures x in S {
      ReachAnchor(g, x);
      ReachableAlive(g, x);
    }
    hide Sound;
    forall v | v in g.metas ensures InSet(v, S) {
      var i :| 0 <= i < |g.metas| && g.metas[i] == v;
      if v.Ref? { assert v.id in Ids(g.metas); }
    }
  }

  lemma RootsWithinStays(g: State, h: State, S: set<Id>)
    requires RootsWithin(g, S) && h.main == g.main && h.running == g.running && h.registry == g.registry
    requires h.metas == g.metas
    ensures RootsWithin(h, S)
  {}

  lemma SparesAlive(g: State, h: State)
    requires Spares(g, h)
    ensures forall x :: x in h.heap && !IsDead(h, x) ==> x in g.heap && !IsDead(g, x)
  {}

  lemma NothingDead(g: State)
    requires Inv(g) && g.phase.Pause?
    ensures forall x :: x in g.heap ==> !IsDead(g, x)
  {
    hide Sound;
    hide Lists;
    hide Basic;
  }

  /** Freeing the dead takes nothing away that is reachable, and makes nothing reachable. */
  lemma SparesReachBack(g: State, h: State, x: Id)
    requires Sound(g) && Spares(g, h) && Reach(h, x)
    ensures Reach(g, x)
  {
    SparesSound(g, h);
    var p :| Path(h, p) && p[|p| - 1] == x;
    assert Anchors(h) == Anchors(g);
    forall i | 0 < i < |p| ensures Points(g.heap, p[i - 1], p[i]) {
      assert Path(h, p[..i]) && p[..i][|p[..i]| - 1] == p[i - 1];
      ReachableAlive(h, p[i - 1]);
      assert Points(h.heap, p[i - 1], p[i]);
    }
    assert Path(g, p);
  }

  lemma Exactly(g: State, h: State, k: State)
    requires Inv(g.(held := {})) && Spares(g.(held := {}), h) && Survive(h, k) && h.held == {} && Inv(k)
    requires k.fixed == h.fixed
    requires forall x :: x in k.heap ==> x in ReachSet(h) || x in k.fixed
    ensures forall x :: x in k.heap <==> x in g.heap && (Reach(g.(held := {}), x) || x in k.fixed)
  {
    hide Inv;
    hide Reach;
    var g0 := g.(held := {});
    assert h.(held := {}) == h;
    InvSound(g0);
    FixedThere(k);
    forall x | x in k.heap ensures x in g.heap && (Reach(g0, x) || x in k.fixed) {
      if x !in k.fixed { SparesReachBack(g0, h, x); }
    }
    forall x | x in g.heap && Reach(g0, x) ensures x in k.heap { SparesReachable(g0, h, x); }
  }

  lemma FixedThere(g: State)
    requires Inv(g)
    ensures forall x :: x in g.fixed ==> x in g.heap
  {}

  /** With the same objects and roots the same is reachable. */
  lemma SameSurvive(g: State, h: State)
    requires Sound(g.(held := {})) && h.heap == g.heap && Anchors(h) == Anchors(g.(held := {}))
    ensures Survive(g, h)
  {
    var g0 := g.(held := {});
    forall x | Reach(g0, x) ensures x in g.heap && Reach(h, x) {
      ReachableAlive(g0, x);
      var p :| Path(g0, p) && p[|p| - 1] == x;
      assert Path(h, p);
    }
  }

  class GlobalState {
    var heap: map<Id, Object>
    var mark: map<Id, Color>
    var fixed: set<Id>
    var white: bool
    var phase: Phase
    var gray: seq<Id>
    var grayAgain: seq<Id>
    var strings: seq<seq<Id>>
    var root: seq<Id>
    var sweepString: nat
    var sweep: nat
    var openUpvals: seq<Id>
    var main: Id
    var running: Id
    var registry: Value
    var metas: seq<Value>
    ghost var held: set<Id>

    ghost function Snap(): State
      reads this
    {
      State(heap, mark, fixed, white, phase, gray, grayAgain, strings, root, sweepString, sweep,
            openUpvals, main, running, registry, metas, held)
    }

    predicate WhiteAt(x: Id)
      reads this
    {
      x in mark && mark[x].White?
    }

    /** `reallymarkobject`: marks what is not traversed later at once, and lists the rest as gray. */
    method ReallyMark(o: Id, ghost S: set<Id>)
      requires Paint(Snap(), S) && o in S && WhiteAt(o)
      modifies `mark, `gray
      ensures Paint(Snap(), S) && Marks(old(Snap()), Snap()) && !WhiteAt(o)
      decreases |Whites(Snap())|, 3
    {
      hide GrayLists;
      hide Within;
      hide Marks;
      hide Settled;
      ghost var g := Snap();
      var body := heap[o];
      if Traversed(body) {
        PaintPushed(g, o, S);
        mark := mark[o := Gray];
        gray := [o] + gray;
      } else {
        mark := mark[o := Gray];
        ghost var g1 := Snap();
        WhitesLess(g, g1, o);
        PaintColored(g, o, Gray, S);
        if body.Str? {
          MarksRefl(g1);
          SettledBy(g1, o);
          MarksVia(g, g1, g1, g1, o);
        } else if body.UserData? {
          MarkUserData(o, body.meta, body.env, g, S);
        } else {
          MarkUpValue(o, body.at, g, S);
        }
      }
    }

    /** The userdata case: userdata are never gray. */
    method MarkUserData(o: Id, meta: Value, env: Value, ghost g: State, ghost S: set<Id>)
      requires Paint(Snap(), S) && o in S && o in mark && mark[o] == Gray && heap[o] == UserData(meta, env)
      requires IsWhite(g, o) && Snap() == g.(mark := g.mark[o := Gray])
      modifies `mark, `gray
      ensures Paint(Snap(), S) && Marks(g, Snap()) && !WhiteAt(o)
      decreases |Whites(Snap())|, 5
    {
      hide GrayLists;
      hide Within;
      hide Marks;
      hide Settled;
      PaintColored(Snap(), o, Black, S);
      mark := mark[o := Black];
      ghost var g1 := Snap();
      UserDataWithin(g1, S, o);
      assert Whites(g1) == Whites(old(Snap()));
      hide Whites;
      hide Traversed;
      MarkValue(meta, S);
      ghost var g2 := Snap();
      MarksShrink(g1, g2);
      MarkValue(env, S);
      ghost var g3 := Snap();
      UserDataMarked(g, g1, g2, g3, o);
    }

    /** The upvalue case: closed upvalues turn black, open ones stay gray. */
    method MarkUpValue(o: Id, at: Home, ghost g: State, ghost S: set<Id>)
      requires Paint(Snap(), S) && o in S && o in mark && mark[o] == Gray && heap[o] == UpValue(at)
      requires IsWhite(g, o) && Snap() == g.(mark := g.mark[o := Gray])
      modifies `mark, `gray
      ensures Paint(Snap(), S) && Marks(g, Snap()) && !WhiteAt(o)
      decreases |Whites(Snap())|, 5
    {
      hide GrayLists;
      hide Within;
      hide Marks;
      hide Settled;
      var v := Current(heap, at);
      ghost var g1 := Snap();
      assert Held(heap, o) == {v};
      HeldWithin(g1, S, o, v);
      MarkValue(v, S);
      ghost var g2 := Snap();
      MarksKeepsColor(g1, g2, o);
      if at.Closed? {
        PaintColored(g2, o, Black, S);
        mark := mark[o := Black];
      }
      SettledBy(Snap(), o);
      MarksVia(g, g1, g2, Snap(), o);
    }

    /** `markvalue` and `markobject`. */
    method MarkValue(v: Value, ghost S: set<Id>)
      requires Paint(Snap(), S) && InSet(v, S)
      modifies `mark, `gray
      ensures Paint(Snap(), S) && Marks(old(Snap()), Snap()) && Marked(Snap(), v)
      decreases |Whites(Snap())|, 4
    {
      MarksRefl(Snap());
      if v.Ref? && WhiteAt(v.id) {
        ReallyMark(v.id, S);
      }
    }

    /** The loops that mark an array of values. */
    method MarkValues(vs: seq<Value>, ghost S: set<Id>)
      requires Paint(Snap(), S) && forall v :: v in vs ==> InSet(v, S)
      modifies `mark, `gray
      ensures Paint(Snap(), S) && Marks(old(Snap()), Snap()) && AllMarked(Snap(), Values(vs))
    {
      hide Paint;
      hide Marks;
      ghost var g := Snap();
      MarksRefl(g);
      var i := 0;
      while i < |vs|
        invariant 0 <= i <= |vs|
        invariant Paint(Snap(), S) && Marks(g, Snap())
        invariant AllMarked(Snap(), Values(vs[..i]))
      {
        ghost var h := Snap();
        MarkValue(vs[i], S);
        MarksTrans(g, h, Snap());
        MarksAll(h, Snap(), Values(vs[..i]));
        i := i + 1;
      }
      assert vs[..i] == vs;
    }

    /** `traversetable`, for tables that are not weak. */
    method TraverseTable(meta: Value, items: seq<(Value, Value)>, ghost S: set<Id>)
      requires Paint(Snap(), S) && forall v :: v in Fields(Table(meta, items)) ==> InSet(v, S)
      modifies `mark, `gray
      ensures Paint(Snap(), S) && Marks(old(Snap()), Snap()) && AllMarked(Snap(), Fields(Table(meta, items)))
    {
      hide Paint;
      hide Marks;
      ghost var g := Snap();
      MarkValue(meta, S);
      var i := |items|;
      while i > 0
        invariant 0 <= i <= |items|
        invariant Paint(Snap(), S) && Marks(g, Snap()) && Marked(Snap(), meta)
        invariant forall k :: i <= k < |items| && !items[k].1.Nil? ==>
                    Marked(Snap(), items[k].0) && Marked(Snap(), items[k].1)
      {
        i := i - 1;
        if !items[i].1.Nil? {
          ghost var h := Snap();
          MarkValue(items[i].0, S);
          ghost var h1 := Snap();
          MarkValue(items[i].1, S);
          MarksTrans(g, h, h1);
          MarksTrans(g, h1, Snap());
          MarksTrans(h, h1, Snap());
          MarksStay(h, Snap());
          MarksStay(h1, Snap());
        }
      }
    }

    /** `traverseclosure`. */
    method TraverseClosure(env: Value, proto: Value, upvals: seq<Value>, ghost S: set<Id>)
      requires Paint(Snap(), S) && forall v :: v in Fields(Function(env, proto, upvals)) ==> InSet(v, S)
      modifies `mark, `gray
      ensures Paint(Snap(), S) && Marks(old(Snap()), Snap())
      ensures AllMarked(Snap(), Fields(Function(env, proto, upvals)))
    {
      hide Paint;
      hide Marks;
      ghost var g := Snap();
      MarkValue(env, S);
      ghost var h := Snap();
      MarkValue(proto, S);
      ghost var k := Snap();
      MarkValues(upvals, S);
      MarksTrans(g, h, k);
      MarksTrans(g, k, Snap());
      MarksStay(h, k);
      MarksStay(k, Snap());
    }

    /** `traversestack`, where the stack is the part in use. */
    method TraverseStack(globals: Value, stack: seq<Value>, ghost S: set<Id>)
      requires Paint(Snap(), S) && forall v :: v in Fields(Thread(globals, stack, [])) ==> InSet(v, S)
      modifies `mark, `gray
      ensures Paint(Snap(), S) && Marks(old(Snap()), Snap())
      ensures AllMarked(Snap(), Fields(Thread(globals, stack, [])))
    {
      hide Paint;
      hide Marks;
      ghost var g := Snap();
      MarkValue(globals, S);
      ghost var h := Snap();
      MarkValues(stack, S);
      MarksTrans(g, h, Snap());
      MarksStay(h, Snap());
    }

    /** `propagatemark`: traverses one gray object. `X` is excused from the tri-colour invariant. */
    method PropagateMark(ghost S: set<Id>, ghost X: set<Id>)
      requires |gray| > 0 && Busy(Snap(), S, X)
      modifies `mark, `gray, `grayAgain
      ensures Busy(Snap(), S, X) && Darkens(old(Snap()), Snap())
      ensures forall x :: x in old(grayAgain) ==> x in grayAgain
      ensures |Whites(Snap())| + |gray| < old(|Whites(Snap())| + |gray|)
      ensures old(gray[0]) in heap && forall y :: Names(heap, old(gray[0]), y) ==> !WhiteAt(y)
    {
      hide Names;
      hide GrayLists;
      hide Within;
      hide LeavesBlack;
      hide Tricolor;
      hide Marks;
      hide Whites;
      ghost var g := Snap();
      PoppedKeeps(g, S, X);
      var o := gray[0];
      var body := heap[o];
      gray := gray[1..];
      if body.Thread? {
        grayAgain := [o] + grayAgain;
      } else {
        mark := mark[o := Black];
      }
      ghost var h := Snap();
      assert h == Popped(g);
      TraversedWithin(h, S, o);
      if body.Table? {
        TraverseTable(body.meta, body.items, S);
      } else if body.Function? {
        TraverseClosure(body.env, body.proto, body.upvals, S);
      } else if body.Thread? {
        TraverseStack(body.globals, body.stack, S);
      } else {
        MarkValues(body.consts, S);
      }
      TraversedDone(h, Snap(), o);
      TraversedKeeps(h, Snap(), o, S, X);
      DarkensTrans(g, h, Snap());
      NamedMarked(Snap(), o);
    }

    /** `propagateall`. */
    method PropagateAll(ghost S: set<Id>, ghost X: set<Id>)
      requires Busy(Snap(), S, X)
      modifies `mark, `gray, `grayAgain
      ensures Busy(Snap(), S, X) && Darkens(old(Snap()), Snap()) && gray == []
      ensures forall x :: x in old(grayAgain) ==> x in grayAgain
    {
      hide Busy;
      while |gray| > 0
        invariant Busy(Snap(), S, X) && Darkens(old(Snap()), Snap())
        invariant forall x :: x in old(grayAgain) ==> x in grayAgain
        decreases |Whites(Snap())| + |gray|
      {
        PropagateMark(S, X);
      }
    }

    /** `markobject` and `markvalue` on a root. */
    method MarkRootValue(v: Value, ghost S: set<Id>, ghost X: set<Id>)
      requires Busy(Snap(), S, X) && InSet(v, S)
      modifies `mark, `gray
      ensures Busy(Snap(), S, X) && Darkens(old(Snap()), Snap()) && Marked(Snap(), v)
    {
      MarkValue(v, S);
      BusyMarks(old(Snap()), Snap(), S, X);
    }

    /** `markmt`. */
    method MarkMetas(ghost S: set<Id>, ghost X: set<Id>)
      requires Busy(Snap(), S, X) && forall v :: v in metas ==> InSet(v, S)
      modifies `mark, `gray
      ensures Busy(Snap(), S, X) && Darkens(old(Snap()), Snap()) && AllMarked(Snap(), Values(metas))
    {
      MarkValues(metas, S);
      BusyMarks(old(Snap()), Snap(), S, X);
    }

    /** The roots, of which the registry and the main thread stay marked. */
    method MarkRoots(ghost S: set<Id>)
      requires Busy(Snap(), S, {}) && RootsWithin(Snap(), S) && main in heap && heap[main].Thread?
      requires InSet(heap[main].globals, S)
      modifies `mark, `gray
      ensures Busy(Snap(), S, {}) && Darkens(old(Snap()), Snap())
      ensures !IsWhite(Snap(), main) && Marked(Snap(), registry)
    {
      hide Busy;
      hide Darkens;
      ghost var g0 := Snap();
      MarkRootValue(Ref(main), S, {});
      ghost var g1 := Snap();
      MarkRootValue(heap[main].globals, S, {});
      ghost var g2 := Snap();
      MarkRootValue(registry, S, {});
      ghost var g3 := Snap();
      MarkMetas(S, {});
      ghost var g4 := Snap();
      DarkensTrans(g0, g1, g2);
      DarkensTrans(g0, g2, g3);
      DarkensTrans(g0, g3, g4);
      DarkensTrans(g1, g2, g3);
      DarkensTrans(g1, g3, g4);
      DarkensWhite(g1, g4);
      DarkensWhite(g3, g4);
    }

    /** `markroot`: starts a cycle. */
    method MarkRoot(ghost S: set<Id>)
      requires Basic(Snap()) && AllWhite(Snap()) && Within(Snap(), S) && RootsWithin(Snap(), S)
      modifies `mark, `gray, `grayAgain, `phase
      ensures Marking(Snap()) && phase == Propagate && Basic(Snap()) && Within(Snap(), S)
    {
      hide Basic;
      hide AllWhite;
      hide Within;
      hide Busy;
      hide Darkens;
      hide Marking;
      MarkingStarts(Snap(), S);
      GlobalsWithin(Snap(), S);
      gray, grayAgain := [], [];
      MarkRoots(S);
      BusyMarking(Snap(), S, {});
      phase := Propagate;
    }

    /** `remarkupvals`: upvalues of threads that may be dead have had their values changed unseen. */
    method RemarkUpvals(ghost S: set<Id>, ghost X: set<Id>)
      requires Busy(Snap(), S, X + OpenSet(Snap()))
      requires forall u :: u in openUpvals <==> u in heap && IsOpen(heap[u])
      modifies `mark, `gray
      ensures Busy(Snap(), S, X) && Darkens(old(Snap()), Snap())
    {
      hide Marks;
      hide Tricolor;
      hide Within;
      hide GrayLists;
      hide LeavesBlack;
      hide Current;
      ghost var g := Snap();
      var i := 0;
      assert X + OpenSet(g) == X + Elems(openUpvals[i..]);
      while i < |openUpvals|
        invariant 0 <= i <= |openUpvals|
        invariant Busy(Snap(), S, X + Elems(openUpvals[i..])) && Darkens(g, Snap())
      {
        var u := openUpvals[i];
        ghost var h := Snap();
        assert u in openUpvals;
        ghost var Y := X + Elems(openUpvals[i + 1..]);
        assert X + Elems(openUpvals[i..]) == Y + {u};
        hide Elems;
        MarksRefl(h);
        if mark[u] == Gray {
          OpenWithin(h, S, u);
          MarkValue(Current(heap, heap[u].at), S);
        }
        Remarked(h, Snap(), S, u, Y);
        DarkensTrans(g, h, Snap());
        i := i + 1;
      }
      assert X + Elems(openUpvals[i..]) == X;
    }

    /** `atomic` up to where the weak tables would come in. */
    method RemarkFirst(ghost S: set<Id>, ghost X: set<Id>)
      requires Inv(Snap()) && phase == Propagate && gray == []
      requires Within(Snap(), S) && X == Elems(grayAgain)
      modifies `mark, `gray, `grayAgain
      ensures Busy(Snap(), S, X) && Darkens(old(Snap()), Snap())
      ensures forall x :: x in X ==> x in grayAgain
    {
      hide Inv;
      hide Busy;
      hide Darkens;
      hide Within;
      ghost var g := Snap();
      AtomicStarts(g, S);
      RemarkUpvals(S, X);
      ghost var g1 := Snap();
      PropagateAll(S, X);
      DarkensTrans(g, g1, Snap());
    }

    /** `atomic` up to the second traversal of what the barriers caught. */
    method RemarkAll(ghost S: set<Id>)
      requires Inv(Snap()) && phase == Propagate && gray == []
      requires Within(Snap(), S) && RootsWithin(Snap(), S)
      modifies `mark, `gray, `grayAgain
      ensures Busy(Snap(), S, {}) && RootsMarked(Snap())
    {
      hide Inv;
      hide Busy;
      hide Darkens;
      hide Within;
      ghost var g := Snap();
      ghost var X := Elems(grayAgain);
      AtomicStarts(g, S);
      RemarkFirst(S, X);
      ghost var g2 := Snap();
      MarkRootValue(Ref(running), S, X);
      ghost var g3 := Snap();
      MarkMetas(S, X);
      ghost var g4 := Snap();
      PropagateAll(S, X);
      AtomicListed(Snap(), S, X);
      RemarkedRoots(g, g2, g3, g4, Snap());
      gray := grayAgain;
      grayAgain := [];
    }

    /** All the marking `atomic` does. */
    method MarkRest(ghost S: set<Id>)
      requires Inv(Snap()) && phase == Propagate && gray == [] && held == {}
      requires Within(Snap(), S) && RootsWithin(Snap(), S)
      modifies `mark, `gray, `grayAgain
      ensures FullyMarked(Snap(), S) && Lists(Snap())
    {
      hide Busy;
      hide Darkens;
      hide Within;
      hide Inv;
      hide Chains;
      hide RootList;
      hide OpenLists;
      hide FullyMarked;
      InvLists(Snap());
      RemarkAll(S);
      ghost var g := Snap();
      PropagateAll(S, {});
      RootsStay(g, Snap());
      MarkedFully(Snap(), S);
    }

    /** `atomic`: finishes marking and exchanges the whites. */
    method Atomic(ghost S: set<Id>)
      requires Inv(Snap()) && phase == Propagate && gray == [] && held == {}
      requires Within(Snap(), S) && RootsWithin(Snap(), S)
      modifies `mark, `gray, `grayAgain, `white, `sweepString, `sweep, `phase
      ensures Inv(Snap()) && phase == SweepString
      ensures forall x :: x in heap && !IsDead(Snap(), x) ==> x in S || x in fixed
    {
      hide Within;
      hide Inv;
      hide IsDead;
      hide Lists;
      hide RootsWithin;
      hide FullyMarked;
      MarkRest(S);
      FlipKeeps(Snap(), S);
      white := !white;
      sweepString := 0;
      sweep := 0;
      phase := SweepString;
    }

    // -------------------------------------------------------------------------------------- sweeping

    predicate Dead(x: Id)
      reads this
    {
      x in mark && mark[x] == White(!white) && x !in fixed
    }

    /** `sweepwholelist` on the current chain of strings. */
    method SweepChain()
      requires Inv(Snap()) && phase.SweepString?
      modifies `heap, `mark, `strings
      ensures Inv(Snap()) && Spares(old(Snap()), Snap()) && |strings| == old(|strings|) && sweepString < |strings|
      ensures forall x :: x in strings[sweepString] ==> Clean(Snap(), x)
    {
      hide Spares;
      hide Inv;
      ghost var g := Snap();
      SparesRefl(g);
      InSweepString(g);
      var p := 0;
      while p < |strings[sweepString]|
        invariant |strings| == |g.strings| && p <= |strings[sweepString]|
        invariant Inv(Snap()) && Spares(g, Snap())
        invariant forall i :: 0 <= i < p ==> Clean(Snap(), strings[sweepString][i])
        decreases |strings[sweepString]| - p
      {
        ghost var h := Snap();
        var x := strings[sweepString][p];
        InChain(h, sweepString, p);
        if Dead(x) {
          FreedStringKeeps(h, sweepString, p);
          FreedStringClean(h, sweepString, p);
          strings := strings[sweepString := RemoveAt(strings[sweepString], p)];
          heap := heap - {x};
          mark := mark - {x};
          assert Snap() == FreedString(h, h.sweepString, p);
        } else {
          CleanedKeeps(h, x);
          mark := mark[x := White(white)];
          p := p + 1;
          assert Snap() == Cleaned(h, x);
        }
        SparesTrans(g, h, Snap());
      }
    }

    /** Where an open upvalue is linked in the list of all of them. */
    method IndexOf(u: Id) returns (j: nat)
      requires u in openUpvals
      ensures j < |openUpvals| && openUpvals[j] == u
    {
      j := 0;
      while openUpvals[j] != u
        invariant j < |openUpvals| && u in openUpvals[j..]
        decreases |openUpvals| - j
      {
        assert openUpvals[j..] == [openUpvals[j]] + openUpvals[j + 1..];
        j := j + 1;
      }
    }

    /** `luaF_freeupval` on the upvalue at position `p` of the open list of `t`. */
    method FreeUpval(t: Id, p: nat)
      requires Inv(Snap()) && (phase.SweepString? || phase.Sweep?)
      requires t in heap && heap[t].Thread? && p < |heap[t].open| && Dead(heap[t].open[p])
      modifies `heap, `mark, `openUpvals
      ensures Inv(Snap()) && Spares(old(Snap()), Snap())
      ensures heap == Unlinked(old(heap), t, p) - {old(heap[t].open[p])} && mark == old(mark) - {old(heap[t].open[p])}
      ensures |openUpvals| == old(|openUpvals|) - 1
    {
      hide Inv;
      hide Spares;
      hide Current;
      ghost var g := Snap();
      var x := heap[t].open[p];
      InOpen(g, t, p);
      DeadIs(g, x);
      hide IsDead;
      var j := IndexOf(x);
      FreedOpenKeeps(g, t, p, j);
      heap := Unlinked(heap, t, p) - {x};
      mark := mark - {x};
      openUpvals := RemoveAt(openUpvals, j);
    }

    /** `sweepwholelist` on the open upvalues of a thread. */
    method SweepOpens(t: Id)
      requires Inv(Snap()) && phase.Sweep? && t in heap && heap[t].Thread?
      modifies `heap, `mark, `openUpvals
      ensures Inv(Snap()) && Spares(old(Snap()), Snap()) && t in heap && heap[t].Thread?
      ensures OpensClean(Snap(), t) && |openUpvals| <= old(|openUpvals|)
    {
      hide Spares;
      hide Inv;
      hide IsDead;
      ghost var g := Snap();
      SparesRefl(g);
      var p := 0;
      while p < |heap[t].open|
        invariant t in heap && heap[t].Thread? && p <= |heap[t].open|
        invariant Inv(Snap()) && Spares(g, Snap()) && |openUpvals| <= |g.openUpvals|
        invariant forall i :: 0 <= i < p ==> Clean(Snap(), heap[t].open[i])
        decreases |heap[t].open| - p
      {
        ghost var h := Snap();
        var x := heap[t].open[p];
        InOpen(h, t, p);
        if Dead(x) {
          FreedOpenClean(h, t, p, 0);
          FreeUpval(t, p);
        } else {
          DeadIs(h, x);
          CleanedKeeps(h, x);
          mark := mark[x := White(white)];
          p := p + 1;
        }
        SparesTrans(g, h, Snap());
      }
      forall u | u in heap[t].open ensures Clean(Snap(), u) {}
    }

    // -------------------------------------------------------------------------------------- barriers

    /** `luaC_barrierf`: marks the value while marking goes on; later, whitens the object to be rid of barriers. */
    method BarrierForward(o: Id, v: Id)
      requires Pending(Snap(), o) && o in heap && !heap[o].Table?
      requires o in mark && mark[o] == Black && WhiteAt(v) && Alive(Snap(), Ref(v))
      requires phase.Propagate? ==> forall w :: w in Held(heap, o) && w != Ref(v) ==> Marked(Snap(), w)
      modifies `mark, `gray
      ensures Inv(Snap()) && Spares(old(Snap()), Snap())
    {
      hide Inv;
      hide Almost;
      hide Busy;
      hide Spares;
      ghost var g := Snap();
      BarrierPhase(g, o);
      if phase.Propagate? {
        AlmostPaint(g, {o});
        ReallyMark(v, heap.Keys);
        BarrierSettles(g, Snap(), o, v);
      } else {
        BlackAlive(g, o);
        CleanedKeeps(g, o);
        mark := mark[o := White(white)];
      }
    }

    /** `luaC_barrier` and `luaC_objbarrier`, after `v` has been written into `o`. */
    method Barrier(o: Id, v: Value)
      requires Pending(Snap(), o) && o in heap && o in mark && !heap[o].Table? && Alive(Snap(), v)
      requires phase.Propagate? && mark[o] == Black ==>
                 forall w :: w in Held(heap, o) && w != v ==> Marked(Snap(), w)
      modifies `mark, `gray
      ensures Inv(Snap()) && Spares(old(Snap()), Snap())
    {
      hide Inv;
      hide Almost;
      hide Spares;
      SparesRefl(Snap());
      if v.Ref? && WhiteAt(v.id) && mark[o] == Black {
        BarrierForward(o, v.id);
      } else {
        NoBarrier(Snap(), o, v);
      }
    }

    // -------------------------------------------------------------------------------------- upvalues

    /** Moves the topmost open upvalue of `t` from the open lists to `rootgc`: `unlinkupval` and most of
        `luaC_linkupval`. */
    method Relink(t: Id) returns (v: Value, ghost j: nat)
      requires HasOpen(heap, t) && heap[t].open[0] in openUpvals && heap[t].open[0] in mark
      modifies `heap, `mark, `openUpvals, `root, `sweep
      ensures j < |old(openUpvals)| && old(openUpvals)[j] == old(heap[t].open[0])
      ensures Snap() == Closing(old(Snap()), j, t)
      ensures v == Current(old(heap), old(heap[heap[t].open[0]].at))
    {
      hide Current;
      hide Unlinked;
      hide RemoveAt;
      var x := heap[t].open[0];
      var i := IndexOf(x);
      v, j := Current(heap, heap[x].at), i;
      var closed := Unlinked(heap, t, 0)[x := UpValue(Closed(v))];
      assert closed == ClosedHeap(heap, t);
      hide ClosedHeap;
      heap, openUpvals := closed, RemoveAt(openUpvals, i);
      LinkUpval(x);
    }

    /** `luaC_linkupval`: the closed upvalue is an object like others; it is not gray any more. */
    method LinkUpval(x: Id)
      requires x in mark
      modifies `mark, `root, `sweep
      ensures root == [x] + old(root) && sweep == if old(sweep) == 0 then 0 else old(sweep) + 1
      ensures mark == old(mark)[x := if old(mark)[x] != Gray then old(mark)[x]
                                     else if phase.Propagate? then Black else White(white)]
    {
      root := [x] + root;
      sweep := if sweep == 0 then 0 else sweep + 1;
      if mark[x] == Gray {
        mark := mark[x := if phase.Propagate? then Black else White(white)];
      }
    }

    /** The rest of a round of `luaF_close`, with the barrier, for an upvalue that is not dead. */
    method CloseLive(t: Id)
      requires Inv(Snap()) && HasOpen(heap, t) && !Dead(heap[t].open[0])
      modifies `heap, `mark, `gray, `openUpvals, `root, `sweep
      ensures Inv(Snap()) && Spares(old(Snap()), Snap())
      ensures heap == ClosedHeap(old(heap), t) && |openUpvals| == old(|openUpvals|) - 1
      ensures root == [old(heap[t].open[0])] + old(root) && sweep == if old(sweep) == 0 then 0 else old(sweep) + 1
    {
      hide Inv;
      hide Spares;
      hide Pending;
      hide Current;
      hide ClosedHeap;
      hide RemoveAt;
      hide IsDead;
      ghost var g := Snap();
      var x := heap[t].open[0];
      InOpen(g, t, 0);
      DeadIs(g, x);
      var v, j := Relink(t);
      ClosingKeeps(g, j, t);
      ClosingAlive(g, j, t);
      ghost var h := Snap();
      ClosingNotTable(g, j, t);
      Barrier(x, v);
      SparesTrans(g, h, Snap());
    }

    /** One round of `luaF_close`. */
    method CloseTop(t: Id) returns (dead: bool)
      requires Inv(Snap()) && HasOpen(heap, t)
      modifies `heap, `mark, `gray, `openUpvals, `root, `sweep
      ensures Inv(Snap()) && Spares(old(Snap()), Snap()) && Round(old(Snap()), Snap(), t)
      ensures Shifts(old(Snap()), Snap(), if dead then [] else [old(heap[t].open[0])])
      ensures t in heap && heap[t].Thread? && heap[t].open == old(heap[t].open[1..])
      ensures |heap[t].open| > 0 ==> HasOpen(heap, t)
    {
      hide Inv;
      hide Spares;
      hide IsDead;
      hide ClosedHeap;
      hide Unlinked;
      ghost var g := Snap();
      var x := heap[t].open[0];
      InOpen(g, t, 0);
      DeadIs(g, x);
      dead := Dead(x);
      if dead {
        DeadOnlyInSweep(g, x);
        FreeUpval(t, 0);
      } else {
        CloseLive(t);
      }
      RoundHeap(g, Snap(), t);
      if |heap[t].open| > 0 { InOpen(Snap(), t, 0); }
    }

    /** `luaF_close`: the upvalues of `t` at or above `level`, which are the first `n` of its list, are closed or
        freed. */
    method CloseUpvals(t: Id, level: nat) returns (ghost n: nat, ghost linked: seq<Id>)
      requires Inv(Snap()) && t in heap && heap[t].Thread?
      modifies `heap, `mark, `gray, `openUpvals, `root, `sweep
      ensures Inv(Snap()) && Spares(old(Snap()), Snap())
      ensures Closes(old(Snap()), Snap(), t, n)
      ensures Cut(old(heap), t, n, level) && Shifts(old(Snap()), Snap(), linked)
    {
      hide Inv;
      hide Spares;
      hide Closes;
      hide IsDead;
      hide Shifts;
      hide Round;
      ghost var g := Snap();
      SparesRefl(g);
      ClosesRefl(g, t);
      ShiftsRefl(g);
      OpenInfo(g, t);
      n, linked := 0, [];
      while |heap[t].open| > 0 && heap[heap[t].open[0]].at.slot >= level
        invariant Inv(Snap()) && Spares(g, Snap()) && Closes(g, Snap(), t, n)
        invariant t in heap && heap[t].Thread? && (|heap[t].open| > 0 ==> HasOpen(heap, t))
        invariant n <= |g.heap[t].open| && heap[t].open == g.heap[t].open[n..]
        invariant forall k :: 0 <= k < n ==> Slot(g.heap, g.heap[t].open[k]) >= level
        invariant Shifts(g, Snap(), linked)
        decreases |heap[t].open|
      {
        ghost var h := Snap();
        var x := heap[t].open[0];
        var dead := CloseTop(t);
        ShiftsNext(g, h, Snap(), linked, if dead then [] else [x]);
        linked := (if dead then [] else [x]) + linked;
        ClosesRound(g, h, Snap(), t, n);
        n := n + 1;
      }
      ClosesSorted(g, Snap(), t, n, level);
    }

    // -------------------------------------------------------------------------- sweeping, continued

    /** Frees the object where the sweep stands: `freeobj`, which closes the upvalues of a thread, and the unlinking. */
    method FreeObject()
      requires Inv(Snap()) && phase.Sweep? && sweep < |root| && Dead(root[sweep])
      modifies `heap, `mark, `gray, `openUpvals, `root, `sweep
      ensures Inv(Snap()) && Spares(old(Snap()), Snap())
      ensures sweep <= |root| && |root| - sweep + |openUpvals| < old(|root| - sweep + |openUpvals|)
    {
      hide Inv;
      hide Spares;
      hide IsDead;
      hide Closes;
      ghost var g := Snap();
      var x, i := root[sweep], sweep;
      InRoots(g, i);
      DeadIs(g, x);
      SparesRefl(g);
      if heap[x].Thread? {
        var before := |root|;
        ghost var n, linked := CloseUpvals(x, 0);
        ClosesAll(g, Snap(), x, n);
        i := i + (|root| - before);
      }
      ghost var h := Snap();
      StillDead(g, h, x);
      FreedRootKeeps(h, i);
      heap := heap - {x};
      mark := mark - {x};
      root := RemoveAt(root, i);
      assert Snap() == FreedRoot(h, i);
      SparesTrans(g, h, Snap());
    }

    /** `sweeplist` on `rootgc`, for at most `count` objects. */
    method SweepList(count: nat)
      requires Inv(Snap()) && phase.Sweep?
      modifies `heap, `mark, `gray, `openUpvals, `root, `sweep
      ensures Inv(Snap()) && Spares(old(Snap()), Snap()) && sweep <= |root|
      ensures old(sweep < |root|) && count > 0 ==> |root| - sweep + |openUpvals| < old(|root| - sweep + |openUpvals|)
      ensures |root| - sweep + |openUpvals| <= old(|root| - sweep + |openUpvals|)
      ensures old(sweep == |root|) ==> sweep == |root|
    {
      hide Inv;
      hide Spares;
      hide IsDead;
      ghost var g := Snap();
      SparesRefl(g);
      InSweep(g);
      var n := 0;
      while sweep < |root| && n < count
        invariant Inv(Snap()) && Spares(g, Snap()) && sweep <= |root|
        invariant |root| - sweep + |openUpvals| <= |g.root| - g.sweep + |g.openUpvals|
        invariant n == 0 ==> sweep == g.sweep && root == g.root
        invariant n > 0 ==> g.sweep < |g.root|
        invariant n > 0 ==> |root| - sweep + |openUpvals| < |g.root| - g.sweep + |g.openUpvals|
        decreases count - n
      {
        ghost var h := Snap();
        SweepOne();
        SparesTrans(g, h, Snap());
        n := n + 1;
      }
    }

    /** One round of `sweeplist`. */
    method SweepOne()
      requires Inv(Snap()) && phase.Sweep? && sweep < |root|
      modifies `heap, `mark, `gray, `openUpvals, `root, `sweep
      ensures Inv(Snap()) && Spares(old(Snap()), Snap())
      ensures sweep <= |root| && |root| - sweep + |openUpvals| < old(|root| - sweep + |openUpvals|)
    {
      hide Inv;
      hide Spares;
      hide IsDead;
      hide OpensClean;
      ghost var g := Snap();
      var x := root[sweep];
      InRoots(g, sweep);
      SparesRefl(g);
      if heap[x].Thread? {
        SweepOpens(x);
      } else {
        NoOpens(g, x);
      }
      ghost var h := Snap();
      InRoots(h, sweep);
      DeadIs(h, x);
      if Dead(x) {
        FreeObject();
        SparesTrans(g, h, Snap());
      } else {
        CleanedKeeps(h, x);
        CleanedOpens(h, x);
        mark := mark[x := White(white)];
        ghost var k := Snap();
        SparesTrans(g, h, k);
        AdvanceKeeps(k);
        sweep := sweep + 1;
        SparesTrans(g, k, Snap());
      }
    }

    // ------------------------------------------------------------------------------ the collection step

    /** `singlestep` in the phases that mark, short of `atomic`. */
    method StepMark(ghost S: set<Id>)
      requires Inv(Snap()) && held == {} && (phase.Pause? || (phase.Propagate? && gray != []))
      requires Within(Snap(), S) && RootsWithin(Snap(), S)
      modifies `mark, `gray, `grayAgain, `phase
      ensures Inv(Snap()) && Spares(old(Snap()), Snap()) && phase.Propagate?
      ensures Within(Snap(), S)
      ensures old(phase.Propagate?) ==> |Whites(Snap())| + |gray| < old(|Whites(Snap())| + |gray|)
    {
      hide Inv;
      hide Spares;
      hide Busy;
      hide Within;
      hide Marking;
      hide Basic;
      hide AllWhite;
      hide Darkens;
      hide Whites;
      ghost var g := Snap();
      if phase.Pause? {
        PauseReady(g);
        MarkRoot(S);
        CycleStarted(g, Snap());
      } else {
        ghost var X := Elems(grayAgain) + OpenSet(g);
        CycleBusy(g, S);
        PropagateMark(S, X);
        CycleOn(g, Snap(), S, X);
      }
    }

    /** `singlestep` in the phases that sweep, and at the end of the cycle. */
    method StepSweep()
      requires Inv(Snap()) && !phase.Pause? && !phase.Propagate?
      modifies `heap, `mark, `gray, `strings, `openUpvals, `root, `sweep, `sweepString, `phase
      ensures Inv(Snap()) && Spares(old(Snap()), Snap()) && Less(Snap(), old(Snap()))
      ensures phase.SweepString? || phase.Sweep? || phase.Finalize? || phase.Pause?
      ensures phase.Pause? <==> old(phase.Finalize?)
    {
      hide Inv;
      hide Spares;
      ghost var g := Snap();
      if phase.SweepString? {
        SweepChain();
        ghost var h := Snap();
        ChainDoneKeeps(h);
        sweepString := sweepString + 1;
        if sweepString >= |strings| {
          phase := Sweep;
        }
        SparesTrans(g, h, Snap());
      } else if phase.Sweep? {
        InSweep(g);
        SweepList(GCSWEEPMAX);
        ghost var h := Snap();
        if sweep == |root| {
          SweepDoneKeeps(h);
          phase := Finalize;
          SparesTrans(g, h, Snap());
        }
      } else {
        CycleEnds(g);
        phase := Pause;
      }
    }

    /** `singlestep`. While there is anything to mark, `S` bounds what will be marked. */
    method SingleStep(ghost S: set<Id>)
      requires Inv(Snap())
      requires phase.Pause? || phase.Propagate? ==> Within(Snap(), S) && RootsWithin(Snap(), S)
      modifies `heap, `mark, `gray, `grayAgain, `strings, `openUpvals, `root, `sweep, `sweepString, `phase, `white,
      `held
      ensures Inv(Snap()) && held == {} && Survive(old(Snap()), Snap()) && Whole(Snap())
      ensures old(phase.Pause?) || Less(Snap(), old(Snap()))
      ensures phase.Propagate? ==> Within(Snap(), S) && RootsWithin(Snap(), S)
      ensures old(phase.Propagate?) && !phase.Propagate? ==>
                forall x :: x in heap && !IsDead(Snap(), x) ==> x in S || x in fixed
      ensures !old(phase.Propagate?) ==> Spares(old(Snap()).(held := {}), Snap())
      ensures phase.Pause? <==> old(phase.Finalize?)
      ensures phase.Propagate? <==> old(phase.Pause?) || (old(phase.Propagate?) && old(gray) != [])
    {
      hide Whole;
      hide Inv;
      hide Spares;
      hide Within;
      hide Reach;
      hide IsDead;
      hide Whites;
      ghost var g0 := Snap();
      Unheld(g0);
      held := {};
      ghost var g := Snap();
      UnheldWithin(g0, S);
      InvSound(g);
      if phase.Pause? || (phase.Propagate? && gray != []) {
        StepMark(S);
        SparesSurvive(g0, Snap());
      } else if phase.Propagate? {
        Atomic(S);
        SameSurvive(g0, Snap());
      } else {
        StepSweep();
        SparesSurvive(g0, Snap());
      }
      InvSound(Snap());
      InvWhole(Snap());
    }

    /** `luaC_step`: as many single steps as the allocation debt calls for, but no further than the end of a cycle. */
    method Step(budget: nat)
      requires Inv(Snap())
      modifies `heap, `mark, `gray, `grayAgain, `strings, `openUpvals, `root, `sweep, `sweepString, `phase, `white,
      `held
      ensures Inv(Snap()) && Survive(old(Snap()), Snap()) && Whole(Snap())
    {
      hide Inv;
      hide Survive;
      hide Whole;
      hide Reach;
      hide Less;
      ghost var g := Snap();
      HeapBounds(g);
      SingleStep(heap.Keys);
      var n := 1;
      while n < budget && !phase.Pause?
        invariant Inv(Snap()) && Survive(g, Snap()) && held == {} && Whole(Snap())
      {
        ghost var h := Snap();
        HeapBounds(h);
        SingleStep(heap.Keys);
        SurviveTrans(g, h, Snap());
        n := n + 1;
      }
    }

    /** `luaC_fullgc`, first part: puts an end to whatever cycle is under way, by sweeping. */
    method FinishCycle()
      requires Inv(Snap()) && held == {}
      modifies `heap, `mark, `gray, `grayAgain, `strings, `openUpvals, `root, `sweep, `sweepString, `phase, `white,
      `held
      ensures Inv(Snap()) && Spares(old(Snap()), Snap()) && phase.Finalize? && held == {}
    {
      hide Inv;
      hide Spares;
      hide Survive;
      hide Reach;
      hide IsDead;
      ghost var g := Snap();
      SparesRefl(g);
      if phase.Pause? || phase.Propagate? {
        RestartKeeps(g);
        sweepString := 0;
        sweep := 0;
        gray := [];
        grayAgain := [];
        phase := SweepString;
      }
      while !phase.Finalize?
        invariant Inv(Snap()) && Spares(g, Snap()) && held == {}
        invariant phase.SweepString? || phase.Sweep? || phase.Finalize?
        decreases PhaseRank(phase), Work(Snap())
      {
        ghost var h := Snap();
        WorkNat(h);
        SingleStep({});
        SparesTrans(g, h, Snap());
      }
    }

    /** `luaC_fullgc`, second part: marking starts from the roots. */
    method StartCycle(ghost S: set<Id>)
      requires Inv(Snap()) && phase.Finalize? && held == {} && S == ReachSet(Snap())
      modifies `mark, `gray, `grayAgain, `phase
      ensures Inv(Snap()) && Survive(old(Snap()), Snap()) && phase.Propagate?
      ensures Within(Snap(), S) && RootsWithin(Snap(), S)
    {
      hide Inv;
      hide Spares;
      hide Survive;
      hide Sound;
      hide AllWhite;
      hide Within;
      hide RootsWithin;
      hide Basic;
      hide Marking;
      hide ReachSet;
      ghost var g := Snap();
      PauseReady(g);
      BasicKeys(g);
      InvSound(g);
      ReachClosed(g, S);
      ReachRoots(g, S);
      MarkRoot(S);
      CycleStarted(g, Snap());
      SparesSurvive(g, Snap());
      RootsWithinStays(g, Snap(), S);
    }

    /** `luaC_fullgc`, second part: one whole cycle, with nothing happening in between. */
    method WholeCycle(ghost S: set<Id>)
      requires Inv(Snap()) && phase.Finalize? && held == {} && S == ReachSet(Snap())
      modifies `heap, `mark, `gray, `grayAgain, `strings, `openUpvals, `root, `sweep, `sweepString, `phase, `white,
      `held
      ensures Inv(Snap()) && Survive(old(Snap()), Snap()) && phase.Pause? && held == {}
      ensures forall x :: x in heap ==> x in S || x in fixed
    {
      hide Inv;
      hide Spares;
      hide Survive;
      hide Reach;
      hide IsDead;
      hide Within;
      hide RootsWithin;
      ghost var g := Snap();
      StartCycle(S);
      while !phase.Pause?
        invariant Inv(Snap()) && Survive(g, Snap()) && held == {}
        invariant phase.Propagate? ==> Within(Snap(), S) && RootsWithin(Snap(), S)
        invariant !phase.Propagate? ==> forall x :: x in heap && !IsDead(Snap(), x) ==> x in S || x in fixed
        decreases PhaseRank(phase), Work(Snap())
      {
        ghost var h := Snap();
        WorkNat(h);
        SingleStep(S);
        SurviveTrans(g, h, Snap());
        if !h.phase.Propagate? { SparesAlive(h, Snap()); }
      }
      NothingDead(Snap());
    }

    /** `luaC_fullgc`: afterwards the heap holds what can be reached, and what is fixed, and nothing else. */
    method FullGC()
      requires Inv(Snap())
      modifies `heap, `mark, `gray, `grayAgain, `strings, `openUpvals, `root, `sweep, `sweepString, `phase, `white,
      `held
      ensures Inv(Snap()) && Survive(old(Snap()), Snap()) && phase.Pause? && Whole(Snap())
      ensures forall x :: x in heap <==> x in old(heap) && (Reach(old(Snap()).(held := {}), x) || x in fixed)
    {
      hide Whole;
      hide Inv;
      hide Spares;
      hide Survive;
      hide Reach;
      ghost var g0 := Snap();
      Unheld(g0);
      held := {};
      ghost var g := Snap();
      InvSound(g);
      FinishCycle();
      ghost var h := Snap();
      SparesSurvive(g0, h);
      ghost var S := ReachSet(h);
      WholeCycle(S);
      SurviveTrans(g0, h, Snap());
      Exactly(g0, h, Snap());
      InvSound(Snap());
      InvWhole(Snap());
    }

    // ---------------------------------------------------------------------------- the running program

    /** Puts a new object of the current white in `rootgc`, before position `p`. */
    method LinkAt(x: Id, body: Object, p: nat)
      requires Inv(Snap()) && x !in heap && Makeable(Snap(), body) && p <= |root|
      modifies `heap, `mark, `root, `sweep, `held
      ensures Inv(Snap()) && heap == old(heap)[x := body] && held == old(held) + {x}
    {
      hide Inv;
      hide Makeable;
      ghost var g := Snap();
      LinkedKeeps(g, x, body, p);
      heap, mark := heap[x := body], mark[x := White(white)];
      root := root[..p] + [x] + root[p..];
      sweep := if sweep > p then sweep + 1 else sweep;
      held := held + {x};
      assert Snap() == Linked(g, x, body, p);
    }

    /** `luaC_link`: makes an object at the address `x` the allocator found. */
    method NewObject(x: Id, body: Object)
      requires Inv(Snap()) && x !in heap && InRoot(body) && !body.UserData? && (body.Thread? ==> body.open == [])
      requires forall v :: v in Fields(body) ==> Usable(Snap(), v)
      modifies `heap, `mark, `root, `sweep, `held
      ensures Inv(Snap()) && heap == old(heap)[x := body] && held == old(held) + {x}
    {
      UsableFields(Snap(), body);
      LinkAt(x, body, 0);
    }

    /** `luaS_newudata`: userdata are linked behind the main thread. */
    method NewUserData(x: Id, env: Value)
      requires Inv(Snap()) && x !in heap && Usable(Snap(), env)
      modifies `heap, `mark, `root, `sweep, `held
      ensures Inv(Snap()) && heap == old(heap)[x := UserData(Nil, env)] && held == old(held) + {x}
    {
      hide Inv;
      hide Reach;
      ghost var g := Snap();
      UsableFields(g, UserData(Nil, env));
      MainInRoot(g);
      var p := 0;
      while root[p] != main
        invariant p < |root| && main in root[p..]
        decreases |root| - p
      {
        assert root[p..] == [root[p]] + root[p + 1..];
        p := p + 1;
      }
      LinkAt(x, UserData(Nil, env), p + 1);
    }

    /** The string of a chain that reads `text`, or the length of the chain. */
    method FindString(text: string) returns (c: nat, i: nat)
      requires Inv(Snap())
      ensures |strings| > 0 && c == ChainOf(text, |strings|) && i <= |strings[c]|
      ensures i < |strings[c]| ==> strings[c][i] in heap && heap[strings[c][i]] == Str(text)
      ensures i == |strings[c]| ==> forall y :: y in heap ==> heap[y] != Str(text)
    {
      hide Inv;
      StringSearched(Snap(), text);
      hide ChainOf;
      c := ChainOf(text, |strings|);
      i := 0;
      while i < |strings[c]| && heap[strings[c][i]] != Str(text)
        invariant i <= |strings[c]|
        invariant forall k :: 0 <= k < i ==> heap[strings[c][k]] != Str(text)
      {
        i := i + 1;
      }
    }

    /** `luaS_newlstr`: the one string that reads `text`, found in its chain, dead or not, or made at the address `x`.
        */
    method NewString(x: Id, text: string) returns (s: Id)
      requires Inv(Snap()) && x !in heap
      modifies `heap, `mark, `strings, `held
      ensures Inv(Snap()) && s in heap && heap[s] == Str(text) && !Dead(s) && held == old(held) + {s}
      ensures heap == old(heap) || (s == x && heap == old(heap)[x := Str(text)])
      ensures forall y :: y in heap && heap[y] == Str(text) ==> y == s
    {
      hide Inv;
      hide ChainOf;
      var c, i := FindString(text);
      if i < |strings[c]| {
        s := strings[c][i];
        UseString(s);
      } else {
        s := x;
        NewLStr(x, text, c);
      }
      OneOfText(Snap(), text);
    }

    /** A string that is found may be dead, while a sweep goes on; it is saved then. */
    method UseString(s: Id)
      requires Inv(Snap()) && s in heap && heap[s].Str?
      modifies `mark, `held
      ensures Inv(Snap()) && !Dead(s) && held == old(held) + {s}
    {
      hide Inv;
      ghost var g := Snap();
      InvKeys(g);
      if mark[s] == White(!white) {
        DeadOnlyInSweep(g, s);
        RevivedKeeps(g, s);
        mark := mark[s := White(white)];
        held := held + {s};
        assert Snap() == Revived(g, s);
      } else {
        HeldAlso(g, s);
        held := held + {s};
        assert Snap() == g.(held := g.held + {s});
      }
    }

    /** `newlstr`: a new string, in chain `c`. */
    method NewLStr(x: Id, text: string, c: nat)
      requires Inv(Snap()) && x !in heap && (forall y :: y in heap ==> heap[y] != Str(text))
      requires |strings| > 0 && c == ChainOf(text, |strings|)
      modifies `heap, `mark, `strings, `held
      ensures Inv(Snap()) && heap == old(heap)[x := Str(text)] && !Dead(x) && held == old(held) + {x}
    {
      hide Inv;
      hide ChainOf;
      ghost var g := Snap();
      StringMadeKeeps(g, x, text);
      heap := heap[x := Str(text)];
      mark := mark[x := White(white)];
      strings := strings[c := [x] + strings[c]];
      held := held + {x};
      assert Snap() == StringMade(g, x, text);
    }

    /**
      A write of `v` into an object that is not a table, with the barrier that goes with it: an upvalue that owns
      its value, a metatable or environment, an upvalue of a function, a constant of a prototype.
     */
    method Store(o: Id, body: Object, v: Value)
      requires Inv(Snap()) && Usable(Snap(), Ref(o)) && Usable(Snap(), v)
      requires o in heap && !heap[o].Table? && SameKind(heap[o], body) && Fields(body) <= Held(heap, o) + {v}
      modifies `heap, `mark, `gray
      ensures Inv(Snap()) && heap == old(heap)[o := body]
    {
      hide Inv;
      hide Pending;
      hide Storable;
      hide Spares;
      ghost var g := Snap();
      StoreReady(g, o, body, {v});
      StoredKeeps(g, o, body, {v});
      StoreSettled(g, o, body, {v});
      heap := heap[o := body];
      Barrier(o, v);
    }

    /** `luaC_barrierback`. */
    method BarrierBack(o: Id)
      requires Pending(Snap(), o) && o in heap && heap[o].Table? && o in mark && mark[o] == Black
      modifies `mark, `grayAgain
      ensures Inv(Snap())
    {
      BarrierPhase(Snap(), o);
      BackKeeps(Snap(), o);
      mark := mark[o := Gray];
      grayAgain := [o] + grayAgain;
    }

    /** A write into a table, with `luaC_barriert` for the key and for the value. */
    method StoreTable(o: Id, body: Object, key: Value, val: Value)
      requires Inv(Snap()) && Usable(Snap(), Ref(o)) && Usable(Snap(), key) && Usable(Snap(), val)
      requires o in heap && heap[o].Table? && body.Table? && Fields(body) <= Held(heap, o) + {key, val}
      modifies `heap, `mark, `grayAgain
      ensures Inv(Snap()) && heap == old(heap)[o := body]
    {
      hide Inv;
      hide Pending;
      hide Storable;
      ghost var g := Snap();
      StoreReady(g, o, body, {key, val});
      StoredKeeps(g, o, body, {key, val});
      StoreSettled(g, o, body, {key, val});
      heap := heap[o := body];
      if mark[o] == Black && ((key.Ref? && WhiteAt(key.id)) || (val.Ref? && WhiteAt(val.id))) {
        BarrierBack(o);
      } else {
        NoBackNeeded(Snap(), o, key, val);
      }
    }

    /** What a running program does to its stack: values come and go, but watched slots stay. No barrier. */
    method SetStack(t: Id, globals: Value, stack: seq<Value>)
      requires Inv(Snap()) && t in heap && heap[t].Thread? && Usable(Snap(), globals)
      requires forall v :: v in stack ==> Usable(Snap(), v)
      requires forall u :: u in heap[t].open ==> Slot(heap, u) < |stack|
      modifies `heap
      ensures Inv(Snap()) && heap == old(heap)[t := Thread(globals, stack, old(heap[t]).open)]
    {
      hide Inv;
      StackReady(Snap(), t, globals, stack);
      RestackedKeeps(Snap(), t, globals, stack);
      heap := heap[t := Thread(globals, stack, heap[t].open)];
    }

    /** `OP_SETUPVAL`: through an open upvalue into the stack it watches, or into a closed one. */
    method SetUpvalue(u: Id, v: Value)
      requires Inv(Snap()) && Usable(Snap(), Ref(u)) && Usable(Snap(), v) && u in heap && heap[u].UpValue?
      modifies `heap, `mark, `gray
      ensures Inv(Snap()) && u in heap && View(heap, u) == UpValue(Closed(v))
      ensures forall y :: y in old(heap) && old(heap)[y].UpValue? && y != u && !Shares(old(heap), y, u) ==>
                y in heap && View(heap, y) == View(old(heap), y)
      ensures forall y :: y in old(heap) && Shares(old(heap), y, u) ==> y in heap && View(heap, y) == UpValue(Closed(v))
    {
      hide Inv;
      hide Usable;
      ghost var g := Snap();
      var at := heap[u].at;
      if at.Open? {
        UpvalueReady(g, u, v);
        var t := at.thread;
        RestackedKeeps(g, t, heap[t].globals, heap[t].stack[at.slot := v]);
        heap := heap[t := Thread(heap[t].globals, heap[t].stack[at.slot := v], heap[t].open)];
      } else {
        Store(u, UpValue(Closed(v)), v);
      }
    }

    /** `luaS_resize`: every string moves to the chain its hash selects among `size`; not while chains are being
        swept. */
    method Resize(size: nat)
      requires Inv(Snap()) && size > 0
      modifies `strings
      ensures Inv(Snap())
      ensures |strings| == if phase.SweepString? then old(|strings|) else size
      ensures phase.SweepString? ==> strings == old(strings)
    {
      hide Inv;
      hide ChainOf;
      hide Chains;
      hide Rehashed;
      if phase.SweepString? {
        return;
      }
      ghost var g := Snap();
      var chains: seq<seq<Id>> := seq(size, _ => []);
      ghost var done: set<Id> := {};
      assert Rehashed(heap, chains, done) by { RehashStarts(heap, chains); }
      InvChains(Snap());
      var i := 0;
      while i < |strings|
        invariant Snap() == g && Inv(g) && Chains(heap, strings) && i <= |strings| && |chains| == size
        invariant Rehashed(heap, chains, done)
        invariant forall k, x :: 0 <= k < i && x in strings[k] ==> x in done
        invariant forall x :: x in done ==> exists k :: 0 <= k < i && x in strings[k]
      {
        chains, done := RehashChain(strings[i], i, chains, done);
        i := i + 1;
      }
      RehashEnds(Snap(), chains, done);
      ResizedKeeps(Snap(), chains);
      strings := chains;
    }

    /** The inner loop of `luaS_resize`. */
    method RehashChain(l: seq<Id>, i: nat, from: seq<seq<Id>>, ghost before: set<Id>)
      returns (chains: seq<seq<Id>>, ghost done: set<Id>)
      requires Chains(heap, strings) && i < |strings| && l == strings[i] && Rehashed(heap, from, before)
      requires forall x :: x in before ==> exists k :: 0 <= k < i && x in strings[k]
      ensures Rehashed(heap, chains, done) && |chains| == |from| && done == before + Elems(l)
    {
      chains, done := from, before;
      var p := 0;
      RehashApart(heap, strings, i, before);
      hide Chains;
      hide Rehashed;
      hide ChainOf;
      while p < |l|
        invariant p <= |l| && Rehashed(heap, chains, done) && |chains| == |from| && |from| > 0
        invariant done == before + Elems(l[..p])
      {
        var x := l[p];
        assert x in l && x !in l[..p];
        RehashedNext(heap, chains, done, x);
        var c := ChainOf(heap[x].text, |chains|);
        chains := chains[c := [x] + chains[c]];
        done := done + {x};
        assert l[..p + 1] == l[..p] + [x];
        p := p + 1;
      }
      assert l[..p] == l;
    }

    /** Where in the open list of `t` the upvalue for `slot` is, or belongs. */
    method FindOpen(t: Id, slot: nat) returns (i: nat)
      requires Inv(Snap()) && t in heap && heap[t].Thread? && slot < |heap[t].stack|
      ensures i <= |heap[t].open|
      ensures if i < |heap[t].open| && Slot(heap, heap[t].open[i]) == slot
              then heap[t].open[i] in heap && heap[heap[t].open[i]] == UpValue(Open(t, slot))
              else Belongs(heap, t, i, slot)
    {
      hide Inv;
      OpenInfo(Snap(), t);
      i := 0;
      while i < |heap[t].open| && Slot(heap, heap[t].open[i]) > slot
        invariant i <= |heap[t].open|
        invariant forall k :: 0 <= k < i ==> Slot(heap, heap[t].open[k]) > slot
      {
        i := i + 1;
      }
    }

    /** `luaF_findupval` when the upvalue is there: a dead one is wanted again. */
    method KeepUpvalue(slot: nat, u: Id)
      requires Inv(Snap()) && running in heap && heap[running].Thread? && slot < |heap[running].stack|
      requires u in heap && heap[u] == UpValue(Open(running, slot))
      modifies `mark, `held
      ensures Inv(Snap()) && !Dead(u) && held == old(held) + {u}
    {
      hide Inv;
      ghost var g := Snap();
      InvKeys(g);
      UpvalueAlive(g, slot, u);
      if mark[u] == White(!white) {
        DeadOnlyInSweep(g, u);
        RevivedKeeps(g, u);
        mark := mark[u := White(white)];
      } else {
        HeldAlso(g, u);
      }
      held := held + {u};
    }

    /** `luaF_findupval` when it has to be made, at position `i` of the open list. */
    method MakeUpvalue(slot: nat, i: nat, x: Id)
      requires Inv(Snap()) && x !in heap && running in heap && heap[running].Thread? && Belongs(heap, running, i, slot)
      modifies `heap, `mark, `openUpvals, `held
      ensures Inv(Snap()) && heap == Captured(old(Snap()), old(running), i, x, slot).heap
      ensures !Dead(x) && held == old(held) + {x}
    {
      hide Inv;
      ghost var g := Snap();
      RunningThere(g);
      var l := heap[running].open;
      SlotAlive(g, slot);
      CapturedKeeps(g, running, i, x, slot);
      hide Belongs;
      heap := heap[running := heap[running].(open := l[..i] + [x] + l[i..])][x := UpValue(Open(running, slot))];
      mark := mark[x := White(white)];
      openUpvals := [x] + openUpvals;
      held := held + {x};
    }

    /** `luaF_findupval`: the one open upvalue of a slot of the running thread, found, dead or not, or made at `x`. */
    method FindUpvalue(slot: nat, x: Id) returns (u: Id)
      requires Inv(Snap()) && x !in heap && running in heap && heap[running].Thread? && slot < |heap[running].stack|
      modifies `heap, `mark, `openUpvals, `held
      ensures Inv(Snap()) && u in heap && heap[u] == UpValue(Open(running, slot)) && !Dead(u) && held == old(held) + {u}
      ensures forall y :: y in old(heap) ==> y in heap && View(heap, y) == View(old(heap), y)
      ensures forall y :: y in heap ==> y in old(heap) || (y == x && u == x)
      ensures forall y :: y in heap && heap[y] == UpValue(Open(running, slot)) ==> y == u
    {
      hide Inv;
      hide Belongs;
      ghost var g := Snap();
      RunningThere(g);
      hide IsDead;
      var i := FindOpen(running, slot);
      var l := heap[running].open;
      if i < |l| && Slot(heap, l[i]) == slot {
        u := l[i];
        KeepUpvalue(slot, u);
      } else {
        u := x;
        CapturedViews(g, running, i, x, slot);
        MakeUpvalue(slot, i, x);
      }
      OneUpvalue(Snap(), running, slot, u);
    }

    /** A metatable of a basic type. */
    method SetMeta(i: nat, v: Value)
      requires Inv(Snap()) && i < |metas| && Usable(Snap(), v)
      modifies `metas
      ensures Inv(Snap()) && metas == old(metas)[i := v]
    {
      hide Inv;
      hide Usable;
      MetaReady(Snap(), i, v);
      metas := metas[i := v];
    }

    /** Another thread runs: `lua_resume` and the return from it. */
    method SwitchTo(t: Id)
      requires Inv(Snap()) && Reach(Snap(), t) && t in heap && heap[t].Thread?
      modifies `running, `held
      ensures Inv(Snap()) && running == t && held == old(held) + {old(running)}
    {
      hide Inv;
      hide Reach;
      SwitchReady(Snap(), t);
      held := held + {running};
      running := t;
    }

    /** `lua_newstate`: the main thread, its globals and the registry. */
    constructor ()
      ensures Inv(Snap()) && phase == Pause && main == running == 0
      ensures heap == map[0 := Thread(Ref(1), [], []), 1 := Table(Nil, []), 2 := Table(Nil, [])] && registry == Ref(2)
    {
      heap := map[0 := Thread(Ref(1), [], []), 1 := Table(Nil, []), 2 := Table(Nil, [])];
      mark := map[0 := White(false), 1 := White(false), 2 := White(false)];
      fixed := {0};
      white := false;
      phase := Pause;
      gray, grayAgain, openUpvals := [], [], [];
      strings := seq(MINSTRTABSIZE, _ => []);
      root := [2, 1, 0];
      sweepString, sweep := 0, 0;
      main, running := 0, 0;
      registry := Ref(2);
      metas := seq(NUM_TAGS, _ => Nil);
      held := {};
      new;
      StartKeeps(Snap());
    }
  }
}
