/**
  What a running program does to the heap between two steps of the collector, as transitions between
  states: linking new objects, writing into old ones, opening and closing upvalues.
 */
module Mutating {
  import opened ObjectGraph
  import opened Painting
  import opened Sweeping

  // ------------------------------------------------------------------------------- in the mark phase

  /** The invariant of the mark phase with `X` excused besides the usual objects. */
  ghost predicate Almost(g: State, X: set<Id>) {
    && Basic(g) && Sound(g) && Lists(g) && g.phase.Propagate?
    && NoneDead(g) && GrayLists(g) && LeavesBlack(g)
    && Tricolor(g, Elems(g.grayAgain) + OpenSet(g) + X)
    && !IsWhite(g, g.main) && Marked(g, g.registry)
  }

  /** While marking nothing is dead, so the whole heap is closed under reference. */
  lemma HeapWithin(g: State)
    requires Basic(g) && Sound(g) && (NoneDead(g) || AllWhite(g))
    ensures Within(g, g.heap.Keys) && (forall x :: x in Anchors(g) ==> x in g.heap)
  {
    forall x, v | x in g.heap && v in Held(g.heap, x) ensures InSet(v, g.heap.Keys) {
      assert !IsDead(g, x);
      assert AllAlive(g, Held(g.heap, x));
      assert Alive(g, v);
    }
  }

  lemma AlmostBusy(g: State, X: set<Id>)
    requires Almost(g, X)
    ensures Busy(g, g.heap.Keys, Elems(g.grayAgain) + OpenSet(g) + X)
  {
    hide Sound;
    hide Lists;
    hide Within;
    hide Tricolor;
    hide NoneDead;
    hide LeavesBlack;
    hide OpenNotBlack;
    AlmostWithin(g, X);
  }

  lemma AlmostWithin(g: State, X: set<Id>)
    requires Almost(g, X)
    ensures Within(g, g.heap.Keys)
  {
    hide Tricolor;
    hide Lists;
    hide GrayLists;
    hide Within;
    HeapWithin(g);
  }

  lemma InvAlmost(g: State)
    requires g.phase.Propagate?
    ensures Inv(g) <==> Almost(g, {})
  {
    hide Sound;
    hide Lists;
    hide GrayLists;
    hide Basic;
    hide NoneDead;
    hide LeavesBlack;
    assert Elems(g.grayAgain) + OpenSet(g) + {} == Elems(g.grayAgain) + OpenSet(g);
    hide Tricolor;
  }

  /** With nothing dead before or after, marking changes nothing about soundness. */
  lemma DarkensSound(g: State, h: State)
    requires Sound(g) && NoneDead(g) && NoneDead(h) && Darkens(g, h)
    ensures Sound(h)
  {
    forall x | x in h.heap && !IsDead(h, x) ensures AllAlive(h, Held(h.heap, x)) {
      assert !IsDead(g, x);
      assert AllAlive(g, Held(g.heap, x));
      forall v | v in Held(h.heap, x) ensures Alive(h, v) { assert Alive(g, v); }
    }
    assert Anchors(h) == Anchors(g);
  }

  /** Marking on keeps the invariant of the mark phase. */
  lemma AlmostMarks(g: State, h: State, X: set<Id>)
    requires Almost(g, X) && Marks(g, h) && Paint(h, g.heap.Keys)
    ensures Almost(h, X)
  {
    hide Sound;
    hide Lists;
    hide Basic;
    hide NoneDead;
    hide GrayLists;
    hide LeavesBlack;
    hide Tricolor;
    hide Marks;
    hide Within;
    hide Busy;
    hide Darkens;
    AlmostBusy(g, X);
    var Y := Elems(g.grayAgain) + OpenSet(g) + X;
    BusyMarks(g, h, g.heap.Keys, Y);
    assert OpenSet(h) == OpenSet(g);
    AlmostFields(g, h, X);
  }

  lemma AlmostFields(g: State, h: State, X: set<Id>)
    requires Almost(g, X) && Darkens(g, h) && h.grayAgain == g.grayAgain
    requires Busy(h, g.heap.Keys, Elems(g.grayAgain) + OpenSet(g) + X) && OpenSet(h) == OpenSet(g)
    ensures Almost(h, X)
  {
    DarkensSound(g, h);
    DarkensWhite(g, h);
    hide Sound;
    hide Chains;
    hide RootList;
    hide OpenLists;
    hide Tricolor;
    hide LeavesBlack;
    hide NoneDead;
    hide Within;
    hide Darkens;
  }

  /** An object all of whose fields are marked needs no excuse; nor does a white one, nor one in a list. */
  lemma NoExcuse(g: State, x: Id)
    requires Almost(g, {x})
    requires x in g.heap && (IsWhite(g, x) || x in g.gray || x in g.grayAgain || AllMarked(g, Held(g.heap, x)))
    ensures Inv(g)
  {
    assert Tricolor(g, Elems(g.grayAgain) + OpenSet(g) + {}) by {
      hide Sound;
      hide Lists;
      hide GrayLists;
      hide Basic;
    }
    hide Sound;
    hide Lists;
    hide GrayLists;
    hide Basic;
    hide Tricolor;
    hide LeavesBlack;
    hide NoneDead;
    InvAlmost(g);
  }

  /** What barriers rely on: the object written to is the only one that may break the invariant. */
  ghost predicate Pending(g: State, x: Id) { if g.phase.Propagate? then Almost(g, {x}) else Inv(g) }

  // -------------------------------------------------------------------------------- closing upvalues

  ghost predicate HasOpen(heap: map<Id, Object>, t: Id) {
    t in heap && heap[t].Thread? && |heap[t].open| > 0 && heap[t].open[0] in heap && IsOpen(heap[heap[t].open[0]])
  }

  ghost function ClosedHeap(heap: map<Id, Object>, t: Id): map<Id, Object>
    requires HasOpen(heap, t)
  {
    var x := heap[t].open[0];
    Unlinked(heap, t, 0)[x := UpValue(Closed(Current(heap, heap[x].at)))]
  }

  /** The upvalue on top of the open list of `t` owns its value from now on and is linked in `rootgc`. */
  ghost function Closing(g: State, j: nat, t: Id): State
    requires t in g.heap && g.heap[t].Thread? && |g.heap[t].open| > 0 && j < |g.openUpvals|
    requires g.heap[t].open[0] in g.heap && IsOpen(g.heap[g.heap[t].open[0]]) && g.heap[t].open[0] in g.mark
  {
    var x := g.heap[t].open[0];
    g.(heap := ClosedHeap(g.heap, t),
       openUpvals := RemoveAt(g.openUpvals, j),
       root := [x] + g.root,
       sweep := if g.sweep == 0 then 0 else g.sweep + 1,
       mark := g.mark[x := if g.mark[x] != Gray then g.mark[x]
                           else if g.phase.Propagate? then Black else White(g.white)])
  }

  lemma UnlinkedClosed(heap: map<Id, Object>, openUpvals: seq<Id>, t: Id)
    requires OpenLists(heap, openUpvals) && t in heap && heap[t].Thread? && |heap[t].open| > 0
    ensures var x := heap[t].open[0]; x in heap && IsOpen(heap[x]) && x != t
    ensures var x := heap[t].open[0];
      var h := Unlinked(heap, t, 0)[x := UpValue(Closed(Current(heap, heap[x].at)))];
      && h.Keys == heap.Keys
      && forall y :: y in h ==>
        View(h, y) == View(heap, y) && (y != t && y != x ==> h[y] == heap[y]) && (y == t ==> h[y].Thread?)
  {
    assert OpenList(heap, t);
    OpenThreads(heap, openUpvals);
    hide OpenLists;
    hide OpenList;
    hide RemoveAt;
  }

  lemma ClosedOpens(heap: map<Id, Object>, openUpvals: seq<Id>, t: Id, j: nat)
    requires OpenLists(heap, openUpvals) && t in heap && heap[t].Thread? && |heap[t].open| > 0
    requires j < |openUpvals| && openUpvals[j] == heap[t].open[0]
    requires heap[t].open[0] in heap && IsOpen(heap[heap[t].open[0]])
    ensures var x := heap[t].open[0];
      OpenLists(Unlinked(heap, t, 0)[x := UpValue(Closed(Current(heap, heap[x].at)))], RemoveAt(openUpvals, j))
  {
    var x := heap[t].open[0];
    var h := Unlinked(heap, t, 0)[x := UpValue(Closed(Current(heap, heap[x].at)))];
    OpensWithout(heap, openUpvals, t, 0, j);
    UnlinkedClosed(heap, openUpvals, t);
    var k := Unlinked(heap, t, 0) - {x};
    hide RemoveAt;
    forall s | s in h && h[s].Thread? ensures OpenList(h, s) {
      assert k[s] == h[s];
      OpenListElsewhere(k, h, s);
    }
  }

  lemma ClosedChains(heap: map<Id, Object>, strings: seq<seq<Id>>, t: Id, x: Id, v: Value)
    requires Chains(heap, strings) && t in heap && heap[t].Thread? && |heap[t].open| > 0
    requires x in heap && IsOpen(heap[x])
    ensures Chains(Unlinked(heap, t, 0)[x := UpValue(Closed(v))], strings)
  {
    hide ChainOf;
    hide RemoveAt;
  }

  lemma ClosedRoot(heap: map<Id, Object>, root: seq<Id>, t: Id, x: Id, v: Value)
    requires RootList(heap, root) && t in heap && heap[t].Thread? && |heap[t].open| > 0
    requires x in heap && IsOpen(heap[x]) && x != t
    ensures RootList(Unlinked(heap, t, 0)[x := UpValue(Closed(v))], [x] + root)
  {
    hide RemoveAt;
    var r := [x] + root;
    assert forall i :: 0 < i < |r| ==> r[i] == root[i - 1];
    assert forall y :: y in r <==> y == x || y in root;
  }

  lemma ClosingSpares(g: State, j: nat, t: Id)
    requires Basic(g) && OpenLists(g.heap, g.openUpvals) && t in g.heap && g.heap[t].Thread? && |g.heap[t].open| > 0
    requires j < |g.openUpvals| && g.heap[t].open[0] in g.heap && IsOpen(g.heap[g.heap[t].open[0]])
    requires !IsDead(g, g.heap[t].open[0])
    ensures Spares(g, Closing(g, j, t)) && Basic(Closing(g, j, t))
  {
    UnlinkedClosed(g.heap, g.openUpvals, t);
    hide OpenLists;
    hide View;
    hide RemoveAt;
    hide Unlinked;
    ClosingMarks(g, j, t);
    ClosingBasic(g, j, t);
    hide Basic;
  }

  lemma ClosingMarks(g: State, j: nat, t: Id)
    requires Basic(g) && t in g.heap && g.heap[t].Thread? && |g.heap[t].open| > 0
    requires j < |g.openUpvals| && g.heap[t].open[0] in g.heap && IsOpen(g.heap[g.heap[t].open[0]])
    requires !IsDead(g, g.heap[t].open[0])
    ensures forall y :: IsDead(Closing(g, j, t), y) == IsDead(g, y)
  {
    hide RemoveAt;
    hide ClosedHeap;
  }

  lemma ClosingBasic(g: State, j: nat, t: Id)
    requires Basic(g) && OpenLists(g.heap, g.openUpvals) && t in g.heap && g.heap[t].Thread? && |g.heap[t].open| > 0
    requires j < |g.openUpvals| && g.heap[t].open[0] in g.heap && IsOpen(g.heap[g.heap[t].open[0]])
    ensures Basic(Closing(g, j, t))
  {
    UnlinkedClosed(g.heap, g.openUpvals, t);
    hide OpenLists;
    hide View;
    hide RemoveAt;
    hide Unlinked;
  }

  lemma ClosingPassed(g: State, j: nat, t: Id)
    requires Passed(g) && Basic(g) && !g.phase.Propagate? && t in g.heap && g.heap[t].Thread? && |g.heap[t].open| > 0
    requires j < |g.openUpvals| && g.heap[t].open[0] in g.heap && IsOpen(g.heap[g.heap[t].open[0]])
    requires !IsDead(g, g.heap[t].open[0])
    ensures Passed(Closing(g, j, t))
  {
    var x, h := g.heap[t].open[0], Closing(g, j, t);
    assert Clean(h, x);
    assert forall y :: Clean(g, y) ==> Clean(h, y);
    forall k | 0 <= k < h.sweep ensures Clean(h, h.root[k]) && OpensClean(h, h.root[k]) {
      if k > 0 {
        var r := g.root[k - 1];
        assert h.root[k] == r && Clean(g, r) && OpensClean(g, r);
        if r in h.heap && h.heap[r].Thread? {
          forall u | u in h.heap[r].open ensures Clean(h, u) { assert u in g.heap[r].open && Clean(g, u); }
        }
      }
    }
  }

  lemma ClosingTricolor(g: State, j: nat, t: Id)
    requires Basic(g) && OpenLists(g.heap, g.openUpvals) && GrayLists(g) && LeavesBlack(g) && NoneDead(g)
    requires Tricolor(g, Elems(g.grayAgain) + OpenSet(g) + {}) && g.phase.Propagate?
    requires t in g.heap && g.heap[t].Thread? && |g.heap[t].open| > 0
    requires j < |g.openUpvals| && g.heap[t].open[0] in g.heap && IsOpen(g.heap[g.heap[t].open[0]])
    ensures var x, h := g.heap[t].open[0], Closing(g, j, t);
      Tricolor(h, Elems(h.grayAgain) + OpenSet(h) + {x}) && (forall y :: IsWhite(h, y) == IsWhite(g, y))
  {
    var x, h := g.heap[t].open[0], Closing(g, j, t);
    UnlinkedClosed(g.heap, g.openUpvals, t);
    hide OpenLists;
    hide OpenList;
    hide RemoveAt;
    hide Unlinked;
    hide View;
    assert forall y :: IsWhite(h, y) == IsWhite(g, y);
    forall y | y in h.heap && !IsWhite(h, y) && y !in h.gray && y !in Elems(h.grayAgain) + OpenSet(h) + {x}
      ensures AllMarked(h, Held(h.heap, y))
    {
      assert y !in OpenSet(g);
      assert Held(h.heap, y) == Held(g.heap, y);
      forall v | v in Held(h.heap, y) ensures Marked(h, v) { assert Marked(g, v); }
    }
  }

  /** Nothing has happened to what waits in the gray lists; what is new is white. */
  ghost predicate SameGray(g: State, h: State) {
    && h.gray == g.gray && h.grayAgain == g.grayAgain
    && (forall y :: y in g.heap ==> SameWait(g, h, y))
    && forall y :: y in h.heap && y !in g.heap ==> y in h.mark && h.mark[y].White?
  }

  ghost predicate SameWait(g: State, h: State, y: Id)
    requires y in g.heap
  {
    && y in h.heap && y in g.mark && y in h.mark
    && Traversed(h.heap[y]) == Traversed(g.heap[y]) && h.heap[y].Thread? == g.heap[y].Thread?
    && (Traversed(g.heap[y]) ==> h.mark[y] == g.mark[y])
  }

  lemma GrayKept(g: State, h: State)
    requires SameGray(g, h) && GrayLists(g) && OpenNotBlack(h)
    ensures GrayLists(h)
  {
    hide OpenNotBlack;
    hide NoDup;
    forall y | y in h.gray || y in h.grayAgain
      ensures y in h.heap && y in h.mark && h.mark[y] == Gray && Traversed(h.heap[y])
    {
      assert SameWait(g, h, y);
    }
    forall y | y in h.heap && y in h.mark && h.mark[y] == Gray && Traversed(h.heap[y])
      ensures y in h.gray || y in h.grayAgain
    {
      assert y in g.heap && SameWait(g, h, y);
    }
    forall y | y in h.heap && y in h.mark && h.heap[y].Thread? ensures h.mark[y] != Black {
      if y in g.heap { assert SameWait(g, h, y) && Traversed(g.heap[y]); }
    }
  }

  lemma ClosingKinds(g: State, j: nat, t: Id)
    requires Basic(g) && OpenLists(g.heap, g.openUpvals)
    requires t in g.heap && g.heap[t].Thread? && |g.heap[t].open| > 0
    requires j < |g.openUpvals| && g.heap[t].open[0] in g.heap && IsOpen(g.heap[g.heap[t].open[0]])
    ensures var x, h := g.heap[t].open[0], Closing(g, j, t);
      && h.heap.Keys == g.heap.Keys
      && (forall y :: y in h.heap ==> (Traversed(h.heap[y]) <==> Traversed(g.heap[y])))
      && (forall y :: y in h.heap ==> (h.heap[y].Thread? <==> g.heap[y].Thread?))
      && (forall y :: y in h.heap && y != x && !Traversed(h.heap[y]) ==> h.heap[y] == g.heap[y])
      && !Traversed(h.heap[x]) && !IsOpen(h.heap[x]) && !h.heap[x].UserData?
  {
    UnlinkedClosed(g.heap, g.openUpvals, t);
    hide OpenLists;
    hide OpenList;
    hide RemoveAt;
    hide Unlinked;
    hide View;
  }

  lemma ClosingLists(g: State, j: nat, t: Id)
    requires Basic(g) && OpenLists(g.heap, g.openUpvals) && GrayLists(g) && LeavesBlack(g) && NoneDead(g)
    requires g.phase.Propagate?
    requires t in g.heap && g.heap[t].Thread? && |g.heap[t].open| > 0
    requires j < |g.openUpvals| && g.heap[t].open[0] in g.heap && IsOpen(g.heap[g.heap[t].open[0]])
    ensures var h := Closing(g, j, t); GrayLists(h) && LeavesBlack(h) && NoneDead(h)
  {
    hide OpenLists;
    hide RemoveAt;
    hide Unlinked;
    hide Current;
    var x, h := g.heap[t].open[0], Closing(g, j, t);
    ClosingKinds(g, j, t);
    assert h.mark.Keys == g.mark.Keys && forall y :: y in g.mark && y != x ==> h.mark[y] == g.mark[y];
    assert h.mark[x] != Gray && (h.mark[x].White? ==> h.mark[x] == g.mark[x]);
    assert h.gray == g.gray && h.grayAgain == g.grayAgain && h.white == g.white && h.fixed == g.fixed;
    assert !Traversed(g.heap[x]) && !Traversed(h.heap[x]) && !IsOpen(h.heap[x]);
    hide Closing;
    ClosingOpens(g, h, x);
    assert g.mark.Keys == g.heap.Keys;
    hide Basic;
    assert SameGray(g, h);
    GrayKept(g, h);
    hide GrayLists;
    hide SameGray;
    ClosingLeaves(g, h, x);
    hide Traversed;
  }

  lemma ClosingLeaves(g: State, h: State, x: Id)
    requires LeavesBlack(g) && h.heap.Keys == g.heap.Keys && h.mark.Keys == g.mark.Keys && x in h.heap && x in h.mark
    requires h.mark[x] != Gray && forall y :: y in g.mark && y != x ==> h.mark[y] == g.mark[y]
    requires forall y :: y in h.heap ==> (Traversed(h.heap[y]) <==> Traversed(g.heap[y]))
    requires forall y :: y in h.heap && y != x && !Traversed(h.heap[y]) ==> h.heap[y] == g.heap[y]
    ensures LeavesBlack(h)
  {
    forall y | y in h.heap && y in h.mark && h.mark[y] == Gray
      ensures !h.heap[y].UserData? && (h.heap[y].UpValue? ==> h.heap[y].at.Open?)
    {
      assert y != x && g.mark[y] == Gray;
    }
  }

  lemma ClosingOpens(g: State, h: State, x: Id)
    requires OpenNotBlack(g) && h.heap.Keys == g.heap.Keys && h.mark.Keys == g.mark.Keys && x in h.heap
    requires !IsOpen(h.heap[x]) && forall y :: y in g.mark && y != x ==> h.mark[y] == g.mark[y]
    requires forall y :: y in h.heap && y != x && !Traversed(h.heap[y]) ==> h.heap[y] == g.heap[y]
    ensures OpenNotBlack(h)
  {
    forall u | u in h.heap && IsOpen(h.heap[u]) ensures u in h.mark && h.mark[u] != Black {
      assert u != x && h.heap[u] == g.heap[u];
    }
  }

  /** Closing keeps the invariant, up to the value the upvalue now owns while marking goes on. */
  lemma ClosingKeeps(g: State, j: nat, t: Id)
    requires Inv(g) && t in g.heap && g.heap[t].Thread? && |g.heap[t].open| > 0
    requires j < |g.openUpvals| && g.openUpvals[j] == g.heap[t].open[0]
    requires !IsDead(g, g.heap[t].open[0])
    ensures g.heap[t].open[0] in g.heap && IsOpen(g.heap[g.heap[t].open[0]])
    ensures Pending(Closing(g, j, t), g.heap[t].open[0]) && Spares(g, Closing(g, j, t))
  {
    hide Sound;
    hide Basic;
    hide Chains;
    hide RootList;
    hide OpenLists;
    hide Spares;
    hide Passed;
    hide AllWhite;
    hide Marking;
    InvParts(g);
    var x := g.heap[t].open[0];
    UnlinkedClosed(g.heap, g.openUpvals, t);
    assert g.mark.Keys == g.heap.Keys by { BasicKeys(g); }
    var h := Closing(g, j, t);
    ClosingSpares(g, j, t);
    ClosedOpens(g.heap, g.openUpvals, t, j);
    ClosedChains(g.heap, g.strings, t, x, Current(g.heap, g.heap[x].at));
    ClosedRoot(g.heap, g.root, t, x, Current(g.heap, g.heap[x].at));
    if g.phase.Propagate? {
      ClosingMarking(g, j, t);
    } else {
      if g.phase.SweepString? || g.phase.Sweep? { ClosingPassed(g, j, t); } else { ClosingWhite(g, j, t); }
      Assemble(g, h);
    }
  }

  lemma ClosingNotTable(g: State, j: nat, t: Id)
    requires HasOpen(g.heap, t) && j < |g.openUpvals| && g.heap[t].open[0] in g.mark
    ensures var x, h := g.heap[t].open[0], Closing(g, j, t);
      x in h.heap && h.heap[x].UpValue? && |h.openUpvals| == |g.openUpvals| - 1
  {
    hide Unlinked;
  }

  /** The value an upvalue takes over is alive, and the only thing the upvalue holds. */
  lemma ClosingAlive(g: State, j: nat, t: Id)
    requires Inv(g) && t in g.heap && g.heap[t].Thread? && |g.heap[t].open| > 0 && j < |g.openUpvals|
    requires g.heap[t].open[0] in g.heap && IsOpen(g.heap[g.heap[t].open[0]]) && g.heap[t].open[0] in g.mark
    requires !IsDead(g, g.heap[t].open[0])
    ensures var x := g.heap[t].open[0];
      var v, h := Current(g.heap, g.heap[x].at), Closing(g, j, t);
      && x in h.heap && x in h.mark && Held(h.heap, x) == {v}
      && (Spares(g, h) ==> Alive(h, v))
  {
    var x := g.heap[t].open[0];
    var v, h := Current(g.heap, g.heap[x].at), Closing(g, j, t);
    InvParts(g);
    hide Inv;
    hide Basic;
    hide Lists;
    hide InPhase;
    assert Held(g.heap, x) == {v};
    assert AllAlive(g, Held(g.heap, x));
    assert Alive(g, v);
  }

  lemma BasicKeys(g: State)
    requires Basic(g)
    ensures g.mark.Keys == g.heap.Keys
  {}

  lemma ClosingWhite(g: State, j: nat, t: Id)
    requires AllWhite(g) && t in g.heap && g.heap[t].Thread? && |g.heap[t].open| > 0
    requires j < |g.openUpvals| && g.heap[t].open[0] in g.heap && IsOpen(g.heap[g.heap[t].open[0]])
    ensures AllWhite(Closing(g, j, t))
  {}

  lemma ClosingMarking(g: State, j: nat, t: Id)
    requires Inv(g) && g.phase.Propagate? && t in g.heap && g.heap[t].Thread? && |g.heap[t].open| > 0
    requires j < |g.openUpvals| && g.heap[t].open[0] in g.heap && IsOpen(g.heap[g.heap[t].open[0]])
    requires g.heap[t].open[0] in g.mark
    requires var h := Closing(g, j, t); Spares(g, h) && Basic(h) && Lists(h)
    ensures Almost(Closing(g, j, t), {g.heap[t].open[0]})
  {
    var x, h := g.heap[t].open[0], Closing(g, j, t);
    InvAlmost(g);
    assert Almost(g, {});
    hide Inv;
    hide Sound;
    hide Chains;
    hide RootList;
    hide OpenLists;
    hide Spares;
    hide GrayLists;
    hide LeavesBlack;
    hide NoneDead;
    hide Tricolor;
    hide Basic;
    SparesSound(g, h);
    ClosingLists(g, j, t);
    ClosingTricolor(g, j, t);
  }

  // ------------------------------------------------------------------------- writing into an object

  predicate SameKind(a: Object, b: Object) {
    || (a.UserData? && b.UserData?) || (a.Table? && b.Table?) || (a.Function? && b.Function?) || (a.Proto? && b.Proto?)
    || (a.UpValue? && b.UpValue? && a.at.Closed? && b.at.Closed?)
  }

  ghost function Stored(g: State, o: Id, body: Object): State { g.(heap := g.heap[o := body]) }

  /** What a write may bring in: what the object held before, and new values the program has. */
  ghost predicate Storable(g: State, o: Id, body: Object, vs: set<Value>) {
    && o in g.heap && SameKind(g.heap[o], body)
    && Fields(body) <= Held(g.heap, o) + vs
    && AllAlive(g, vs)
  }

  lemma StoredViews(g: State, o: Id, body: Object, vs: set<Value>)
    requires Storable(g, o, body, vs)
    ensures var h := Stored(g, o, body);
      && h.heap.Keys == g.heap.Keys && Held(h.heap, o) == Fields(body)
      && (forall y :: y in g.heap && y != o ==> h.heap[y] == g.heap[y] && View(h.heap, y) == View(g.heap, y))
      && !g.heap[o].Thread? && !g.heap[o].Str? && !IsOpen(g.heap[o])
  {}

  lemma StoredSound(g: State, o: Id, body: Object, vs: set<Value>)
    requires Sound(g) && Basic(g) && Storable(g, o, body, vs)
    ensures Sound(Stored(g, o, body)) && Basic(Stored(g, o, body))
  {
    var h := Stored(g, o, body);
    StoredViews(g, o, body, vs);
    StoredBasic(g, o, body, vs);
    hide Basic;
    hide View;
    assert Anchors(h) == Anchors(g) && forall x :: IsDead(h, x) == IsDead(g, x);
    hide Anchors;
    forall x | x in h.heap && !IsDead(h, x) ensures AllAlive(h, Held(h.heap, x)) {
      assert AllAlive(g, Held(g.heap, x)) && !IsDead(g, x);
      assert x != o ==> Held(h.heap, x) == Held(g.heap, x);
      hide Held;
      forall v | v in Held(h.heap, x) ensures Alive(h, v) { assert Alive(g, v); }
    }
    hide Held;
    hide Storable;
  }

  lemma StoredBasic(g: State, o: Id, body: Object, vs: set<Value>)
    requires Basic(g) && Storable(g, o, body, vs)
    ensures Basic(Stored(g, o, body))
  {
    StoredViews(g, o, body, vs);
    hide View;
    hide Held;
  }

  lemma StoredChains(heap: map<Id, Object>, strings: seq<seq<Id>>, o: Id, body: Object)
    requires Chains(heap, strings) && o in heap && SameKind(heap[o], body)
    ensures Chains(heap[o := body], strings)
  {
    hide ChainOf;
  }

  lemma StoredRoot(heap: map<Id, Object>, root: seq<Id>, o: Id, body: Object)
    requires RootList(heap, root) && o in heap && SameKind(heap[o], body)
    ensures RootList(heap[o := body], root)
  {}

  lemma StoredOpens(heap: map<Id, Object>, openUpvals: seq<Id>, o: Id, body: Object)
    requires OpenLists(heap, openUpvals) && o in heap && SameKind(heap[o], body)
    ensures OpenLists(heap[o := body], openUpvals)
  {
    var h := heap[o := body];
    forall s | s in h && h[s].Thread? ensures OpenList(h, s) {
      assert OpenList(heap, s);
      OpenListElsewhere(heap, h, s);
    }
    hide OpenList;
  }

  lemma StoredLists(g: State, o: Id, body: Object, vs: set<Value>)
    requires Lists(g) && Storable(g, o, body, vs)
    ensures Lists(Stored(g, o, body))
  {
    StoredChains(g.heap, g.strings, o, body);
    StoredRoot(g.heap, g.root, o, body);
    StoredOpens(g.heap, g.openUpvals, o, body);
    hide Chains;
    hide RootList;
    hide OpenLists;
  }

  lemma StoredGray(g: State, o: Id, body: Object, vs: set<Value>)
    requires g.mark.Keys == g.heap.Keys && Storable(g, o, body, vs)
    requires NoneDead(g) && GrayLists(g) && LeavesBlack(g)
    ensures var h := Stored(g, o, body); NoneDead(h) && GrayLists(h) && LeavesBlack(h)
  {
    var h := Stored(g, o, body);
    assert SameKind(g.heap[o], body) && o in g.heap;
    hide Storable;
    StoredOpen(g, o, body);
    StoredLeaves(g, o, body);
    hide LeavesBlack;
    hide OpenNotBlack;
    assert SameGray(g, h);
    GrayKept(g, h);
    hide GrayLists;
    hide SameGray;
  }

  lemma StoredLeaves(g: State, o: Id, body: Object)
    requires LeavesBlack(g) && o in g.heap && SameKind(g.heap[o], body)
    ensures LeavesBlack(Stored(g, o, body))
  {
  }

  lemma StoredOpen(g: State, o: Id, body: Object)
    requires GrayLists(g) && o in g.heap && SameKind(g.heap[o], body)
    ensures OpenNotBlack(Stored(g, o, body))
  {
  }

  lemma StoredMarking(g: State, o: Id, body: Object, vs: set<Value>)
    requires g.mark.Keys == g.heap.Keys && Storable(g, o, body, vs)
    requires Tricolor(g, Elems(g.grayAgain) + OpenSet(g) + {})
    ensures var h := Stored(g, o, body); Tricolor(h, Elems(h.grayAgain) + OpenSet(h) + {o})
  {
    var h := Stored(g, o, body);
    StoredViews(g, o, body, vs);
    hide View;
    hide Fields;
    forall y | y in h.heap && !IsWhite(h, y) && y !in h.gray && y !in Elems(h.grayAgain) + OpenSet(h) + {o}
      ensures AllMarked(h, Held(h.heap, y))
    {
      assert y !in OpenSet(g);
      assert AllMarked(g, Held(g.heap, y));
      forall v | v in Held(h.heap, y) ensures Marked(h, v) { assert Marked(g, v); }
    }
  }

  lemma StoredPassed(g: State, o: Id, body: Object, vs: set<Value>)
    requires Passed(g) && Storable(g, o, body, vs)
    ensures Passed(Stored(g, o, body))
  {
    var h := Stored(g, o, body);
    StoredViews(g, o, body, vs);
    hide View;
    assert forall y :: Clean(h, y) == Clean(g, y);
    hide Clean;
    hide Storable;
    forall k | 0 <= k < h.sweep ensures OpensClean(h, h.root[k]) { assert OpensClean(g, g.root[k]); }
  }

  /** A write keeps the invariant, up to what a barrier will see to. */
  lemma StoredKeeps(g: State, o: Id, body: Object, vs: set<Value>)
    requires Inv(g) && Storable(g, o, body, vs)
    ensures Pending(Stored(g, o, body), o)
  {
    hide Sound;
    hide Basic;
    hide Lists;
    hide Storable;
    hide Passed;
    hide Tricolor;
    hide NoneDead;
    hide GrayLists;
    hide LeavesBlack;
    var h := Stored(g, o, body);
    InvParts(g);
    StoredSound(g, o, body, vs);
    StoredLists(g, o, body, vs);
    if g.phase.Propagate? {
      InvAlmost(g);
      assert Almost(g, {});
      BasicKeys(g);
      StoredGray(g, o, body, vs);
      StoredMarking(g, o, body, vs);
    } else if g.phase.SweepString? || g.phase.Sweep? {
      StoredPassed(g, o, body, vs);
    } else {
      StoredWhite(g, o, body, vs);
    }
  }

  lemma StoredWhite(g: State, o: Id, body: Object, vs: set<Value>)
    requires AllWhite(g) && Storable(g, o, body, vs)
    ensures AllWhite(Stored(g, o, body))
  {}

  /** Before the write a black object held nothing white. */
  lemma BlackSettled(g: State, o: Id)
    requires Inv(g) && g.phase.Propagate? && o in g.heap && o in g.mark && g.mark[o] == Black
    ensures AllMarked(g, Held(g.heap, o))
  {
    hide Sound;
    hide Lists;
    assert OpenNotBlack(g);
  }

  // -------------------------------------------------------------------------------- writing a stack

  ghost function Restacked(g: State, t: Id, globals: Value, stack: seq<Value>): State
    requires t in g.heap && g.heap[t].Thread?
  {
    g.(heap := g.heap[t := Thread(globals, stack, g.heap[t].open)])
  }

  /** What a stack may be replaced by: open upvalues keep their slots, and who is alive sees nothing dead. */
  ghost predicate Restackable(g: State, t: Id, globals: Value, stack: seq<Value>) {
    && t in g.heap && g.heap[t].Thread?
    && (forall u :: u in g.heap[t].open ==> Slot(g.heap, u) < |stack|)
    && (!IsDead(g, t) ==> Alive(g, globals) && AllAlive(g, Values(stack)))
    && (forall u :: u in g.heap[t].open && !IsDead(g, u) && Slot(g.heap, u) < |stack| ==>
          Alive(g, stack[Slot(g.heap, u)]))
  }

  lemma RestackedViews(g: State, t: Id, globals: Value, stack: seq<Value>)
    requires Restackable(g, t, globals, stack) && OpenLists(g.heap, g.openUpvals)
    ensures var h := Restacked(g, t, globals, stack);
      && h.heap.Keys == g.heap.Keys
      && (forall y :: y in g.heap && y != t ==> h.heap[y] == g.heap[y])
      && (forall y :: y in g.heap && y != t && !IsOpen(g.heap[y]) ==> Held(h.heap, y) == Held(g.heap, y))
      && Held(h.heap, t) == {globals} + Values(stack)
      && (forall u :: u in g.heap && IsOpen(g.heap[u]) && !IsDead(g, u) && AllAlive(g, Held(g.heap, u)) ==>
            AllAlive(g, Held(h.heap, u)))
  {
    var h := Restacked(g, t, globals, stack);
    forall u | u in g.heap && IsOpen(g.heap[u]) && !IsDead(g, u) && AllAlive(g, Held(g.heap, u))
      ensures AllAlive(g, Held(h.heap, u))
    {
      RestackedOpen(g, t, globals, stack, u);
    }
    hide Restackable;
    hide OpenLists;
    hide AllAlive;
  }

  /** The value of an open upvalue is what its slot holds now. */
  lemma RestackedOpen(g: State, t: Id, globals: Value, stack: seq<Value>, u: Id)
    requires Restackable(g, t, globals, stack) && OpenLists(g.heap, g.openUpvals)
    requires u in g.heap && IsOpen(g.heap[u]) && !IsDead(g, u) && AllAlive(g, Held(g.heap, u))
    ensures AllAlive(g, Held(Restacked(g, t, globals, stack).heap, u))
  {
    var h := Restacked(g, t, globals, stack);
    if g.heap[u].at.thread == t {
      assert u in g.heap[t].open;
      hide OpenLists;
      assert Held(h.heap, u) == {stack[Slot(g.heap, u)]};
    } else {
      hide OpenLists;
      assert Held(h.heap, u) == Held(g.heap, u);
    }
  }

  lemma RestackedSound(g: State, t: Id, globals: Value, stack: seq<Value>)
    requires Sound(g) && Basic(g) && OpenLists(g.heap, g.openUpvals) && Restackable(g, t, globals, stack)
    ensures Sound(Restacked(g, t, globals, stack)) && Basic(Restacked(g, t, globals, stack))
  {
    var h := Restacked(g, t, globals, stack);
    RestackedBasic(g, t, globals, stack);
    hide Basic;
    assert Anchors(h) == Anchors(g) && forall x :: IsDead(h, x) == IsDead(g, x);
    assert h.heap.Keys == g.heap.Keys;
    hide Anchors;
    forall x | x in h.heap && !IsDead(h, x) ensures AllAlive(h, Held(h.heap, x)) {
      assert !IsDead(g, x) && AllAlive(g, Held(g.heap, x));
      RestackedAlive(g, t, globals, stack, x);
      hide Held;
      forall v | v in Held(h.heap, x) ensures Alive(h, v) { assert Alive(g, v); }
    }
    hide Held;
    hide OpenLists;
    hide Restackable;
  }

  lemma RestackedBasic(g: State, t: Id, globals: Value, stack: seq<Value>)
    requires Basic(g) && OpenLists(g.heap, g.openUpvals) && Restackable(g, t, globals, stack)
    ensures Basic(Restacked(g, t, globals, stack))
  {
    var h := Restacked(g, t, globals, stack);
    hide OpenLists;
    assert forall y :: y in h.heap && IsOpen(h.heap[y]) ==> y in g.heap && IsOpen(g.heap[y]);
  }

  lemma RestackedAlive(g: State, t: Id, globals: Value, stack: seq<Value>, x: Id)
    requires OpenLists(g.heap, g.openUpvals) && Restackable(g, t, globals, stack)
    requires x in g.heap && !IsDead(g, x) && AllAlive(g, Held(g.heap, x))
    ensures AllAlive(g, Held(Restacked(g, t, globals, stack).heap, x))
  {
    RestackedViews(g, t, globals, stack);
    hide OpenLists;
    hide Held;
    if x == t { forall v | v in {globals} + Values(stack) ensures Alive(g, v) {} }
  }

  lemma RestackedOpens(heap: map<Id, Object>, openUpvals: seq<Id>, t: Id, globals: Value, stack: seq<Value>)
    requires OpenLists(heap, openUpvals) && t in heap && heap[t].Thread?
    requires forall u :: u in heap[t].open ==> Slot(heap, u) < |stack|
    ensures OpenLists(heap[t := Thread(globals, stack, heap[t].open)], openUpvals)
  {
    var h := heap[t := Thread(globals, stack, heap[t].open)];
    forall s | s in h && h[s].Thread? ensures OpenList(h, s) {
      assert OpenList(heap, s);
      if s == t {
        RestackedOwn(heap, t, globals, stack);
      } else {
        hide OpenLists;
        OpenListElsewhere(heap, h, s);
      }
    }
    hide OpenList;
  }

  lemma RestackedOwn(heap: map<Id, Object>, t: Id, globals: Value, stack: seq<Value>)
    requires t in heap && heap[t].Thread? && OpenList(heap, t)
    requires forall u :: u in heap[t].open ==> Slot(heap, u) < |stack|
    ensures OpenList(heap[t := Thread(globals, stack, heap[t].open)], t)
  {
    var h := heap[t := Thread(globals, stack, heap[t].open)];
    forall i | 0 <= i < |h[t].open| ensures h[h[t].open[i]] == heap[h[t].open[i]] && h[h[t].open[i]].at.slot < |stack| {
      assert h[t].open[i] in heap[t].open;
    }
  }

  lemma RestackedChains(heap: map<Id, Object>, strings: seq<seq<Id>>, t: Id, globals: Value, stack: seq<Value>)
    requires Chains(heap, strings) && t in heap && heap[t].Thread?
    ensures Chains(heap[t := Thread(globals, stack, heap[t].open)], strings)
  {
    hide ChainOf;
  }

  lemma RestackedRoot(heap: map<Id, Object>, root: seq<Id>, t: Id, globals: Value, stack: seq<Value>)
    requires RootList(heap, root) && t in heap && heap[t].Thread?
    ensures RootList(heap[t := Thread(globals, stack, heap[t].open)], root)
  {}

  lemma RestackedTricolor(g: State, t: Id, globals: Value, stack: seq<Value>)
    requires g.mark.Keys == g.heap.Keys && OpenLists(g.heap, g.openUpvals) && Restackable(g, t, globals, stack)
    requires GrayLists(g) && Tricolor(g, Elems(g.grayAgain) + OpenSet(g))
    ensures var h := Restacked(g, t, globals, stack); Tricolor(h, Elems(h.grayAgain) + OpenSet(h))
  {
    var h := Restacked(g, t, globals, stack);
    RestackedViews(g, t, globals, stack);
    assert g.mark[t] == Gray || IsWhite(g, t);
    hide OpenLists;
    hide Held;
    hide Restackable;
    forall y | y in h.heap && !IsWhite(h, y) && y !in h.gray && y !in Elems(h.grayAgain) + OpenSet(h)
      ensures AllMarked(h, Held(h.heap, y))
    {
      assert y != t;
      assert y !in OpenSet(g);
      assert AllMarked(g, Held(g.heap, y));
      forall v | v in Held(h.heap, y) ensures Marked(h, v) { assert Marked(g, v); }
    }
  }

  lemma RestackedGray(g: State, t: Id, globals: Value, stack: seq<Value>)
    requires t in g.heap && g.heap[t].Thread? && GrayLists(g) && LeavesBlack(g) && NoneDead(g)
    ensures var h := Restacked(g, t, globals, stack); GrayLists(h) && LeavesBlack(h) && NoneDead(h)
  {}

  lemma RestackedPassed(g: State, t: Id, globals: Value, stack: seq<Value>)
    requires t in g.heap && g.heap[t].Thread? && Passed(g)
    ensures Passed(Restacked(g, t, globals, stack))
  {
    var h := Restacked(g, t, globals, stack);
    assert forall y :: Clean(h, y) == Clean(g, y);
    forall k | 0 <= k < h.sweep ensures OpensClean(h, h.root[k]) { assert OpensClean(g, g.root[k]); }
  }

  lemma RestackedPhase(g: State, t: Id, globals: Value, stack: seq<Value>)
    requires InPhase(g) && g.mark.Keys == g.heap.Keys && OpenLists(g.heap, g.openUpvals)
    requires Restackable(g, t, globals, stack)
    ensures InPhase(Restacked(g, t, globals, stack))
  {
    hide Tricolor;
    hide OpenLists;
    hide GrayLists;
    hide LeavesBlack;
    hide Passed;
    var h := Restacked(g, t, globals, stack);
    if g.phase.Propagate? {
      RestackedTricolor(g, t, globals, stack);
      RestackedGray(g, t, globals, stack);
    } else if g.phase.SweepString? || g.phase.Sweep? {
      RestackedPassed(g, t, globals, stack);
    }
  }

  /** Stacks need no barrier: threads are never black. */
  lemma RestackedKeeps(g: State, t: Id, globals: Value, stack: seq<Value>)
    requires Inv(g) && Restackable(g, t, globals, stack)
    ensures Inv(Restacked(g, t, globals, stack))
  {
    hide Sound;
    hide Basic;
    hide Chains;
    hide RootList;
    hide OpenLists;
    hide InPhase;
    InvParts(g);
    BasicKeys(g);
    RestackedSound(g, t, globals, stack);
    assert forall u :: u in g.heap[t].open ==> Slot(g.heap, u) < |stack|;
    RestackedOpens(g.heap, g.openUpvals, t, globals, stack);
    RestackedChains(g.heap, g.strings, t, globals, stack);
    RestackedRoot(g.heap, g.root, t, globals, stack);
    RestackedPhase(g, t, globals, stack);
  }

  // --------------------------------------------------------------------------------- making objects

  /** `h` has one object more than `g`, of the current white and in the hands of C code. */
  ghost predicate Adds(g: State, h: State, x: Id) {
    && x !in g.heap && x in h.heap && h.heap.Keys == g.heap.Keys + {x}
    && (forall y :: y in g.heap ==> View(h.heap, y) == View(g.heap, y))
    && (forall y :: y in g.heap && !g.heap[y].Thread? ==> h.heap[y] == g.heap[y])
    && (forall y :: y in g.heap && g.heap[y].Thread? ==> h.heap[y].Thread?)
    && h == g.(heap := h.heap, mark := g.mark[x := White(g.white)], strings := h.strings, root := h.root,
               sweep := h.sweep, openUpvals := h.openUpvals, held := g.held + {x})
  }

  /** What there was is as it was. */
  lemma AddsSame(g: State, h: State, x: Id, y: Id)
    requires Adds(g, h, x) && y in h.heap && y != x
    ensures y in g.heap && Held(h.heap, y) == Held(g.heap, y) && IsDead(h, y) == IsDead(g, y)
    ensures IsWhite(h, y) == IsWhite(g, y)
  {
    assert View(h.heap, y) == View(g.heap, y);
    hide View;
  }

  lemma AddsAlive(g: State, h: State, x: Id, vs: set<Value>)
    requires Adds(g, h, x) && AllAlive(g, vs)
    ensures AllAlive(h, vs) && (AllMarked(g, vs) ==> AllMarked(h, vs))
  {
    hide View;
    forall v | v in vs ensures Alive(h, v) && (Marked(g, v) ==> Marked(h, v)) { assert Alive(g, v); }
  }

  lemma AddsAnchors(g: State, h: State, x: Id)
    requires Adds(g, h, x)
    ensures Anchors(h) == Anchors(g) + {x} && x in h.heap && !IsDead(h, x)
    ensures forall y :: y in g.heap ==> y in h.heap && y != x
  {
  }

  lemma AddsSound(g: State, h: State, x: Id)
    requires Sound(g) && Basic(g) && Adds(g, h, x) && AllAlive(g, Held(h.heap, x))
    ensures Sound(h)
  {
    AddsAnchors(g, h, x);
    hide Adds;
    hide Anchors;
    hide Held;
    forall y | y in h.heap && !IsDead(h, y) ensures AllAlive(h, Held(h.heap, y)) {
      if y != x { AddsSame(g, h, x, y); }
      AddsAlive(g, h, x, Held(h.heap, y));
    }
    forall y | y in Anchors(g) ensures y in h.heap && !IsDead(h, y) {
      assert y in g.heap;
      AddsSame(g, h, x, y);
    }
  }

  lemma AddsBasic(g: State, h: State, x: Id)
    requires Basic(g) && Adds(g, h, x)
    ensures Basic(h) && (forall y :: Clean(g, y) ==> Clean(h, y)) && Clean(h, x)
    ensures AllWhite(g) ==> AllWhite(h)
  {
    hide View;
  }

  lemma AddsKinds(g: State, h: State, x: Id)
    requires Adds(g, h, x)
    ensures h.mark == g.mark[x := White(g.white)] && h.gray == g.gray && h.grayAgain == g.grayAgain
    ensures h.white == g.white && h.heap.Keys == g.heap.Keys + {x} && x !in g.heap
    ensures forall y :: y in g.heap ==>
              (Traversed(h.heap[y]) <==> Traversed(g.heap[y])) && (h.heap[y].Thread? <==> g.heap[y].Thread?)
              && (!Traversed(g.heap[y]) ==> h.heap[y] == g.heap[y])
  {
    hide View;
  }

  lemma AddsOpen(g: State, h: State, x: Id)
    requires Adds(g, h, x) && OpenNotBlack(g)
    ensures OpenNotBlack(h)
  {
    AddsKinds(g, h, x);
    hide Adds;
  }

  lemma AddsGrayLists(g: State, h: State, x: Id)
    requires Adds(g, h, x) && g.mark.Keys == g.heap.Keys && GrayLists(g)
    ensures GrayLists(h)
  {
    AddsOpen(g, h, x);
    AddsKinds(g, h, x);
    hide Adds;
    hide Traversed;
    hide GrayLists;
    hide OpenNotBlack;
    GrayKept(g, h);
  }

  lemma AddsLeaves(g: State, h: State, x: Id)
    requires Adds(g, h, x) && g.mark.Keys == g.heap.Keys && LeavesBlack(g) && NoneDead(g)
    ensures LeavesBlack(h) && NoneDead(h)
  {
    AddsKinds(g, h, x);
    hide Adds;
    assert NoneDead(h);
    hide NoneDead;
    forall y | y in h.heap && y in h.mark && h.mark[y] == Gray
      ensures !h.heap[y].UserData? && (h.heap[y].UpValue? ==> h.heap[y].at.Open?)
    {
      assert y in g.heap && g.mark[y] == Gray;
      assert !Traversed(g.heap[y]) ==> h.heap[y] == g.heap[y];
    }
  }

  lemma AddsGray(g: State, h: State, x: Id)
    requires Adds(g, h, x) && g.mark.Keys == g.heap.Keys && GrayLists(g) && LeavesBlack(g) && NoneDead(g)
    ensures GrayLists(h) && LeavesBlack(h) && NoneDead(h)
  {
    hide Adds;
    hide GrayLists;
    hide LeavesBlack;
    AddsGrayLists(g, h, x);
    AddsLeaves(g, h, x);
  }

  lemma AddsTricolor(g: State, h: State, x: Id)
    requires Basic(g) && Sound(g) && Adds(g, h, x) && NoneDead(g) && Tricolor(g, Elems(g.grayAgain) + OpenSet(g))
    ensures Tricolor(h, Elems(h.grayAgain) + OpenSet(h))
  {
    AddsLists(g, h, x);
    hide Adds;
    hide Held;
    forall y | y in h.heap && !IsWhite(h, y) && y !in h.gray && y !in Elems(h.grayAgain) + OpenSet(h)
      ensures AllMarked(h, Held(h.heap, y))
    {
      AddsSame(g, h, x, y);
      assert !IsDead(g, y) && AllAlive(g, Held(g.heap, y));
      assert AllMarked(g, Held(g.heap, y));
      AddsAlive(g, h, x, Held(g.heap, y));
    }
  }

  lemma AddsLists(g: State, h: State, x: Id)
    requires Adds(g, h, x)
    ensures h.gray == g.gray && h.grayAgain == g.grayAgain && IsWhite(h, x)
    ensures forall y :: y in g.heap && y !in OpenSet(h) ==> y !in OpenSet(g)
  {
    AddsOpens(g, h, x);
  }

  lemma AddsOpens(g: State, h: State, x: Id)
    requires Adds(g, h, x)
    ensures forall y :: y in g.heap ==> y in h.heap && IsOpen(h.heap[y]) == IsOpen(g.heap[y])
  {
    hide View;
    forall y | y in g.heap ensures IsOpen(h.heap[y]) == IsOpen(g.heap[y]) {
      if g.heap[y].Thread? { assert h.heap[y].Thread?; } else { assert h.heap[y] == g.heap[y]; }
    }
  }

  lemma AddsMarking(g: State, h: State, x: Id)
    requires Basic(g) && Sound(g) && Adds(g, h, x) && Marking(g)
    ensures Marking(h)
  {
    hide Tricolor;
    hide GrayLists;
    hide LeavesBlack;
    hide NoneDead;
    hide Adds;
    hide Sound;
    hide Basic;
    BasicKeys(g);
    AddsGray(g, h, x);
    AddsTricolor(g, h, x);
    AddsRoots(g, h, x);
  }

  lemma AddsRoots(g: State, h: State, x: Id)
    requires Sound(g) && Adds(g, h, x) && !IsWhite(g, g.main) && Marked(g, g.registry)
    ensures !IsWhite(h, h.main) && Marked(h, h.registry)
  {
    assert g.main in Anchors(g) && (g.registry.Ref? ==> g.registry.id in Anchors(g));
    hide View;
    hide Held;
  }

  lemma AddsKeeps(g: State, h: State, x: Id)
    requires Inv(g) && Adds(g, h, x) && AllAlive(g, Held(h.heap, x)) && Lists(h)
    requires Passed(g) ==> Passed(h)
    requires g.phase.SweepString? ==> |h.strings| == |g.strings| && h.sweep == g.sweep
    ensures Inv(h)
  {
    hide Sound;
    hide Basic;
    hide Lists;
    hide Adds;
    hide Held;
    hide Marking;
    hide AllWhite;
    hide Passed;
    InvParts(g);
    AddsFields(g, h, x);
    AddsSound(g, h, x);
    AddsBasic(g, h, x);
    if g.phase.Propagate? { AddsMarking(g, h, x); }
  }

  lemma AddsFields(g: State, h: State, x: Id)
    requires Adds(g, h, x)
    ensures h.phase == g.phase && h.sweepString == g.sweepString
  {}

  /** An object linked in `rootgc` before position `p`; the sweep goes on where it was. */
  ghost function Linked(g: State, x: Id, body: Object, p: nat): State
    requires p <= |g.root|
  {
    g.(heap := g.heap[x := body], mark := g.mark[x := White(g.white)], root := g.root[..p] + [x] + g.root[p..],
       sweep := if g.sweep > p then g.sweep + 1 else g.sweep, held := g.held + {x})
  }

  /** What may be made: anything swept through `rootgc`, built from values the program has. */
  ghost predicate Makeable(g: State, body: Object) {
    InRoot(body) && (body.Thread? ==> body.open == []) && AllAlive(g, Fields(body))
  }

  lemma LinkedAdds(g: State, x: Id, body: Object, p: nat)
    requires x !in g.heap && p <= |g.root| && Makeable(g, body) && OpenLists(g.heap, g.openUpvals)
    ensures Adds(g, Linked(g, x, body, p), x) && AllAlive(g, Held(Linked(g, x, body, p).heap, x))
  {
    var h := Linked(g, x, body, p);
    OpenThreads(g.heap, g.openUpvals);
    hide OpenLists;
    assert View(h.heap, x) == body || body.Thread? || body.UpValue?;
    assert Held(h.heap, x) == Fields(body);
  }

  lemma InsertElems(s: seq<Id>, p: nat, x: Id)
    requires p <= |s| && NoDup(s) && x !in s
    ensures NoDup(s[..p] + [x] + s[p..]) && forall y :: y in s[..p] + [x] + s[p..] <==> y in s || y == x
  {
    var r := s[..p] + [x] + s[p..];
    forall y | y in s ensures y in r {
      var k :| 0 <= k < |s| && s[k] == y;
      assert if k < p then r[k] == y else r[k + 1] == y;
    }
    forall k | 0 <= k < |r| ensures k != p ==> r[k] in s && r[k] == s[if k < p then k else k - 1] {}
  }

  lemma LinkedOpens(heap: map<Id, Object>, openUpvals: seq<Id>, x: Id, body: Object)
    requires OpenLists(heap, openUpvals) && x !in heap && !IsOpen(body) && (body.Thread? ==> body.open == [])
    ensures OpenLists(heap[x := body], openUpvals)
  {
    var h := heap[x := body];
    forall s | s in h && h[s].Thread? ensures OpenList(h, s) {
      if s != x {
        assert OpenList(heap, s);
        OpenListElsewhere(heap, h, s);
      }
    }
    hide OpenList;
  }

  lemma LinkedChains(heap: map<Id, Object>, strings: seq<seq<Id>>, x: Id, body: Object)
    requires Chains(heap, strings) && x !in heap && !body.Str?
    ensures Chains(heap[x := body], strings)
  {
    hide ChainOf;
  }

  lemma LinkedRoot(heap: map<Id, Object>, root: seq<Id>, x: Id, body: Object, p: nat)
    requires RootList(heap, root) && x !in heap && InRoot(body) && p <= |root|
    ensures RootList(heap[x := body], root[..p] + [x] + root[p..])
  {
    assert x !in root;
    InsertElems(root, p, x);
  }

  lemma LinkedPassed(g: State, x: Id, body: Object, p: nat)
    requires Passed(g) && p <= |g.root| && x !in g.heap && (body.Thread? ==> body.open == [])
    ensures Passed(Linked(g, x, body, p))
  {
    var h := Linked(g, x, body, p);
    assert Clean(h, x);
    assert forall y :: Clean(g, y) ==> Clean(h, y);
    hide Clean;
    forall k | 0 <= k < h.sweep ensures Clean(h, h.root[k]) && OpensClean(h, h.root[k]) {
      if k != p {
        var r := g.root[if k < p then k else k - 1];
        assert h.root[k] == r && Clean(g, r) && OpensClean(g, r);
      }
    }
  }

  /** `luaC_link`: a new object. */
  lemma LinkedKeeps(g: State, x: Id, body: Object, p: nat)
    requires Inv(g) && x !in g.heap && p <= |g.root| && Makeable(g, body)
    ensures Inv(Linked(g, x, body, p))
  {
    hide Sound;
    hide Basic;
    hide Chains;
    hide RootList;
    hide OpenLists;
    hide InPhase;
    hide Adds;
    hide Passed;
    hide Held;
    InvParts(g);
    LinkedAdds(g, x, body, p);
    LinkedChains(g.heap, g.strings, x, body);
    LinkedRoot(g.heap, g.root, x, body, p);
    LinkedOpens(g.heap, g.openUpvals, x, body);
    if Passed(g) { LinkedPassed(g, x, body, p); }
    if g.phase.SweepString? { InSweepString(g); }
    AddsKeeps(g, Linked(g, x, body, p), x);
  }

  /** `newlstr`: a string nobody has yet, in front of its chain. */
  ghost function StringMade(g: State, x: Id, text: string): State
    requires |g.strings| > 0
  {
    var c := ChainOf(text, |g.strings|);
    g.(heap := g.heap[x := Str(text)], mark := g.mark[x := White(g.white)],
       strings := g.strings[c := [x] + g.strings[c]], held := g.held + {x})
  }

  lemma StringChains(heap: map<Id, Object>, strings: seq<seq<Id>>, x: Id, text: string)
    requires Chains(heap, strings) && x !in heap && forall y :: y in heap ==> heap[y] != Str(text)
    ensures var c := ChainOf(text, |strings|); Chains(heap[x := Str(text)], strings[c := [x] + strings[c]])
  {
    var c := ChainOf(text, |strings|);
    assert x !in strings[c];
    FirstOfChain(strings[c], x);
    hide NoDup;
    var r, h, ss := [x] + strings[c], heap[x := Str(text)], strings[c := [x] + strings[c]];
    forall k | 0 <= k < |ss| ensures NoDup(ss[k]) {}
    forall k, y | 0 <= k < |ss| && y in ss[k] ensures y in h && h[y].Str? && ChainOf(h[y].text, |ss|) == k {
      if y != x { assert y in strings[k]; }
    }
  }

  lemma FirstOfChain(chain: seq<Id>, x: Id)
    requires NoDup(chain) && x !in chain
    ensures NoDup([x] + chain) && forall y :: y in [x] + chain <==> y == x || y in chain
  {
    assert forall i :: 0 < i < |chain| + 1 ==> ([x] + chain)[i] == chain[i - 1];
  }

  lemma StringAdds(g: State, x: Id, text: string)
    requires x !in g.heap && |g.strings| > 0 && OpenLists(g.heap, g.openUpvals)
    ensures Adds(g, StringMade(g, x, text), x) && Held(StringMade(g, x, text).heap, x) == {}
  {
    OpenThreads(g.heap, g.openUpvals);
    hide OpenLists;
    hide ChainOf;
  }

  lemma StringPassed(g: State, x: Id, text: string)
    requires Passed(g) && |g.strings| > 0 && x !in g.heap
    ensures Passed(StringMade(g, x, text))
  {
    var h := StringMade(g, x, text);
    hide ChainOf;
    assert Clean(h, x);
    assert forall y :: Clean(g, y) ==> Clean(h, y);
    hide Clean;
    forall k | 0 <= k < h.sweep ensures OpensClean(h, h.root[k]) { assert OpensClean(g, g.root[k]); }
  }

  lemma StringMadeKeeps(g: State, x: Id, text: string)
    requires Inv(g) && x !in g.heap && forall y :: y in g.heap ==> g.heap[y] != Str(text)
    ensures |g.strings| > 0 && Inv(StringMade(g, x, text))
  {
    hide Sound;
    hide Basic;
    hide Chains;
    hide RootList;
    hide OpenLists;
    hide InPhase;
    hide Adds;
    hide Passed;
    hide Held;
    hide ChainOf;
    InvParts(g);
    SomeChain(g);
    StringAdds(g, x, text);
    StringChains(g.heap, g.strings, x, text);
    LinkedOpens(g.heap, g.openUpvals, x, Str(text));
    StringRoot(g.heap, g.root, x, Str(text));
    if Passed(g) { StringPassed(g, x, text); }
    AddsKeeps(g, StringMade(g, x, text), x);
  }

  lemma StringRoot(heap: map<Id, Object>, root: seq<Id>, x: Id, body: Object)
    requires RootList(heap, root) && x !in heap && !InRoot(body)
    ensures RootList(heap[x := body], root)
  {}

  /** `luaF_findupval`: a new open upvalue for slot `slot` of thread `t`, at position `i` of its open list. */
  ghost function Captured(g: State, t: Id, i: nat, x: Id, slot: nat): State
    requires t in g.heap && g.heap[t].Thread? && i <= |g.heap[t].open|
  {
    var l := g.heap[t].open;
    g.(heap := g.heap[t := g.heap[t].(open := l[..i] + [x] + l[i..])][x := UpValue(Open(t, slot))],
       mark := g.mark[x := White(g.white)], openUpvals := [x] + g.openUpvals, held := g.held + {x})
  }

  /** `i` is where slot `slot` belongs in the open list of `t`, and no upvalue watches that slot yet. */
  ghost predicate Belongs(heap: map<Id, Object>, t: Id, i: nat, slot: nat)
    requires t in heap && heap[t].Thread?
  {
    && i <= |heap[t].open| && slot < |heap[t].stack|
    && (forall k :: 0 <= k < i ==> Slot(heap, heap[t].open[k]) > slot)
    && (forall k :: i <= k < |heap[t].open| ==> Slot(heap, heap[t].open[k]) < slot)
  }

  lemma CapturedList(heap: map<Id, Object>, t: Id, i: nat, x: Id, slot: nat)
    requires t in heap && heap[t].Thread? && x !in heap && OpenList(heap, t) && Belongs(heap, t, i, slot)
    ensures var l := heap[t].open;
      OpenList(heap[t := heap[t].(open := l[..i] + [x] + l[i..])][x := UpValue(Open(t, slot))], t)
  {
    var l := heap[t].open;
    var h := heap[t := heap[t].(open := l[..i] + [x] + l[i..])][x := UpValue(Open(t, slot))];
    var m := h[t].open;
    forall k | 0 <= k < |m| ensures k != i ==> m[k] == l[if k < i then k else k - 1] && h[m[k]] == heap[m[k]] {}
  }

  lemma CapturedOpens(heap: map<Id, Object>, openUpvals: seq<Id>, t: Id, i: nat, x: Id, slot: nat)
    requires OpenLists(heap, openUpvals) && t in heap && heap[t].Thread? && x !in heap && Belongs(heap, t, i, slot)
    ensures var l := heap[t].open;
      OpenLists(heap[t := heap[t].(open := l[..i] + [x] + l[i..])][x := UpValue(Open(t, slot))], [x] + openUpvals)
  {
    var l := heap[t].open;
    var h := heap[t := heap[t].(open := l[..i] + [x] + l[i..])][x := UpValue(Open(t, slot))];
    assert OpenList(heap, t);
    CapturedList(heap, t, i, x, slot);
    InsertedElems(l, i, x);
    var r := [x] + openUpvals;
    assert forall k :: 0 < k < |r| ==> r[k] == openUpvals[k - 1];
    assert forall y :: y in r <==> y == x || y in openUpvals;
    hide Belongs;
    forall s | s in h && h[s].Thread? ensures OpenList(h, s) {
      if s != t {
        assert OpenList(heap, s);
        OpenListApart(heap, h, s, t);
      }
    }
    hide OpenList;
  }

  lemma InsertedElems(s: seq<Id>, p: nat, x: Id)
    requires p <= |s|
    ensures forall y :: y in s[..p] + [x] + s[p..] <==> y in s || y == x
  {
    assert s == s[..p] + s[p..];
  }

  /** The open list of another thread does not notice. */
  lemma OpenListApart(heap: map<Id, Object>, h: map<Id, Object>, s: Id, t: Id)
    requires s in heap && heap[s].Thread? && OpenList(heap, s) && s != t && s in h && h[s] == heap[s]
    requires t in heap && heap[t].Thread? && forall y :: y in heap && y != t ==> y in h && h[y] == heap[y]
    ensures OpenList(h, s)
  {
    OpenListElsewhere(heap, h, s);
  }

  lemma CapturedAdds(g: State, t: Id, i: nat, x: Id, slot: nat)
    requires t in g.heap && g.heap[t].Thread? && x !in g.heap && Belongs(g.heap, t, i, slot)
    requires OpenLists(g.heap, g.openUpvals)
    ensures Adds(g, Captured(g, t, i, x, slot), x)
    ensures Held(Captured(g, t, i, x, slot).heap, x) == {g.heap[t].stack[slot]}
  {
    OpenThreads(g.heap, g.openUpvals);
    hide OpenLists;
  }

  lemma CapturedChains(g: State, t: Id, i: nat, x: Id, slot: nat)
    requires Lists(g) && t in g.heap && g.heap[t].Thread? && x !in g.heap && i <= |g.heap[t].open|
    ensures var h := Captured(g, t, i, x, slot); Chains(h.heap, h.strings) && RootList(h.heap, h.root)
  {
    var l := g.heap[t].open;
    StoredThread(g.heap, g.strings, g.root, t, l[..i] + [x] + l[i..]);
    var k := g.heap[t := g.heap[t].(open := l[..i] + [x] + l[i..])];
    hide Lists;
    LinkedChains(k, g.strings, x, UpValue(Open(t, slot)));
    StringRoot(k, g.root, x, UpValue(Open(t, slot)));
  }

  lemma StoredThread(heap: map<Id, Object>, strings: seq<seq<Id>>, root: seq<Id>, t: Id, l: seq<Id>)
    requires Chains(heap, strings) && RootList(heap, root) && t in heap && heap[t].Thread?
    ensures Chains(heap[t := heap[t].(open := l)], strings) && RootList(heap[t := heap[t].(open := l)], root)
  {
    hide ChainOf;
  }

  lemma CapturedPassed(g: State, t: Id, i: nat, x: Id, slot: nat)
    requires Passed(g) && t in g.heap && g.heap[t].Thread? && x !in g.heap && i <= |g.heap[t].open|
    ensures Passed(Captured(g, t, i, x, slot))
  {
    var h := Captured(g, t, i, x, slot);
    InsertedElems(g.heap[t].open, i, x);
    assert Clean(h, x);
    assert forall y :: Clean(g, y) ==> Clean(h, y);
    hide Clean;
    forall k | 0 <= k < h.sweep ensures OpensClean(h, h.root[k]) { assert OpensClean(g, g.root[k]); }
  }

  lemma CapturedKeeps(g: State, t: Id, i: nat, x: Id, slot: nat)
    requires Inv(g) && t in g.heap && g.heap[t].Thread? && x !in g.heap && Belongs(g.heap, t, i, slot)
    requires Alive(g, g.heap[t].stack[slot])
    ensures Inv(Captured(g, t, i, x, slot))
  {
    hide Sound;
    hide Basic;
    hide Chains;
    hide RootList;
    hide OpenLists;
    hide InPhase;
    hide Adds;
    hide Passed;
    hide Held;
    InvParts(g);
    CapturedAdds(g, t, i, x, slot);
    CapturedOpens(g.heap, g.openUpvals, t, i, x, slot);
    CapturedChains(g, t, i, x, slot);
    if Passed(g) { CapturedPassed(g, t, i, x, slot); }
    AddsKeeps(g, Captured(g, t, i, x, slot), x);
  }

  // ------------------------------------------------------------------- bringing the dead back, roots

  lemma DeadOnlyInSweep(g: State, x: Id)
    requires Inv(g) && x in g.heap && x in g.mark && g.mark[x] == White(!g.white)
    ensures g.phase.SweepString? || g.phase.Sweep?
  {}

  /** `changewhite` on a dead object that turns out to be wanted again. */
  ghost function Revived(g: State, x: Id): State { g.(mark := g.mark[x := White(g.white)], held := g.held + {x}) }

  lemma RevivedSound(g: State, x: Id)
    requires Sound(g) && Basic(g) && x in g.heap && AllAlive(g, Held(g.heap, x))
    ensures Sound(Revived(g, x)) && Basic(Revived(g, x))
  {
    var h := Revived(g, x);
    assert Anchors(h) == Anchors(g) + {x};
    assert forall y :: IsDead(h, y) ==> IsDead(g, y) && y != x;
    RevivedBasic(g, x);
    hide Basic;
    hide Anchors;
    hide IsDead;
    hide Held;
    forall y | y in h.heap && !IsDead(h, y) ensures AllAlive(h, Held(h.heap, y)) {
      assert AllAlive(g, Held(g.heap, y)) by { RevivedOthers(g, x, y); }
      forall v | v in Held(h.heap, y) ensures Alive(h, v) { assert Alive(g, v); }
    }
  }

  lemma RevivedBasic(g: State, x: Id)
    requires Basic(g) && x in g.heap
    ensures Basic(Revived(g, x))
  {
    var h := Revived(g, x);
    hide IsOpen;
    assert h.mark.Keys == g.mark.Keys;
    forall u | u in h.heap && IsOpen(h.heap[u]) ensures u in h.mark && h.mark[u] != Black {
      assert u == x || h.mark[u] == g.mark[u];
    }
  }

  lemma RevivedOthers(g: State, x: Id, y: Id)
    requires Sound(g) && x in g.heap && AllAlive(g, Held(g.heap, x)) && y in g.heap && !IsDead(Revived(g, x), y)
    ensures AllAlive(g, Held(g.heap, y))
  {
    hide Held;
    if y != x { assert !IsDead(g, y); }
  }

  lemma RevivedPassed(g: State, x: Id)
    requires Passed(g)
    ensures Passed(Revived(g, x))
  {
    var h := Revived(g, x);
    assert forall y :: Clean(g, y) ==> Clean(h, y);
    hide Clean;
    forall k | 0 <= k < h.sweep ensures OpensClean(h, h.root[k]) { assert OpensClean(g, g.root[k]); }
  }

  lemma RevivedKeeps(g: State, x: Id)
    requires Inv(g) && (g.phase.SweepString? || g.phase.Sweep?) && x in g.heap && AllAlive(g, Held(g.heap, x))
    ensures Inv(Revived(g, x))
  {
    hide Sound;
    hide Basic;
    hide Chains;
    hide RootList;
    hide OpenLists;
    hide Passed;
    hide Held;
    InvParts(g);
    RevivedSound(g, x);
    RevivedPassed(g, x);
  }

  /** The roots, and what C code holds, may be exchanged for anything alive. */
  lemma RerootedKeeps(g: State, h: State)
    requires Inv(g) && h == g.(metas := h.metas, running := h.running, held := h.held)
    requires forall x :: x in Anchors(h) ==> x in g.heap && !IsDead(g, x)
    ensures Inv(h)
  {
    hide Sound;
    hide Chains;
    hide RootList;
    hide OpenLists;
    hide InPhase;
    InvParts(g);
    RerootedSound(g, h);
    RerootedPhase(g, h);
    assert Basic(h);
  }

  lemma RerootedSound(g: State, h: State)
    requires Sound(g) && h == g.(metas := h.metas, running := h.running, held := h.held)
    requires forall x :: x in Anchors(h) ==> x in g.heap && !IsDead(g, x)
    ensures Sound(h)
  {
    forall y | y in h.heap && !IsDead(h, y) ensures AllAlive(h, Held(h.heap, y)) {
      assert AllAlive(g, Held(g.heap, y));
      forall v | v in Held(h.heap, y) ensures Alive(h, v) { assert Alive(g, v); }
    }
  }

  lemma RerootedPhase(g: State, h: State)
    requires InPhase(g) && h == g.(metas := h.metas, running := h.running, held := h.held)
    ensures InPhase(h)
  {
    if g.phase.Propagate? {
      assert OpenSet(h) == OpenSet(g);
      assert Tricolor(h, Elems(h.grayAgain) + OpenSet(h)) by {
        forall y | y in h.heap && !IsWhite(h, y) && y !in h.gray && y !in Elems(h.grayAgain) + OpenSet(h)
          ensures AllMarked(h, Held(h.heap, y))
        {
          assert AllMarked(g, Held(g.heap, y));
          forall v | v in Held(h.heap, y) ensures Marked(h, v) { assert Marked(g, v); }
        }
      }
      hide Tricolor;
    } else if g.phase.SweepString? || g.phase.Sweep? {
      assert forall y :: Clean(h, y) == Clean(g, y);
      forall k | 0 <= k < h.sweep ensures OpensClean(h, h.root[k]) { assert OpensClean(g, g.root[k]); }
    }
  }

  // --------------------------------------------------------------------------------------- barriers

  /** `luaC_barrierback`: the table turns gray again, to be traversed once more before the sweep. */
  ghost function Back(g: State, o: Id): State { g.(mark := g.mark[o := Gray], grayAgain := [o] + g.grayAgain) }

  lemma BackLists(g: State, o: Id)
    requires GrayLists(g) && LeavesBlack(g) && NoneDead(g) && o in g.heap && g.heap[o].Table?
    requires o in g.mark && g.mark[o] == Black
    ensures var h := Back(g, o); GrayLists(h) && LeavesBlack(h) && NoneDead(h)
  {
    var h := Back(g, o);
    assert o !in g.gray && o !in g.grayAgain;
    assert forall i :: 0 < i < |h.grayAgain| ==> h.grayAgain[i] == g.grayAgain[i - 1];
    assert forall y :: y in h.grayAgain <==> y == o || y in g.grayAgain;
  }

  lemma BackTricolor(g: State, o: Id)
    requires Tricolor(g, Elems(g.grayAgain) + OpenSet(g) + {o}) && o in g.mark && g.mark[o] == Black
    ensures var h := Back(g, o); Tricolor(h, Elems(h.grayAgain) + OpenSet(h) + {})
  {
    var h := Back(g, o);
    assert OpenSet(h) == OpenSet(g);
    assert forall y :: y in h.grayAgain <==> y == o || y in g.grayAgain;
    assert forall v :: Marked(g, v) ==> Marked(h, v);
    hide Held;
  }

  lemma BackSpares(g: State, o: Id)
    requires Basic(g) && o in g.heap && o in g.mark && g.mark[o] == Black && g.heap[o].Table?
    ensures Basic(Back(g, o)) && Spares(g, Back(g, o))
    ensures forall y :: Clean(g, y) ==> Clean(Back(g, o), y)
  {}

  lemma BackKeeps(g: State, o: Id)
    requires Pending(g, o) && (g.phase.Propagate? || g.phase.SweepString? || g.phase.Sweep?)
    requires o in g.heap && g.heap[o].Table? && o in g.mark && g.mark[o] == Black
    ensures Inv(Back(g, o))
  {
    hide Sound;
    hide Basic;
    hide Chains;
    hide RootList;
    hide OpenLists;
    hide GrayLists;
    hide LeavesBlack;
    hide NoneDead;
    hide Tricolor;
    hide Spares;
    var h := Back(g, o);
    if g.phase.Propagate? {
      BackLists(g, o);
      BackTricolor(g, o);
      BackSpares(g, o);
      SparesSound(g, h);
      InvAlmost(h);
    } else {
      InvParts(g);
      BackSpares(g, o);
      hide Clean;
      BackPassed(g, o);
      hide Passed;
      Assemble(g, h);
    }
  }

  lemma BackPassed(g: State, o: Id)
    requires Passed(g) && forall y :: Clean(g, y) ==> Clean(Back(g, o), y)
    ensures Passed(Back(g, o))
  {
    hide Clean;
    var h := Back(g, o);
    forall k | 0 <= k < h.sweep ensures OpensClean(h, h.root[k]) { assert OpensClean(g, g.root[k]); }
  }

  /** Barriers are needed only while there is something black, that is, while marking or sweeping. */
  lemma BarrierPhase(g: State, o: Id)
    requires Pending(g, o) && o in g.heap && o in g.mark && g.mark[o] == Black
    ensures g.phase.Propagate? || ((g.phase.SweepString? || g.phase.Sweep?) && Inv(g))
  {
    hide Almost;
    hide Basic;
    hide Sound;
    hide Lists;
  }

  lemma BlackAlive(g: State, o: Id)
    requires o in g.mark && g.mark[o] == Black
    ensures !IsDead(g, o)
  {}

  lemma AlmostPaint(g: State, X: set<Id>)
    requires Almost(g, X)
    ensures Paint(g, g.heap.Keys)
  {
    hide Almost;
    hide Paint;
    AlmostBusy(g, X);
  }

  /** Marking the value written settles the object it was written into. */
  lemma BarrierSettles(g: State, h: State, o: Id, v: Id)
    requires Almost(g, {o}) && Marks(g, h) && Paint(h, g.heap.Keys) && !IsWhite(h, v) && o in g.heap
    requires forall w :: w in Held(g.heap, o) && w != Ref(v) ==> Marked(g, w)
    ensures Inv(h) && Spares(g, h)
  {
    AlmostMarks(g, h, {o});
    MarksStay(g, h);
    MarksDarkens(g, h);
    assert AllMarked(h, Held(h.heap, o)) by {
      hide Marks;
      hide Almost;
      forall w | w in Held(h.heap, o) ensures Marked(h, w) { if w != Ref(v) { assert Marked(g, w); } }
    }
    hide Marks;
    hide Paint;
    DarkensSpares(g, h);
    hide Spares;
    hide Almost;
    NoExcuse(h, o);
  }

  lemma DarkensSpares(g: State, h: State)
    requires Darkens(g, h) && g.mark.Keys == g.heap.Keys && NoneDead(g)
    ensures Spares(g, h)
  {
    DarkensMarked(g, h);
  }

  /** Where no barrier is called, none is needed. */
  lemma NoBarrier(g: State, o: Id, v: Value)
    requires Pending(g, o) && o in g.heap
    requires g.phase.Propagate? && o in g.mark && g.mark[o] == Black ==>
               forall w :: w in Held(g.heap, o) && w != v ==> Marked(g, w)
    requires o in g.mark && g.mark[o] == Black ==> Marked(g, v)
    ensures Inv(g)
  {
    if g.phase.Propagate? {
      AlmostGray(g, o);
      if o in g.mark && g.mark[o] == Black {
        hide Almost;
        forall w | w in Held(g.heap, o) ensures Marked(g, w) {}
        NoExcuse(g, o);
      } else if g.mark[o] != Gray || Traversed(g.heap[o]) {
        hide Almost;
        NoExcuse(g, o);
      } else {
        NotExcused(g, o);
      }
    }
  }

  lemma AlmostGray(g: State, o: Id)
    requires Almost(g, {o}) && o in g.heap
    ensures o in g.mark
    ensures g.mark[o] == Gray && Traversed(g.heap[o]) ==> o in g.gray || o in g.grayAgain
    ensures g.mark[o] == Gray && !Traversed(g.heap[o]) ==> g.heap[o].Str? || IsOpen(g.heap[o])
  {
    hide Sound;
    hide Lists;
    hide Tricolor;
  }

  lemma NotExcused(g: State, o: Id)
    requires Almost(g, {o}) && o in g.heap && (g.heap[o].Str? || IsOpen(g.heap[o]))
    ensures Inv(g)
  {
    assert Tricolor(g, Elems(g.grayAgain) + OpenSet(g) + {}) by {
      hide Sound;
      hide Lists;
      hide GrayLists;
      hide Basic;
      forall x | x in g.heap && !IsWhite(g, x) && x !in g.gray && x !in Elems(g.grayAgain) + OpenSet(g)
        ensures AllMarked(g, Held(g.heap, x))
      {
        if x == o { assert Held(g.heap, x) == {}; }
      }
    }
    hide Sound;
    hide Lists;
    hide GrayLists;
    hide Basic;
    hide Tricolor;
    hide LeavesBlack;
    hide NoneDead;
    InvAlmost(g);
  }

  // ------------------------------------------------------------------- closing several upvalues

  /** The first `n` open upvalues of `t` are gone if they were dead and own their values if not; nothing else changed.
      */
  ghost predicate Closes(g: State, h: State, t: Id, n: nat) {
    && t in g.heap && g.heap[t].Thread? && n <= |g.heap[t].open|
    && t in h.heap && h.heap[t] == g.heap[t].(open := g.heap[t].open[n..])
    && (forall y :: y in g.heap && y != t && y !in g.heap[t].open[..n] ==> y in h.heap && h.heap[y] == g.heap[y])
    && (forall y :: y in h.heap ==> y in g.heap)
    && (forall k :: 0 <= k < n && g.heap[t].open[k] in g.heap ==>
          var u := g.heap[t].open[k];
          if IsDead(g, u) then u !in h.heap
          else u in h.heap && h.heap[u] == View(g.heap, u))
  }

  /** The first `n` open upvalues of `t` are those at or above `level`. */
  ghost predicate Cut(heap: map<Id, Object>, t: Id, n: nat, level: nat) {
    && t in heap && heap[t].Thread?
    && (forall k :: 0 <= k < n && k < |heap[t].open| ==> Slot(heap, heap[t].open[k]) >= level)
    && (forall k :: n <= k < |heap[t].open| ==> Slot(heap, heap[t].open[k]) < level)
  }

  /** `linked` has been put in front of `rootgc`, every object of it coming from the list of open upvalues. */
  ghost predicate Shifts(g: State, h: State, linked: seq<Id>) {
    && h.root == linked + g.root && |h.openUpvals| + |linked| <= |g.openUpvals|
    && h.sweep == if g.sweep == 0 then 0 else g.sweep + |linked|
  }

  lemma ShiftsRefl(g: State)
    ensures Shifts(g, g, [])
  {}

  lemma ShiftsNext(g: State, h: State, k: State, l: seq<Id>, m: seq<Id>)
    requires Shifts(g, h, l) && Shifts(h, k, m)
    ensures Shifts(g, k, m + l)
  {}

  lemma ClosesRefl(g: State, t: Id)
    requires t in g.heap && g.heap[t].Thread?
    ensures Closes(g, g, t, 0)
  {}

  /** The open upvalues of a thread, one by one. */
  lemma OpenInfo(g: State, t: Id)
    requires Inv(g) && t in g.heap && g.heap[t].Thread?
    ensures OpenList(g.heap, t) && NoDup(g.heap[t].open) && t !in g.heap[t].open
  {
    hide Sound;
    hide Basic;
    hide Chains;
    hide RootList;
    hide InPhase;
    OpenListOf(g.heap, g.openUpvals, t);
    OpenListDistinct(g.heap, t);
    hide OpenLists;
  }

  lemma OpenSorted(heap: map<Id, Object>, t: Id, n: nat, level: nat)
    requires t in heap && heap[t].Thread? && OpenList(heap, t) && n <= |heap[t].open|
    requires n < |heap[t].open| ==> Slot(heap, heap[t].open[n]) < level
    ensures forall k :: n <= k < |heap[t].open| ==> Slot(heap, heap[t].open[k]) < level
  {}

  /** What one round does to the heap. */
  ghost predicate Round(h: State, k: State, t: Id) {
    && HasOpen(h.heap, t) && h.heap[t].open[0] != t
    && if IsDead(h, h.heap[t].open[0]) then k.heap == Unlinked(h.heap, t, 0) - {h.heap[t].open[0]}
       else k.heap == ClosedHeap(h.heap, t)
  }

  lemma RoundHeap(h: State, k: State, t: Id)
    requires Round(h, k, t)
    ensures var x := h.heap[t].open[0];
      && t in k.heap && k.heap[t] == h.heap[t].(open := h.heap[t].open[1..])
      && (forall y :: y in k.heap ==> y in h.heap)
      && (forall y :: y in h.heap && y != t && y != x ==> y in k.heap && k.heap[y] == h.heap[y])
      && (IsDead(h, x) ==> x !in k.heap)
      && (!IsDead(h, x) ==> x in k.heap && k.heap[x] == UpValue(Closed(Current(h.heap, h.heap[x].at))))
  {
    assert RemoveAt(h.heap[t].open, 0) == h.heap[t].open[1..];
    hide RemoveAt;
  }

  lemma ClosesNext(g: State, h: State, k: State, t: Id, n: nat)
    requires Closes(g, h, t, n) && n < |g.heap[t].open| && OpenList(g.heap, t)
    requires NoDup(g.heap[t].open) && t !in g.heap[t].open && Round(h, k, t)
    requires IsDead(h, g.heap[t].open[n]) <==> IsDead(g, g.heap[t].open[n])
    ensures Closes(g, k, t, n + 1)
  {
    var l := g.heap[t].open;
    var x := l[n];
    RoundHeap(h, k, t);
    hide Round;
    hide IsDead;
    hide ClosedHeap;
    hide Unlinked;
    NextInList(l, n);
    assert x in g.heap && IsOpen(g.heap[x]) && x != t && h.heap[x] == g.heap[x];
    SameCurrent(g, h, t, n, x);
    hide Current;
    hide OpenList;
    forall i | 0 <= i < n + 1 && l[i] in g.heap
      ensures if IsDead(g, l[i]) then l[i] !in k.heap else l[i] in k.heap && k.heap[l[i]] == View(g.heap, l[i])
    {
      if i < n { ClosedBefore(g, h, k, t, n, i); }
    }
    hide View;
    hide NoDup;
  }

  lemma NextInList(l: seq<Id>, n: nat)
    requires NoDup(l) && n < |l|
    ensures l[..n + 1] == l[..n] + [l[n]] && l[n] !in l[..n] && l[n] in l
    ensures l[n..][1..] == l[n + 1..] && l[n..][0] == l[n]
  {
  }

  /** The value of the next upvalue to be closed is what it was at first. */
  lemma SameCurrent(g: State, h: State, t: Id, n: nat, x: Id)
    requires Closes(g, h, t, n) && OpenList(g.heap, t) && n < |g.heap[t].open| && x == g.heap[t].open[n]
    requires x in g.heap && IsOpen(g.heap[x]) && x in h.heap && h.heap[x] == g.heap[x]
    ensures Current(h.heap, h.heap[x].at) == Current(g.heap, g.heap[x].at)
  {
    assert g.heap[x].at.thread == t;
  }

  lemma ClosedBefore(g: State, h: State, k: State, t: Id, n: nat, i: nat)
    requires Closes(g, h, t, n) && i < n < |g.heap[t].open| && g.heap[t].open[i] in g.heap
    requires NoDup(g.heap[t].open) && t !in g.heap[t].open
    requires (forall y :: y in k.heap ==> y in h.heap)
    requires forall y :: y in h.heap && y != t && y != g.heap[t].open[n] ==> y in k.heap && k.heap[y] == h.heap[y]
    ensures var u := g.heap[t].open[i];
      if IsDead(g, u) then u !in k.heap else u in k.heap && k.heap[u] == View(g.heap, u)
  {
    hide View;
    hide IsDead;
    assert g.heap[t].open[i] in g.heap[t].open && g.heap[t].open[i] != g.heap[t].open[n];
  }

  lemma ClosesRound(g: State, h: State, k: State, t: Id, n: nat)
    requires Inv(g) && Closes(g, h, t, n) && Spares(g, h) && n < |g.heap[t].open| && Spares(h, k) && Round(h, k, t)
    ensures Closes(g, k, t, n + 1) && Spares(g, k) && Slot(h.heap, h.heap[t].open[0]) == Slot(g.heap, g.heap[t].open[n])
  {
    hide Inv;
    hide Round;
    OpenInfo(g, t);
    ClosesHead(g, h, t, n);
    assert IsDead(h, g.heap[t].open[n]) <==> IsDead(g, g.heap[t].open[n]);
    SparesTrans(g, h, k);
    hide Closes;
    hide Spares;
    ClosesNext(g, h, k, t, n);
  }

  lemma ClosesHead(g: State, h: State, t: Id, n: nat)
    requires Closes(g, h, t, n) && n < |g.heap[t].open| && OpenList(g.heap, t)
    requires NoDup(g.heap[t].open) && t !in g.heap[t].open
    ensures var x := g.heap[t].open[n];
      h.heap[t].open[0] == x && x in g.heap && x in h.heap && h.heap[x] == g.heap[x]
  {
    var l, x := g.heap[t].open, g.heap[t].open[n];
    assert x !in l[..n];
  }

  lemma ClosesSorted(g: State, h: State, t: Id, n: nat, level: nat)
    requires Inv(g) && Closes(g, h, t, n)
    requires n < |g.heap[t].open| ==> h.heap[t].open[0] in h.heap && h.heap[h.heap[t].open[0]].UpValue?
    requires n < |g.heap[t].open| ==> Slot(h.heap, h.heap[t].open[0]) < level
    requires forall k :: 0 <= k < n ==> Slot(g.heap, g.heap[t].open[k]) >= level
    ensures Cut(g.heap, t, n, level)
  {
    hide Inv;
    OpenInfo(g, t);
    if n < |g.heap[t].open| { ClosesHead(g, h, t, n); }
    OpenSorted(g.heap, t, n, level);
  }

  lemma ClosesAll(g: State, h: State, t: Id, n: nat)
    requires Closes(g, h, t, n) && Cut(g.heap, t, n, 0)
    ensures t in h.heap && h.heap[t].Thread? && h.heap[t].open == []
  {
    var l := g.heap[t].open;
    assert n < |l| ==> Slot(g.heap, l[n]) < 0;
  }

  // ------------------------------------------------------------------------- what the steps rely on

  lemma PauseReady(g: State)
    requires Inv(g) && (g.phase.Pause? || g.phase.Finalize?)
    ensures Basic(g) && AllWhite(g)
  {
    hide Sound;
    hide Lists;
    hide Basic;
  }

  lemma InvSound(g: State)
    requires Inv(g)
    ensures Sound(g)
  {}

  /** Without anything dead, before or after, colours change nothing the program can see. */
  lemma NoneDeadSpares(g: State, h: State)
    requires NoneDead(g) && NoneDead(h)
    requires h == g.(mark := h.mark, gray := h.gray, grayAgain := h.grayAgain, phase := h.phase)
    ensures Spares(g, h)
  {}

  lemma WhiteNoneDead(g: State)
    requires AllWhite(g) && g.mark.Keys == g.heap.Keys
    ensures NoneDead(g)
  {}

  /** `markroot` keeps the invariant. */
  lemma CycleStarted(g: State, h: State)
    requires Inv(g) && AllWhite(g) && Marking(h) && Basic(h) && h.phase.Propagate?
    requires h == g.(mark := h.mark, gray := h.gray, grayAgain := h.grayAgain, phase := h.phase)
    ensures Inv(h) && Spares(g, h)
  {
    hide Inv;
    hide AllWhite;
    hide Basic;
    hide Sound;
    hide Chains;
    hide RootList;
    hide OpenLists;
    InvParts(g);
    BasicKeys(g);
    WhiteNoneDead(g);
    NoneDeadSpares(g, h);
    hide Marking;
    hide Spares;
    Assemble(g, h);
  }

  lemma CycleBusy(g: State, S: set<Id>)
    requires Inv(g) && g.phase.Propagate? && Within(g, S)
    ensures Busy(g, S, Elems(g.grayAgain) + OpenSet(g))
  {
    hide Sound;
    hide Lists;
    hide Within;
    hide NoneDead;
    hide GrayLists;
    hide LeavesBlack;
    hide Tricolor;
    BasicKeys(g);
  }

  /** `propagatemark` keeps the invariant. */
  lemma CycleOn(g: State, h: State, S: set<Id>, X: set<Id>)
    requires Inv(g) && g.phase.Propagate? && Busy(h, S, X) && Darkens(g, h)
    requires X == Elems(g.grayAgain) + OpenSet(g) && forall x :: x in g.grayAgain ==> x in h.grayAgain
    ensures Inv(h) && Spares(g, h) && Within(h, S)
  {
    hide Inv;
    hide Sound;
    hide Chains;
    hide RootList;
    hide OpenLists;
    InvParts(g);
    CycleRoots(g, h);
    assert OpenSet(h) == OpenSet(g);
    assert X <= Elems(h.grayAgain) + OpenSet(h);
    hide GrayLists;
    hide LeavesBlack;
    hide NoneDead;
    hide Within;
    TricolorWeaken(h, X, Elems(h.grayAgain) + OpenSet(h));
    hide Tricolor;
    hide Basic;
    NoneDeadSpares(g, h);
    hide Darkens;
    hide Spares;
    Assemble(g, h);
  }

  lemma CycleRoots(g: State, h: State)
    requires InPhase(g) && g.phase.Propagate? && Darkens(g, h)
    ensures NoneDead(g) && !IsWhite(h, h.main) && Marked(h, h.registry)
  {
    DarkensWhite(g, h);
    hide GrayLists;
    hide LeavesBlack;
    hide NoneDead;
    hide Tricolor;
    hide Darkens;
  }

  lemma CycleEnds(g: State)
    requires Inv(g) && g.phase.Finalize?
    ensures Inv(g.(phase := Pause)) && Spares(g, g.(phase := Pause))
  {
    hide Inv;
    hide Sound;
    hide Basic;
    hide Lists;
    hide AllWhite;
    hide Spares;
    var h := g.(phase := Pause);
    InvParts(g);
    OnlyMoved(g, h);
    WhiteMoved(g, h);
    Assemble(g, h);
  }

  /** What C code held is forgotten. */
  lemma Unheld(g: State)
    requires Inv(g)
    ensures Inv(g.(held := {}))
  {
    hide Inv;
    UnheldAlive(g);
    RerootedKeeps(g, g.(held := {}));
  }

  lemma UnheldAlive(g: State)
    requires Inv(g)
    ensures forall x :: x in Anchors(g.(held := {})) ==> x in g.heap && !IsDead(g, x)
  {
    InvSound(g);
    hide Inv;
    assert Anchors(g.(held := {})) <= Anchors(g);
  }

  lemma UnheldWithin(g: State, S: set<Id>)
    ensures Within(g, S) ==> Within(g.(held := {}), S)
    ensures Whites(g.(held := {})) == Whites(g)
  {}

  // ------------------------------------------------------------------------------ rehashing strings

  /** Chains that hold exactly the strings of `done`. */
  ghost predicate Rehashed(heap: map<Id, Object>, chains: seq<seq<Id>>, done: set<Id>) {
    && |chains| > 0
    && (forall h :: 0 <= h < |chains| ==> NoDup(chains[h]))
    && (forall x :: x in done ==> x in heap && heap[x].Str?)
    && (forall h, x :: 0 <= h < |chains| && x in chains[h] ==> x in done && ChainOf(heap[x].text, |chains|) == h)
    && (forall x :: x in done ==> x in chains[ChainOf(heap[x].text, |chains|)])
  }

  lemma RehashedNext(heap: map<Id, Object>, chains: seq<seq<Id>>, done: set<Id>, x: Id)
    requires Rehashed(heap, chains, done) && x in heap && heap[x].Str? && x !in done
    ensures var c := ChainOf(heap[x].text, |chains|); Rehashed(heap, chains[c := [x] + chains[c]], done + {x})
  {
    var c := ChainOf(heap[x].text, |chains|);
    var r := [x] + chains[c];
    assert x !in chains[c];
    assert forall i :: 0 < i < |r| ==> r[i] == chains[c][i - 1];
    assert forall y :: y in r <==> y == x || y in chains[c];
    hide ChainOf;
  }

  lemma RehashedAll(heap: map<Id, Object>, strings: seq<seq<Id>>, chains: seq<seq<Id>>, done: set<Id>)
    requires Chains(heap, strings) && Rehashed(heap, chains, done)
    requires forall x :: x in heap && heap[x].Str? ==> x in done
    ensures Chains(heap, chains)
  {
    hide ChainOf;
  }

  lemma ResizedKeeps(g: State, chains: seq<seq<Id>>)
    requires Inv(g) && !g.phase.SweepString? && Chains(g.heap, chains)
    ensures Inv(g.(strings := chains))
  {
    hide Sound;
    hide Chains;
    hide RootList;
    hide OpenLists;
    hide InPhase;
    InvParts(g);
    var h := g.(strings := chains);
    SparesRefl(g);
    assert Spares(g, h);
    hide Spares;
    assert Basic(h);
    hide Basic;
    ResizedPhase(g, chains);
    Assemble(g, h);
  }

  lemma ResizedPassed(g: State, chains: seq<seq<Id>>)
    requires Passed(g) && g.phase.Sweep? && Chains(g.heap, g.strings) && Chains(g.heap, chains)
    ensures Passed(g.(strings := chains))
  {
    var h := g.(strings := chains);
    forall k, x | 0 <= k < |chains| && x in chains[k] ensures Clean(h, x) {
      assert x in g.strings[ChainOf(g.heap[x].text, |g.strings|)];
      assert Clean(g, x);
    }
    hide Chains;
    forall k | 0 <= k < h.sweep ensures OpensClean(h, h.root[k]) { assert OpensClean(g, g.root[k]); }
  }

  lemma ResizedMarking(g: State, chains: seq<seq<Id>>)
    requires Marking(g)
    ensures Marking(g.(strings := chains))
  {
    var h := g.(strings := chains);
    assert OpenSet(h) == OpenSet(g);
    hide Held;
    assert Tricolor(h, Elems(h.grayAgain) + OpenSet(h)) by {
      hide GrayLists;
      hide LeavesBlack;
      forall y | y in h.heap && !IsWhite(h, y) && y !in h.gray && y !in Elems(h.grayAgain) + OpenSet(h)
        ensures AllMarked(h, Held(h.heap, y))
      {
        assert AllMarked(g, Held(g.heap, y));
        forall v | v in Held(h.heap, y) ensures Marked(h, v) { assert Marked(g, v); }
      }
    }
    hide Tricolor;
  }

  lemma ResizedPhase(g: State, chains: seq<seq<Id>>)
    requires InPhase(g) && !g.phase.SweepString? && Lists(g) && Chains(g.heap, chains)
    ensures InPhase(g.(strings := chains))
  {
    hide Marking;
    hide Passed;
    hide Chains;
    if g.phase.Sweep? { ResizedPassed(g, chains); } else if g.phase.Propagate? { ResizedMarking(g, chains); }
  }
}
