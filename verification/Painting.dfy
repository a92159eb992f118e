/**
  The mark phase as transitions between states: what painting objects, popping gray ones and
  exchanging the whites keeps.
 */
module Painting {
  import opened ObjectGraph

  // ------------------------------------------------------------------------------------- marking

  ghost function Whites(g: State): set<Id> { set x | x in g.mark && g.mark[x].White? }

  /** Only colours and gray lists differ, and marks are only added. */
  ghost predicate Darkens(g: State, h: State) {
    && h == g.(mark := h.mark, gray := h.gray, grayAgain := h.grayAgain)
    && h.mark.Keys == g.mark.Keys
    && (forall x :: x in g.mark && !g.mark[x].White? ==> !h.mark[x].White?)
    && (forall x :: x in g.mark && h.mark[x].White? ==> h.mark[x] == g.mark[x])
  }

  /** A marked object that needs no traversal: all it refers to is marked, and it is black if a barrier needs that. */
  ghost predicate Settled(g: State, x: Id) {
    && x in g.heap && x in g.mark && AllMarked(g, Held(g.heap, x))
    && (g.heap[x].UserData? || (g.heap[x].UpValue? && g.heap[x].at.Closed?) ==> g.mark[x] == Black)
  }

  /** From `g` to `h` some objects were marked, each of them settled or put in the gray list. */
  ghost predicate Marks(g: State, h: State) {
    && h == g.(mark := h.mark, gray := h.gray)
    && h.mark.Keys == g.mark.Keys
    && (forall x :: x in g.mark && !g.mark[x].White? ==> h.mark[x] == g.mark[x])
    && (forall x :: x in g.mark && h.mark[x].White? ==> h.mark[x] == g.mark[x])
    && (forall x :: x in g.mark && g.mark[x].White? && !h.mark[x].White? ==> x in h.gray || Settled(h, x))
    && (forall x :: x in g.gray ==> x in h.gray)
    && |Whites(h)| + |h.gray| <= |Whites(g)| + |g.gray|
  }

  /** `S` is closed under reference and holds all that is marked. */
  ghost predicate Within(g: State, S: set<Id>) {
    && S <= g.heap.Keys
    && (forall x, v :: x in S && v in Held(g.heap, x) ==> InSet(v, S))
    && (forall x :: x in g.mark && !g.mark[x].White? ==> x in S)
  }

  predicate InSet(v: Value, S: set<Id>) { v.Ref? ==> v.id in S }

  /** What marking relies on and keeps. */
  ghost predicate Paint(g: State, S: set<Id>) { g.mark.Keys == g.heap.Keys && GrayLists(g) && Within(g, S) }

  lemma MarksRefl(g: State)
    ensures Marks(g, g)
  {}

  lemma SettledStays(g: State, h: State, x: Id)
    requires Darkens(g, h) && Settled(g, x) && h.mark[x] == g.mark[x]
    ensures Settled(h, x)
  {
    forall v | v in Held(g.heap, x) ensures Marked(h, v) { assert Marked(g, v); }
  }

  lemma MarksDarkens(g: State, h: State)
    requires Marks(g, h)
    ensures Darkens(g, h)
  {}

  lemma MarksTrans(g: State, h: State, k: State)
    requires Marks(g, h) && Marks(h, k)
    ensures Marks(g, k)
  {
    forall x | x in g.mark && g.mark[x].White? && !k.mark[x].White? ensures x in k.gray || Settled(k, x) {
      if !h.mark[x].White? && x !in h.gray { SettledStays(h, k, x); }
    }
  }

  lemma WhitesLess(g: State, h: State, o: Id)
    requires o in g.mark && g.mark[o].White? && h.mark.Keys == g.mark.Keys && !h.mark[o].White?
    requires forall x :: x in g.mark && x != o ==> h.mark[x] == g.mark[x]
    ensures |Whites(h)| == |Whites(g)| - 1
  {
    assert Whites(h) == Whites(g) - {o};
  }

  /** Colouring `o`, marking on from there, and leaving `o` settled, is marking. */
  lemma MarksVia(g: State, g1: State, k: State, h: State, o: Id)
    requires o in g.mark && g.mark[o].White?
    requires g1 == g.(mark := g1.mark) && g1.mark.Keys == g.mark.Keys && !g1.mark[o].White?
    requires forall x :: x in g.mark && x != o ==> g1.mark[x] == g.mark[x]
    requires Marks(g1, k)
    requires h == k.(mark := h.mark) && h.mark.Keys == k.mark.Keys && Settled(h, o) && !h.mark[o].White?
    requires forall x :: x in g.mark && x != o ==> h.mark[x] == k.mark[x]
    ensures Marks(g, h)
  {
    hide Settled;
    WhitesLess(g, g1, o);
    assert Whites(h) == Whites(k);
    forall x | x in g.mark && g.mark[x].White? && !h.mark[x].White? ensures x in h.gray || Settled(h, x) {
      if x != o && x !in h.gray {
        assert Settled(k, x);
        SettledStays(k, h, x);
      }
    }
  }

  /** Colouring an object that no list has to know about. */
  lemma PaintColored(g: State, o: Id, c: Color, S: set<Id>)
    requires Paint(g, S) && o in S && o in g.mark && !g.mark[o].Black? && g.mark[o] != c
    requires c.Gray? || c.Black?
    requires !Traversed(g.heap[o]) && (c.Black? ==> !IsOpen(g.heap[o]))
    ensures Paint(g.(mark := g.mark[o := c]), S)
  {}

  ghost function Pushed(g: State, o: Id): State { g.(mark := g.mark[o := Gray], gray := [o] + g.gray) }

  lemma PushedLists(g: State, o: Id)
    requires GrayLists(g) && o in g.heap && IsWhite(g, o) && Traversed(g.heap[o])
    ensures GrayLists(Pushed(g, o))
  {
    var h := Pushed(g, o);
    assert forall i :: 0 < i < |h.gray| ==> h.gray[i] == g.gray[i - 1];
    assert forall x :: x in h.gray <==> x == o || x in g.gray;
  }

  /** Putting a white object in the gray list. */
  lemma PaintPushed(g: State, o: Id, S: set<Id>)
    requires Paint(g, S) && o in S && IsWhite(g, o) && Traversed(g.heap[o])
    ensures Paint(Pushed(g, o), S) && Marks(g, Pushed(g, o))
  {
    PushedLists(g, o);
    hide GrayLists;
    hide Held;
    WhitesLess(g, Pushed(g, o), o);
    assert forall x :: x in Pushed(g, o).gray <==> x == o || x in g.gray;
  }

  lemma SettledBy(g: State, o: Id)
    requires o in g.heap && o in g.mark && AllMarked(g, Held(g.heap, o))
    requires g.heap[o].UserData? || (g.heap[o].UpValue? && g.heap[o].at.Closed?) ==> g.mark[o] == Black
    ensures Settled(g, o)
  {}

  lemma MarksKeepsColor(g: State, h: State, o: Id)
    requires Marks(g, h) && o in g.mark && !g.mark[o].White?
    ensures o in h.mark && h.mark[o] == g.mark[o] && h == g.(mark := h.mark, gray := h.gray)
  {}

  lemma MarksShrink(g: State, h: State)
    requires Marks(g, h)
    ensures |Whites(h)| <= |Whites(g)|
  {
    assert Whites(h) <= Whites(g);
    SubsetSize(Whites(h), Whites(g));
  }

  lemma {:induction false} SubsetSize(s: set<Id>, t: set<Id>)
    requires s <= t
    ensures |s| <= |t|
  {
    if s != {} {
      var x :| x in s;
      SubsetSize(s - {x}, t - {x});
    }
  }

  lemma UserDataWithin(g: State, S: set<Id>, o: Id)
    requires Within(g, S) && o in S && g.heap[o].UserData?
    ensures InSet(g.heap[o].meta, S) && InSet(g.heap[o].env, S)
  {
    HeldWithin(g, S, o, g.heap[o].meta);
    HeldWithin(g, S, o, g.heap[o].env);
  }

  lemma UserDataMarked(g: State, g1: State, g2: State, g3: State, o: Id)
    requires o in g.heap && IsWhite(g, o) && g.heap[o].UserData? && g.mark.Keys == g.heap.Keys
    requires g1 == g.(mark := g.mark[o := Black])
    requires Marks(g1, g2) && Marks(g2, g3) && Marked(g2, g.heap[o].meta) && Marked(g3, g.heap[o].env)
    ensures Marks(g, g3) && !IsWhite(g3, o)
  {
    MarksDarkens(g2, g3);
    MarksTrans(g1, g2, g3);
    MarksKeepsColor(g1, g3, o);
    SettledBy(g3, o);
    MarksVia(g, g1, g3, g3, o);
  }

  lemma HeldWithin(g: State, S: set<Id>, o: Id, v: Value)
    requires Within(g, S) && o in S && v in Held(g.heap, o)
    ensures InSet(v, S)
  {}

  lemma MarksAll(g: State, h: State, vs: set<Value>)
    requires Marks(g, h) && AllMarked(g, vs)
    ensures AllMarked(h, vs)
  {
    forall v | v in vs ensures Marked(h, v) { assert Marked(g, v); }
  }

  /** Marking keeps the tri-colour invariant: whatever it adds is listed or settled. */
  lemma MarksTricolor(g: State, h: State, X: set<Id>)
    requires Marks(g, h) && Tricolor(g, X) && g.mark.Keys == g.heap.Keys
    ensures Tricolor(h, X)
  {
    forall x | x in h.heap && !IsWhite(h, x) && x !in h.gray && x !in X ensures AllMarked(h, Held(h.heap, x)) {
      if !IsWhite(g, x) { MarksAll(g, h, Held(g.heap, x)); } else { assert Settled(h, x); }
    }
  }

  lemma MarksLeaves(g: State, h: State)
    requires Marks(g, h) && LeavesBlack(g) && GrayLists(h)
    ensures LeavesBlack(h)
  {
    forall x | x in h.heap && x in h.mark && h.mark[x] == Gray
      ensures !h.heap[x].UserData? && (h.heap[x].UpValue? ==> h.heap[x].at.Open?)
    {
      if !g.mark[x].White? { assert g.mark[x] == Gray; } else if x !in h.gray { assert Settled(h, x); }
    }
  }

  /** The first gray object taken from its list and blackened; threads go to the second list instead. */
  ghost function Popped(g: State): State
    requires |g.gray| > 0 && g.gray[0] in g.heap
  {
    var o := g.gray[0];
    if g.heap[o].Thread? then g.(gray := g.gray[1..], grayAgain := [o] + g.grayAgain)
    else g.(gray := g.gray[1..], mark := g.mark[o := Black])
  }

  lemma HeadTail(s: seq<Id>)
    requires |s| > 0
    ensures forall x :: x in s <==> x == s[0] || x in s[1..]
  {
    assert s == [s[0]] + s[1..];
  }

  lemma PoppedLists(g: State)
    requires GrayLists(g) && |g.gray| > 0
    ensures GrayLists(Popped(g))
  {
    var h, o := Popped(g), g.gray[0];
    assert o in g.gray;
    assert forall i :: 0 <= i < |h.gray| ==> h.gray[i] == g.gray[i + 1];
    HeadTail(g.gray);
    assert forall x :: x in h.grayAgain <==> x in g.grayAgain || (x == o && g.heap[o].Thread?);
    if g.heap[o].Thread? { assert forall i :: 0 < i < |h.grayAgain| ==> h.grayAgain[i] == g.grayAgain[i - 1]; }
  }

  lemma PoppedTricolor(g: State, X: set<Id>)
    requires g.mark.Keys == g.heap.Keys && |g.gray| > 0 && g.gray[0] in g.heap && g.mark[g.gray[0]] == Gray
    requires Tricolor(g, X)
    ensures Tricolor(Popped(g), X + {g.gray[0]})
    ensures Darkens(g, Popped(g)) && Whites(Popped(g)) == Whites(g)
  {
    var h, o := Popped(g), g.gray[0];
    HeadTail(g.gray);
    forall x | x in h.heap && !IsWhite(h, x) && x !in h.gray && x !in X + {o} ensures AllMarked(h, Held(h.heap, x)) {
      assert AllMarked(g, Held(g.heap, x));
      forall v | v in Held(g.heap, x) ensures Marked(h, v) { assert Marked(g, v); }
    }
  }

  lemma PoppedKeeps(g: State, S: set<Id>, X: set<Id>)
    requires Busy(g, S, X) && |g.gray| > 0
    ensures g.gray[0] in g.heap && g.gray[0] in S && Traversed(g.heap[g.gray[0]])
    ensures Busy(Popped(g), S, X + {g.gray[0]})
    ensures Darkens(g, Popped(g)) && Whites(Popped(g)) == Whites(g)
  {
    var h, o := Popped(g), g.gray[0];
    assert o in g.gray;
    PoppedLists(g);
    PoppedTricolor(g, X);
    hide Tricolor;
    hide GrayLists;
    hide Held;
    hide Whites;
    hide Darkens;
    hide NoDup;
    hide Traversed;
  }

  /** Once a popped object has been traversed, it needs no excuse. */
  lemma TraversedKeeps(g: State, h: State, o: Id, S: set<Id>, X: set<Id>)
    requires Busy(g, S, X + {o}) && Marks(g, h) && Paint(h, S)
    requires o in g.heap && AllMarked(h, Held(g.heap, o))
    ensures Busy(h, S, X) && Darkens(g, h)
  {
    BusyMarks(g, h, S, X + {o});
  }

  lemma DarkensTrans(g: State, h: State, k: State)
    requires Darkens(g, h) && Darkens(h, k)
    ensures Darkens(g, k)
  {}

  /** What every action of the mark phase keeps, with `X` excused from the tri-colour invariant. */
  ghost predicate Busy(g: State, S: set<Id>, X: set<Id>) {
    Paint(g, S) && LeavesBlack(g) && Tricolor(g, X) && NoneDead(g) && Basic(g)
  }

  lemma BusyMarks(g: State, h: State, S: set<Id>, X: set<Id>)
    requires Busy(g, S, X) && Marks(g, h) && Paint(h, S)
    ensures Busy(h, S, X) && Darkens(g, h)
    ensures h == g.(mark := h.mark, gray := h.gray)
  {
    MarksTricolor(g, h, X);
    MarksLeaves(g, h);
    MarksDarkens(g, h);
    DarkensMarked(g, h);
  }

  lemma BusyMarking(g: State, S: set<Id>, X: set<Id>)
    requires Busy(g, S, X) && X <= Elems(g.grayAgain) + OpenSet(g) && !IsWhite(g, g.main) && Marked(g, g.registry)
    ensures var h := g.(phase := Propagate); Marking(h) && Basic(h) && Within(h, S)
  {
    var h := g.(phase := Propagate);
    TricolorWeaken(g, X, Elems(g.grayAgain) + OpenSet(g));
    hide Held;
    assert GrayLists(h);
    hide GrayLists;
    hide OpenNotBlack;
    assert OpenSet(h) == OpenSet(g);
    assert Tricolor(h, Elems(g.grayAgain) + OpenSet(g));
  }

  lemma MarksStay(g: State, h: State)
    requires Marks(g, h)
    ensures forall v :: Marked(g, v) ==> Marked(h, v)
  {}

  lemma OpenWithin(g: State, S: set<Id>, u: Id)
    requires Within(g, S) && u in g.heap && IsOpen(g.heap[u]) && u in g.mark && g.mark[u] == Gray
    ensures InSet(Current(g.heap, g.heap[u].at), S)
  {
    HeldWithin(g, S, u, Current(g.heap, g.heap[u].at));
  }

  lemma TraversedWithin(g: State, S: set<Id>, o: Id)
    requires Within(g, S) && o in S && Traversed(g.heap[o])
    ensures forall v :: v in Fields(View(g.heap, o)) ==> InSet(v, S)
    ensures !g.heap[o].Thread? ==> View(g.heap, o) == g.heap[o]
  {
    forall v | v in Fields(View(g.heap, o)) ensures InSet(v, S) { HeldWithin(g, S, o, v); }
  }

  lemma TraversedDone(g: State, h: State, o: Id)
    requires Marks(g, h) && o in g.heap && Traversed(g.heap[o])
    requires g.heap[o].Thread? ==> AllMarked(h, Fields(Thread(g.heap[o].globals, g.heap[o].stack, [])))
    requires !g.heap[o].Thread? ==> AllMarked(h, Fields(g.heap[o]))
    ensures AllMarked(h, Held(g.heap, o)) && |Whites(h)| + |h.gray| <= |Whites(g)| + |g.gray|
  {}

  lemma TricolorWeaken(g: State, X: set<Id>, Y: set<Id>)
    requires Tricolor(g, X) && X <= Y
    ensures Tricolor(g, Y)
  {}

  lemma DarkensMarked(g: State, h: State)
    requires Darkens(g, h) && g.mark.Keys == g.heap.Keys
    ensures forall v :: Marked(g, v) ==> Marked(h, v)
    ensures forall x :: x in g.mark && !IsWhite(g, x) ==> !IsWhite(h, x)
    ensures NoneDead(g) ==> NoneDead(h)
  {}

  lemma GlobalsWithin(g: State, S: set<Id>)
    requires Basic(g) && Within(g, S) && RootsWithin(g, S)
    ensures g.main in g.heap && g.heap[g.main].Thread? && InSet(g.heap[g.main].globals, S)
  {
    HeldWithin(g, S, g.main, g.heap[g.main].globals);
  }

  lemma DarkensWhite(g: State, h: State)
    requires Darkens(g, h)
    ensures h == g.(mark := h.mark, gray := h.gray, grayAgain := h.grayAgain)
    ensures forall x :: !IsWhite(g, x) ==> !IsWhite(h, x)
    ensures forall v :: Marked(g, v) ==> Marked(h, v)
  {}

  /** With everything white nothing is in the way of a new cycle. */
  lemma MarkingStarts(g: State, S: set<Id>)
    requires Basic(g) && AllWhite(g) && Within(g, S)
    ensures var h := g.(gray := [], grayAgain := []);
      Busy(h, S, {})
  {}

  /** An open upvalue whose value has been marked again needs no excuse any more. */
  lemma Remarked(g: State, h: State, S: set<Id>, u: Id, X: set<Id>)
    requires Busy(g, S, X + {u}) && Marks(g, h) && Paint(h, S)
    requires u in g.heap && IsOpen(g.heap[u])
    requires g.mark[u] == Gray ==> Marked(h, Current(g.heap, g.heap[u].at))
    requires g.mark[u] != Gray ==> h == g
    ensures Busy(h, S, X) && Darkens(g, h)
  {
    BusyMarks(g, h, S, X + {u});
    assert Held(g.heap, u) == {Current(g.heap, g.heap[u].at)};
    if g.mark[u] != Gray { assert IsWhite(h, u); }
  }

  predicate RootsMarked(g: State) {
    && !IsWhite(g, g.main) && !IsWhite(g, g.running) && Marked(g, g.registry) && AllMarked(g, Values(g.metas))
  }

  ghost function Flipped(g: State): State {
    g.(white := !g.white, phase := SweepString, sweepString := 0, sweep := 0)
  }

  ghost predicate RootsWithin(g: State, S: set<Id>) {
    g.main in S && g.running in S && InSet(g.registry, S) && forall v :: v in g.metas ==> InSet(v, S)
  }

  /** The mark phase is over: nothing is gray any more except what is settled. */
  ghost predicate FullyMarked(g: State, S: set<Id>) {
    && Basic(g) && NoneDead(g) && Within(g, S) && RootsWithin(g, S)
    && g.gray == [] && Tricolor(g, {}) && RootsMarked(g) && g.held == {} && g.running in g.heap
  }

  /** Once nothing gray is left, what is still white is unreachable: the whites may be exchanged. */
  lemma FlipSound(g: State, S: set<Id>)
    requires FullyMarked(g, S)
    ensures Sound(Flipped(g))
    ensures forall x :: x in g.heap && !IsDead(Flipped(g), x) ==> x in S || x in g.fixed
  {
    var h := Flipped(g);
    forall x | x in h.heap && !IsDead(h, x) ensures AllAlive(h, Held(h.heap, x)) {
      if !IsWhite(g, x) {
        assert AllMarked(g, Held(g.heap, x));
        forall v | v in Held(h.heap, x) ensures Alive(h, v) {
          assert Marked(g, v);
          HeldWithin(g, S, x, v);
        }
      } else {
        assert g.heap[x].Str?;
      }
    }
    hide Held;
    forall x | x in Anchors(h) ensures x in h.heap && !IsDead(h, x) {
      if x in Ids(g.metas) {
        var i :| 0 <= i < |g.metas| && g.metas[i].Ref? && g.metas[i].id == x;
        assert g.metas[i] in Values(g.metas) && Marked(g, g.metas[i]) && InSet(g.metas[i], S);
      } else if x in IdOf(g.registry) {
        assert g.registry == Ref(x);
      }
    }
  }

  lemma SomeChain(g: State)
    requires Lists(g)
    ensures |g.strings| > 0
  {}

  lemma FlipPhase(g: State)
    requires Basic(g) && Lists(g)
    ensures Basic(Flipped(g)) && Lists(Flipped(g)) && InPhase(Flipped(g))
  {
    hide Chains;
    hide RootList;
    hide OpenLists;
    SomeChain(g);
  }

  lemma FlipKeeps(g: State, S: set<Id>)
    requires FullyMarked(g, S) && Lists(g)
    ensures Inv(Flipped(g))
    ensures forall x :: x in g.heap && !IsDead(Flipped(g), x) ==> x in S || x in g.fixed
  {
    FlipSound(g, S);
    FlipPhase(g);
    hide FullyMarked;
    hide Sound;
    hide Lists;
    hide Basic;
    hide InPhase;
    hide IsDead;
  }

  lemma AtomicStarts(g: State, S: set<Id>)
    requires Inv(g) && g.phase == Propagate && g.gray == [] && Within(g, S)
    ensures Busy(g, S, Elems(g.grayAgain) + OpenSet(g)) && Lists(g)
    ensures forall u :: u in g.openUpvals <==> u in g.heap && IsOpen(g.heap[u])
    ensures !IsWhite(g, g.main) && Marked(g, g.registry)
  {
    hide Sound;
    hide Chains;
    hide RootList;
    hide OpenList;
    hide Tricolor;
    hide LeavesBlack;
  }

  /** What the barriers caught becomes the gray list. */
  lemma AtomicListed(g: State, S: set<Id>, X: set<Id>)
    requires Busy(g, S, X) && g.gray == [] && forall x :: x in X ==> x in g.grayAgain
    ensures var h := g.(gray := g.grayAgain, grayAgain := []); Busy(h, S, {})
  {
    var h := g.(gray := g.grayAgain, grayAgain := []);
    hide Held;
    assert GrayLists(h);
    hide GrayLists;
    assert Tricolor(h, {});
  }

  lemma RemarkedRoots(g: State, g2: State, g3: State, g4: State, g5: State)
    requires Darkens(g, g2) && Darkens(g2, g3) && Darkens(g3, g4) && Darkens(g4, g5)
    requires !IsWhite(g, g.main) && Marked(g, g.registry)
    requires Marked(g3, Ref(g.running)) && AllMarked(g4, Values(g.metas))
    ensures RootsMarked(g5.(gray := g5.grayAgain, grayAgain := []))
  {
    DarkensWhite(g, g2);
    DarkensWhite(g2, g3);
    DarkensWhite(g3, g4);
    DarkensWhite(g4, g5);
    hide Darkens;
    assert Marked(g3, Ref(g.running));
    forall v | v in Values(g.metas) ensures Marked(g5, v) { assert Marked(g4, v); }
  }

  lemma RootsStay(g: State, h: State)
    requires Darkens(g, h) && RootsMarked(g)
    ensures RootsMarked(h)
  {
    DarkensWhite(g, h);
    hide Darkens;
    forall v | v in Values(g.metas) ensures Marked(h, v) { assert Marked(g, v); }
  }

  lemma InvLists(g: State)
    requires Inv(g)
    ensures Lists(g) && g.running in g.heap
  {
    assert g.running in Anchors(g);
  }

  lemma MarkedFully(g: State, S: set<Id>)
    requires Busy(g, S, {}) && g.gray == [] && RootsMarked(g) && RootsWithin(g, S) && g.held == {}
    requires g.running in g.heap
    ensures FullyMarked(g, S)
  {}
}
