/**
  The sweep phase as transitions between states: what recolouring a survivor, freeing a dead object
  and moving on in a list keeps.
 */
module Sweeping {
  import opened ObjectGraph

  /** From `g` to `h` nothing happened but that some dead objects went: the others are as the program saw them. */
  ghost predicate Spares(g: State, h: State) {
    && h.fixed == g.fixed && h.white == g.white && h.main == g.main && h.running == g.running
    && h.registry == g.registry && h.metas == g.metas && h.held == g.held
    && (forall x :: x in g.heap && !IsDead(g, x) ==> x in h.heap && View(h.heap, x) == View(g.heap, x))
    && (forall x :: x in h.heap ==> x in g.heap && (IsDead(h, x) <==> IsDead(g, x)))
  }

  lemma SparesTrans(g: State, h: State, k: State)
    requires Spares(g, h) && Spares(h, k)
    ensures Spares(g, k)
  {}

  lemma SparesSound(g: State, h: State)
    requires Sound(g) && Spares(g, h)
    ensures Sound(h)
  {
    forall x | x in h.heap && !IsDead(h, x) ensures AllAlive(h, Held(h.heap, x)) {
      forall v | v in Held(h.heap, x) ensures Alive(h, v) {
        assert AllAlive(g, Held(g.heap, x));
        assert Alive(g, v);
      }
    }
    assert Anchors(h) == Anchors(g);
  }

  /** What the program can reach is there afterwards, and looks the same. */
  lemma SparesReachable(g: State, h: State, x: Id)
    requires Sound(g) && Spares(g, h) && Reach(g, x)
    ensures x in g.heap && x in h.heap && View(h.heap, x) == View(g.heap, x) && Reach(h, x)
  {
    ReachableAlive(g, x);
    var p :| Path(g, p) && p[|p| - 1] == x;
    assert Anchors(h) == Anchors(g);
    forall i | 0 < i < |p| ensures Points(h.heap, p[i - 1], p[i]) {
      assert Path(g, p[..i]) && p[..i][|p[..i]| - 1] == p[i - 1];
      ReachableAlive(g, p[i - 1]);
      assert Points(g.heap, p[i - 1], p[i]);
    }
    assert Path(h, p);
  }

  lemma RemoveAtElems(s: seq<Id>, i: nat)
    requires NoDup(s) && i < |s|
    ensures NoDup(RemoveAt(s, i)) && forall x :: x in RemoveAt(s, i) <==> x in s && x != s[i]
  {
    var r := RemoveAt(s, i);
    forall x | x in s && x != s[i] ensures x in r {
      var k :| 0 <= k < |s| && s[k] == x;
      assert if k < i then r[k] == x else r[k - 1] == x;
    }
    forall k | 0 <= k < |r| ensures r[k] in s && r[k] != s[i] {
      assert r[k] == if k < i then s[k] else s[k + 1];
    }
  }

  lemma Assemble(g: State, h: State)
    requires Sound(g) && Spares(g, h) && Basic(h) && Lists(h) && InPhase(h)
    ensures Inv(h)
  {
    SparesSound(g, h);
    hide Sound;
    hide Basic;
    hide Lists;
    hide InPhase;
  }

  lemma InvParts(g: State)
    requires Inv(g)
    ensures Basic(g) && Sound(g) && Lists(g) && InPhase(g)
  {
    hide Sound;
    hide Basic;
    hide Lists;
    hide InPhase;
  }

  // ------------------------------------------------------------------------ recolouring survivors

  ghost function Cleaned(g: State, x: Id): State { g.(mark := g.mark[x := White(g.white)]) }

  lemma CleanedPassed(g: State, x: Id)
    requires Passed(g)
    ensures Passed(Cleaned(g, x))
  {
    var h := Cleaned(g, x);
    assert forall y :: Clean(g, y) ==> Clean(h, y);
    hide Clean;
  }

  lemma CleanedSpares(g: State, x: Id)
    requires Basic(g) && x in g.heap && !IsDead(g, x)
    ensures Spares(g, Cleaned(g, x)) && Basic(Cleaned(g, x))
  {}

  lemma CleanedKeeps(g: State, x: Id)
    requires Inv(g) && (g.phase.SweepString? || g.phase.Sweep?) && x in g.heap && !IsDead(g, x)
    ensures Inv(Cleaned(g, x)) && Spares(g, Cleaned(g, x))
  {
    hide Sound;
    hide Chains;
    hide RootList;
    hide OpenLists;
    hide Passed;
    hide Basic;
    CleanedSpares(g, x);
    CleanedPassed(g, x);
    hide Spares;
    Assemble(g, Cleaned(g, x));
  }

  // ----------------------------------------------------------------------- taking objects out of lists

  lemma ChainsWithoutOther(heap: map<Id, Object>, strings: seq<seq<Id>>, x: Id)
    requires Chains(heap, strings) && x in heap && !heap[x].Str?
    ensures Chains(heap - {x}, strings)
  {}

  lemma RootWithoutOther(heap: map<Id, Object>, root: seq<Id>, x: Id)
    requires RootList(heap, root) && x in heap && !InRoot(heap[x])
    ensures RootList(heap - {x}, root)
  {}

  lemma OpensWithoutOther(heap: map<Id, Object>, openUpvals: seq<Id>, x: Id)
    requires OpenLists(heap, openUpvals) && x in heap && !IsOpen(heap[x]) && (heap[x].Thread? ==> heap[x].open == [])
    ensures OpenLists(heap - {x}, openUpvals)
  {
    var h := heap - {x};
    forall t | t in h && h[t].Thread? ensures OpenList(h, t) { assert OpenList(heap, t); }
  }

  lemma ChainsWithout(heap: map<Id, Object>, strings: seq<seq<Id>>, c: nat, i: nat)
    requires Chains(heap, strings) && c < |strings| && i < |strings[c]|
    ensures strings[c][i] in heap && heap[strings[c][i]].Str?
    ensures Chains(heap - {strings[c][i]}, strings[c := RemoveAt(strings[c], i)])
  {
    RemoveAtElems(strings[c], i);
    assert strings[c][i] in strings[c];
    hide ChainOf;
    hide RemoveAt;
  }

  lemma RootWithout(heap: map<Id, Object>, root: seq<Id>, i: nat)
    requires RootList(heap, root) && i < |root|
    ensures root[i] in heap && InRoot(heap[root[i]]) && RootList(heap - {root[i]}, RemoveAt(root, i))
  {
    RemoveAtElems(root, i);
    assert root[i] in root;
    hide RemoveAt;
  }

  /** An open upvalue taken out of its thread's list and of the list of all open upvalues. */
  function Unlinked(heap: map<Id, Object>, t: Id, i: nat): map<Id, Object>
    requires t in heap && heap[t].Thread? && i < |heap[t].open|
  {
    heap[t := heap[t].(open := RemoveAt(heap[t].open, i))]
  }

  lemma OpenListDistinct(heap: map<Id, Object>, t: Id)
    requires t in heap && heap[t].Thread? && OpenList(heap, t)
    ensures NoDup(heap[t].open)
  {}

  lemma OpenListWithout(heap: map<Id, Object>, t: Id, i: nat)
    requires t in heap && heap[t].Thread? && i < |heap[t].open| && OpenList(heap, t)
    ensures OpenList(Unlinked(heap, t, i) - {heap[t].open[i]}, t)
  {
    var l, h := heap[t].open, Unlinked(heap, t, i) - {heap[t].open[i]};
    var m := h[t].open;
    OpenListDistinct(heap, t);
    forall k | 0 <= k < |m| ensures m[k] == l[if k < i then k else k + 1] && m[k] != l[i] && h[m[k]] == heap[m[k]] {}
  }

  lemma OpenListElsewhere(heap: map<Id, Object>, h: map<Id, Object>, t: Id)
    requires t in heap && heap[t].Thread? && OpenList(heap, t) && t in h && h[t] == heap[t]
    requires forall u :: u in heap[t].open && u in heap ==> u in h && h[u] == heap[u]
    ensures OpenList(h, t)
  {}

  lemma OpensWithout(heap: map<Id, Object>, openUpvals: seq<Id>, t: Id, i: nat, j: nat)
    requires OpenLists(heap, openUpvals) && t in heap && heap[t].Thread? && i < |heap[t].open|
    requires j < |openUpvals| && openUpvals[j] == heap[t].open[i]
    ensures OpenLists(Unlinked(heap, t, i) - {heap[t].open[i]}, RemoveAt(openUpvals, j))
  {
    var x, h := heap[t].open[i], Unlinked(heap, t, i) - {heap[t].open[i]};
    RemoveAtElems(openUpvals, j);
    assert OpenList(heap, t);
    assert IsOpen(heap[x]) && heap[x].at.thread == t;
    OpenListDistinct(heap, t);
    RemoveAtElems(heap[t].open, i);
    OpenListWithout(heap, t, i);
    hide RemoveAt;
    forall s | s in h && h[s].Thread? ensures OpenList(h, s) {
      assert OpenList(heap, s);
      if s != t {
        forall u | u in heap[s].open && u in heap ensures u in h && h[u] == heap[u] {
          assert IsOpen(heap[u]) && heap[u].at.thread == s;
        }
        OpenListElsewhere(heap, h, s);
      }
    }
  }

  // --------------------------------------------------------------------------- freeing what is dead

  /** A dead string taken out of chain `c`. */
  ghost function FreedString(g: State, c: nat, i: nat): State
    requires c < |g.strings| && i < |g.strings[c]|
  {
    var x := g.strings[c][i];
    g.(heap := g.heap - {x}, mark := g.mark - {x}, strings := g.strings[c := RemoveAt(g.strings[c], i)])
  }

  /** An object that is nobody's stack goes: the others look as before. */
  lemma FreedSpares(g: State, h: State, x: Id)
    requires Basic(g) && x in g.heap && IsDead(g, x)
    requires h == g.(heap := g.heap - {x}, mark := g.mark - {x}, strings := h.strings, root := h.root)
    requires forall u :: u in g.heap && IsOpen(g.heap[u]) ==> g.heap[u].at.thread != x
    ensures Spares(g, h) && Basic(h)
  {}

  lemma FreedStringPassed(g: State, c: nat, i: nat)
    requires Passed(g) && c < |g.strings| && i < |g.strings[c]| && g.sweep == 0 && c == SweptChains(g) && Lists(g)
    ensures Passed(FreedString(g, c, i))
  {
    var x, h := g.strings[c][i], FreedString(g, c, i);
    assert x in g.strings[c];
    forall k, y | 0 <= k < SweptChains(h) && y in h.strings[k] ensures Clean(h, y) {
      assert y in g.strings[k] && Clean(g, y);
      ChainsApart(g.heap, g.strings, c, k, x, y);
    }
  }

  lemma ChainsApart(heap: map<Id, Object>, strings: seq<seq<Id>>, c: nat, k: nat, x: Id, y: Id)
    requires Chains(heap, strings) && c < |strings| && k < |strings| && c != k && x in strings[c] && y in strings[k]
    ensures x != y
  {
    assert ChainOf(heap[x].text, |strings|) == c;
    assert ChainOf(heap[y].text, |strings|) == k;
  }

  lemma FreedStringKeeps(g: State, c: nat, i: nat)
    requires Inv(g) && g.phase.SweepString? && c == g.sweepString && i < |g.strings[c]| && IsDead(g, g.strings[c][i])
    ensures Inv(FreedString(g, c, i)) && Spares(g, FreedString(g, c, i))
  {
    var x, h := g.strings[c][i], FreedString(g, c, i);
    InvParts(g);
    hide Sound;
    ChainsWithout(g.heap, g.strings, c, i);
    RootWithoutOther(g.heap, g.root, x);
    OpensWithoutOther(g.heap, g.openUpvals, x);
    OpenThreads(g.heap, g.openUpvals);
    FreedStringPassed(g, c, i);
    hide Chains;
    hide RootList;
    hide OpenLists;
    hide Passed;
    hide Basic;
    FreedSpares(g, h, x);
    hide Spares;
    Assemble(g, h);
  }

  lemma OpenThreads(heap: map<Id, Object>, openUpvals: seq<Id>)
    requires OpenLists(heap, openUpvals)
    ensures forall u :: u in heap && IsOpen(heap[u]) ==>
              var t := heap[u].at.thread; t in heap && heap[t].Thread? && u in heap[t].open
  {}

  /** An object taken out of `rootgc` beyond where the sweep stands. */
  ghost function FreedRoot(g: State, i: nat): State
    requires i < |g.root|
  {
    var x := g.root[i];
    g.(heap := g.heap - {x}, mark := g.mark - {x}, root := RemoveAt(g.root, i))
  }

  lemma FreedRootPassed(g: State, i: nat)
    requires Passed(g) && g.sweep <= i < |g.root| && Lists(g) && g.root[i] in g.heap && InRoot(g.heap[g.root[i]])
    ensures Passed(FreedRoot(g, i))
  {
    var x, h := g.root[i], FreedRoot(g, i);
    forall k, y | 0 <= k < SweptChains(h) && y in h.strings[k] ensures Clean(h, y) { assert Clean(g, y); }
    forall k | 0 <= k < h.sweep ensures Clean(h, h.root[k]) && OpensClean(h, h.root[k]) {
      assert h.root[k] == g.root[k] && Clean(g, g.root[k]) && OpensClean(g, g.root[k]);
      assert g.root[k] != x;
      if g.root[k] in g.heap && g.heap[g.root[k]].Thread? { assert OpenList(g.heap, g.root[k]); }
    }
  }

  lemma FreedRootKeeps(g: State, i: nat)
    requires Inv(g) && g.phase.Sweep? && g.sweep <= i < |g.root| && IsDead(g, g.root[i])
    requires g.root[i] in g.heap && g.heap[g.root[i]].Thread? ==> g.heap[g.root[i]].open == []
    ensures Inv(FreedRoot(g, i)) && Spares(g, FreedRoot(g, i))
  {
    var x, h := g.root[i], FreedRoot(g, i);
    InvParts(g);
    hide Sound;
    RootWithout(g.heap, g.root, i);
    ChainsWithoutOther(g.heap, g.strings, x);
    OpensWithoutOther(g.heap, g.openUpvals, x);
    OpenThreads(g.heap, g.openUpvals);
    FreedRootPassed(g, i);
    hide Chains;
    hide RootList;
    hide OpenLists;
    hide Passed;
    hide Basic;
    FreedSpares(g, h, x);
    hide Spares;
    Assemble(g, h);
  }

  /** A dead open upvalue freed: taken out of its thread's list and of the list of all open upvalues. */
  ghost function FreedOpen(g: State, t: Id, i: nat, j: nat): State
    requires t in g.heap && g.heap[t].Thread? && i < |g.heap[t].open| && j < |g.openUpvals|
  {
    var x := g.heap[t].open[i];
    g.(heap := Unlinked(g.heap, t, i) - {x}, mark := g.mark - {x}, openUpvals := RemoveAt(g.openUpvals, j))
  }

  /** Changing who watches a stack is nothing the program can see. */
  lemma UnlinkedViews(heap: map<Id, Object>, t: Id, i: nat)
    requires t in heap && heap[t].Thread? && i < |heap[t].open|
    ensures forall x :: x in heap ==> x in Unlinked(heap, t, i) && View(Unlinked(heap, t, i), x) == View(heap, x)
    ensures forall x :: x in heap && x != t ==> Unlinked(heap, t, i)[x] == heap[x]
    ensures Unlinked(heap, t, i).Keys == heap.Keys && Unlinked(heap, t, i)[t].Thread?
  {}

  lemma UnlinkedFreed(heap: map<Id, Object>, openUpvals: seq<Id>, t: Id, i: nat)
    requires OpenLists(heap, openUpvals) && t in heap && heap[t].Thread? && i < |heap[t].open|
    ensures var x, h := heap[t].open[i], Unlinked(heap, t, i) - {heap[t].open[i]};
      && x in heap && IsOpen(heap[x]) && h.Keys == heap.Keys - {x}
      && forall y :: y in h ==> View(h, y) == View(heap, y) && (y != t ==> h[y] == heap[y]) && (y == t ==> h[y].Thread?)
  {
    assert OpenList(heap, t);
    OpenThreads(heap, openUpvals);
    hide OpenLists;
    hide OpenList;
    hide RemoveAt;
  }

  lemma FreedOpenSpares(g: State, t: Id, i: nat, j: nat)
    requires Basic(g) && OpenLists(g.heap, g.openUpvals) && t in g.heap && g.heap[t].Thread? && i < |g.heap[t].open|
    requires j < |g.openUpvals| && IsDead(g, g.heap[t].open[i])
    ensures Spares(g, FreedOpen(g, t, i, j)) && Basic(FreedOpen(g, t, i, j))
  {
    UnlinkedFreed(g.heap, g.openUpvals, t, i);
    hide OpenLists;
    hide View;
    hide RemoveAt;
    hide Unlinked;
  }

  lemma ChainsUnlinked(heap: map<Id, Object>, strings: seq<seq<Id>>, t: Id, i: nat)
    requires Chains(heap, strings) && t in heap && heap[t].Thread? && i < |heap[t].open|
    ensures Chains(Unlinked(heap, t, i), strings)
  {
    hide ChainOf;
    hide RemoveAt;
  }

  lemma RootUnlinked(heap: map<Id, Object>, root: seq<Id>, t: Id, i: nat)
    requires RootList(heap, root) && t in heap && heap[t].Thread? && i < |heap[t].open|
    ensures RootList(Unlinked(heap, t, i), root)
  {}

  lemma FreedOpenPassed(g: State, t: Id, i: nat, j: nat)
    requires Passed(g) && Lists(g) && t in g.heap && g.heap[t].Thread? && i < |g.heap[t].open|
    requires j < |g.openUpvals| && IsDead(g, g.heap[t].open[i])
    ensures Passed(FreedOpen(g, t, i, j))
  {
    var x, h := g.heap[t].open[i], FreedOpen(g, t, i, j);
    assert OpenList(g.heap, t);
    OpenListDistinct(g.heap, t);
    RemoveAtElems(g.heap[t].open, i);
    assert x in g.heap && IsOpen(g.heap[x]);
    hide RemoveAt;
    hide OpenList;
    forall k, y | 0 <= k < SweptChains(h) && y in h.strings[k] ensures Clean(h, y) { assert Clean(g, y); }
    hide Chains;
    forall k | 0 <= k < h.sweep ensures Clean(h, h.root[k]) && OpensClean(h, h.root[k]) {
      var r := g.root[k];
      assert r in g.root && Clean(g, r) && OpensClean(g, r) && r != x;
      if r in h.heap && h.heap[r].Thread? {
        forall u | u in h.heap[r].open ensures Clean(h, u) {
          assert u in g.heap[r].open && Clean(g, u) && !IsDead(g, u);
        }
      }
    }
  }

  lemma FreedOpenKeeps(g: State, t: Id, i: nat, j: nat)
    requires Inv(g) && (g.phase.SweepString? || g.phase.Sweep?)
    requires t in g.heap && g.heap[t].Thread? && i < |g.heap[t].open|
    requires j < |g.openUpvals| && g.openUpvals[j] == g.heap[t].open[i] && IsDead(g, g.heap[t].open[i])
    ensures Inv(FreedOpen(g, t, i, j)) && Spares(g, FreedOpen(g, t, i, j))
  {
    var x, h := g.heap[t].open[i], FreedOpen(g, t, i, j);
    InvParts(g);
    hide Sound;
    hide Inv;
    hide RemoveAt;
    assert IsOpen(g.heap[x]) && x != t by { assert OpenList(g.heap, t); }
    FreedOpenSpares(g, t, i, j);
    FreedOpenPassed(g, t, i, j);
    OpensWithout(g.heap, g.openUpvals, t, i, j);
    ChainsUnlinked(g.heap, g.strings, t, i);
    RootUnlinked(g.heap, g.root, t, i);
    UnlinkedViews(g.heap, t, i);
    hide Chains;
    hide RootList;
    hide OpenLists;
    hide Passed;
    hide Basic;
    hide Spares;
    hide Unlinked;
    ChainsWithoutOther(Unlinked(g.heap, t, i), g.strings, x);
    RootWithoutOther(Unlinked(g.heap, t, i), g.root, x);
    Assemble(g, h);
  }

  // ----------------------------------------------------------------------------- moving on in a list

  /** Where the sweep stands is nothing the program can see. */
  lemma OnlyMoved(g: State, h: State)
    requires Basic(g) && Lists(g) && h == g.(sweep := h.sweep, sweepString := h.sweepString, phase := h.phase)
    ensures Basic(h) && Lists(h) && Spares(g, h)
    ensures forall x :: Clean(h, x) == Clean(g, x) && OpensClean(h, x) == OpensClean(g, x)
  {
    hide Chains;
    hide RootList;
    hide OpenLists;
    forall x ensures OpensClean(h, x) == OpensClean(g, x) {
      if x in g.heap && g.heap[x].Thread? { assert forall u :: u in g.heap[x].open ==> Clean(h, u) == Clean(g, u); }
    }
  }

  /** The sweep steps over an object of the current white whose open upvalues, if any, are so too. */
  ghost function Advanced(g: State): State { g.(sweep := g.sweep + 1) }

  lemma AdvancedPhase(g: State)
    requires InPhase(g) && g.phase.Sweep? && g.sweep < |g.root|
    requires Clean(g, g.root[g.sweep]) && OpensClean(g, g.root[g.sweep])
    requires forall x :: Clean(Advanced(g), x) == Clean(g, x) && OpensClean(Advanced(g), x) == OpensClean(g, x)
    ensures InPhase(Advanced(g))
  {
    hide Clean;
    hide OpensClean;
  }

  lemma AdvanceKeeps(g: State)
    requires Inv(g) && g.phase.Sweep? && g.sweep < |g.root|
    requires Clean(g, g.root[g.sweep]) && OpensClean(g, g.root[g.sweep])
    ensures Inv(Advanced(g)) && Spares(g, Advanced(g))
  {
    hide Inv;
    hide Basic;
    hide Sound;
    hide Lists;
    hide Clean;
    hide OpensClean;
    hide Spares;
    hide InPhase;
    InvParts(g);
    OnlyMoved(g, Advanced(g));
    AdvancedPhase(g);
    Assemble(g, Advanced(g));
  }

  /** A chain of strings has been swept; after the last one the sweep turns to the other objects. */
  ghost function ChainDone(g: State): State {
    g.(sweepString := g.sweepString + 1, phase := if g.sweepString + 1 >= |g.strings| then Sweep else SweepString)
  }

  lemma ChainDonePhase(g: State)
    requires InPhase(g) && g.phase.SweepString?
    requires forall x :: x in g.strings[g.sweepString] ==> Clean(g, x)
    requires forall x :: Clean(ChainDone(g), x) == Clean(g, x)
    ensures InPhase(ChainDone(g))
  {
    hide Clean;
  }

  lemma ChainDoneKeeps(g: State)
    requires Inv(g) && g.phase.SweepString?
    requires forall x :: x in g.strings[g.sweepString] ==> Clean(g, x)
    ensures Inv(ChainDone(g)) && Spares(g, ChainDone(g))
  {
    hide Inv;
    hide Basic;
    hide Sound;
    hide Lists;
    hide Clean;
    hide OpensClean;
    hide Spares;
    hide InPhase;
    InvParts(g);
    OnlyMoved(g, ChainDone(g));
    ChainDonePhase(g);
    Assemble(g, ChainDone(g));
  }

  lemma AllPassed(g: State)
    requires Lists(g) && Passed(g) && g.phase.Sweep? && g.sweep == |g.root|
    ensures AllWhite(g)
  {
    forall x | x in g.heap ensures Clean(g, x) {
      if g.heap[x].Str? {
        assert x in g.strings[ChainOf(g.heap[x].text, |g.strings|)];
      } else if IsOpen(g.heap[x]) {
        var t := g.heap[x].at.thread;
        assert t in g.root;
        var k :| 0 <= k < |g.root| && g.root[k] == t;
        assert OpensClean(g, g.root[k]);
      } else {
        assert x in g.root;
      }
    }
  }

  /** Once everything has been passed, everything has the current white, and a new cycle may begin. */
  lemma SweepDoneKeeps(g: State)
    requires Inv(g) && g.phase.Sweep? && g.sweep == |g.root|
    ensures Inv(g.(phase := Finalize)) && Spares(g, g.(phase := Finalize))
    ensures AllWhite(g)
  {
    hide Inv;
    hide Basic;
    hide Sound;
    hide Lists;
    hide Spares;
    hide Passed;
    hide AllWhite;
    var h := g.(phase := Finalize);
    InvParts(g);
    AllPassed(g);
    OnlyMoved(g, h);
    WhiteMoved(g, h);
    Assemble(g, h);
  }

  lemma WhiteMoved(g: State, h: State)
    requires AllWhite(g) && h.heap == g.heap && h.mark == g.mark && h.white == g.white
    ensures AllWhite(h)
  {}

  // ------------------------------------------------------------------------ facts the loops rely on

  lemma SparesRefl(g: State)
    ensures Spares(g, g)
  {}

  lemma InSweepString(g: State)
    requires Inv(g) && g.phase.SweepString?
    ensures g.sweepString < |g.strings| && g.sweep == 0
  {}

  lemma ChainMember(heap: map<Id, Object>, strings: seq<seq<Id>>, c: nat, i: nat)
    requires Chains(heap, strings) && c < |strings| && i < |strings[c]|
    ensures strings[c][i] in heap && heap[strings[c][i]].Str? && NoDup(strings[c])
  {
    assert strings[c][i] in strings[c];
    hide ChainOf;
  }

  lemma InChain(g: State, c: nat, i: nat)
    requires Inv(g) && c < |g.strings| && i < |g.strings[c]|
    ensures g.strings[c][i] in g.heap && g.heap[g.strings[c][i]].Str?
  {
    hide Sound;
    hide Basic;
    hide InPhase;
    hide Chains;
    hide RootList;
    hide OpenLists;
    ChainMember(g.heap, g.strings, c, i);
  }

  lemma InOpen(g: State, t: Id, i: nat)
    requires Inv(g) && t in g.heap && g.heap[t].Thread? && i < |g.heap[t].open|
    ensures var u := g.heap[t].open[i]; u in g.heap && IsOpen(g.heap[u]) && u in g.openUpvals && u in g.mark
    ensures var u := g.heap[t].open[i]; g.heap[u].at.thread == t && g.heap[u].at.slot < |g.heap[t].stack| && u != t
    ensures g.mark[g.heap[t].open[i]] != Black && NoDup(g.heap[t].open)
  {
    hide Sound;
    hide Chains;
    hide RootList;
    hide InPhase;
    assert OpenList(g.heap, t);
  }

  lemma DeadIs(g: State, x: Id)
    ensures IsDead(g, x) <==> x in g.mark && g.mark[x] == White(!g.white) && x !in g.fixed
  {}

  /** What a loop has swept of a chain stays swept when the next string goes. */
  lemma FreedStringClean(g: State, c: nat, i: nat)
    requires Inv(g) && c < |g.strings| && i < |g.strings[c]|
    requires forall k :: 0 <= k < i ==> Clean(g, g.strings[c][k])
    ensures forall k :: 0 <= k < i ==> k < |FreedString(g, c, i).strings[c]| &&
                                       Clean(FreedString(g, c, i), FreedString(g, c, i).strings[c][k])
  {
    hide Sound;
    hide Basic;
    hide InPhase;
    hide Chains;
    hide RootList;
    hide OpenLists;
    ChainMember(g.heap, g.strings, c, i);
    hide Inv;
    var l, h := g.strings[c], FreedString(g, c, i);
    forall k | 0 <= k < i ensures k < |h.strings[c]| && Clean(h, h.strings[c][k]) {
      assert h.strings[c][k] == l[k] && Clean(g, l[k]) && l[k] != l[i];
    }
  }

  lemma FreedOpenClean(g: State, t: Id, i: nat, j: nat)
    requires t in g.heap && g.heap[t].Thread? && i < |g.heap[t].open| && j < |g.openUpvals|
    requires NoDup(g.heap[t].open) && g.heap[t].open[i] != t
    requires forall k :: 0 <= k < i ==> Clean(g, g.heap[t].open[k])
    ensures var h := FreedOpen(g, t, i, j);
      && t in h.heap && h.heap[t].Thread? && |h.heap[t].open| == |g.heap[t].open| - 1
      && forall k :: 0 <= k < i ==> Clean(h, h.heap[t].open[k])
  {}

  lemma OpenListOf(heap: map<Id, Object>, openUpvals: seq<Id>, t: Id)
    requires OpenLists(heap, openUpvals) && t in heap && heap[t].Thread?
    ensures OpenList(heap, t)
  {}

  lemma InSweep(g: State)
    requires Inv(g) && g.phase.Sweep?
    ensures g.sweep <= |g.root|
  {
    hide Sound;
    hide Basic;
    hide Chains;
    hide RootList;
    hide OpenLists;
    hide GrayLists;
  }

  lemma InRoots(g: State, i: nat)
    requires Inv(g) && i < |g.root|
    ensures g.root[i] in g.heap && g.root[i] in g.mark && InRoot(g.heap[g.root[i]])
  {
    hide Sound;
    hide Chains;
    hide OpenLists;
    hide InPhase;
    assert g.root[i] in g.root;
  }

  lemma StillDead(g: State, h: State, x: Id)
    requires Spares(g, h) && IsDead(g, x) && x in h.heap
    ensures IsDead(h, x)
  {}

  lemma NoOpens(g: State, x: Id)
    requires x in g.heap && !g.heap[x].Thread?
    ensures OpensClean(g, x)
  {}

  lemma CleanedOpens(g: State, x: Id)
    requires OpensClean(g, x)
    ensures OpensClean(Cleaned(g, x), x) && Clean(Cleaned(g, x), x)
  {}
}
