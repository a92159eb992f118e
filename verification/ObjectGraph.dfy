/**
  The collectable objects of the Lua core, what each of them refers to, and the collector's global
  state seen as a value: colours, sweep lists, gray lists and roots.
 */
module ObjectGraph {
  type Id = nat

  datatype Value = Nil | Plain(n: int) | Ref(id: Id)

  /** An upvalue either watches a stack slot of a thread or owns its value. */
  datatype Home = Open(thread: Id, slot: nat) | Closed(value: Value)

  datatype Object =
    | Str(text: string)
    | UserData(meta: Value, env: Value)
    | UpValue(at: Home)
    | Table(meta: Value, items: seq<(Value, Value)>)
    | Function(env: Value, proto: Value, upvals: seq<Value>)
    | Thread(globals: Value, stack: seq<Value>, open: seq<Id>)
    | Proto(consts: seq<Value>)

  datatype Color = White(bit: bool) | Gray | Black

  datatype Phase = Pause | Propagate | SweepString | Sweep | Finalize

  /** `global_State`, as far as collecting is concerned. */
  datatype State = State(
    heap: map<Id, Object>,
    mark: map<Id, Color>,
    fixed: set<Id>,
    white: bool,
    phase: Phase,
    gray: seq<Id>,
    grayAgain: seq<Id>,
    strings: seq<seq<Id>>,
    root: seq<Id>,
    sweepString: nat,
    sweep: nat,
    openUpvals: seq<Id>,
    main: Id,
    running: Id,
    registry: Value,
    metas: seq<Value>,
    held: set<Id>)

  predicate IsOpen(o: Object) { o.UpValue? && o.at.Open? }

  /** The kinds that wait in a gray list to be traversed. */
  predicate Traversed(o: Object) { o.Table? || o.Function? || o.Thread? || o.Proto? }

  /** The kinds swept through `rootgc`. */
  predicate InRoot(o: Object) { !o.Str? && !IsOpen(o) }

  /** What an upvalue stands for. */
  function Current(heap: map<Id, Object>, at: Home): Value {
    match at
    case Closed(v) => v
    case Open(t, s) => if t in heap && heap[t].Thread? && s < |heap[t].stack| then heap[t].stack[s] else Nil
  }

  /** What a program can see of an object: not whether an upvalue is open, nor who watches a stack. */
  function View(heap: map<Id, Object>, x: Id): Object
    requires x in heap
  {
    match heap[x]
    case UpValue(at) => UpValue(Closed(Current(heap, at)))
    case Thread(g, s, _) => Thread(g, s, [])
    case o => o
  }

  function Values(vs: seq<Value>): set<Value> { set v | v in vs }

  /** The keys and values of a table's entries; an entry whose value is nil is empty and keeps nothing. */
  function Entries(items: seq<(Value, Value)>): set<Value> {
    (set i | 0 <= i < |items| && !items[i].1.Nil? :: items[i].0) +
    (set i | 0 <= i < |items| && !items[i].1.Nil? :: items[i].1)
  }

  function Fields(o: Object): set<Value> {
    match o
    case Str(_) => {}
    case UserData(m, e) => {m, e}
    case UpValue(at) => if at.Closed? then {at.value} else {}
    case Table(m, items) => {m} + Entries(items)
    case Function(e, p, u) => {e, p} + Values(u)
    case Thread(g, s, _) => {g} + Values(s)
    case Proto(c) => Values(c)
  }

  /** Everything `x` refers to. */
  function Held(heap: map<Id, Object>, x: Id): set<Value>
    requires x in heap
  {
    Fields(View(heap, x))
  }

  ghost predicate Points(heap: map<Id, Object>, x: Id, y: Id) { x in heap && Ref(y) in Held(heap, x) }

  function Ids(vs: seq<Value>): set<Id> { set i | 0 <= i < |vs| && vs[i].Ref? :: vs[i].id }

  function IdOf(v: Value): set<Id> { if v.Ref? then {v.id} else {} }

  /** The roots, and what C code still holds in local variables since the last collection step. */
  function Anchors(g: State): set<Id> { {g.main, g.running} + IdOf(g.registry) + Ids(g.metas) + g.held }

  ghost predicate Path(g: State, p: seq<Id>) {
    |p| > 0 && p[0] in Anchors(g) && forall i :: 0 < i < |p| ==> Points(g.heap, p[i - 1], p[i])
  }

  /** `x` can be reached by the program. */
  ghost predicate Reach(g: State, x: Id) { exists p :: Path(g, p) && p[|p| - 1] == x }

  /** A value the program may use. */
  ghost predicate Usable(g: State, v: Value) { v.Ref? ==> Reach(g, v.id) }

  /** The test of the sweep: the other white, and not fixed. */
  predicate IsDead(g: State, x: Id) { x in g.mark && g.mark[x] == White(!g.white) && x !in g.fixed }

  predicate IsWhite(g: State, x: Id) { x in g.mark && g.mark[x].White? }

  predicate Alive(g: State, v: Value) { v.Ref? ==> v.id in g.heap && !IsDead(g, v.id) }

  predicate AllAlive(g: State, vs: set<Value>) { forall v :: v in vs ==> Alive(g, v) }

  predicate Marked(g: State, v: Value) { v.Ref? ==> !IsWhite(g, v.id) }

  predicate AllMarked(g: State, vs: set<Value>) { forall v :: v in vs ==> Marked(g, v) }

  predicate NoDup(s: seq<Id>) { forall i, j :: 0 <= i < j < |s| ==> s[i] != s[j] }

  function Elems(s: seq<Id>): set<Id> { set x | x in s }

  function RemoveAt(s: seq<Id>, i: nat): (r: seq<Id>)
    requires i < |s|
    ensures |r| == |s| - 1
  {
    s[..i] + s[i + 1..]
  }

  /** Opens of a reachable path stay reachable. */
  lemma ReachNext(g: State, x: Id, y: Id)
    requires Reach(g, x) && Points(g.heap, x, y)
    ensures Reach(g, y)
  {
    var p :| Path(g, p) && p[|p| - 1] == x;
    var q := p + [y];
    forall i | 0 < i < |q| ensures Points(g.heap, q[i - 1], q[i]) { if i < |p| { assert q[i] == p[i]; } }
    assert Path(g, q) && q[|q| - 1] == y;
  }

  lemma ReachAnchor(g: State, x: Id)
    requires x in Anchors(g)
    ensures Reach(g, x)
  {
    assert Path(g, [x]) && [x][|[x]| - 1] == x;
  }

  /** A set that holds the anchors and is closed under reference holds everything reachable. */
  lemma {:induction false} ReachWithin(g: State, p: seq<Id>, S: set<Id>)
    requires Path(g, p)
    requires Anchors(g) <= S
    requires forall x, y :: x in S && Points(g.heap, x, y) ==> y in S
    ensures p[|p| - 1] in S
  {
    if |p| > 1 {
      var q := p[..|p| - 1];
      assert Path(g, q);
      ReachWithin(g, q, S);
      assert Points(g.heap, p[|p| - 2], p[|p| - 1]);
    }
  }

  // ---------------------------------------------------------------- what every state must satisfy

  /** Nothing live, no root, refers to something dead or freed. */
  ghost predicate Sound(g: State) {
    && (forall x :: x in g.heap && !IsDead(g, x) ==> AllAlive(g, Held(g.heap, x)))
    && (forall x :: x in Anchors(g) ==> x in g.heap && !IsDead(g, x))
  }

  /** The hash of the first `l` bytes of `s`, from the end and `step` bytes at a time, on from `h`. */
  function HashBytes(s: string, l: nat, step: nat, h: bv32): bv32
    requires l <= |s| && step > 0
  {
    if l < step then h
    else HashBytes(s, l - step, step, h ^ ((h << 5) + (h >> 2) + (((s[l - 1] as int) % 256) as bv32)))
  }

  function Hash(s: string): nat { HashBytes(s, |s|, |s| / 32 + 1, ((|s| % 0x1_0000_0000) as bv32)) as nat }

  /** The chain of a table of `size` chains that a string belongs to. */
  function ChainOf(s: string, size: nat): nat
    requires size > 0
    ensures ChainOf(s, size) < size
  {
    Hash(s) % size
  }

  /** Each string hangs, once, in the chain its hash selects, and no two strings read the same. */
  ghost predicate Chains(heap: map<Id, Object>, strings: seq<seq<Id>>) {
    && |strings| > 0
    && (forall h :: 0 <= h < |strings| ==> NoDup(strings[h]))
    && (forall h, x :: 0 <= h < |strings| && x in strings[h] ==>
          x in heap && heap[x].Str? && ChainOf(heap[x].text, |strings|) == h)
    && (forall x :: x in heap && heap[x].Str? ==> x in strings[ChainOf(heap[x].text, |strings|)])
    && (forall x, y :: x in heap && y in heap && heap[x].Str? && heap[x] == heap[y] ==> x == y)
  }

  /** `rootgc` links every other object once, except open upvalues. */
  ghost predicate RootList(heap: map<Id, Object>, root: seq<Id>) {
    NoDup(root) && forall x :: x in root <==> x in heap && InRoot(heap[x])
  }

  function Slot(heap: map<Id, Object>, u: Id): nat { if u in heap && IsOpen(heap[u]) then heap[u].at.slot else 0 }

  /** The open list of `t`: its own open upvalues, one per slot, from the top of the stack down. */
  ghost predicate OpenList(heap: map<Id, Object>, t: Id)
    requires t in heap && heap[t].Thread?
  {
    var l := heap[t].open;
    && (forall i :: 0 <= i < |l| ==> l[i] in heap && IsOpen(heap[l[i]]) && heap[l[i]].at.thread == t
                                     && heap[l[i]].at.slot < |heap[t].stack|)
    && (forall i, j :: 0 <= i < j < |l| ==> Slot(heap, l[i]) > Slot(heap, l[j]))
  }

  ghost predicate OpenLists(heap: map<Id, Object>, openUpvals: seq<Id>) {
    && (forall t :: t in heap && heap[t].Thread? ==> OpenList(heap, t))
    && (forall u :: u in heap && IsOpen(heap[u]) ==>
          var t := heap[u].at.thread; t in heap && heap[t].Thread? && u in heap[t].open)
    && NoDup(openUpvals)
    && (forall u :: u in openUpvals <==> u in heap && IsOpen(heap[u]))
  }

  /** Every object is linked once, in the list of its kind. */
  ghost predicate Lists(g: State) {
    Chains(g.heap, g.strings) && RootList(g.heap, g.root) && OpenLists(g.heap, g.openUpvals)
  }

  /** Open upvalues are never black: their value changes without a barrier. */
  ghost predicate OpenNotBlack(g: State) {
    forall u :: u in g.heap && IsOpen(g.heap[u]) ==> u in g.mark && g.mark[u] != Black
  }

  ghost predicate Basic(g: State) {
    && g.mark.Keys == g.heap.Keys
    && g.main in g.heap && g.heap[g.main].Thread? && g.main in g.fixed
    && (forall x :: x in g.fixed ==> x in g.heap && (x == g.main || g.heap[x].Str?))
    && OpenNotBlack(g)
  }

  // ---------------------------------------------------------------- what each phase must satisfy

  ghost predicate AllWhite(g: State) { forall x :: x in g.heap ==> x in g.mark && g.mark[x] == White(g.white) }

  ghost predicate NoneDead(g: State) { forall x :: x in g.mark && g.mark[x].White? ==> g.mark[x] == White(g.white) }

  /** The gray lists hold exactly the gray objects still to be traversed, each once. */
  ghost predicate GrayLists(g: State) {
    && NoDup(g.gray) && NoDup(g.grayAgain)
    && (forall x :: x in g.gray ==> x !in g.grayAgain)
    && (forall x :: x in g.gray || x in g.grayAgain ==>
          x in g.heap && x in g.mark && g.mark[x] == Gray && Traversed(g.heap[x]))
    && (forall x :: x in g.heap && x in g.mark && g.mark[x] == Gray && Traversed(g.heap[x]) ==>
          x in g.gray || x in g.grayAgain)
    && (forall x :: x in g.heap && x in g.mark && g.heap[x].Thread? ==> g.mark[x] != Black)
    && OpenNotBlack(g)
  }

  /** What is guarded by a barrier but never traversed from a list is black as soon as it is marked. */
  ghost predicate LeavesBlack(g: State) {
    forall x :: x in g.heap && x in g.mark && g.mark[x] == Gray ==>
      !g.heap[x].UserData? && (g.heap[x].UpValue? ==> g.heap[x].at.Open?)
  }

  /** The tri-colour invariant: what is marked, and neither listed nor excused, refers to nothing white. */
  ghost predicate Tricolor(g: State, excused: set<Id>) {
    forall x :: x in g.heap && !IsWhite(g, x) && x !in g.gray && x !in excused ==> AllMarked(g, Held(g.heap, x))
  }

  function OpenSet(g: State): set<Id> { set u | u in g.heap && IsOpen(g.heap[u]) }

  ghost predicate Marking(g: State) {
    && NoneDead(g) && GrayLists(g) && LeavesBlack(g)
    && Tricolor(g, Elems(g.grayAgain) + OpenSet(g))
    && !IsWhite(g, g.main) && Marked(g, g.registry)
  }

  predicate Clean(g: State, x: Id) { x in g.mark && g.mark[x] == White(g.white) }

  predicate OpensClean(g: State, t: Id) {
    t in g.heap && g.heap[t].Thread? ==> forall u :: u in g.heap[t].open ==> Clean(g, u)
  }

  /** How many chains of strings have been swept: all of them, once the sweep is with the other objects. */
  function SweptChains(g: State): nat { if g.phase.Sweep? then |g.strings| else g.sweepString }

  /** What the sweep has passed is of the current white. */
  ghost predicate Passed(g: State) {
    && SweptChains(g) <= |g.strings| && g.sweep <= |g.root|
    && (forall h, x :: 0 <= h < SweptChains(g) && x in g.strings[h] ==> Clean(g, x))
    && (forall i :: 0 <= i < g.sweep ==> Clean(g, g.root[i]))
    && (forall i :: 0 <= i < g.sweep ==> OpensClean(g, g.root[i]))
  }

  ghost predicate InPhase(g: State) {
    match g.phase
    case Pause => AllWhite(g)
    case Finalize => AllWhite(g)
    case Propagate => Marking(g)
    case SweepString => Passed(g) && g.sweep == 0 && g.sweepString < |g.strings|
    case Sweep => Passed(g)
  }

  ghost predicate Inv(g: State) {
    Basic(g) && Sound(g) && Lists(g) && InPhase(g)
  }

  // ---------------------------------------------------------------- what the invariant means

  /** Object `x` names object `y`: what must stay as long as `x` does. */
  ghost predicate Names(heap: map<Id, Object>, x: Id, y: Id)
    requires x in heap
  {
    match heap[x]
    case Str(_) => false
    case UserData(meta, env) => meta == Ref(y) || env == Ref(y)
    case UpValue(Closed(v)) => v == Ref(y)
    case UpValue(Open(t, slot)) =>
      t in heap && heap[t].Thread? && slot < |heap[t].stack| && heap[t].stack[slot] == Ref(y)
    case Table(meta, items) =>
      || meta == Ref(y)
      || exists i :: 0 <= i < |items| && items[i].1 != Nil && (items[i].0 == Ref(y) || items[i].1 == Ref(y))
    case Function(env, proto, upvals) =>
      env == Ref(y) || proto == Ref(y) || exists i :: 0 <= i < |upvals| && upvals[i] == Ref(y)
    case Thread(globals, stack, _) => globals == Ref(y) || exists i :: 0 <= i < |stack| && stack[i] == Ref(y)
    case Proto(consts) => exists i :: 0 <= i < |consts| && consts[i] == Ref(y)
  }

  /** What an object refers to is what it names, neither less nor more. */
  lemma PointsExactly(heap: map<Id, Object>, x: Id, y: Id)
    requires x in heap
    ensures Points(heap, x, y) <==> Names(heap, x, y)
  {
    match heap[x]
    case Table(meta, items) => EntriesAre(items, Ref(y));
    case _ =>
  }

  lemma EntriesAre(items: seq<(Value, Value)>, v: Value)
    ensures v in Entries(items) <==>
            exists i :: 0 <= i < |items| && items[i].1 != Nil && (items[i].0 == v || items[i].1 == v)
  {}

  lemma AnchorsExactly(g: State, x: Id)
    ensures x in Anchors(g) <==>
            || x == g.main || x == g.running || g.registry == Ref(x) || x in g.held
            || exists i :: 0 <= i < |g.metas| && g.metas[i] == Ref(x)
  {}

  /** Nothing is missing: what is not dead, and what the roots are, names nothing that is gone or will be swept away. */
  ghost predicate Whole(g: State) {
    && (forall x, y {:trigger Names(g.heap, x, y)} :: x in g.heap && !IsDead(g, x) && Names(g.heap, x, y) ==>
          y in g.heap && !IsDead(g, y))
    && g.main in g.heap && !IsDead(g, g.main) && g.running in g.heap && !IsDead(g, g.running)
    && (g.registry.Ref? ==> g.registry.id in g.heap && !IsDead(g, g.registry.id))
    && forall i :: 0 <= i < |g.metas| && g.metas[i].Ref? ==> g.metas[i].id in g.heap && !IsDead(g, g.metas[i].id)
  }

  lemma InvWhole(g: State)
    requires Sound(g)
    ensures Whole(g)
  {
    hide Held;
    hide IsDead;
    forall x, y {:trigger Names(g.heap, x, y)} | x in g.heap && !IsDead(g, x) && Names(g.heap, x, y)
      ensures y in g.heap && !IsDead(g, y)
    {
      PointsExactly(g.heap, x, y);
      assert Alive(g, Ref(y));
    }
    hide Names;
    AnchorsExactly(g, g.main);
    AnchorsExactly(g, g.running);
    if g.registry.Ref? { AnchorsExactly(g, g.registry.id); }
    forall i | 0 <= i < |g.metas| && g.metas[i].Ref?
      ensures g.metas[i].id in g.heap && !IsDead(g, g.metas[i].id)
    {
      AnchorsExactly(g, g.metas[i].id);
    }
  }

  /** Whatever the program can reach is there and will not be swept away. */
  lemma ReachableAlive(g: State, x: Id)
    requires Sound(g) && Reach(g, x)
    ensures x in g.heap && !IsDead(g, x)
  {
    var p :| Path(g, p) && p[|p| - 1] == x;
    var S := set y | y in g.heap && !IsDead(g, y);
    forall y, z | y in S && Points(g.heap, y, z) ensures z in S {
      assert AllAlive(g, Held(g.heap, y));
      assert Alive(g, Ref(z));
    }
    ReachWithin(g, p, S);
  }

  predicate IsBlack(g: State, x: Id) { x in g.mark && g.mark[x] == Black }

  predicate IsGray(g: State, x: Id) { x in g.mark && g.mark[x] == Gray }

  /** While marking, what is black refers to nothing white. */
  lemma NoBlackToWhite(g: State, x: Id, y: Id)
    requires Inv(g) && g.phase.Propagate? && IsBlack(g, x) && Points(g.heap, x, y)
    ensures y in g.heap && !IsWhite(g, y)
  {
    hide Lists;
    hide Held;
    hide LeavesBlack;
    assert !IsDead(g, x) && Alive(g, Ref(y));
    assert x !in g.gray && x !in Elems(g.grayAgain) + OpenSet(g);
    assert AllMarked(g, Held(g.heap, x));
    assert Marked(g, Ref(y));
  }

  lemma KeysMarked(g: State, x: Id)
    requires Inv(g) && x in g.heap
    ensures IsBlack(g, x) || IsGray(g, x) || IsWhite(g, x)
  {
    hide Lists;
    hide Sound;
    hide InPhase;
  }

  /** So every way from something black to something white leads over something gray, which is still to be traversed. */
  lemma {:induction false} WhiteBehindGray(g: State, p: seq<Id>)
    requires Inv(g) && g.phase.Propagate? && p != [] && IsBlack(g, p[0]) && IsWhite(g, p[|p| - 1])
    requires forall i :: 0 < i < |p| ==> Points(g.heap, p[i - 1], p[i])
    ensures exists i :: 0 < i < |p| - 1 && IsGray(g, p[i])
  {
    hide Inv;
    hide Points;
    assert |p| > 1;
    assert Points(g.heap, p[0], p[1]);
    NoBlackToWhite(g, p[0], p[1]);
    if !IsGray(g, p[1]) {
      KeysMarked(g, p[1]);
      var q := p[1..];
      forall i | 0 < i < |q| ensures Points(g.heap, q[i - 1], q[i]) {
        assert q[i - 1] == p[i] && q[i] == p[i + 1];
      }
      WhiteBehindGray(g, q);
      var i :| 0 < i < |q| - 1 && IsGray(g, q[i]);
      assert IsGray(g, p[i + 1]);
    }
  }

  lemma UsableAlive(g: State, v: Value)
    requires Sound(g) && Usable(g, v)
    ensures Alive(g, v)
  {
    if v.Ref? { ReachableAlive(g, v.id); }
  }
}
