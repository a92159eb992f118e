/**
  Testing an expression: the code goes on if its value is true, or false, and leaves by a jump otherwise.
 */
module Testing {
  import opened Basics
  import opened Bytecode
  import opened JumpLists
  import opened Views
  import opened Delivering

  /** What the jump that leaves after a test carries: nothing, the value tested, or, when a literal decides the
      test, whatever the jumps on hold carry that are taken along. */
  datatype Leaving = Bare | Tested | Along

  function Carried(lv: Leaving, v: Value, c: Option<Value>): Option<Value> {
    match lv
    case Bare => None
    case Tested => Some(v)
    case Along => c
  }

  /** After a test that lets the truth value `b` pass; if no code was needed, jumps on hold are so still. */
  function ForkWay(b: bool, lv: Leaving, silent: bool, w: Way): Way {
    match w
    case Here(v, c) => if Truthy(v) == b then Here(Bool(b), if silent then c else None) else Via(!b, Carried(lv, v, c))
    case Via(_, _) => w
  }

  /** After the jumps that agree with `b` have been told to land here. */
  function LandWay(b: bool, w: Way): Way { if w.Via? && w.b == b then Here(Bool(b), w.c) else w }

  ghost predicate Forked1(o1: Outcome, o2: Outcome, b: bool, lv: Leaving, silent: bool, n: int) {
    match o1
    case Came(w, r) => o2.Came? && o2.w == ForkWay(b, lv, silent, w) && Agree(r, o2.r, n, -1)
    case Elsewhere(j, r) => o2 == o1
    case Error => o2 == o1
    case Broken => true
  }

  ghost predicate Tests(env: Env, k: seq<Value>, v1: View, v2: View, b: bool, lv: Leaving, silent: bool, n: int) {
    forall k2, p: nat, r {:trigger M(env, k2, v2, p, r)} | k <= k2 && p <= |Base(v1).code| ::
      Forked1(M(env, k2, v1, p, r), M(env, k2, v2, p, r), b, lv, silent, n)
  }

  ghost predicate Decided(o1: Outcome, o2: Outcome, b: bool, lv: Leaving, silent: bool, n: int) {
    match o1
    case Came(w, r) => o2.Came? && o2.w == LandWay(b, ForkWay(b, lv, silent, w)) && Agree(r, o2.r, n, -1)
    case Elsewhere(j, r) => o2 == o1
    case Error => o2 == o1
    case Broken => true
  }

  ghost predicate Decides(env: Env, k: seq<Value>, v1: View, v2: View, b: bool, lv: Leaving, silent: bool, n: int) {
    forall k2, p: nat, r {:trigger M(env, k2, v2, p, r)} | k <= k2 && p <= |Base(v1).code| ::
      Decided(M(env, k2, v1, p, r), M(env, k2, v2, p, r), b, lv, silent, n)
  }

  lemma KeepsTests(env: Env, k1: seq<Value>, k2: seq<Value>, v1: View, v2: View, v3: View, b: bool, lv: Leaving,
                   silent: bool, n: int)
    requires Keeps(env, k1, v1, v2, n, -1) && Tests(env, k2, v2, v3, b, lv, silent, n) && k1 <= k2
    requires v2.s.held == v1.s.held || (!lv.Along? && !silent)
    requires Carries(v1, v2) && Carries(v2, v3)
    ensures Tests(env, k2, v1, v3, b, lv, silent, n) && Carries(v1, v3)
  {
    hide M;
    CarriesTrans(v1, v2, v3);
    hide Base;
    hide Intact;
    forall k3, p: nat, r | k2 <= k3 && p <= |Base(v1).code|
      ensures Forked1(M(env, k3, v1, p, r), M(env, k3, v3, p, r), b, lv, silent, n)
    {
      var o1, o2, o3 := M(env, k3, v1, p, r), M(env, k3, v2, p, r), M(env, k3, v3, p, r);
      assert Alike(o1, o2, n, -1, v2.s.held == v1.s.held) && Forked1(o2, o3, b, lv, silent, n);
    }
  }

  lemma TestsKeeps(env: Env, k1: seq<Value>, k2: seq<Value>, v1: View, v2: View, v3: View, b: bool, lv: Leaving,
                   silent: bool, n: int)
    requires Tests(env, k1, v1, v2, b, lv, silent, n) && Keeps(env, k2, v2, v3, n, -1) && k1 <= k2
    requires Carries(v1, v2) && Carries(v2, v3) && v3.s.held == v2.s.held
    ensures Tests(env, k2, v1, v3, b, lv, silent, n) && Carries(v1, v3)
  {
    hide M;
    CarriesTrans(v1, v2, v3);
    hide Base;
    hide Intact;
    forall k3, p: nat, r | k2 <= k3 && p <= |Base(v1).code|
      ensures Forked1(M(env, k3, v1, p, r), M(env, k3, v3, p, r), b, lv, silent, n)
    {
      var o1, o2, o3 := M(env, k3, v1, p, r), M(env, k3, v2, p, r), M(env, k3, v3, p, r);
      assert Forked1(o1, o2, b, lv, silent, n) && Alike(o2, o3, n, -1, true);
    }
  }

  /** After a test that falls through when the truth of the value is `b`, the others leaving by the
      jumps in `p`. */
  ghost function Fork(s: Snap, b: bool, t: set<nat>, f: set<nat>, p: set<nat>): View {
    if b then View(s, VTRUE, t, f + p) else View(s, VFALSE, t + p, f)
  }

  /** The view after a test that jumps when the value's truth is `cond`. */
  ghost function Branched(v: View, s: Snap, j: nat, cond: bool): View {
    Fork(s, !cond, v.t, v.f, {j})
  }

  function LeavesWith(test: Instr): Leaving { if test.TestSet? then Tested else Bare }

  /** The test looks at the value of the expression; if it has a register for it, that holds the value. */
  ghost predicate Examines(env: Env, k: seq<Value>, v: View, test: Instr, pc: nat, cond: bool, r: Regs) {
    var a, st := Ready(env, k, v.s.code, v.k, r), Step(env, k, test, pc, r);
    if a.None? then st.Throw?
    else if Truthy(a.value) == cond
    then st.Take? && (test.TestSet? ==> Get(r, test.b) == a.value)
    else st.Go?
  }

  lemma BranchRun(env: Env, k: seq<Value>, v1: View, s2: Snap, test: Instr, cond: bool, r: Regs, via: int, n: int)
    requires var b := Base(v1);
      && |s2.code| == |b.code| + 2 && s2.code[|b.code|] == test && s2.code[|b.code| + 1].Jmp?
      && Closed(s2.code[..|b.code|]) && IsTest(test) && |b.code| + 1 in s2.open
      && |b.code| + 1 !in v1.t && |b.code| + 1 !in v1.f
      && Examines(env, k, v1, test, |b.code|, cond, r)
    ensures var v2 := Branched(v1, s2, |s2.code| - 1, cond);
      Forked1(Meaning(env, k, v1, Fall(r, via)), Meaning(env, k, v2, Run(env, k, s2, |Base(v1).code|, r)), !cond,
              LeavesWith(test), false, n)
  {
    hide Step; hide Run; hide Leap;
    RunTest(env, k, s2, r);
    assert Control(s2.code, |s2.code| - 1) == test;
  }

  lemma BranchTests(env: Env, k: seq<Value>, v1: View, s2: Snap, test: Instr, cond: bool, n: int)
    requires var b := Base(v1); var j := |b.code| + 1;
      && Emits(b, s2, [test, Jmp(NO_JUMP)]) && IsTest(test) && s2.open == b.open + {j}
      && v1.t + v1.f <= b.open && Intact(v1.s.code, b.code, b.open)
      && forall k2, r | k <= k2 :: Examines(env, k2, v1, test, |b.code|, cond, r)
    ensures Tests(env, k, v1, Branched(v1, s2, |s2.code| - 1, cond), !cond, LeavesWith(test), false, n)
    ensures Carries(v1, Branched(v1, s2, |s2.code| - 1, cond))
  {
    hide Step; hide Run; hide Leap; hide PatchedAt; hide Examines; hide Control;
    var b := Base(v1);
    var j := |b.code| + 1;
    var v2 := Branched(v1, s2, j, cond);
    EmitIntact(b, s2, [test, Jmp(NO_JUMP)]);
    assert Rest(v2) == Rest(v1);
    assert j !in v1.t && j !in v1.f;
    forall k2, p: nat, r | k <= k2 && p <= |b.code|
      ensures Forked1(M(env, k2, v1, p, r), M(env, k2, v2, p, r), !cond, LeavesWith(test), false, n)
    {
      var y := Run(env, k2, b, p, r);
      if !y.Stuck? {
        EmitRuns(env, k2, b, s2, [test, Jmp(NO_JUMP)], p, r);
        if y.Fall? {
          assert Examines(env, k2, v1, test, |b.code|, cond, y.r);
          BranchRun(env, k2, v1, s2, test, cond, y.r, y.via, n);
        }
      }
    }
  }

  ghost predicate Landed1(o1: Outcome, o2: Outcome, b: bool) {
    match o1
    case Came(w, r) => o2 == Came(LandWay(b, w), r)
    case _ => o1.Broken? || o2 == o1
  }

  ghost predicate Lands(env: Env, k: seq<Value>, v1: View, v2: View, b: bool) {
    forall k2, p: nat, r {:trigger M(env, k2, v2, p, r)} | k <= k2 && p <= |Base(v1).code| ::
      Landed1(M(env, k2, v1, p, r), M(env, k2, v2, p, r), b)
  }

  /** Once a test has fallen through for truth value `b`, jumps that agree with it may come along. */
  lemma HoldLands(env: Env, k: seq<Value>, v1: View, s2: Snap, b: bool)
    requires v1.k == (if b then VTRUE else VFALSE) && v1.t !! v1.f && v1.t + v1.f <= v1.s.open
    requires Jumps(v1.s.code, v1.s.open) && v1.s.held !! v1.s.open
    requires Relinked(v1.s.code, s2.code, v1.s.held)
    requires var l := if b then v1.t else v1.f; s2.held == v1.s.held + l && s2.open == v1.s.open - l
    ensures var v2 := View(s2, v1.k, if b then {} else v1.t, if b then v1.f else {});
      Lands(env, k, v1, v2, b) && Carries(v1, v2)
  {
    hide Step; hide Run; hide Leap; hide PatchedAt;
    var l := if b then v1.t else v1.f;
    var v2 := View(s2, v1.k, if b then {} else v1.t, if b then v1.f else {});
    assert Rest(v2) == Rest(v1);
    assert Intact(v1.s.code, s2.code, v1.s.open);
    forall j, r
      ensures TestedBy(s2.code, j, r) == TestedBy(v1.s.code, j, r)
    {
      RelinkTested(v1.s.code, s2.code, v1.s.held, j, r);
    }
    assert Inert(v1.s.code, s2.code, v1.s.held + l);
    hide TestedBy; hide Relinked; hide Intact; hide Inert;
    forall k2, p: nat, r | k <= k2 && p <= |Base(v1).code|
      ensures Landed1(M(env, k2, v1, p, r), M(env, k2, v2, p, r), b)
    {
      HoldRuns(env, k2, v1.s, s2, l, p, r);
    }
  }

  lemma TestsLands(env: Env, k1: seq<Value>, k2: seq<Value>, v1: View, v2: View, v3: View, b: bool, lv: Leaving,
                   silent: bool, n: int)
    requires Tests(env, k1, v1, v2, b, lv, silent, n) && Lands(env, k2, v2, v3, b) && k1 <= k2
    requires Carries(v1, v2) && Carries(v2, v3)
    ensures Decides(env, k2, v1, v3, b, lv, silent, n) && Carries(v1, v3)
  {
    hide M;
    CarriesTrans(v1, v2, v3);
    hide Base;
    hide Intact;
    forall k3, p: nat, r | k2 <= k3 && p <= |Base(v1).code|
      ensures Decided(M(env, k3, v1, p, r), M(env, k3, v3, p, r), b, lv, silent, n)
    {
      var o1, o2, o3 := M(env, k3, v1, p, r), M(env, k3, v2, p, r), M(env, k3, v3, p, r);
      assert Forked1(o1, o2, b, lv, silent, n) && Landed1(o2, o3, b);
    }
  }

  /** The instructions to be emitted to test an expression whose value is not in a jump. */
  lemma ExaminesValue(env: Env, k: seq<Value>, v: View, e: ExpDesc, t: seq<nat>, f: seq<nat>, cond: bool, pc: nat,
                      r: Regs)
    requires Fit(v.s, k, e, t, f) && v.k == e.k
    ensures e.k.VNONRELOC? ==> Examines(env, k, v, TestSet(NO_REG, e.k.reg, cond), pc, cond, r)
    ensures e.k.VRELOCABLE? && v.s.code[e.k.pc].Not? ==>
      Examines(env, k, v, Test(v.s.code[e.k.pc].b, !cond), pc, cond, r)
    ensures e.k.VJMP? ==> Examines(env, k, v, v.s.code[e.k.pc - 1], pc, true, r)
    ensures e.k.VJMP? ==> Examines(env, k, v, Inverted(v.s.code[e.k.pc - 1]), pc, false, r)
  {
  }

  function Inverted(i: Instr): Instr { if i.Cmp? then Cmp(i.op, !i.cond, i.rb, i.rc) else i }

  /** Jumps on hold taken along by a `luaK_jump`, as when a literal decides a test: the view then has
      them among those that leave. */
  ghost predicate TakesAlong(v: View, s2: Snap, cond: bool) {
    var n := |v.s.code|;
    && v.k == (if cond then VTRUE else VFALSE) && v.t + v.f <= v.s.open && v.s.held !! v.s.open
    && Closed(v.s.code) && Jumps(v.s.code, v.s.open) && Jumps(v.s.code, v.s.held)
    && |s2.code| == n + 1 && s2.code[n].Jmp? && s2.code[..n] == v.s.code
    && s2.held == {} && s2.open == v.s.open + v.s.held + {n}
  }

  lemma TakesAlongRuns(env: Env, k: seq<Value>, v: View, s2: Snap, cond: bool, p: nat, r: Regs)
    requires TakesAlong(v, s2, cond) && !Run(env, k, v.s, p, r).Stuck?
    ensures var x, y := Run(env, k, v.s, p, r), Run(env, k, s2, p, r);
      if x.Fall? then y == Out(if x.via < 0 then |v.s.code| else x.via, x.r) else y == x
  {
    hide Step; hide Run; hide Leap;
    var n, s1 := |v.s.code|, v.s;
    var a := Snap(s1.code, {}, s1.open + s1.held);
    assert s1.open == a.open - s1.held;
    RunHold(env, k, a, s1, s1.held, p, r);
    assert Patched(a.code, {}, n, NO_REG, n) == a.code;
    assert s2.code == a.code + [s2.code[n]];
    RunEmit(env, k, a, s2, [s2.code[n]], p, r);
    var x := Run(env, k, a, p, r);
    RunHolds(env, k, a, p, r);
    if x.Fall? { RunJump(env, k, s2, n, x.r); }
  }

  /** A literal decides the test: what leaves carries what a jump on hold carries. */
  lemma AlongTests(env: Env, k: seq<Value>, v: View, s2: Snap, cond: bool, n: int)
    requires TakesAlong(v, s2, cond)
    ensures var v2 := Fork(s2, !cond, v.t, v.f, v.s.held + {|v.s.code|});
      Tests(env, k, v, v2, !cond, Along, false, n) && Carries(v, v2)
    ensures Intact(v.s.code, s2.code, v.s.open)
  {
    hide Step; hide Run; hide Leap;
    var v2 := Fork(s2, !cond, v.t, v.f, v.s.held + {|v.s.code|});
    forall j | j in v.s.open ensures s2.code[j] == v.s.code[j] && Control(s2.code, j) == Control(v.s.code, j) {
      assert s2.code[j] == s2.code[..|v.s.code|][j];
      if j >= 1 { assert s2.code[j - 1] == s2.code[..|v.s.code|][j - 1]; }
    }
    assert Rest(v2) == Rest(v);
    forall j: nat, r | j <= |v.s.code|
      ensures TestedBy(s2.code, j, r) == if j < |v.s.code| then TestedBy(v.s.code, j, r) else None
    {
      PadTested(v.s, s2, j, r);
    }
    hide TestedBy; hide Intact;
    forall k2, p: nat, r | k <= k2 && p <= |v.s.code|
      ensures Forked1(M(env, k2, v, p, r), M(env, k2, v2, p, r), !cond, Along, false, n)
    {
      RunHolds(env, k2, v.s, p, r);
      if !Run(env, k2, v.s, p, r).Stuck? {
        TakesAlongRuns(env, k2, v, s2, cond, p, r);
        NoneTested(v.s.code, NO_JUMP, r);
      }
    }
  }

  lemma NoneTested(code: seq<Instr>, j: int, r: Regs)
    requires j < 0
    ensures forall q :: TestedBy(code, j, q) == None
  {}

  lemma BranchLists(v: View, k: seq<Value>, e: ExpDesc, t: seq<nat>, f: seq<nat>, s: Snap, s2: Snap, test: Instr)
    requires Fit(v.s, k, e, t, f) && v == View(v.s, e.k, Elems(t), Elems(f)) && s == Base(v)
    requires Emits(s, s2, [test, Jmp(NO_JUMP)]) && Intact(v.s.code, s.code, s.open)
    requires s2.open == s.open + {|s.code| + 1}
    ensures var j := |s.code| + 1;
      && IsList(s2.code, e.t, t) && IsList(s2.code, e.f, f) && IsList(s2.code, j, [j]) && Elems([j]) == {j}
      && j !in t && j !in f && Elems(t) + Elems(f) + Elems([j]) <= s2.open && Closed(s2.code)
  {
    var j := |s.code| + 1;
    EmitIntact(s, s2, [test, Jmp(NO_JUMP)]);
    ListIntact(v.s.code, s.code, s.open, e.t, t);
    ListIntact(v.s.code, s.code, s.open, e.f, f);
    ListIntact(s.code, s2.code, s.open, e.t, t);
    ListIntact(s.code, s2.code, s.open, e.f, f);
    assert forall i | i in t :: i in Elems(t);
    assert forall i | i in f :: i in Elems(f);
  }

  lemma PlaceEmits(v: View, k: seq<Value>, e: ExpDesc, t: seq<nat>, f: seq<nat>, test: Instr)
    requires v.k.VJMP? && e.k == v.k && Fit(v.s, k, e, t, f) && Jumps(v.s.code, v.s.open) && IsTest(test)
    ensures var s2 := Snap(v.s.code[v.k.pc - 1 := test], v.s.held, v.s.open);
      Emits(Base(v), s2, [test, Jmp(NO_JUMP)]) && |Base(v).code| == v.k.pc - 1 && Base(v).open == v.s.open - {v.k.pc}
      && s2.open == Base(v).open + {v.k.pc} && Intact(v.s.code, Base(v).code, Base(v).open)
  {
    JmpEmits(v, k, e, t, f);
    var b, n := Base(v), v.k.pc - 1;
    assert v.s.code[n := test] == b.code + [test, Jmp(NO_JUMP)];
  }

  /** A constant needs no test to fall through. */
  lemma ConstTests(env: Env, k: seq<Value>, v1: View, b: bool, lv: Leaving, n: int)
    requires Delay(v1.k) == 0 && Jumps(v1.s.code, v1.s.open)
    requires forall k2, r | k <= k2 :: var a := Ready(env, k2, v1.s.code, v1.k, r); a.Some? && Truthy(a.value) == b
    ensures var v2 := View(v1.s, if b then VTRUE else VFALSE, v1.t, v1.f);
      Tests(env, k, v1, v2, b, lv, true, n) && Carries(v1, v2)
  {
    hide Step; hide Run; hide Leap; hide PatchedAt;
  }

  lemma ListRelinked(code1: seq<Instr>, code2: seq<Instr>, l: set<nat>, head: int, m: seq<nat>)
    requires Relinked(code1, code2, l) && Elems(m) !! l && IsList(code1, head, m)
    ensures IsList(code2, head, m)
  {
    ListMembers(code1, head, m);
    assert forall j | j in m :: j in Elems(m);
    ListFrame(code1, code2, head, m);
  }

  lemma JoinTests(env: Env, k: seq<Value>, v0: View, s1: Snap, s2: Snap, b: bool, lv: Leaving, silent: bool,
                  x: set<nat>, y: set<nat>, p: set<nat>, l: set<nat>, n: int)
    requires Tests(env, k, v0, Fork(s1, b, x, y, p), b, lv, silent, n) && Carries(v0, Fork(s1, b, x, y, p))
    requires Relinked(s1.code, s2.code, l) && s2.held == s1.held && s2.open == s1.open && l <= x + y
    requires x + y + p <= s1.open && s1.held !! s1.open && Jumps(s1.code, s1.open) && Closed(s1.code)
    ensures var v2 := Fork(s2, b, if b then x else x + p, if b then y + p else y, {});
      Tests(env, k, v0, v2, b, lv, silent, n) && Carries(v0, v2)
    ensures Closed(s2.code)
  {
    hide Step; hide Run; hide Leap; hide Tests; hide Carries;
    var v1 := Fork(s1, b, x, y, p);
    var v2 := Fork(s2, b, if b then x else x + p, if b then y + p else y, {});
    assert v2 == View(s2, v1.k, v1.t, v1.f);
    RelinkKeeps(env, k, v1, v2, l, n, -1);
    TestsKeeps(env, k, k, v0, v1, v2, b, lv, silent, n);
    JoinClosed(s1.code, s2.code, l);
  }

  lemma JoinClosed(code1: seq<Instr>, code2: seq<Instr>, l: set<nat>)
    requires Relinked(code1, code2, l) && Closed(code1)
    ensures Closed(code2)
  {
  }
}
