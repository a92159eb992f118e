/**
  Putting the value of an expression where it is wanted: in a register, however it is come by.
 */
module Delivering {
  import opened Basics
  import opened Bytecode
  import opened JumpLists
  import opened Views

  lemma MPlain(env: Env, k: seq<Value>, v: View, p: nat, r: Regs)
    requires Delay(v.k) == 0
    ensures M(env, k, v, p, r) == Meaning(env, k, v, Run(env, k, v.s, p, r))
  {
  }

  lemma RunLast(env: Env, k: seq<Value>, s: Snap, i: Instr, r: Regs, r': Regs)
    requires s.code != [] && s.code[|s.code| - 1] == i && !IsTest(i) && Closed(s.code[..|s.code| - 1])
    requires Step(env, k, i, |s.code| - 1, r) == Go(|s.code|, r')
    ensures Run(env, k, s, |s.code| - 1, r) == Fall(r', NO_JUMP)
  {
    hide Step;
    assert Run(env, k, s, |s.code|, r') == Fall(r', NO_JUMP);
  }

  /** The instruction that puts a value of this kind in `reg`; `c` is the constant index of a numeral. */
  ghost function StoreInstr(code: seq<Instr>, kind: Kind, reg: nat, c: nat): Instr {
    match kind
    case VTRUE => LoadBool(reg, true, false)
    case VFALSE => LoadBool(reg, false, false)
    case VK(info) => LoadK(reg, info)
    case VKNUM(_) => LoadK(reg, c)
    case VNONRELOC(from) => Move(reg, from)
    case VRELOCABLE(pc) => if pc < |code| then Filled(code[pc], reg) else Move(reg, reg)
    case _ => Move(reg, reg)
  }

  function Filled(i: Instr, reg: nat): Instr {
    match i
    case Not(_, b) => Not(reg, b)
    case GetUpval(_, u) => GetUpval(reg, u)
    case _ => i
  }

  lemma StoreStep(env: Env, k: seq<Value>, v: View, e: ExpDesc, t: seq<nat>, f: seq<nat>, reg: nat, c: nat, pc: nat,
                  r: Regs)
    requires Fit(v.s, k, e, t, f) && v.k == e.k && !e.k.VLOCAL? && !e.k.VUPVAL? && !e.k.VJMP?
    requires e.k.VKNUM? ==> c < |k| && k[c] == Num(e.k.nval)
    ensures var i := StoreInstr(v.s.code, v.k, reg, c);
      var a := Ready(env, k, v.s.code, v.k, r);
      !IsTest(i) && !i.Jmp? && a.Some? && Step(env, k, i, pc, r) == Go(pc + 1, r[reg := a.value])
  {
    hide Run; hide Leap; hide PatchedAt; hide IsList; hide NoDup;
  }

  lemma StoreKeeps(env: Env, k: seq<Value>, v1: View, v2: View, e: ExpDesc, t: seq<nat>, f: seq<nat>, reg: nat, c: nat,
                   n: int)
    requires Fit(v1.s, k, e, t, f) && v1 == View(v1.s, e.k, Elems(t), Elems(f))
    requires !e.k.VLOCAL? && !e.k.VUPVAL? && !e.k.VJMP? && (e.k.VKNUM? ==> c < |k| && k[c] == Num(e.k.nval))
    requires Emits(Base(v1), v2.s, [StoreInstr(v1.s.code, v1.k, reg, c)]) && v2.k == VNONRELOC(reg)
    requires v2.t == v1.t && v2.f == v1.f && v2.s.open == Base(v1).open
    requires Intact(v1.s.code, Base(v1).code, Base(v1).open)
    ensures Carries(v1, v2)
    ensures Keeps(env, k, v1, v2, n, reg)
    ensures Fit(v2.s, k, ExpDesc(v2.k, e.t, e.f), t, f) && Closed(v2.s.code)
  {
    hide Step; hide Run; hide Leap; hide PatchedAt; hide StoreInstr; hide IsList; hide NoDup;
    var s := Base(v1);
    var i := StoreInstr(v1.s.code, v1.k, reg, c);
    EmitIntact(s, v2.s, [i]);
    ListsIntact(k, k, v1, v2, e, ExpDesc(v2.k, e.t, e.f), t, f);
    StoreStep(env, k, v1, e, t, f, reg, c, 0, map[]);
    hide Fit; hide Emits; hide Intact; hide Closed;
    forall k2, p: nat, r | k <= k2 && p <= |s.code|
      ensures Alike(M(env, k2, v1, p, r), M(env, k2, v2, p, r), n, reg, v2.s.held == v1.s.held)
    {
      StoreAt(env, k, v1, v2, e, t, f, reg, c, n, k2, p, r);
    }
  }

  lemma StoreAt(env: Env, k: seq<Value>, v1: View, v2: View, e: ExpDesc, t: seq<nat>, f: seq<nat>, reg: nat, c: nat,
                n: int,
                k2: seq<Value>, p: nat, r: Regs)
    requires Fit(v1.s, k, e, t, f) && v1 == View(v1.s, e.k, Elems(t), Elems(f)) && k <= k2
    requires !e.k.VLOCAL? && !e.k.VUPVAL? && !e.k.VJMP? && (e.k.VKNUM? ==> c < |k| && k[c] == Num(e.k.nval))
    requires Emits(Base(v1), v2.s, [StoreInstr(v1.s.code, v1.k, reg, c)]) && v2.k == VNONRELOC(reg)
    requires v2.t == v1.t && v2.f == v1.f && Intact(v1.s.code, v2.s.code, Base(v1).open) && v1.t + v1.f <= Base(v1).open
    requires !IsTest(StoreInstr(v1.s.code, v1.k, reg, c))
    ensures Alike(M(env, k2, v1, p, r), M(env, k2, v2, p, r), n, reg, v2.s.held == v1.s.held)
  {
    hide Step; hide Run; hide Leap; hide PatchedAt; hide StoreInstr; hide IsList; hide NoDup; hide Ready;
    hide Meaning; hide Alike;
    var s, i, x := Base(v1), StoreInstr(v1.s.code, v1.k, reg, c), Run(env, k2, Base(v1), p, r);
    EmitIntact(s, v2.s, [i]);
    RunHolds(env, k2, s, p, r);
    MPlain(env, k2, v2, p, r);
    if !x.Stuck? {
      EmitRuns(env, k2, s, v2.s, [i], p, r);
    }
    assert v2.s.held == {} && (x.Fall? && v1.s.held == {} ==> x.via == NO_JUMP);
    hide Emits; hide Closed; hide Control; hide Intact; hide Base;
    if x.Fall? {
      assert v2.s.code[|s.code|] == v2.s.code[|s.code|..][0];
      StoreStep(env, k2, v1, e, t, f, reg, c, |s.code|, x.r);
      hide Fit;
      RunLast(env, k2, v2.s, i, x.r, x.r[reg := Ready(env, k2, v1.s.code, v1.k, x.r).value]);
    }
    hide Fit;
    StoreMeaning(env, k2, v1, v2, x, Run(env, k2, v2.s, p, r), reg, n);
  }

  lemma StoreMeaning(env: Env, k: seq<Value>, v1: View, v2: View, x: Exit, y: Exit, reg: nat, n: int)
    requires v2.k == VNONRELOC(reg) && v2.t == v1.t && v2.f == v1.f
    requires v1.t + v1.f <= Base(v1).open && Intact(v1.s.code, v2.s.code, Base(v1).open)
    requires x.Out? ==> x.j in Base(v1).open
    requires if x.Stuck? then true
      else if x.Fall?
      then var a := Ready(env, k, v1.s.code, v1.k, x.r); a.Some? && y == Fall(x.r[reg := a.value], NO_JUMP)
      else y == x
    requires v2.s.held == {} && (x.Fall? && v1.s.held == {} ==> x.via == NO_JUMP)
    ensures Alike(Meaning(env, k, v1, x), Meaning(env, k, v2, y), n, reg, v2.s.held == v1.s.held)
  {
    ReadyReg(env, k, v2.s.code, reg, if y.Fall? then y.r else map[]);
    hide Ready; hide Base;
  }

  lemma ReadyReg(env: Env, k: seq<Value>, code: seq<Instr>, reg: nat, r: Regs)
    ensures Ready(env, k, code, VNONRELOC(reg), r) == Some(Get(r, reg))
  {
  }

  /** A test at the end of the code with its open jump. */
  lemma RunTest(env: Env, k: seq<Value>, s: Snap, r: Regs)
    requires |s.code| >= 2 && IsTest(s.code[|s.code| - 2]) && s.code[|s.code| - 1].Jmp?
    requires |s.code| - 1 in s.open && Closed(s.code[..|s.code| - 2])
    ensures var n := |s.code| - 2;
      Run(env, k, s, n, r) == match Step(env, k, s.code[n], n, r)
        case Go(_, _) => Fall(r, NO_JUMP)
        case Take(_, _, _) => Out(n + 1, r)
        case Throw => Raise
        case Bad => Stuck
  {
    assert Run(env, k, s, |s.code|, r) == Fall(r, NO_JUMP);
  }

  /** The view of a comparison once its jump counts as placed: true through the jump, else false. */
  function Placed(v: View): View
    requires v.k.VJMP?
  {
    View(v.s, VFALSE, v.t + {v.k.pc}, v.f)
  }

  lemma JmpEmits(v: View, k: seq<Value>, e: ExpDesc, t: seq<nat>, f: seq<nat>)
    requires v.k.VJMP? && e.k == v.k && Fit(v.s, k, e, t, f) && Jumps(v.s.code, v.s.open)
    ensures var n := v.k.pc - 1;
      Emits(Base(v), v.s, v.s.code[n..]) && |Base(v).code| == n && Base(v).open == v.s.open - {v.k.pc}
      && Intact(v.s.code, Base(v).code, Base(v).open)
  {
    var b, n := Base(v), v.k.pc - 1;
    assert b.open == v.s.open - {v.k.pc};
    assert Patched(b.code, {}, n, NO_REG, n) == b.code;
    assert v.s.code == b.code + v.s.code[n..];
  }

  lemma RunCompare(env: Env, k: seq<Value>, s: Snap, pc: nat, r: Regs)
    requires |s.code| == pc + 1 && pc >= 1 && s.code[pc].Jmp? && s.code[pc - 1].Cmp? && pc in s.open
    requires Closed(s.code[..pc - 1])
    ensures Run(env, k, s, pc - 1, r) == match Ready(env, k, s.code, VJMP(pc), r)
      case None => Raise
      case Some(a) => if Truthy(a) then Out(pc, r) else Fall(r, NO_JUMP)
  {
    hide Run;
    RunTest(env, k, s, r);
  }

  lemma PlacedYields(env: Env, k: seq<Value>, v: View, e: ExpDesc, t: seq<nat>, f: seq<nat>, n: int, x: int)
    requires v.k.VJMP? && e.k == v.k && Fit(v.s, k, e, t, f) && Jumps(v.s.code, v.s.open)
    requires v.t == Elems(t) && v.f == Elems(f)
    ensures Carries(v, Placed(v))
    ensures Yields(env, k, v, Placed(v), n, x)
  {
    hide Step; hide Run; hide Leap; hide PatchedAt; hide IsList; hide NoDup;
    var b, pc, v2 := Base(v), v.k.pc, Placed(v);
    JmpEmits(v, k, e, t, f);
    EmitIntact(b, v.s, v.s.code[pc - 1..]);
    forall k2, p: nat, r | k <= k2 && p <= |b.code|
      ensures Yielded(M(env, k2, v, p, r), M(env, k2, v2, p, r), n, x)
    {
      var y := Run(env, k2, b, p, r);
      if !y.Stuck? {
        EmitRuns(env, k2, b, v.s, v.s.code[pc - 1..], p, r);
        if y.Fall? { RunCompare(env, k2, v.s, pc, y.r); }
      }
    }
  }

  /** Putting open jumps on hold. */
  lemma HoldRuns(env: Env, k: seq<Value>, s1: Snap, s2: Snap, l: set<nat>, p: nat, r: Regs)
    requires l <= s1.open && Inert(s1.code, s2.code, s1.held + l)
    requires s2.held == s1.held + l && s2.open == s1.open - l
    ensures Run(env, k, s2, p, r) == Held(Run(env, k, s1, p, r), l)
  {
    hide Step; hide Run; hide Leap;
    var m := Snap(s2.code, s1.held, s1.open);
    RunInert(env, k, s1, m, s1.held + l, p, r);
    RunHold(env, k, m, s2, l, p, r);
  }

  /** Code jumped over by everything that reaches the end is as good as absent. */
  lemma PadRuns(env: Env, k: seq<Value>, s1: Snap, s2: Snap, pad: seq<Instr>, p: nat, r: Regs)
    requires |s2.code| == |s1.code| + |pad| && |pad| > 0 && pad[0].Jmp? && s2.code[|s1.code|..] == pad
    requires Inert(s1.code, s2.code[..|s1.code|], s1.held) && s1.held !! s1.open && Closed(s1.code)
    requires Jumps(s1.code, s1.held) && Jumps(s1.code, s1.open)
    requires s2.held == s1.held + {|s1.code|} && s2.open == s1.open
    requires !Run(env, k, s1, p, r).Stuck?
    ensures var x := Run(env, k, s1, p, r);
      Run(env, k, s2, p, r) == if x.Fall? && x.via == NO_JUMP then Fall(x.r, |s1.code|) else x
  {
    hide Step; hide Run; hide Leap;
    var n := |s1.code|;
    var a := Snap(s2.code[..n], {}, s1.open + s1.held);
    var a' := Snap(a.code, s1.held, s1.open);
    var b := Snap(s2.code, {}, s1.open + s1.held + {n});
    RunInert(env, k, s1, a', s1.held, p, r);
    assert a'.open == a.open - s1.held;
    RunHold(env, k, a, a', s1.held, p, r);
    assert Patched(a.code, {}, n, NO_REG, n) == a.code;
    assert s2.code == a.code + pad;
    var x := Run(env, k, a, p, r);
    RunHolds(env, k, a, p, r);
    RunHolds(env, k, s1, p, r);
    RunEmit(env, k, a, b, pad, p, r);
    assert s2.open == b.open - (s1.held + {n});
    RunHold(env, k, b, s2, s1.held + {n}, p, r);
    if x.Fall? { RunJump(env, k, b, n, x.r); }
  }

  lemma RunJump(env: Env, k: seq<Value>, s: Snap, n: nat, r: Regs)
    requires n < |s.code| && s.code[n].Jmp? && n in s.open && Closed(s.code[..n])
    ensures Run(env, k, s, n, r) == Out(n, r)
  {
  }

  /** The pair of loads that ends an expression whose value some jumps do not deliver. */
  lemma RunLoads(env: Env, k: seq<Value>, s: Snap, n: nat, reg: nat, r: Regs)
    requires |s.code| == n + 2 && Closed(s.code[..n])
    requires s.code[n] == LoadBool(reg, false, true) && s.code[n + 1] == LoadBool(reg, true, false)
    ensures Run(env, k, s, n, r) == Fall(r[reg := Bool(false)], NO_JUMP)
    ensures Run(env, k, s, n + 1, r) == Fall(r[reg := Bool(true)], NO_JUMP)
  {
    assert Run(env, k, s, n + 2, r[reg := Bool(false)]) == Fall(r[reg := Bool(false)], NO_JUMP);
    assert Run(env, k, s, n + 2, r[reg := Bool(true)]) == Fall(r[reg := Bool(true)], NO_JUMP);
  }

  /** What is left to do on leaving an expression: deliver the value in register `reg`. The code of
      `v1` has been completed to `s2`; patching both lists makes every way out deliver it. */
  ghost predicate Completes(v1: View, s2: Snap, reg: nat, pf: int, pt: int) {
    && Closed(s2.code) && Jumps(s2.code, s2.open) && s2.held !! s2.open && v1.t !! v1.f
    && |v1.s.code| <= |s2.code| && v1.t + v1.f <= v1.s.open && s2.open == v1.s.open
      && Intact(v1.s.code, s2.code, v1.s.open)
    && (if pf == NO_JUMP then forall j | j in v1.t + v1.f :: Control(s2.code, j).TestSet?
        else pf >= |v1.s.code| && pf + 2 == |s2.code| && pt == pf + 1 && Closed(s2.code[..pf])
             && s2.code[pf] == LoadBool(reg, false, true) && s2.code[pt] == LoadBool(reg, true, false))
  }

  lemma PatchIntact(s: Snap, s': Snap, l: set<nat>, v: int, reg: int, d: int)
    requires Patches(s, s', l, v, reg, d) && Jumps(s.code, s.open)
    ensures Intact(s.code, s'.code, s'.open)
    ensures forall i | 0 <= i < |s.code| && !s.code[i].Jmp? && !s.code[i].TestSet? :: s'.code[i] == s.code[i]
    ensures forall n | 0 <= n <= |s.code| :: Closed(s'.code[..n]) == Closed(s.code[..n])
  {
    PatchedTests(s.code, l, v, reg, d);
    forall j | j in s'.open
      ensures s'.code[j] == s.code[j] && Control(s'.code, j) == Control(s.code, j)
    {
      assert s'.code[j] == PatchedAt(s.code, l, v, reg, d, j);
      if j >= 1 { assert s'.code[j - 1] == PatchedAt(s.code, l, v, reg, d, j - 1); }
    }
  }

  /** A jump that is not patched is decided as before. */
  lemma PatchElsewhere(s: Snap, s': Snap, l: set<nat>, v: int, reg: int, d: int, i: nat)
    requires s'.code == Patched(s.code, l, v, reg, d) && i < |s.code| && s.code[i].Jmp? && i !in l
    ensures s'.code[i] == s.code[i] && Control(s'.code, i) == Control(s.code, i)
  {
    PatchedTests(s.code, l, v, reg, d);
    assert s'.code[i] == PatchedAt(s.code, l, v, reg, d, i);
    if i >= 1 { assert s'.code[i - 1] == PatchedAt(s.code, l, v, reg, d, i - 1); }
  }

  /** A patched jump delivers what it carried. */
  lemma Delivered(env: Env, k: seq<Value>, s2: Snap, s3: Snap, l: set<nat>, b: bool, reg: nat, d: int, j: nat, r: Regs)
    requires Patches(s2, s3, l, |s2.code|, reg, d) && j in l && Closed(s3.code)
    requires Control(s2.code, j).TestSet?
      || (0 <= d && forall q :: Run(env, k, s3, d, q) == Fall(q[reg := Bool(b)], NO_JUMP))
    ensures var y := Redirected(env, k, Out(j, r), s2, s3, l, |s2.code|, reg, d);
      y.Fall? && y.via == NO_JUMP && Get(y.r, reg) == ValueOf(Via(b, TestedBy(s2.code, j, r)))
      && forall i | i != reg :: Get(y.r, i) == Get(r, i)
  {
    hide Step; hide Run; hide Leap; hide PatchedAt;
    var q := Landed(s2.code, j, r, reg);
    RunEnd(env, k, s3, q);
    assert |s3.code| == |s2.code|;
    if !Control(s2.code, j).TestSet? {
      assert Run(env, k, s3, d, q) == Fall(q[reg := Bool(b)], NO_JUMP);
    }
  }

  /** Completed code leaves the expression's value in `reg` where the expression left its code at the
      end, and is otherwise left as before. */
  ghost predicate Finishes(env: Env, k: seq<Value>, v1: View, s2: Snap, reg: nat, p: nat, r: Regs) {
    var x1, x2 := Run(env, k, v1.s, p, r), Run(env, k, s2, p, r);
    if x1.Stuck? then true
    else if x1.Fall?
    then var a := Ready(env, k, v1.s.code, v1.k, x1.r);
         && a.Some? && x2.Fall? && Get(x2.r, reg) == a.value && (forall i | i != reg :: Get(x2.r, i) == Get(x1.r, i))
         && var c := TestedBy(s2.code, x2.via, x2.r); c.Some? ==> c == TestedBy(v1.s.code, x1.via, x1.r)
    else x2 == x1
  }

  lemma FinishRuns(env: Env, k: seq<Value>, v1: View, s2: Snap, s3: Snap, s4: Snap, reg: nat, pf: int, pt: int, p: nat,
                   r: Regs)
    requires Completes(v1, s2, reg, pf, pt) && Delay(v1.k) == 0
    requires Patches(s2, s3, v1.f, |s2.code|, reg, pf) && Patches(s3, s4, v1.t, |s2.code|, reg, pt)
    requires Finishes(env, k, v1, s2, reg, p, r)
    requires |s4.code| == |s2.code| && Jumps(s2.code, s2.held)
    requires forall j | j in s2.held && j < |s2.code| :: Control(s4.code, j) == Control(s2.code, j)
    ensures forall n :: Yielded(M(env, k, v1, p, r), M(env, k, View(s4, VNONRELOC(reg), {}, {}), p, r), n, reg)
  {
    hide Step; hide Run; hide Leap; hide PatchedAt; hide Redirected; hide Patches;
    if !Run(env, k, v1.s, p, r).Stuck? {
      RunHolds(env, k, s2, p, r);
      FinishFalse(env, k, v1, s2, s3, reg, pf, pt, p, r);
      FinishTrue(env, k, v1, s2, s3, s4, reg, pf, pt, p, r);
      var x := Run(env, k, s2, p, r);
      if x.Fall? { assert TestedBy(s4.code, x.via, x.r) == TestedBy(s2.code, x.via, x.r); }
    }
  }

  lemma CompletesPatches(v: View, s2: Snap, s3: Snap, s4: Snap, reg: nat, pf: int, pt: int)
    requires Completes(v, s2, reg, pf, pt)
    requires s3 == Snap(Patched(s2.code, v.f, |s2.code|, reg, pf), s2.held, s2.open - v.f)
    requires s4 == Snap(Patched(s3.code, v.t, |s2.code|, reg, pt), s2.held, s3.open - v.t)
    ensures Patches(s2, s3, v.f, |s2.code|, reg, pf) && Patches(s3, s4, v.t, |s2.code|, reg, pt)
    ensures Jumps(s4.code, s4.open) && Closed(s4.code)
    ensures Intact(s2.code, s3.code, s3.open) && Intact(s2.code, s4.code, s4.open)
    ensures forall i | 0 <= i < |s2.code| && s2.code[i].Jmp? && i !in v.t + v.f ::
      s4.code[i] == s2.code[i] && Control(s4.code, i) == Control(s2.code, i)
  {
    PatchIntact(s2, s3, v.f, |s2.code|, reg, pf);
    PatchIntact(s3, s4, v.t, |s2.code|, reg, pt);
    assert s2.code[..|s2.code|] == s2.code && s4.code[..|s2.code|] == s4.code && s3.code[..|s2.code|] == s3.code;
    forall i | 0 <= i < |s2.code| && s2.code[i].Jmp? && i !in v.t + v.f
      ensures s4.code[i] == s2.code[i] && Control(s4.code, i) == Control(s2.code, i)
    {
      PatchElsewhere(s2, s3, v.f, |s2.code|, reg, pf, i);
      PatchElsewhere(s3, s4, v.t, |s2.code|, reg, pt, i);
    }
  }

  lemma FinishYields(env: Env, k: seq<Value>, v: View, s2: Snap, s3: Snap, s4: Snap, reg: nat, pf: int, pt: int, n: int)
    requires Completes(v, s2, reg, pf, pt) && Delay(v.k) == 0
    requires s3 == Snap(Patched(s2.code, v.f, |s2.code|, reg, pf), s2.held, s2.open - v.f)
    requires s4 == Snap(Patched(s3.code, v.t, |s2.code|, reg, pt), s2.held, s3.open - v.t)
    requires (forall k2, p, r :: Finishes(env, k2, v, s2, reg, p, r)) && Jumps(s2.code, s2.held)
    ensures Carries(v, View(s4, VNONRELOC(reg), {}, {}))
    ensures Yields(env, k, v, View(s4, VNONRELOC(reg), {}, {}), n, reg)
  {
    hide Step; hide Run; hide Leap; hide PatchedAt; hide Finishes; hide Patches; hide Completes;
    CompletesPatches(v, s2, s3, s4, reg, pf, pt);
    CompletesIntact(v, s2, reg, pf, pt);
    var v2 := View(s4, VNONRELOC(reg), {}, {});
    assert Rest(v2) == Rest(v);
    forall k2, p: nat, r | k <= k2 && p <= |Base(v).code|
      ensures Yielded(M(env, k2, v, p, r), M(env, k2, v2, p, r), n, reg)
    {
      assert Finishes(env, k2, v, s2, reg, p, r);
      FinishRuns(env, k2, v, s2, s3, s4, reg, pf, pt, p, r);
    }
  }

  lemma CompletesIntact(v: View, s2: Snap, reg: nat, pf: int, pt: int)
    requires Completes(v, s2, reg, pf, pt)
    ensures Intact(v.s.code, s2.code, v.s.open) && s2.open == v.s.open && |v.s.code| <= |s2.code|
  {
  }

  lemma FinishFalse(env: Env, k: seq<Value>, v1: View, s2: Snap, s3: Snap, reg: nat, pf: int, pt: int, p: nat, r: Regs)
    requires Completes(v1, s2, reg, pf, pt)
    requires Patches(s2, s3, v1.f, |s2.code|, reg, pf) && !Run(env, k, s2, p, r).Stuck?
    ensures var x, y := Run(env, k, s2, p, r), Run(env, k, s3, p, r);
      if x.Out? && x.j in v1.f
      then y.Fall? && y.via == NO_JUMP && Get(y.r, reg) == ValueOf(Via(false, TestedBy(s2.code, x.j, x.r)))
           && forall i | i != reg :: Get(y.r, i) == Get(x.r, i)
      else y == x
  {
    hide Step; hide Run; hide Leap; hide PatchedAt;
    PatchIntact(s2, s3, v1.f, |s2.code|, reg, pf);
    assert s2.code[..|s2.code|] == s2.code && s3.code[..|s2.code|] == s3.code;
    RunPatch(env, k, s2, s3, v1.f, |s2.code|, reg, pf, p, r);
    var x := Run(env, k, s2, p, r);
    if x.Out? && x.j in v1.f {
      if pf != NO_JUMP {
        forall q
          ensures Run(env, k, s3, pf, q) == Fall(q[reg := Bool(false)], NO_JUMP)
        {
          RunLoads(env, k, s3, pf, reg, q);
        }
      }
      Delivered(env, k, s2, s3, v1.f, false, reg, pf, x.j, x.r);
    }
  }

  lemma FinishTrue(env: Env, k: seq<Value>, v1: View, s2: Snap, s3: Snap, s4: Snap, reg: nat, pf: int, pt: int, p: nat,
                   r: Regs)
    requires Completes(v1, s2, reg, pf, pt)
    requires Patches(s2, s3, v1.f, |s2.code|, reg, pf) && Patches(s3, s4, v1.t, |s2.code|, reg, pt)
    requires !Run(env, k, s3, p, r).Stuck?
    ensures var x, y := Run(env, k, s3, p, r), Run(env, k, s4, p, r);
      if x.Out? && x.j in v1.t
      then y.Fall? && y.via == NO_JUMP && Get(y.r, reg) == ValueOf(Via(true, TestedBy(s2.code, x.j, x.r)))
           && forall i | i != reg :: Get(y.r, i) == Get(x.r, i)
      else y == x
  {
    hide Step; hide Run; hide Leap; hide PatchedAt;
    PatchIntact(s2, s3, v1.f, |s2.code|, reg, pf);
    PatchIntact(s3, s4, v1.t, |s2.code|, reg, pt);
    assert s2.code[..|s2.code|] == s2.code && s4.code[..|s2.code|] == s4.code;
    RunPatch(env, k, s3, s4, v1.t, |s2.code|, reg, pt, p, r);
    var x := Run(env, k, s3, p, r);
    if x.Out? && x.j in v1.t {
      if pf != NO_JUMP {
        forall q
          ensures Run(env, k, s4, pt, q) == Fall(q[reg := Bool(true)], NO_JUMP)
        {
          RunLoads(env, k, s4, pf, reg, q);
        }
      }
      Delivered(env, k, s3, s4, v1.t, true, reg, pt, x.j, x.r);
    }
  }

  lemma RunEnd(env: Env, k: seq<Value>, s: Snap, r: Regs)
    requires Closed(s.code)
    ensures Run(env, k, s, |s.code|, r) == Fall(r, NO_JUMP)
  {
  }

  /** Only the offsets of unresolved jumps differ. */
  ghost predicate Relinked(code1: seq<Instr>, code2: seq<Instr>, l: set<nat>) {
    && |code2| == |code1|
    && forall i: nat | i < |code1| :: if i in l then code1[i].Jmp? && code2[i].Jmp? else code2[i] == code1[i]
  }

  lemma RelinkKeeps(env: Env, k: seq<Value>, v1: View, v2: View, l: set<nat>, n: int, x: int)
    requires Relinked(v1.s.code, v2.s.code, l) && l <= v1.t + v1.f + v1.s.held && v1.t + v1.f <= Base(v1).open
    requires Delay(v1.k) <= |v1.s.code| && (Delay(v1.k) > 0 ==> v1.s.held == {})
    requires v2 == View(Snap(v2.s.code, v1.s.held, v1.s.open), v1.k, v1.t, v1.f)
    requires v1.s.held !! v1.s.open && Jumps(v1.s.code, v1.s.open)
    requires v1.k.VJMP? ==> v1.k.pc + 1 == |v1.s.code|
    requires v1.k.VRELOCABLE? ==> !v1.s.code[|v1.s.code| - 1].Jmp?
    ensures Carries(v1, v2)
    ensures Keeps(env, k, v1, v2, n, x)
  {
    hide Step; hide Run; hide Leap;
    var b1, b2 := Base(v1), Base(v2);
    assert Inert(b1.code, b2.code, l) && l <= b1.held + b1.open && b2.held == b1.held && b2.open == b1.open;
    forall j, r
      ensures TestedBy(v2.s.code, j, r) == TestedBy(v1.s.code, j, r)
    {
      RelinkTested(v1.s.code, v2.s.code, l, j, r);
    }
    forall k2, r ensures Ready(env, k2, v2.s.code, v2.k, r) == Ready(env, k2, v1.s.code, v1.k, r) {}
    forall k2, p: nat, r | k <= k2
      ensures Run(env, k2, b2, p, r) == Run(env, k2, b1, p, r)
    {
      RunInert(env, k2, b1, b2, l, p, r);
    }
    assert Rest(v2) == Rest(v1);
    assert Intact(v1.s.code, v2.s.code, Rest(v1)) by {
      assert forall j | j in Rest(v1) :: j !in l;
    }
    hide Inert; hide Relinked; hide Intact; hide TestedBy; hide Ready; hide Base;
  }

  lemma RelinkTested(code1: seq<Instr>, code2: seq<Instr>, l: set<nat>, j: int, r: Regs)
    requires Relinked(code1, code2, l)
    ensures TestedBy(code2, j, r) == TestedBy(code1, j, r)
  {}

  lemma NoLoads(env: Env, v: View, reg: nat, t: seq<nat>, f: seq<nat>)
    requires Closed(v.s.code) && Jumps(v.s.code, v.s.open) && v.s.held !! v.s.open
    requires v.t == Elems(t) && v.f == Elems(f) && v.t !! v.f && v.t + v.f <= v.s.open
    requires forall j | j in t && j < |v.s.code| :: Control(v.s.code, j).TestSet?
    requires forall j | j in f && j < |v.s.code| :: Control(v.s.code, j).TestSet?
    requires v.k == VNONRELOC(reg)
    ensures Completes(v, v.s, reg, NO_JUMP, NO_JUMP)
    ensures forall k2, p, r :: Finishes(env, k2, v, v.s, reg, p, r)
  {
    hide Step; hide Run; hide Leap; hide PatchedAt;
  }

  lemma LoadsComplete(v: View, s2: Snap, reg: nat, pad: nat)
    requires Closed(v.s.code) && Jumps(v.s.code, v.s.open) && Jumps(v.s.code, v.s.held) && v.s.held !! v.s.open
    requires v.t !! v.f && v.t + v.f <= v.s.open && s2.open == v.s.open
    requires |s2.code| == |v.s.code| + pad + 2 && s2.code[..|v.s.code|] == v.s.code
    requires pad == 0 || (pad == 1 && s2.code[|v.s.code|].Jmp?)
    requires s2.held == if pad == 0 then {} else v.s.held + {|v.s.code|}
    requires s2.code[|v.s.code| + pad] == LoadBool(reg, false, true)
    requires s2.code[|v.s.code| + pad + 1] == LoadBool(reg, true, false)
    ensures Completes(v, s2, reg, |v.s.code| + pad, |v.s.code| + pad + 1)
  {
    var n := |v.s.code|;
    assert forall i | 0 <= i < n :: s2.code[i] == v.s.code[i];
  }

  /** What is added behind carries nothing, and what is there carries what it did. */
  lemma PadTested(s1: Snap, s2: Snap, j: int, r: Regs)
    requires Closed(s1.code) && |s2.code| >= |s1.code| && s2.code[..|s1.code|] == s1.code && 0 <= j <= |s1.code|
    requires |s2.code| > |s1.code| && s2.code[|s1.code|].Jmp?
    ensures TestedBy(s2.code, j, r) == if j < |s1.code| then TestedBy(s1.code, j, r) else None
  {
    if j < |s1.code| { assert s2.code[j] == s2.code[..|s1.code|][j]; }
    if j >= 1 { assert s2.code[j - 1] == s2.code[..|s1.code|][j - 1]; }
  }

  /** Running into the loads with a value that is not the outcome of a jump: they are skipped, or,
      after a comparison that did not jump, give false. */
  lemma LoadsFinish(env: Env, k: seq<Value>, v: View, s2: Snap, reg: nat, p: nat, r: Regs)
    requires Closed(v.s.code) && Jumps(v.s.code, v.s.open) && Jumps(v.s.code, v.s.held) && v.s.held !! v.s.open
    requires s2.open == v.s.open && |s2.code| >= |v.s.code| && s2.code[..|v.s.code|] == v.s.code
    requires if v.k == VFALSE
      then v.s.held == s2.held == {}
        && s2.code[|v.s.code|..] == [LoadBool(reg, false, true), LoadBool(reg, true, false)]
      else v.k == VNONRELOC(reg) && s2.held == v.s.held + {|v.s.code|} && s2.code[|v.s.code|..] != []
           && s2.code[|v.s.code|].Jmp?
    ensures Finishes(env, k, v, s2, reg, p, r)
  {
    hide Step; hide Run; hide Leap;
    var n, x := |v.s.code|, Run(env, k, v.s, p, r);
    if !x.Stuck? {
      if v.k == VFALSE {
        assert Patched(v.s.code, {}, n, NO_REG, n) == v.s.code;
        assert s2.code == v.s.code + s2.code[n..];
        RunEmit(env, k, v.s, s2, s2.code[n..], p, r);
        if x.Fall? { RunLoads(env, k, s2, n, reg, x.r); }
      } else {
        PadRuns(env, k, v.s, s2, s2.code[n..], p, r);
        RunHolds(env, k, v.s, p, r);
        if x.Fall? { PadTested(v.s, s2, if x.via == NO_JUMP then n else x.via, x.r); }
      }
    }
  }

  lemma AfterLoads(env: Env, v: View, s2: Snap, reg: nat, pad: nat, tl: int, t: seq<nat>, fl: int, f: seq<nat>)
    requires Closed(v.s.code) && Jumps(v.s.code, v.s.open) && Jumps(v.s.code, v.s.held) && v.s.held !! v.s.open
    requires v.t == Elems(t) && v.f == Elems(f) && v.t !! v.f && v.t + v.f <= v.s.open && s2.open == v.s.open
    requires IsList(v.s.code, tl, t) && IsList(v.s.code, fl, f)
    requires |s2.code| == |v.s.code| + pad + 2 && s2.code[..|v.s.code|] == v.s.code
    requires pad <= 1 && (pad == 1 ==> s2.code[|v.s.code|].Jmp?)
    requires s2.held == if pad == 0 then {} else v.s.held + {|v.s.code|}
    requires s2.code[|v.s.code| + pad] == LoadBool(reg, false, true)
    requires s2.code[|v.s.code| + pad + 1] == LoadBool(reg, true, false)
    requires if pad == 0 then v.k == VFALSE && v.s.held == {} else v.k == VNONRELOC(reg)
    ensures Completes(v, s2, reg, |v.s.code| + pad, |v.s.code| + pad + 1)
    ensures IsList(s2.code, tl, t) && IsList(s2.code, fl, f)
    ensures forall k2, p, r :: Finishes(env, k2, v, s2, reg, p, r)
  {
    hide Step; hide Run; hide Leap; hide PatchedAt; hide Finishes;
    LoadsComplete(v, s2, reg, pad);
    ListIntact(v.s.code, s2.code, v.s.open, tl, t);
    ListIntact(v.s.code, s2.code, v.s.open, fl, f);
    forall k2, p, r ensures Finishes(env, k2, v, s2, reg, p, r) {
      LoadsFinish(env, k2, v, s2, reg, p, r);
    }
  }
}
