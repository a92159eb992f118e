/**
  Expressions in the making: the code generator's descriptors, what the code emitted so far means for
  them, and what may be done to the code without changing that.
 */
module Views {
  import opened Basics
  import opened Bytecode
  import opened JumpLists

  const MAXINDEXRK: nat := 255

  /** Where the value of an expression is, or how it can be had. */
  datatype Kind =
    | VTRUE | VFALSE
    | VK(info: nat)
    | VKNUM(nval: int)
    | VLOCAL(reg: nat)
    | VUPVAL(idx: nat)
    | VNONRELOC(reg: nat)
    | VRELOCABLE(pc: nat)
    | VJMP(pc: nat)

  /** `t` and `f` head the lists of jumps that leave the expression when it is true or false. */
  datatype ExpDesc = ExpDesc(k: Kind, t: int, f: int)

  lemma {:induction false} ListFrame(code: seq<Instr>, code': seq<Instr>, head: int, l: seq<nat>)
    requires IsList(code, head, l)
    requires forall j | j in l && j < |code| :: j < |code'| && code'[j] == code[j]
    ensures IsList(code', head, l)
    decreases l
  {
    ListMembers(code, head, l);
    if l != [] {
      assert l[0] in l && forall j | j in l[1..] :: j in l;
      ListFrame(code, code', GetJump(code, l[0]), l[1..]);
    }
  }

  lemma {:induction false} ListMembers(code: seq<Instr>, head: int, l: seq<nat>)
    requires IsList(code, head, l)
    ensures forall j | j in l :: j < |code| && code[j].Jmp?
    decreases l
  {
    if l != [] { ListMembers(code, GetJump(code, l[0]), l[1..]); }
  }

  /** Appending one list to another by relinking the last jump of the first. */
  lemma {:induction false} ListAppend(code: seq<Instr>, code': seq<Instr>, h1: int, l1: seq<nat>, h2: int, l2: seq<nat>)
    requires IsList(code, h1, l1) && IsList(code, h2, l2) && NoDup(l1)
    requires l1 != [] && l2 != [] && Elems(l1) !! Elems(l2)
    requires l1[|l1|-1] < |code| && code' == code[l1[|l1|-1] := Jmp(h2 - (l1[|l1|-1] + 1))]
    ensures IsList(code', h1, l1 + l2)
    decreases l1
  {
    var last := l1[|l1|-1];
    assert last in l1;
    assert (l1 + l2)[1..] == l1[1..] + l2;
    if |l1| == 1 {
      ListMembers(code, h2, l2);
      assert forall j | j in l2 :: j in Elems(l2);
      hide NoDup;
      ListFrame(code, code', h2, l2);
      assert l1[1..] + l2 == l2 && l2[0] in l2;
    } else {
      assert last != l1[0] && NoDup(l1[1..]);
      assert forall x | x in Elems(l1[1..]) :: x in Elems(l1);
      ListAppend(code, code', GetJump(code, l1[0]), l1[1..], h2, l2);
      hide NoDup;
    }
  }

  /** How many instructions at the end of the code only prepare the value: a relocatable expression
      ends with an instruction that has no target yet, a comparison with a jump not yet placed. */
  function Delay(k: Kind): nat {
    if k.VRELOCABLE? then 1 else if k.VJMP? then 2 else 0
  }

  /** An expression in the making: the code, the kind, and its two lists of jumps. */
  datatype View = View(s: Snap, k: Kind, t: set<nat>, f: set<nat>)

  /** The code without the delayed instructions. */
  ghost function Base(v: View): Snap {
    var d := Delay(v.k);
    if d == 0 || |v.s.code| < d then v.s
    else Snap(v.s.code[..|v.s.code| - d], v.s.held, set j | j in v.s.open && j < |v.s.code| - d)
  }

  /** The open jumps that belong to enclosing expressions. */
  ghost function Rest(v: View): set<nat> { Base(v).open - v.t - v.f }

  /** The value an expression of this kind has once its code has run; `None` if getting it raises an
      error. */
  ghost function Ready(env: Env, k: seq<Value>, code: seq<Instr>, kind: Kind, r: Regs): Option<Value> {
    match kind
    case VTRUE => Some(Bool(true))
    case VFALSE => Some(Bool(false))
    case VK(i) => if i < |k| then Some(k[i]) else None
    case VKNUM(n) => Some(Num(n))
    case VLOCAL(reg) => Some(Get(r, reg))
    case VNONRELOC(reg) => Some(Get(r, reg))
    case VUPVAL(u) => Some(env.up(u))
    case VRELOCABLE(pc) =>
      if pc >= |code| then None
      else (match code[pc]
            case GetUpval(_, u) => Some(env.up(u))
            case Not(_, b) => Some(Bool(!Truthy(Get(r, b))))
            case _ => None)
    case VJMP(pc) =>
      if pc > |code| || pc == 0 || !code[pc - 1].Cmp? then None
      else
        var c := code[pc - 1];
        match env.cmp(c.op, RKValue(k, r, c.rb), RKValue(k, r, c.rc))
        case None => None
        case Some(x) => Some(Bool(x == c.cond))
  }

  /** The value that the jump at `j` tested and carries along, if it can deliver it. */
  ghost function TestedBy(code: seq<Instr>, j: int, r: Regs): Option<Value> {
    if 0 <= j < |code| && Control(code, j).TestSet? then Some(Get(r, Control(code, j).b)) else None
  }

  /** How the value of an expression is come by: it is at hand, and `c` is what a jump on hold that led
      here carries; or by a jump of the list for `b`, which carries `c`. */
  datatype Way = Here(v: Value, c: Option<Value>) | Via(b: bool, c: Option<Value>)

  /** The value delivered: a jump that carries none stands for the truth value. */
  function ValueOf(w: Way): Value {
    match w
    case Here(v, _) => v
    case Via(b, c) => if c.Some? then c.value else Bool(b)
  }

  /** What evaluating an expression comes to: a value, a jump of an enclosing expression, or an error.
      `Broken` if the code is not that of an expression. */
  datatype Outcome = Came(w: Way, r: Regs) | Elsewhere(j: nat, r: Regs) | Error | Broken

  ghost function Meaning(env: Env, k: seq<Value>, v: View, x: Exit): Outcome {
    match x
    case Fall(r, via) =>
      (match Ready(env, k, v.s.code, v.k,
                   r) case None => Error case Some(a) => Came(Here(a, TestedBy(v.s.code, via, r)), r))
    case Out(j, r) =>
      if j >= |v.s.code| then Broken
      else if j in v.t then Came(Via(true, TestedBy(v.s.code, j, r)), r)
      else if j in v.f then Came(Via(false, TestedBy(v.s.code, j, r)), r)
      else Elsewhere(j, r)
    case Raise => Error
    case Stuck => Broken
  }

  /** What running the code from `p` means for the expression. */
  ghost function M(env: Env, k: seq<Value>, v: View, p: nat, r: Regs): Outcome {
    Meaning(env, k, v, Run(env, k, Base(v), p, r))
  }

  /** Register `x` and those from `n` on may differ. */
  ghost predicate Agree(r1: Regs, r2: Regs, n: int, x: int) {
    forall i :: 0 <= i < n && i != x ==> Get(r1, i) == Get(r2, i)
  }

  /** Emitting code settles where the jumps on hold lead, and what they carry is lost. */
  function Settled(w: Way, same: bool): Way { if w.Here? && !same then Here(w.v, None) else w }

  /** The value is come by in the same way, with at most register `x` and those from `n` on changed. */
  ghost predicate Alike(o1: Outcome, o2: Outcome, n: int, x: int, same: bool) {
    match o1
    case Came(w, r) => o2.Came? && o2.w == Settled(w, same) && Agree(r, o2.r, n, x)
    case Elsewhere(j, r) => o2 == o1
    case Error => o2 == o1
    case Broken => true
  }

  ghost predicate Keeps(env: Env, k: seq<Value>, v1: View, v2: View, n: int, x: int) {
    && (v2.s.held == {} || v2.s.held == v1.s.held)
    && forall k2, p: nat, r {:trigger M(env, k2, v2, p, r)} | k <= k2 && p <= |Base(v1).code| ::
         Alike(M(env, k2, v1, p, r), M(env, k2, v2, p, r), n, x, v2.s.held == v1.s.held)
  }

  /** The same value, however it is come by. */
  ghost predicate Yielded(o1: Outcome, o2: Outcome, n: int, x: int) {
    match o1
    case Came(w, r) =>
      && o2.Came? && ValueOf(o2.w) == ValueOf(w) && Agree(r, o2.r, n, x)
      && (o2.w.Here? && o2.w.c.Some? ==> w.Here? && o2.w.c == w.c)
    case Elsewhere(j, r) => o2 == o1
    case Error => o2 == o1
    case Broken => true
  }

  ghost predicate Yields(env: Env, k: seq<Value>, v1: View, v2: View, n: int, x: int) {
    forall k2, p: nat, r {:trigger M(env, k2, v2, p, r)} | k <= k2 && p <= |Base(v1).code| ::
      Yielded(M(env, k2, v1, p, r), M(env, k2, v2, p, r), n, x)
  }

  /** The jumps of enclosing expressions, and what decides them, are left alone. */
  ghost predicate Carries(v1: View, v2: View) {
    && Rest(v2) == Rest(v1)
    && |Base(v1).code| <= |Base(v2).code|
    && Intact(v1.s.code, v2.s.code, Rest(v1))
  }

  lemma KeepsWeaken(env: Env, k: seq<Value>, v1: View, v2: View, n1: int, x1: int, n: int)
    requires Keeps(env, k, v1, v2, n1, x1) && n <= n1 && (x1 < 0 || x1 >= n)
    ensures Keeps(env, k, v1, v2, n, -1)
  {
    hide M;
    hide Base;
    forall k3, p: nat, r | k <= k3 && p <= |Base(v1).code|
      ensures Alike(M(env, k3, v1, p, r), M(env, k3, v2, p, r), n, -1, v2.s.held == v1.s.held)
    {
      assert Alike(M(env, k3, v1, p, r), M(env, k3, v2, p, r), n1, x1, v2.s.held == v1.s.held);
    }
  }

  /** Another register may change as well. */
  lemma KeepsLoosen(env: Env, k: seq<Value>, v1: View, v2: View, n: int, x: int)
    requires Keeps(env, k, v1, v2, n, -1)
    ensures Keeps(env, k, v1, v2, n, x)
  {
    hide M;
    hide Base;
    forall k3, p: nat, r | k <= k3 && p <= |Base(v1).code|
      ensures Alike(M(env, k3, v1, p, r), M(env, k3, v2, p, r), n, x, v2.s.held == v1.s.held)
    {
      assert Alike(M(env, k3, v1, p, r), M(env, k3, v2, p, r), n, -1, v2.s.held == v1.s.held);
    }
  }

  /** What is come by in the same way has the same value. */
  lemma KeepsYields(env: Env, k: seq<Value>, v1: View, v2: View, n: int, x: int)
    requires Keeps(env, k, v1, v2, n, x)
    ensures Yields(env, k, v1, v2, n, x)
  {
    hide M;
    hide Base;
    forall k3, p: nat, r | k <= k3 && p <= |Base(v1).code|
      ensures Yielded(M(env, k3, v1, p, r), M(env, k3, v2, p, r), n, x)
    {
      assert Alike(M(env, k3, v1, p, r), M(env, k3, v2, p, r), n, x, v2.s.held == v1.s.held);
    }
  }

  lemma KeepsTrans(env: Env, k1: seq<Value>, k2: seq<Value>, v1: View, v2: View, v3: View,
                   n1: int, x1: int, n2: int, x2: int, n: int, x: int)
    requires Keeps(env, k1, v1, v2, n1, x1) && Keeps(env, k2, v2, v3, n2, x2) && k1 <= k2
    requires Carries(v1, v2) && Carries(v2, v3)
    requires n <= n1 && n <= n2 && (x1 == x || x1 < 0 || x1 >= n) && (x2 == x || x2 < 0 || x2 >= n)
    ensures Keeps(env, k2, v1, v3, n, x) && Carries(v1, v3)
  {
    hide M;
    CarriesTrans(v1, v2, v3);
    hide Base;
    hide Intact;
    forall k3, p: nat, r | k2 <= k3 && p <= |Base(v1).code|
      ensures Alike(M(env, k3, v1, p, r), M(env, k3, v3, p, r), n, x, v3.s.held == v1.s.held)
    {
      var o1, o2, o3 := M(env, k3, v1, p, r), M(env, k3, v2, p, r), M(env, k3, v3, p, r);
      assert Alike(o1, o2, n1, x1, v2.s.held == v1.s.held) && Alike(o2, o3, n2, x2, v3.s.held == v2.s.held);
    }
  }

  lemma CarriesTrans(v1: View, v2: View, v3: View)
    requires Carries(v1, v2) && Carries(v2, v3)
    ensures Carries(v1, v3)
  {}

  lemma YieldsTrans(env: Env, k1: seq<Value>, k2: seq<Value>, v1: View, v2: View, v3: View,
                    n1: int, x1: int, n2: int, x2: int, n: int, x: int)
    requires Yields(env, k1, v1, v2, n1, x1) && Yields(env, k2, v2, v3, n2, x2) && k1 <= k2
    requires Carries(v1, v2) && Carries(v2, v3)
    requires n <= n1 && n <= n2 && (x1 == x || x1 < 0 || x1 >= n) && (x2 == x || x2 < 0 || x2 >= n)
    ensures Yields(env, k2, v1, v3, n, x) && Carries(v1, v3)
  {
    hide M;
    CarriesTrans(v1, v2, v3);
    hide Base;
    hide Intact;
    forall k3, p: nat, r | k2 <= k3 && p <= |Base(v1).code|
      ensures Yielded(M(env, k3, v1, p, r), M(env, k3, v3, p, r), n, x)
    {
      var o1, o2, o3 := M(env, k3, v1, p, r), M(env, k3, v2, p, r), M(env, k3, v3, p, r);
      assert Yielded(o1, o2, n1, x1) && Yielded(o2, o3, n2, x2);
    }
  }

  /** Without jumps on hold nothing is carried. */
  lemma NothingCarried(env: Env, k: seq<Value>, v: View, p: nat, r: Regs)
    requires v.s.held == {}
    ensures var o := M(env, k, v, p, r); o.Came? && o.w.Here? ==> o.w.c == None
  {
    RunHolds(env, k, Base(v), p, r);
    hide Run;
    hide Ready;
  }

  /** A run that falls off the end by a jump does so by one on hold. */
  lemma {:induction false} RunHolds(env: Env, k: seq<Value>, s: Snap, p: nat, r: Regs)
    ensures var x := Run(env, k, s, p, r); x.Fall? ==> x.via == NO_JUMP || (x.via >= 0 && x.via in s.held)
    decreases |s.code| - p
  {
    hide Step;
    if p < |s.code| && !(p > 0 && IsTest(s.code[p - 1])) {
      match Step(env, k, s.code[p], p, r) {
        case Go(q, r') => RunHolds(env, k, s, q, r');
        case Take(j, plain, written) =>
          if j < |s.code| && s.code[j].Jmp? && j !in s.held + s.open {
            var target := j + 1 + s.code[j].sbx;
            if j < target <= |s.code| { RunHolds(env, k, s, target, written); }
          }
        case Throw =>
        case Bad =>
      }
    }
  }

  lemma NoDupAppend(a: seq<nat>, b: seq<nat>)
    requires NoDup(a) && NoDup(b) && Elems(a) !! Elems(b)
    ensures NoDup(a + b) && Elems(a + b) == Elems(a) + Elems(b)
  {
    forall i, j | 0 <= i < j < |a + b| ensures (a + b)[i] != (a + b)[j] {
      if i < |a| <= j { assert a[i] in Elems(a) && b[j - |a|] in Elems(b); }
    }
  }

  /** No test waits for its jump. */
  predicate Closed(code: seq<Instr>) { |code| > 0 ==> !IsTest(code[|code| - 1]) }

  /** `hasjumps` compares the heads of the two lists. */
  lemma NoJumps(code: seq<Instr>, t: int, tl: seq<nat>, f: int, fl: seq<nat>)
    requires IsList(code, t, tl) && IsList(code, f, fl) && Elems(tl) !! Elems(fl)
    ensures t == f <==> tl == [] && fl == []
  {
    if tl != [] && fl != [] { assert tl[0] in Elems(tl) && fl[0] in Elems(fl); }
  }

  /** A well-formed expression in the making: its lists are real lists of open jumps, its delayed
      instructions are there, and its value is at hand. */
  ghost predicate Fit(s: Snap, k: seq<Value>, e: ExpDesc, t: seq<nat>, f: seq<nat>) {
    && IsList(s.code, e.t, t) && NoDup(t) && IsList(s.code, e.f, f) && NoDup(f)
    && Elems(t) !! Elems(f)
    && Elems(t) + Elems(f) <= Base(View(s, e.k, {}, {})).open
    && match e.k
       case VK(i) => i < |k|
       case VRELOCABLE(pc) => s.held == {} && |s.code| == pc + 1 && (s.code[pc].Not? || s.code[pc].GetUpval?)
                              && Closed(s.code[..pc])
       case VJMP(pc) => s.held == {} && |s.code| == pc + 1 && pc >= 1 && s.code[pc] == Jmp(NO_JUMP)
         && s.code[pc - 1].Cmp?
                        && pc in s.open && pc - 1 !in s.open && Closed(s.code[..pc - 1])
       case _ => true
  }

  ghost predicate Jumps(code: seq<Instr>, l: set<nat>) { forall j | j in l :: j < |code| && code[j].Jmp? }

  /** `s2` is `s1` with a block of code appended, on which the held jumps now land. */
  ghost predicate Emits(s1: Snap, s2: Snap, block: seq<Instr>) {
    && s2.code == Patched(s1.code, s1.held, |s1.code|, NO_REG, |s1.code|) + block && s2.held == {}
    && s1.held !! s1.open && Closed(s1.code)
    && Jumps(s1.code, s1.held) && Jumps(s1.code, s1.open)
    && forall j | j < |s1.code| :: j in s2.open <==> j in s1.open
  }

  /** The open jumps of `s1` and their controls are the same in `s2`. */
  ghost predicate Intact(code1: seq<Instr>, code2: seq<Instr>, l: set<nat>) {
    forall j | j in l :: j < |code1| && j < |code2| && code2[j] == code1[j] && Control(code2, j) == Control(code1, j)
  }

  lemma EmitIntact(s1: Snap, s2: Snap, block: seq<Instr>)
    requires Emits(s1, s2, block)
    ensures Intact(s1.code, s2.code, s1.open)
    ensures |s2.code| == |s1.code| + |block| && s2.code[|s1.code|..] == block
    ensures Closed(s2.code[..|s1.code|])
  {
    var n := |s1.code|;
    PatchedTests(s1.code, s1.held, n, NO_REG, n);
    forall j | j in s1.open ensures s2.code[j] == s1.code[j] && Control(s2.code, j) == Control(s1.code, j) {
      assert s2.code[j] == PatchedAt(s1.code, s1.held, n, NO_REG, n, j);
      if j >= 1 { assert s2.code[j - 1] == PatchedAt(s1.code, s1.held, n, NO_REG, n, j - 1); }
    }
  }

  lemma ListIntact(code1: seq<Instr>, code2: seq<Instr>, keep: set<nat>, head: int, l: seq<nat>)
    requires Intact(code1, code2, keep) && Elems(l) <= keep && IsList(code1, head, l)
    ensures IsList(code2, head, l)
  {
    assert forall j | j in l :: j in Elems(l);
    ListFrame(code1, code2, head, l);
  }

  /** The same exit, but for how the end was reached. */
  function NoVia(x: Exit): Exit { if x.Fall? then Fall(x.r, NO_JUMP) else x }

  /** Emitting code leaves the meaning of what came before: the new block takes over at the old end. */
  lemma EmitRuns(env: Env, k: seq<Value>, s: Snap, s': Snap, block: seq<Instr>, p: nat, r: Regs)
    requires Emits(s, s', block) && !Run(env, k, s, p, r).Stuck?
    ensures Run(env, k, Snap(s'.code[..|s.code|], {}, s.open), p, r) == NoVia(Run(env, k, s, p, r))
    ensures Run(env, k, s', p, r) == Onward(env, k, Run(env, k, s, p, r), s', |s.code|)
  {
    hide Leap; hide PatchedAt; hide Step;
    var m := Snap(s'.code[..|s.code|], {}, s.open);
    PatchedTests(s.code, s.held, |s.code|, NO_REG, |s.code|);
    assert m.code == m.code + [] == Patched(s.code, s.held, |s.code|, NO_REG, |s.code|);
    RunEmit(env, k, s, m, [], p, r);
    RunEmit(env, k, s, s', block, p, r);
  }

  /** Filling in the target of the delayed instruction amounts to emitting it. */
  lemma FillEmits(v: View, code: seq<Instr>, i: Instr, open: set<nat>)
    requires Delay(v.k) == 1 && |v.s.code| > 0 && v.s.held == {} && Closed(Base(v).code)
    requires Jumps(v.s.code, v.s.open) && !v.s.code[|v.s.code| - 1].Jmp?
    requires code == v.s.code[|v.s.code| - 1 := i] && open == v.s.open && !IsTest(i) && !i.Jmp?
    ensures Emits(Base(v), Snap(code, {}, open), [i]) && Base(v).open == open
    ensures Intact(v.s.code, Base(v).code, open)
  {
    var b := Base(v);
    assert b.open == open;
    assert Patched(b.code, {}, |b.code|, NO_REG, |b.code|) == b.code;
    assert code == b.code + [i];
  }

  /** Nothing emitted, the same value. */
  lemma SameKeeps(env: Env, k: seq<Value>, v1: View, v2: View, n: int, x: int)
    requires v2.s == v1.s && v2.t == v1.t && v2.f == v1.f && Delay(v2.k) == Delay(v1.k)
    requires Jumps(v1.s.code, v1.s.open)
    requires forall k2, r | k <= k2 :: Ready(env, k2, v2.s.code, v2.k, r) == Ready(env, k2, v1.s.code, v1.k, r)
    ensures Carries(v1, v2)
    ensures Keeps(env, k, v1, v2, n, x)
  {
    hide Step; hide Run; hide Leap; hide PatchedAt;
  }

  lemma ListsIntact(k1: seq<Value>, k2: seq<Value>, v1: View, v2: View, e: ExpDesc, e': ExpDesc, t: seq<nat>,
                    f: seq<nat>)
    requires Fit(v1.s, k1, e, t, f) && e'.t == e.t && e'.f == e.f && k1 <= k2
    requires v1 == View(v1.s, e.k, Elems(t), Elems(f)) && v2 == View(v2.s, e'.k, v1.t, v1.f)
    requires Intact(v1.s.code, v2.s.code, Base(v1).open) && Base(v2).open == Base(v1).open
    requires match e'.k
             case VK(i) => i < |k2|
             case VRELOCABLE(pc) => v2.s.held == {} && |v2.s.code| == pc + 1 && Closed(v2.s.code[..pc])
                && (v2.s.code[pc].Not? || v2.s.code[pc].GetUpval?)
             case VJMP(pc) => e.k == e'.k && v2.s == v1.s
             case _ => true
    ensures Fit(v2.s, k2, e', t, f)
  {
    ListIntact(v1.s.code, v2.s.code, Base(v1).open, e.t, t);
    ListIntact(v1.s.code, v2.s.code, Base(v1).open, e.f, f);
  }

  /** Replacing a value that is at hand by delayed instructions that will produce it. */
  lemma DelayKeeps(env: Env, k: seq<Value>, v1: View, v2: View, block: seq<Instr>, n: int, x: int)
    requires Delay(v1.k) == 0 && Emits(v1.s, v2.s, block) && |block| == Delay(v2.k) > 0
    requires v2.t == v1.t && v2.f == v1.f && v1.t + v1.f <= v1.s.open
    requires forall k2, r | k <= k2 :: Ready(env, k2, v2.s.code, v2.k, r) == Ready(env, k2, v1.s.code, v1.k, r)
    ensures Base(v2) == Snap(v2.s.code[..|v1.s.code|], {}, v1.s.open)
    ensures Carries(v1, v2)
    ensures Keeps(env, k, v1, v2, n, x)
  {
    hide Step; hide Run; hide Leap; hide PatchedAt;
    EmitIntact(v1.s, v2.s, block);
    assert v2.s.code[..|v2.s.code| - Delay(v2.k)] == v2.s.code[..|v1.s.code|];
    assert Base(v2).open == v1.s.open;
    forall k2, p: nat, r | k <= k2 && p <= |Base(v1).code|
      ensures Alike(M(env, k2, v1, p, r), M(env, k2, v2, p, r), n, x, v2.s.held == v1.s.held)
    {
      RunHolds(env, k2, v1.s, p, r);
      if !Run(env, k2, v1.s, p, r).Stuck? {
        EmitRuns(env, k2, v1.s, v2.s, block, p, r);
      }
    }
  }
}
