/**
  That emitted code evaluates an expression: what its parts mean, put together to what the whole means.
 */
module Denoting {
  import opened Basics
  import opened Bytecode
  import opened JumpLists
  import opened Views
  import opened Delivering
  import opened Testing
  import opened Negating
  import opened Comparing
  import opened Expressions

  /** The descriptor is one of its class. */
  ghost predicate IsOf(kind: Kind, c: Class, code: seq<Instr>, k: seq<Value>, nact: nat) {
    match c
    case CLit(v) =>
      if v == Bool(true) then kind == VTRUE
      else if v == Bool(false) then kind == VFALSE
      else if v.Num? then kind == VKNUM(v.n)
      else v.Str? && v in k && kind == VK(IndexOf(k, v))
    case CLocal => kind.VLOCAL?
    case CUpval => kind.VUPVAL?
    case CReg => kind.VNONRELOC? && kind.reg < nact
    case CGet => kind.VRELOCABLE? && kind.pc < |code| && code[kind.pc].GetUpval?
    case CNot => kind.VRELOCABLE? && kind.pc < |code| && code[kind.pc].Not?
    case CJmp => kind.VJMP?
  }

  /** From the way the code before the expression is left, to what the whole comes to: evaluation takes its course. */
  ghost predicate Expected(env: Env, e: Expr, n: int, k0: seq<Value>, code: seq<Instr>, x: Exit, o: Outcome) {
    match x
    case Fall(r, via) =>
      (match Course(env, e, r, TestedBy(code, via, r), k0)
       case None => o == Error
       case Some(w) => o.Came? && o.w == w && Agree(r, o.r, n, -1))
    case Out(j, r) => o == Elsewhere(j, r)
    case Raise => o == Error
    case Stuck => true
  }

  /** The code added to `s` evaluates the expression, leaving registers below `n` alone. There were the
      constants `k0` at first. */
  ghost predicate Denotes(env: Env, k: seq<Value>, s: Snap, v: View, e: Expr, n: int, k0: seq<Value>) {
    forall k2, p: nat, r {:trigger M(env, k2, v, p, r)} | k <= k2 && p <= |s.code| ::
      Expected(env, e, n, k0, s.code, Run(env, k2, s, p, r), M(env, k2, v, p, r))
  }

  /** Code has only been added since `s0`, and what was pending then still is. */
  ghost predicate Since(s0: Snap, v: View) {
    Rest(v) == s0.open && |s0.code| <= |Base(v).code| && Intact(s0.code, v.s.code, s0.open)
  }


  lemma SinceCarries(s0: Snap, v1: View, v2: View)
    requires Since(s0, v1) && Carries(v1, v2)
    ensures Since(s0, v2)
  {
  }

  /** The jumps in `leave` now carry the value of the expression as well. */
  ghost function Joined(v: View, b: bool, leave: set<nat>): View {
    View(v.s, v.k, if b then v.t else v.t + leave, if b then v.f + leave else v.f)
  }

  lemma SinceJoined(s0: Snap, s2: Snap, v2: View, v3: View, b: bool, leave: set<nat>)
    requires Since(s0, v2) && Since(s2, v3) && leave <= s2.open && leave !! v3.t + v3.f
    requires v2 == if b then View(s2, VTRUE, {}, leave) else View(s2, VFALSE, leave, {})
    ensures Since(s0, Joined(v3, b, leave)) && Intact(s2.code, v3.s.code, leave)
  {
    assert Base(v2) == s2 && Rest(v2) == s2.open - leave;
    assert Base(Joined(v3, b, leave)) == Base(v3);
    assert Rest(Joined(v3, b, leave)) == Rest(v3) - leave;
  }

  lemma SinceIntact(s0: Snap, v: View)
    requires Since(s0, v)
    ensures Intact(s0.code, v.s.code, s0.open) && Rest(v) == s0.open
  {
  }

  lemma SinceOperand(s0: Snap, v: View, s: Snap)
    requires Since(s0, v) && v.s == s && v.t == v.f == {} && Delay(v.k) == 0
    ensures s.open == s0.open && |s0.code| <= |s.code| && Intact(s0.code, s.code, s0.open)
  {
  }

  lemma SinceTrans(s0: Snap, s2: Snap, v: View)
    requires Since(s2, v) && s2.open == s0.open && |s0.code| <= |s2.code| && Intact(s0.code, s2.code, s0.open)
    ensures Since(s0, v)
  {
  }

  lemma SinceBase(s0: Snap, v: View)
    requires Since(s0, v)
    ensures |s0.code| <= |Base(v).code|
  {
  }

  /** How the parser describes a leaf. */
  ghost predicate Describes(k: seq<Value>, e: Expr, kind: Kind) {
    match e
    case Local(i) => kind == VLOCAL(i)
    case Upval(u) => kind == VUPVAL(u)
    case NumLit(n) => kind == VKNUM(n)
    case StrLit(s) => kind.VK? && kind.info < |k| && k[kind.info] == Str(s)
    case TrueLit => kind == VTRUE
    case FalseLit => kind == VFALSE
    case _ => false
  }

  lemma LeafDenotes(env: Env, k: seq<Value>, v: View, e: Expr, n: int, k0: seq<Value>)
    requires Describes(k, e, v.k) && v.t == v.f == {}
    ensures Denotes(env, k, v.s, v, e, n, k0)
  {
    hide Step; hide Run; hide Leap;
  }

  /** Discharging the expression, as a pair of parentheses does, loses what jumps on hold carry if it takes code. */
  lemma DenotesParen(env: Env, k1: seq<Value>, k2: seq<Value>, s: Snap, v1: View, v2: View, e: Expr, m: int, n: int,
                     k0: seq<Value>)
    requires Denotes(env, k1, s, v1, e, n, k0) && Keeps(env, k2, v1, v2, m, -1) && k1 <= k2 && n <= m
    requires v2.s.held == if ClassOf(e) == CUpval then {} else v1.s.held
    requires |s.code| <= |Base(v1).code|
    ensures Denotes(env, k2, s, v2, Paren(e), n, k0)
  {
    hide M; hide Run;
    hide Base; hide ClassOf;
    forall k3, p: nat, r | k2 <= k3 && p <= |s.code|
      ensures Expected(env, Paren(e), n, k0, s.code, Run(env, k3, s, p, r), M(env, k3, v2, p, r))
    {
      if v2.s.held == {} { NothingCarried(env, k3, v2, p, r); }
      assert Expected(env, e, n, k0, s.code, Run(env, k3, s, p, r), M(env, k3, v1, p, r));
      assert Alike(M(env, k3, v1, p, r), M(env, k3, v2, p, r), m, -1, v2.s.held == v1.s.held);
    }
  }

  lemma DenotesNot(env: Env, k1: seq<Value>, k2: seq<Value>, s: Snap, v1: View, v2: View, e: Expr, n: int,
                   k0: seq<Value>)
    requires Denotes(env, k1, s, v1, e, n, k0) && Negates(env, k2, v1, v2, n) && k1 <= k2
    requires v2.s.held == if ClassOf(e).CLit? then v1.s.held else {}
    requires |s.code| <= |Base(v1).code|
    ensures Denotes(env, k2, s, v2, NotE(e), n, k0)
  {
    hide M; hide Run;
    hide Base; hide ClassOf;
    forall k3, p: nat, r | k2 <= k3 && p <= |s.code|
      ensures Expected(env, NotE(e), n, k0, s.code, Run(env, k3, s, p, r), M(env, k3, v2, p, r))
    {
      if v2.s.held == {} { NothingCarried(env, k3, v2, p, r); }
      assert Expected(env, e, n, k0, s.code, Run(env, k3, s, p, r), M(env, k3, v1, p, r));
      assert Negated(M(env, k3, v1, p, r), M(env, k3, v2, p, r), n, v2.s.held == v1.s.held);
    }
  }

  // ------------------------------------------------------------------------------- and, or

  /** Control goes on with truth value `b`, all else leaves by the jumps in `leave`. */
  ghost function Passed(s: Snap, b: bool, leave: set<nat>): View {
    if b then View(s, VTRUE, {}, leave) else View(s, VFALSE, leave, {})
  }

  /** The left operand of `and` (`b` true) or `or` (`b` false) has been tested, the right one compiled;
      the jumps of the left one join the list of the right one. */
  lemma DenotesJoin(env: Env, k1: seq<Value>, k2: seq<Value>, k3: seq<Value>, s0: Snap, v1: View, s2: Snap, v3: View,
                    l: Expr, rt: Expr, b: bool, leave: set<nat>, nact: nat, n: int, k0: seq<Value>)
    requires Denotes(env, k1, s0, v1, l, n, k0) && k1 <= k2 <= k3 && nact <= n && LocalsBelow(rt, nact)
    requires |s0.code| <= |Base(v1).code| && |s0.code| <= |s2.code|
    requires Decides(env, k2, v1, Passed(s2, b, leave), b, LeavingOf(b, ClassOf(l)), Silent(b, ClassOf(l)), n)
    requires Denotes(env, k3, s2, v3, Paren(rt), n, Examined(b, ClassOf(l), Constants(l, k0)))
    requires Intact(s2.code, v3.s.code, leave) && leave !! v3.t + v3.f
    ensures Denotes(env, k3, s0, Joined(v3, b, leave), Logic(b, l, rt), n, k0)
  {
    hide M; hide Run; hide Base; hide Expected; hide Decided; hide Examined; hide Constants; hide LocalsBelow;
    hide ClassOf;
    hide Course; hide Joined; hide Passed; hide LeavingOf; hide Silent; hide Logic; hide Intact;
    forall k, p: nat, r | k3 <= k && p <= |s0.code|
      ensures Expected(env, Logic(b, l, rt), n, k0, s0.code, Run(env, k, s0, p, r),
                       M(env, k, Joined(v3, b, leave), p, r))
    {
      assert Expected(env, l, n, k0, s0.code, Run(env, k, s0, p, r), M(env, k, v1, p, r));
      assert Decided(M(env, k, v1, p, r), M(env, k, Passed(s2, b, leave), p, r), b, LeavingOf(b, ClassOf(l)),
                     Silent(b, ClassOf(l)), n);
      assert Expected(env, Paren(rt), n, Examined(b, ClassOf(l), Constants(l, k0)), s2.code, Run(env, k, s2, p, r),
                      M(env, k, v3, p, r));
      JoinAt(env, k, s0, v1, s2, v3, l, rt, b, leave, nact, n, p, r, k0);
    }
  }

  function Logic(b: bool, l: Expr, rt: Expr): Expr { Bin(if b then OPR_AND else OPR_OR, l, rt) }

  lemma MJoined(env: Env, k: seq<Value>, v: View, b: bool, leave: set<nat>, p: nat, r: Regs)
    ensures M(env, k, v, p, r) == Meaning(env, k, v, Run(env, k, Base(v), p, r))
    ensures M(env, k, Joined(v, b, leave), p, r) == Meaning(env, k, Joined(v, b, leave), Run(env, k, Base(v), p, r))
  {
    hide Step; hide Run; hide Leap; hide Meaning;
  }

  lemma MPassed(env: Env, k: seq<Value>, s: Snap, b: bool, leave: set<nat>, p: nat, r: Regs)
    ensures M(env, k, Passed(s, b, leave), p, r) == Meaning(env, k, Passed(s, b, leave), Run(env, k, s, p, r))
  {
    hide Step; hide Run; hide Leap; hide Meaning;
  }

  lemma JoinAt(env: Env, k: seq<Value>, s0: Snap, v1: View, s2: Snap, v3: View,
               l: Expr, rt: Expr, b: bool, leave: set<nat>, nact: nat, n: int, p: nat, r: Regs, k0: seq<Value>)
    requires nact <= n && LocalsBelow(rt, nact)
    requires Expected(env, l, n, k0, s0.code, Run(env, k, s0, p, r), M(env, k, v1, p, r))
    requires Decided(M(env, k, v1, p, r), M(env, k, Passed(s2, b, leave), p, r), b, LeavingOf(b, ClassOf(l)),
                     Silent(b, ClassOf(l)), n)
    requires Expected(env, Paren(rt), n, Examined(b, ClassOf(l), Constants(l, k0)), s2.code, Run(env, k, s2, p, r),
                      M(env, k, v3, p, r))
    requires Intact(s2.code, v3.s.code, leave) && leave !! v3.t + v3.f
    ensures Expected(env, Logic(b, l, rt), n, k0, s0.code, Run(env, k, s0, p, r), M(env, k, Joined(v3, b, leave), p, r))
  {
    hide Step; hide Run; hide Leap; hide Ready; hide Expected; hide Decided; hide Meaning; hide Course;
    hide LocalsBelow;
    hide Intact; hide M; hide Base; hide Agree; hide Joined; hide Passed; hide Examined; hide Constants; hide ClassOf;
    hide LeavingOf; hide Silent; hide Logic;
    MPassed(env, k, s2, b, leave, p, r);
    MJoined(env, k, v3, b, leave, p, r);
    var x0, x2, x3 := Run(env, k, s0, p, r), Run(env, k, s2, p, r), Run(env, k, Base(v3), p, r);
    if x2.Out? {
      JoinOut(env, k, x0, M(env, k, v1, p, r), s0, s2, x2, v3, x3, l, rt, b, leave, n, k0);
    } else {
      JoinFall(env, k, x0, M(env, k, v1, p, r), s0, s2, x2, v3, x3, l, rt, b, leave, nact, n, k0);
    }
  }

  /** The left operand decides: its value leaves by one of its jumps. */
  lemma JoinOut(env: Env, k: seq<Value>, x0: Exit, o1: Outcome, s0: Snap, s2: Snap, x2: Exit, v3: View, x3: Exit,
                l: Expr, rt: Expr, b: bool, leave: set<nat>, n: int, k0: seq<Value>)
    requires Expected(env, l, n, k0, s0.code, x0, o1)
    requires Decided(o1, Meaning(env, k, Passed(s2, b, leave), x2), b, LeavingOf(b, ClassOf(l)), Silent(b, ClassOf(l)),
                     n)
    requires Expected(env, Paren(rt), n, Examined(b, ClassOf(l), Constants(l, k0)), s2.code, x2,
                      Meaning(env, k, v3, x3))
    requires Intact(s2.code, v3.s.code, leave) && leave !! v3.t + v3.f
    requires x2.Out?
    ensures Expected(env, Logic(b, l, rt), n, k0, s0.code, x0, Meaning(env, k, Joined(v3, b, leave), x3))
  {
    hide Ready; hide Control; hide ClassOf; hide Constants; hide Examined; hide LeavingOf; hide Silent;
    assert Meaning(env, k, v3, x3) == Elsewhere(x2.j, x2.r);
    hide ForkWay; hide LandWay; hide TestedBy;
    assert x3 == x2;
    if x2.j in leave { LeaveTested(s2.code, v3.s.code, leave, x2.j, x2.r); }
  }

  lemma LeaveTested(code1: seq<Instr>, code2: seq<Instr>, leave: set<nat>, j: nat, r: Regs)
    requires Intact(code1, code2, leave) && j in leave
    ensures TestedBy(code2, j, r) == TestedBy(code1, j, r) && j < |code1| && j < |code2|
  {
  }

  /** The left operand passes: the value is that of the right one. */
  lemma JoinFall(env: Env, k: seq<Value>, x0: Exit, o1: Outcome, s0: Snap, s2: Snap, x2: Exit, v3: View, x3: Exit,
                 l: Expr, rt: Expr, b: bool, leave: set<nat>, nact: nat, n: int, k0: seq<Value>)
    requires nact <= n && LocalsBelow(rt, nact)
    requires Expected(env, l, n, k0, s0.code, x0, o1)
    requires Decided(o1, Meaning(env, k, Passed(s2, b, leave), x2), b, LeavingOf(b, ClassOf(l)), Silent(b, ClassOf(l)),
                     n)
    requires Expected(env, Paren(rt), n, Examined(b, ClassOf(l), Constants(l, k0)), s2.code, x2,
                      Meaning(env, k, v3, x3))
    requires leave !! v3.t + v3.f
    requires !x2.Out?
    ensures Expected(env, Logic(b, l, rt), n, k0, s0.code, x0, Meaning(env, k, Joined(v3, b, leave), x3))
  {
    hide Ready; hide Control; hide ClassOf; hide Constants; hide Examined; hide LeavingOf; hide Silent;
    hide ForkWay; hide LandWay; hide TestedBy; hide LocalsBelow;
    if x2.Fall? { ReadyConst(env, k, s2.code, x2.r); }
    if x0.Fall? && x2.Fall? {
      assert Agree(x0.r, x2.r, n, -1);
      CourseAgree(env, rt, x0.r, x2.r, nact, n, TestedBy(s2.code, x2.via, x2.r),
                  Examined(b, ClassOf(l), Constants(l, k0)));
    }
  }

  lemma ReadyConst(env: Env, k: seq<Value>, code: seq<Instr>, r: Regs)
    ensures Ready(env, k, code, VTRUE, r) == Some(Bool(true)) && Ready(env, k, code, VFALSE, r) == Some(Bool(false))
  {
  }

  /** The whole argument for `and` and `or`. */
  lemma LogicDenotes(env: Env, k1: seq<Value>, k2: seq<Value>, k3: seq<Value>, k4: seq<Value>, s0: Snap, v1: View,
                     s2: Snap, v3: View, v4: View, l: Expr, rt: Expr, b: bool, leave: set<nat>, nact: nat, n: int,
                     k0: seq<Value>)
    requires k1 <= k2 <= k3 <= k4 && nact <= n && LocalsBelow(rt, nact) && leave <= s2.open && leave !! v4.t + v4.f
    requires Denotes(env, k1, s0, v1, l, n, k0) && Since(s0, v1)
    requires var v2 := Passed(s2, b, leave);
      Decides(env, k2, v1, v2, b, LeavingOf(b, ClassOf(l)), Silent(b, ClassOf(l)), n) && Carries(v1, v2)
    requires Denotes(env, k3, s2, v3, rt, n, Examined(b, ClassOf(l), Constants(l, k0))) && Since(s2, v3)
    requires Keeps(env, k4, v3, v4, n, -1) && Carries(v3, v4)
    requires v4.s.held == if ClassOf(rt) == CUpval then {} else v3.s.held
    ensures Denotes(env, k4, s0, Joined(v4, b, leave), Logic(b, l, rt), n, k0)
    ensures Since(s0, Joined(v4, b, leave))
  {
    hide Step; hide Run; hide Leap; hide PatchedAt; hide Patched; hide Denotes; hide Keeps; hide Decides; hide Carries;
    hide Intact; hide Course; hide LocalsBelow; hide M; hide Examined; hide Constants; hide ClassOf;
    hide LeavingOf; hide Silent;
    SinceCarries(s0, v1, Passed(s2, b, leave));
    SinceCarries(s2, v3, v4);
    SinceJoined(s0, s2, Passed(s2, b, leave), v4, b, leave);
    DenotesParen(env, k3, k4, s2, v3, v4, rt, n, n, Examined(b, ClassOf(l), Constants(l, k0)));
    assert Base(Passed(s2, b, leave)) == s2;
    DenotesJoin(env, k1, k2, k4, s0, v1, s2, v4, l, rt, b, leave, nact, n, k0);
  }

  // ------------------------------------------------------------------------------- comparisons

  /** None of the jumps on hold carries a value. */
  ghost predicate Unladen(s: Snap) { forall j | j in s.held :: j < |s.code| && !Control(s.code, j).TestSet? }

  lemma UnladenCarries(env: Env, k: seq<Value>, v: View, p: nat, r: Regs)
    requires Unladen(v.s)
    ensures var o := M(env, k, v, p, r); o.Came? && o.w.Here? ==> o.w.c == None
  {
    RunHolds(env, k, Base(v), p, r);
    hide Run;
    hide Ready;
  }

  /** The expression has been put in place, by code or not, with its value as the course has it. */
  ghost predicate Stayed(env: Env, k: seq<Value>, v1: View, v2: View, n: int, stays: bool) {
    && Yields(env, k, v1, v2, n, -1)
    && if stays then v2.s.held == v1.s.held && Keeps(env, k, v1, v2, n, -1) else Unladen(v2.s)
  }

  /** What the operand comes to: its value, in place. */
  ghost predicate Lodged(env: Env, e: Expr, n: int, k0: seq<Value>, code: seq<Instr>, x: Exit, o: Outcome) {
    match x
    case Fall(r, via) =>
      (match Course(env, e, r, TestedBy(code, via, r), k0)
       case None => o == Error
       case Some(w) => o.Came? && o.w == Here(ValueOf(w), Behind(e, Constants(e, k0), w)) && Agree(r, o.r, n, -1))
    case Out(j, r) => o == Elsewhere(j, r)
    case Raise => o == Error
    case Stuck => true
  }

  ghost predicate Lodges(env: Env, k: seq<Value>, s: Snap, v: View, e: Expr, n: int, k0: seq<Value>) {
    forall k2, p: nat, r {:trigger M(env, k2, v, p, r)} | k <= k2 && p <= |s.code| ::
      Lodged(env, e, n, k0, s.code, Run(env, k2, s, p, r), M(env, k2, v, p, r))
  }

  lemma DenotesLodges(env: Env, k1: seq<Value>, k2: seq<Value>, s: Snap, v1: View, v2: View, e: Expr, m: int, n: int,
                      k0: seq<Value>)
    requires Denotes(env, k1, s, v1, e, n, k0) && k1 <= k2 && n <= m && v2.t == v2.f == {}
    requires Stayed(env, k2, v1, v2, m, InPlace(ClassOf(e), NoLeave(e), Constants(e, k0)))
    requires |s.code| <= |Base(v1).code|
    ensures Lodges(env, k2, s, v2, e, n, k0)
  {
    hide M; hide Run; hide Base; hide ClassOf; hide Constants; hide NoLeave; hide InPlace; hide Course; hide Unladen;
    forall k3, p: nat, r | k2 <= k3 && p <= |s.code|
      ensures Lodged(env, e, n, k0, s.code, Run(env, k3, s, p, r), M(env, k3, v2, p, r))
    {
      OnlyHere(env, k3, v2, p, r);
      if Unladen(v2.s) { UnladenCarries(env, k3, v2, p, r); }
      assert Expected(env, e, n, k0, s.code, Run(env, k3, s, p, r), M(env, k3, v1, p, r));
      assert Yielded(M(env, k3, v1, p, r), M(env, k3, v2, p, r), m, -1);
      if InPlace(ClassOf(e), NoLeave(e), Constants(e, k0)) {
        assert Alike(M(env, k3, v1, p, r), M(env, k3, v2, p, r), m, -1, true);
      }
    }
  }

  lemma OnlyHere(env: Env, k: seq<Value>, v: View, p: nat, r: Regs)
    requires v.t == v.f == {}
    ensures var o := M(env, k, v, p, r); o.Came? ==> o.w.Here?
  {
    hide Run;
  }

  /** The operator as `codecomp` gets it. */
  predicate Coded(op: BinOpr, cop: CmpOp, cond: bool) {
    (op, cop, cond) in {(OPR_EQ, EQ, true), (OPR_NE, EQ, false), (OPR_LT, LT, true), (OPR_LE, LE, true), (OPR_GT, LT,
                                                                                                          false),
                        (OPR_GE, LE, false)}
  }

  lemma CompareAt(env: Env, k: seq<Value>, s0: Snap, v1: View, x0: Exit, x2: Exit, o3: Outcome, o4: Outcome,
                  l: Expr, rt: Expr, op: BinOpr, left: RK, cop: CmpOp, cond: bool, nact: nat, n: int, m: int,
                  k0: seq<Value>)
    requires nact <= n <= m && LocalsBelow(rt, nact) && v1.t == v1.f == {} && Coded(op, cop, cond)
    requires if left.Konst? then v1.k == VK(left.i) && left.i < |k| else v1.k == VNONRELOC(left.r) && left.r < m
    requires Lodged(env, l, n, k0, s0.code, x0, Meaning(env, k, v1, x2))
    requires Expected(env, rt, m, Between(op, l, Constants(l, k0)), v1.s.code, x2, o3)
    requires Compared(env, k, o3, o4, left, cop, cond, n)
    ensures Expected(env, Bin(op, l, rt), n, k0, s0.code, x0, o4)
  {
    hide Constants; hide Between; hide LocalsBelow; hide TestedBy; hide Behind;
    if x0.Fall? && x2.Fall? {
      assert Agree(x0.r, x2.r, n, -1);
      CourseAgree(env, rt, x0.r, x2.r, nact, n, TestedBy(v1.s.code, x2.via, x2.r), Between(op, l, Constants(l, k0)));
    }
  }

  /** Comparing: the left operand is in place when the right one is compiled. */
  lemma DenotesCompare(env: Env, k1: seq<Value>, k2: seq<Value>, k3: seq<Value>, s0: Snap, v1: View, s2: Snap, v3: View,
                       v4: View, l: Expr, rt: Expr, op: BinOpr, left: RK, cop: CmpOp, cond: bool, nact: nat, n: int,
                       m: int, k0: seq<Value>)
    requires Lodges(env, k1, s0, v1, l, n, k0) && k1 <= k2 <= k3 && nact <= n <= m && LocalsBelow(rt, nact)
    requires |s0.code| <= |s2.code| && v1.s == s2 && v1.t == v1.f == {} && Coded(op, cop, cond)
    requires if left.Konst? then v1.k == VK(left.i) && left.i < |k1| else v1.k == VNONRELOC(left.r) && left.r < m
    requires Denotes(env, k2, s2, v3, rt, m, Between(op, l, Constants(l, k0))) && |s2.code| <= |Base(v3).code|
    requires Compares(env, k3, v3, v4, left, cop, cond, n)
    ensures Denotes(env, k3, s0, v4, Bin(op, l, rt), n, k0)
  {
    hide Step; hide Run; hide Leap; hide M; hide Expected; hide Lodged; hide Compared; hide Course;
    hide Constants; hide Between;
    hide Coded; hide LocalsBelow;
    forall k, p: nat, r | k3 <= k && p <= |s0.code|
      ensures Expected(env, Bin(op, l, rt), n, k0, s0.code, Run(env, k, s0, p, r), M(env, k, v4, p, r))
    {
      assert Lodged(env, l, n, k0, s0.code, Run(env, k, s0, p, r), M(env, k, v1, p, r));
      assert Expected(env, rt, m, Between(op, l, Constants(l, k0)), s2.code, Run(env, k, s2, p, r),
                      M(env, k, v3, p, r));
      assert Compared(env, k, M(env, k, v3, p, r), M(env, k, v4, p, r), left, cop, cond, n);
      MPlain(env, k, v1, p, r);
      CompareAt(env, k, s0, v1, Run(env, k, s0, p, r), Run(env, k, s2, p, r), M(env, k, v3, p, r), M(env, k, v4, p, r),
                l, rt, op, left, cop, cond, nact, n, m, k0);
    }
  }

  // ------------------------------------------------------------------------------- lists and kinds

  lemma FitPlain(s: Snap, k: seq<Value>, e: ExpDesc, e': ExpDesc, t: seq<nat>, f: seq<nat>)
    requires Fit(s, k, e, t, f) && Delay(e.k) == 0 && e'.t == e.t && e'.f == e.f && Delay(e'.k) == 0 && !e'.k.VK?
    ensures Fit(s, k, e', t, f)
  {
  }

  lemma FitSwap(s: Snap, k: seq<Value>, e: ExpDesc, t: seq<nat>, f: seq<nat>)
    requires Fit(s, k, e, t, f)
    ensures Fit(s, k, ExpDesc(e.k, e.f, e.t), f, t)
  {
  }

  lemma JoinFitsF(k: seq<Value>, s1: Snap, s2: Snap, e: ExpDesc, head: int, t: seq<nat>, f: seq<nat>, l: seq<nat>)
    requires Fit(s1, k, e, t, f) && Jumps(s1.code, s1.open) && Relinked(s1.code, s2.code, Elems(f))
    requires s2.held == s1.held && s2.open == s1.open && IsList(s2.code, head, f + l)
    requires NoDup(l) && Elems(l) !! Elems(t) + Elems(f) && Elems(l) <= Base(View(s1, e.k, {}, {})).open
    ensures Fit(s2, k, ExpDesc(e.k, e.t, head), t, f + l)
  {
    hide IsList; hide NoDup;
    NoDupAppend(f, l);
    ListRelinked(s1.code, s2.code, Elems(f), e.t, t);
    assert Base(View(s2, e.k, {}, {})).open == Base(View(s1, e.k, {}, {})).open;
  }

  lemma JoinFits(k: seq<Value>, s1: Snap, s2: Snap, e: ExpDesc, e': ExpDesc, t: seq<nat>, f: seq<nat>, l: seq<nat>,
                 b: bool)
    requires Fit(s1, k, e, t, f) && e'.k == e.k && Jumps(s1.code, s1.open) && Closed(s1.code)
    requires s2.held == s1.held && s2.open == s1.open
    requires Relinked(s1.code, s2.code, Elems(if b then f else t))
    requires NoDup(l) && Elems(l) !! Elems(t) + Elems(f) && Elems(l) <= Base(View(s1, e.k, {}, {})).open
    requires if b then e'.t == e.t && IsList(s2.code, e'.f, f + l) else e'.f == e.f && IsList(s2.code, e'.t, t + l)
    ensures Fit(s2, k, e', if b then t else t + l, if b then f + l else f)
    ensures Jumps(s2.code, s2.open) && Closed(s2.code)
  {
    hide Fit; hide IsList; hide NoDup; hide Base;
    if b {
      JoinFitsF(k, s1, s2, e, e'.f, t, f, l);
    } else {
      FitSwap(s1, k, e, t, f);
      JoinFitsF(k, s1, s2, ExpDesc(e.k, e.f, e.t), e'.t, f, t, l);
      FitSwap(s2, k, ExpDesc(e.k, e.f, e'.t), f, t + l);
    }
  }

  lemma FitParts(v0: View, v1: View, k: seq<Value>, e: ExpDesc, t: seq<nat>, f: seq<nat>, first: int, l: seq<nat>)
    requires Carries(v0, v1) && Fit(v1.s, k, e, t, f) && v1 == View(v1.s, e.k, Elems(t), Elems(f))
    requires IsList(v0.s.code, first, l) && Elems(l) <= Rest(v0)
    ensures IsList(v1.s.code, first, l) && Elems(l) !! Elems(t) + Elems(f)
    ensures IsList(v1.s.code, e.t, t) && NoDup(t) && IsList(v1.s.code, e.f, f) && NoDup(f) && Elems(t) !! Elems(f)
    ensures Elems(l) <= Base(v1).open && v1.t + v1.f <= Base(v1).open && Base(v1) == Base(View(v1.s, e.k, {}, {}))
    ensures v1.s.open >= Base(v1).open && Delay(v1.k) <= |v1.s.code|
    ensures v1.k.VJMP? ==> v1.k.pc + 1 == |v1.s.code|
    ensures v1.k.VRELOCABLE? ==> !v1.s.code[|v1.s.code| - 1].Jmp?
  {
    ListIntact(v0.s.code, v1.s.code, Rest(v0), first, l);
  }

  lemma CarriesSame(v: View, k: seq<Value>, e: ExpDesc, t: seq<nat>, f: seq<nat>)
    requires Fit(v.s, k, e, t, f) && v.k == e.k && Jumps(v.s.code, v.s.open)
    ensures Carries(v, v)
  {
  }

  lemma EmptyList(code: seq<Instr>)
    ensures IsList(code, NO_JUMP, []) && Elems([]) == {} && NoDup([]) && NoDup([]) && NoDup([]) && NoDup([])
    ensures NoDup([]) && NoDup([]) && NoDup([]) && NoDup([]) && NoDup([]) && NoDup([]) && NoDup([])
  {
  }

  lemma JoinedView(s: Snap, kind: Kind, t: seq<nat>, f: seq<nat>, l: seq<nat>, b: bool, t': seq<nat>, f': seq<nat>)
    requires t' == (if b then t else t + l) && f' == if b then f + l else f
    ensures Joined(View(s, kind, Elems(t), Elems(f)), b, Elems(l)) == View(s, kind, Elems(t'), Elems(f'))
  {
    assert Elems(t + l) == Elems(t) + Elems(l) && Elems(f + l) == Elems(f) + Elems(l);
  }

  lemma ListMembersOf(code: seq<Instr>, head: int, l: seq<nat>)
    requires IsList(code, head, l)
    ensures Jumps(code, Elems(l))
  {
    ListMembers(code, head, l);
  }

  // ------------------------------------------------------------------------------- running it

  /** From leaving the old code to leaving the new: the value that evaluation comes to is in `reg`, the
      registers below are as before, and what did not reach the expression is unaffected. */
  ghost predicate Computes(env: Env, e: Expr, reg: nat, k0: seq<Value>, code: seq<Instr>, x: Exit, y: Exit) {
    match x
    case Fall(r, via) =>
      (match Course(env, e, r, TestedBy(code, via, r), k0)
       case None => y == Raise
       case Some(w) => y.Fall? && Get(y.r, reg) == ValueOf(w) && Agree(r, y.r, reg, -1))
    case Stuck => true
    case _ => y == x
  }

  lemma DenotesComputes(env: Env, k1: seq<Value>, k: seq<Value>, s: Snap, v1: View, v: View, e: Expr, reg: nat,
                        k0: seq<Value>, k2: seq<Value>, p: nat, r: Regs)
    requires Denotes(env, k1, s, v1, e, reg, k0) && Yields(env, k, v1, v, reg, -1) && k1 <= k
    requires |s.code| <= |Base(v1).code|
    requires v.k == VNONRELOC(reg) && v.t == v.f == {} && k <= k2 && p <= |s.code|
    ensures Computes(env, e, reg, k0, s.code, Run(env, k2, s, p, r), Run(env, k2, v.s, p, r))
  {
    hide Step; hide Run; hide Leap; hide Course;
    MPlain(env, k2, v, p, r);
    hide M; hide Base;
    assert Expected(env, e, reg, k0, s.code, Run(env, k2, s, p, r), M(env, k2, v1, p, r));
    assert Yielded(M(env, k2, v1, p, r), M(env, k2, v, p, r), reg, -1);
  }

  lemma EmptyRun(env: Env, s: Snap, r: Regs)
    requires s.code == []
    ensures forall k :: Run(env, k, s, 0, r) == Fall(r, NO_JUMP)
  {
  }

  /** Once the jumps on hold are given their destination nothing is pending and the code is ready. */
  lemma SettledRuns(env: Env, k: seq<Value>, s: Snap, code: seq<Instr>, r: Regs)
    requires s.open == {} && Closed(s.code) && Jumps(s.code, s.held)
    requires code == Patched(s.code, s.held, |s.code|, NO_REG, |s.code|)
    requires !Run(env, k, s, 0, r).Stuck?
    ensures Run(env, k, Snap(code, {}, {}), 0, r) == NoVia(Run(env, k, s, 0, r))
  {
    hide Step; hide Run; hide Leap; hide PatchedAt;
    var s' := Snap(code, {}, {});
    assert code == code + [];
    EmitRuns(env, k, s, s', [], 0, r);
    assert code[..|s.code|] == code;
  }
}
