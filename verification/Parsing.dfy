/**
  The parser's recursion over an expression (`subexpr`), which drives the code generator, and what running the
  code comes to.
 */
module Parsing {
  import opened Basics
  import opened Bytecode
  import opened JumpLists
  import opened Views
  import opened Delivering
  import opened Testing
  import opened Negating
  import opened Comparing
  import opened Expressions
  import opened Denoting
  import opened Describing
  import opened Straying
  import opened CodeGen

  /** What can be told of the descriptor and of the constants from the text. */
  ghost predicate Looks(x: Expr, k0: seq<Value>, k: seq<Value>, code: seq<Instr>, nact: nat, kind: Kind, t: seq<nat>,
                        f: seq<nat>)
  {
    && IsOf(kind, ClassOf(x), code, k, nact) && k == Constants(x, k0)
    && (t != [] <==> Leaves(true, x)) && (f != [] <==> Leaves(false, x))
  }

  lemma LogicLooks(b: bool, l: Expr, r: Expr, k0: seq<Value>, k: seq<Value>, code2: seq<Instr>, code: seq<Instr>,
                   nact: nat,
                   leave: seq<nat>, kind2: Kind, kind: Kind, t2: seq<nat>, f2: seq<nat>, t: seq<nat>, f: seq<nat>)
    requires Looks(r, Examined(b, ClassOf(l), Constants(l, k0)), k, code2, nact, kind2, t2, f2)
    requires IsOf(kind, Discharged(ClassOf(r)), code, k, nact)
    requires leave != [] <==> Leaves(!b, l) || !Silent(b, ClassOf(l))
    requires t == (if b then t2 else t2 + leave) && f == if b then f2 + leave else f2
    ensures Looks(Logic(b, l, r), k0, k, code, nact, kind, t, f)
  {
    hide IsOf;
  }

  lemma CompareLooks(op: BinOpr, l: Expr, r: Expr, k0: seq<Value>, k: seq<Value>, code2: seq<Instr>, code: seq<Instr>,
                     nact: nat,
                     kind2: Kind, kind: Kind, k3: seq<Value>, t2: seq<nat>, f2: seq<nat>)
    requires !IsLogic(op) && kind.VJMP? && Looks(r, Between(op, l, Constants(l, k0)), k3, code2, nact, kind2, t2, f2)
    requires k == OperandK(k3, kind2, t2 == [] && f2 == [])
    ensures Looks(Bin(op, l, r), k0, k, code, nact, kind, [], [])
  {
    KindClass(kind2, ClassOf(r), code2, k3, nact, t2 == [] && f2 == []);
    hide IsOf; hide OperandK; hide Operand; hide Between;
    assert IsOf(kind, CJmp, code, k, nact) by { KindJmp(kind, code, k, nact); }
  }

  lemma KindJmp(kind: Kind, code: seq<Instr>, k: seq<Value>, nact: nat)
    requires kind.VJMP?
    ensures IsOf(kind, CJmp, code, k, nact)
  {
  }

  lemma LooksOf(x: Expr, k0: seq<Value>, k: seq<Value>, code: seq<Instr>, nact: nat, kind: Kind, t: seq<nat>,
                f: seq<nat>)
    requires Looks(x, k0, k, code, nact, kind, t, f)
    ensures IsOf(kind, ClassOf(x), code, k, nact) && k == Constants(x, k0)
    ensures (t == [] && f == []) == NoLeave(x)
  {
  }

  lemma LooksLeaves(b: bool, x: Expr, k0: seq<Value>, k: seq<Value>, code: seq<Instr>, nact: nat, kind: Kind,
                    t: seq<nat>,
                    f: seq<nat>)
    requires Looks(x, k0, k, code, nact, kind, t, f)
    ensures (if b then f else t) != [] <==> Leaves(!b, x)
  {
  }

  lemma ExaminedGrows(b: bool, c: Class, k: seq<Value>)
    ensures k <= Examined(b, c, k)
  {
  }

  lemma BetweenOperand(op: BinOpr, l: Expr, k: seq<Value>)
    requires !IsLogic(op)
    ensures Between(op, l, k) == Operand(ClassOf(l), NoLeave(l), k)
  {
  }

  /** The left operand of `and` (`b` true) or `or` has been compiled to `v1` and tested; control goes on at the end of
      `s2`. */
  ghost predicate LeftTested(env: Env, k0: seq<Value>, k1: seq<Value>, k2: seq<Value>, s0: Snap, v1: View, s2: Snap,
                             b: bool,
                             l: Expr, leave: seq<nat>, n: int)
  {
    && k0 <= k1 <= k2 && k1 == Constants(l, k0) && k2 == Examined(b, ClassOf(l), k1)
    && Denotes(env, k1, s0, v1, l, n, k0) && Since(s0, v1)
    && Decides(env, k2, v1, Passed(s2, b, Elems(leave)), b, LeavingOf(b, ClassOf(l)), Silent(b, ClassOf(l)), n)
    && Carries(v1, Passed(s2, b, Elems(leave))) && Elems(leave) <= s2.open
    && (leave != [] <==> Leaves(!b, l) || !Silent(b, ClassOf(l)))
  }

  lemma LogicCompiled(env: Env, k0: seq<Value>, k1: seq<Value>, k2: seq<Value>, k: seq<Value>, s0: Snap, v1: View,
                      s2: Snap,
                      v3: View, v4: View, b: bool, l: Expr, r: Expr, leave: seq<nat>, nact: nat, n: int,
                      t2: seq<nat>, f2: seq<nat>, t: seq<nat>, f: seq<nat>)
    requires LeftTested(env, k0, k1, k2, s0, v1, s2, b, l, leave, n) && LocalsBelow(r, nact) && nact <= n
    requires k2 <= k && Denotes(env, k, s2, v3, r, n, k2) && Since(s2, v3)
    requires Looks(r, k2, k, v3.s.code, nact, v3.k, t2, f2)
    requires Keeps(env, k, v3, v4, n, -1) && Carries(v3, v4) && Elems(leave) !! v4.t + v4.f
    requires v4.s.held == if ClassOf(r) == CUpval then {} else v3.s.held
    requires IsOf(v4.k, Discharged(ClassOf(r)), v4.s.code, k, nact)
    requires t == (if b then t2 else t2 + leave) && f == if b then f2 + leave else f2
    ensures Denotes(env, k, s0, Joined(v4, b, Elems(leave)), Logic(b, l, r), n, k0)
    ensures Since(s0, Joined(v4, b, Elems(leave)))
    ensures k0 <= k && Looks(Logic(b, l, r), k0, k, v4.s.code, nact, v4.k, t, f)
  {
    hide Run; hide Denotes; hide Keeps; hide Decides; hide Since; hide Carries; hide Base; hide Rest; hide M;
    hide Course;
    hide Constants; hide ClassOf; hide LocalsBelow; hide Silent; hide Leaves; hide LeavingOf; hide Examined;
    hide IsOf; hide Joined;
    hide Looks; hide Passed; hide Logic;
    LogicDenotes(env, k1, k2, k, k, s0, v1, s2, v3, v4, l, r, b, Elems(leave), nact, n, k0);
    LogicLooks(b, l, r, k0, k, v3.s.code, v4.s.code, nact, leave, v3.k, v4.k, t2, f2, t, f);
  }

  /** The left operand of a comparison has been compiled and is in place; control goes on at the end of `s2`. */
  ghost predicate LeftPlaced(env: Env, k0: seq<Value>, k2: seq<Value>, s0: Snap, s2: Snap, op: BinOpr, l: Expr,
                             o1: ExpDesc,
                             nact: nat, n: int, m: int)
  {
    && !IsLogic(op) && IsOperand(o1) && nact <= n <= m
    && k0 <= k2 && k2 == Between(op, l, Constants(l, k0))
    && Lodges(env, k2, s0, View(s2, o1.k, {}, {}), l, n, k0)
    && s2.open == s0.open && |s0.code| <= |s2.code| && Intact(s0.code, s2.code, s0.open)
    && (if o1.k.VK? then o1.k.info < |k2| else o1.k.VNONRELOC? && o1.k.reg < m)
    && n == (if o1.k.VNONRELOC? && o1.k.reg >= nact then m - 1 else m)
    && (o1.k.VNONRELOC? && o1.k.reg >= nact ==> o1.k.reg == n)
  }

  /** The operator that `codecomp` is asked for. */
  function OpOf(op: BinOpr): CmpOp {
    match op case OPR_EQ => EQ case OPR_NE => EQ case OPR_LT => LT case OPR_LE => LE case OPR_GT => LT case _ => LE
  }

  predicate CondOf(op: BinOpr) { op in {OPR_EQ, OPR_LT, OPR_LE} }

  lemma CompareCompiled(env: Env, k0: seq<Value>, k2: seq<Value>, k3: seq<Value>, k: seq<Value>, s0: Snap, s2: Snap,
                        v3: View,
                        v4: View, op: BinOpr, l: Expr, r: Expr, o1: ExpDesc, nact: nat, n: int, m: int,
                        t2: seq<nat>, f2: seq<nat>)
    requires LeftPlaced(env, k0, k2, s0, s2, op, l, o1, nact, n, m) && LocalsBelow(r, nact) && IsOperand(o1)
    requires k2 <= k3 && Denotes(env, k3, s2, v3, r, m, k2) && Since(s2, v3)
    requires Looks(r, k2, k3, v3.s.code, nact, v3.k, t2, f2)
    requires k == OperandK(k3, v3.k, t2 == [] && f2 == []) && v4.k.VJMP? && Carries(v3, v4)
    requires Compares(env, k, v3, v4, OperandOf(o1), OpOf(op), CondOf(op), n)
    ensures Denotes(env, k, s0, v4, Bin(op, l, r), n, k0) && Since(s0, v4)
    ensures k0 <= k && Looks(Bin(op, l, r), k0, k, v4.s.code, nact, v4.k, [], [])
  {
    hide Run; hide Denotes; hide Since; hide Carries; hide M; hide Course; hide Lodges; hide Compares; hide Intact;
    hide Constants; hide ClassOf; hide LocalsBelow; hide Leaves; hide IsOf; hide OperandK; hide Between; hide Looks;
    ConstantsStay(k3, v3.k, t2 == [] && f2 == []);
    SinceCarries(s2, v3, v4);
    SinceTrans(s0, s2, v4);
    SinceBase(s2, v3);
    DenotesCompare(env, k2, k3, k, s0, View(s2, o1.k, {}, {}), s2, v3, v4, l, r, op, OperandOf(o1), OpOf(op),
                   CondOf(op), nact,
                   n, m, k0);
    CompareLooks(op, l, r, k0, k, v3.s.code, v4.s.code, nact, v3.k, v4.k, k3, t2, f2);
  }

  lemma ConstantsSame(y: Expr, k0: seq<Value>)
    ensures Constants(Paren(y), k0) == Constants(NotE(y), k0) == Constants(y, k0)
  {
  }

  /** The code added since `s0`, when there were the constants `k0`, evaluates `x`, and everything pending before is
      still pending. */
  ghost predicate Compiled(fs: FuncState, env: Env, s0: Snap, k0: seq<Value>, n: int, x: Expr, e: ExpDesc, t: seq<nat>,
                           f: seq<nat>)
    reads fs
  {
    && fs.Holds(e, t, f) && fs.Level(e) == n
    && Denotes(env, fs.k, s0, fs.At(e, t, f), x, n, k0) && Since(s0, fs.At(e, t, f))
    && k0 <= fs.k && Looks(x, k0, fs.k, fs.code, fs.nactvar, e.k, t, f)
  }

  /** A leaf emits nothing. */
  method Simple(fs: FuncState, ghost env: Env, x: Expr) returns (e: ExpDesc)
    requires fs.Valid() && Closed(fs.code) && LocalsBelow(x, fs.nactvar)
    requires !x.NotE? && !x.Bin? && !x.Paren?
    modifies fs`k
    ensures Compiled(fs, env, old(fs.State()), old(fs.k), fs.freereg, x, e, [], [])
  {
    hide Compiled; hide NoDup; hide Closed; hide Jumps;
    ghost var k0 := fs.k;
    match x {
      case Local(i) => e := ExpDesc(VLOCAL(i), NO_JUMP, NO_JUMP);
      case Upval(u) => e := ExpDesc(VUPVAL(u), NO_JUMP, NO_JUMP);
      case NumLit(n) => e := ExpDesc(VKNUM(n), NO_JUMP, NO_JUMP);
      case StrLit(s) =>
        var c := fs.AddK(Str(s));
        e := ExpDesc(VK(c), NO_JUMP, NO_JUMP);
      case TrueLit => e := ExpDesc(VTRUE, NO_JUMP, NO_JUMP);
      case FalseLit => e := ExpDesc(VFALSE, NO_JUMP, NO_JUMP);
    }
    LeafCompiled(fs, env, x, e, k0);
  }

  lemma LeafCompiled(fs: FuncState, env: Env, x: Expr, e: ExpDesc, k0: seq<Value>)
    requires fs.Valid() && Closed(fs.code) && !x.NotE? && !x.Bin? && !x.Paren?
    requires Describes(fs.k, x, e.k) && IsOf(e.k, ClassOf(x), fs.code, fs.k, fs.nactvar)
    requires (e.k.VLOCAL? ==> e.k.reg < fs.nactvar)
    requires e.t == e.f == NO_JUMP && k0 <= fs.k && fs.k == Constants(x, k0)
    ensures Compiled(fs, env, fs.State(), k0, fs.freereg, x, e, [], [])
  {
    hide Step; hide Run; hide Leap; hide Denotes; hide NoDup; hide Closed; hide Course; hide IsOf;
    hide Constants; hide ClassOf;
    SinceSame(fs.State());
    EmptyList(fs.code);
    LeafDenotes(env, fs.k, fs.At(e, [], []), x, fs.freereg, k0);
  }

  lemma SinceSame(s: Snap)
    requires Jumps(s.code, s.open)
    ensures Intact(s.code, s.code, s.open)
  {
  }

  /** The parser's recursion over an expression (`subexpr`): code is emitted as the operators are met. */
  method Expression(fs: FuncState, ghost env: Env, x: Expr) returns (e: ExpDesc, ghost t: seq<nat>, ghost f: seq<nat>)
    requires fs.Valid() && Closed(fs.code) && LocalsBelow(x, fs.nactvar)
    modifies fs`code, fs`jpc, fs`J, fs`O, fs`k, fs`freereg
    ensures Compiled(fs, env, old(fs.State()), old(fs.k), old(fs.freereg), x, e, t, f)
    decreases x, 2
  {
    hide Step; hide Run; hide Leap; hide PatchedAt; hide Patched; hide Denotes; hide Keeps; hide Negates;
    hide Since; hide Fit;
    hide Carries; hide Base; hide Rest; hide M; hide IsList; hide NoDup; hide Intact; hide Course; hide Delay;
    hide Constants;
    hide Closed;
    ghost var s0, n, k0 := fs.State(), fs.freereg, fs.k;
    match x {
      case Paren(y) =>
        e, t, f := Expression(fs, env, y);
        ghost var v1, k1 := fs.At(e, t, f), fs.k;
        e := fs.DischargeVars(env, e, t, f);
        DenotesParen(env, k1, fs.k, s0, v1, fs.At(e, t, f), y, fs.freereg, n, k0) by { SinceBase(s0, v1); }
        SinceCarries(s0, v1, fs.At(e, t, f));
        assert Constants(x, k0) == Constants(y, k0) by { ConstantsSame(y, k0); }
      case NotE(y) =>
        e, t, f := Expression(fs, env, y);
        ghost var v1, k1 := fs.At(e, t, f), fs.k;
        e := fs.CodeNot(env, e, ClassOf(y), t, f);
        t, f := f, t;
        DenotesNot(env, k1, fs.k, s0, v1, fs.At(e, t, f), y, n, k0) by { SinceBase(s0, v1); }
        SinceCarries(s0, v1, fs.At(e, t, f));
        assert Constants(x, k0) == Constants(y, k0) by { ConstantsSame(y, k0); }
      case Bin(op, l, r) =>
        if op == OPR_AND || op == OPR_OR {
          e, t, f := LogicOp(fs, env, op == OPR_AND, l, r);
        } else {
          e := Comparison(fs, env, op, l, r);
          t, f := [], [];
        }
      case _ =>
        e := Simple(fs, env, x);
        t, f := [], [];
    }
  }

  method LogicOp(fs: FuncState, ghost env: Env, b: bool, l: Expr, r: Expr) returns (e: ExpDesc, ghost t: seq<nat>,
                                                                                    ghost f: seq<nat>)
    requires fs.Valid() && Closed(fs.code) && LocalsBelow(Logic(b, l, r), fs.nactvar)
    modifies fs`code, fs`jpc, fs`J, fs`O, fs`k, fs`freereg
    ensures Compiled(fs, env, old(fs.State()), old(fs.k), old(fs.freereg), Logic(b, l, r), e, t, f)
    decreases Bin(if b then OPR_AND else OPR_OR, l, r), 1
  {
    hide Step; hide Run; hide Leap; hide PatchedAt; hide Patched; hide Denotes; hide Keeps; hide Tests;
    hide Decides; hide Since;
    hide Fit; hide Carries; hide Base; hide Rest; hide M; hide IsList; hide NoDup; hide Intact; hide Course; hide Delay;
    hide Constants; hide ClassOf; hide Closed; hide Leaves; hide Examined; hide IsOf; hide LeavingOf; hide Silent;
    ghost var s0, n, k0 := fs.State(), fs.freereg, fs.k;
    var e1;
    ghost var t1, f1, leave;
    e1, t1, f1 := Expression(fs, env, l);
    ghost var v1, k1 := fs.At(e1, t1, f1), fs.k;
    var first;
    LooksOf(l, k0, fs.k, fs.code, fs.nactvar, e1.k, t1, f1);
    LooksLeaves(b, l, k0, fs.k, fs.code, fs.nactvar, e1.k, t1, f1);
    first, leave := fs.InfixLogic(env, b, e1, ClassOf(l), t1, f1);
    assert k1 <= fs.k by { ExaminedGrows(b, ClassOf(l), k1); }
    e, t, f := Continue(fs, env, b, first, leave, l, r, s0, v1, k0, k1, n);
  }

  /** The second operand of `and` or `or`, once the first has been tested. */
  method Continue(fs: FuncState, ghost env: Env, b: bool, first: int, ghost leave: seq<nat>, ghost l: Expr, r: Expr,
                  ghost s0: Snap, ghost v1: View, ghost k0: seq<Value>, ghost k1: seq<Value>, ghost n: int)
    returns (e: ExpDesc, ghost t: seq<nat>, ghost f: seq<nat>)
    requires fs.Valid() && Closed(fs.code) && fs.freereg == n && IsList(fs.code, first, leave) && NoDup(leave)
    requires LeftTested(env, k0, k1, fs.k, s0, v1, fs.State(), b, l, leave, n) && LocalsBelow(r, fs.nactvar)
    requires fs.nactvar <= n
    modifies fs`code, fs`jpc, fs`J, fs`O, fs`k, fs`freereg
    ensures Compiled(fs, env, s0, k0, n, Logic(b, l, r), e, t, f)
    decreases Bin(if b then OPR_AND else OPR_OR, l, r), 0
  {
    hide Step; hide Run; hide Leap; hide PatchedAt; hide Patched; hide Denotes; hide Keeps; hide Since; hide Fit;
    hide FuncState.Valid;
    hide Carries; hide Base; hide Rest; hide M; hide IsList; hide NoDup; hide Intact; hide Course; hide Delay;
    hide IsOf;
    hide Constants; hide ClassOf; hide LocalsBelow; hide Leaves; hide Closed; hide Looks; hide Joined;
    hide Added; hide FuncState.Holds;
    hide FuncState.Level; hide LeftTested; hide Logic;
    ghost var s2, k2 := fs.State(), fs.k;
    assert Elems(leave) <= s2.open by { LeftLeaves(env, k0, k1, fs.k, s0, v1, s2, b, l, leave, n); }
    var e2;
    ghost var t2, f2;
    e2, t2, f2 := Expression(fs, env, r);
    ghost var v3 := fs.At(e2, t2, f2);
    LooksOf(r, k2, fs.k, fs.code, fs.nactvar, e2.k, t2, f2);
    SinceIntact(s2, v3);
    ListIntact(s2.code, fs.code, s2.open, first, leave);
    e, t, f := fs.PosfixLogic(env, b, first, leave, e2, ClassOf(r), t2, f2);
    LogicCompiled(env, k0, k1, k2, fs.k, s0, v1, s2, v3, View(fs.State(), e.k, Elems(t2), Elems(f2)), b, l, r, leave,
                  fs.nactvar, n,
                  t2, f2, t, f);
  }

  lemma LeftLeaves(env: Env, k0: seq<Value>, k1: seq<Value>, k2: seq<Value>, s0: Snap, v1: View, s2: Snap, b: bool,
                   l: Expr, leave: seq<nat>, n: int)
    requires LeftTested(env, k0, k1, k2, s0, v1, s2, b, l, leave, n)
    ensures Elems(leave) <= s2.open
  {
  }

  method Comparison(fs: FuncState, ghost env: Env, op: BinOpr, l: Expr, r: Expr) returns (e: ExpDesc)
    requires !IsLogic(op)
    requires fs.Valid() && Closed(fs.code) && LocalsBelow(Bin(op, l, r), fs.nactvar)
    modifies fs`code, fs`jpc, fs`J, fs`O, fs`k, fs`freereg
    ensures Compiled(fs, env, old(fs.State()), old(fs.k), old(fs.freereg), Bin(op, l, r), e, [], [])
    decreases Bin(op, l, r), 1
  {
    hide Step; hide Run; hide Leap; hide PatchedAt; hide Patched; hide Denotes; hide Keeps; hide Yields;
    hide Compares; hide Since;
    hide Fit; hide Carries; hide Base; hide Rest; hide M; hide IsList; hide NoDup; hide Intact; hide Course; hide Emits;
    hide Closed; hide ClassOf; hide Constants; hide Leaves; hide IsOf; hide Lodges; hide Unladen; hide StaysPut;
    hide InPlace;
    hide OperandK; hide Operand; hide Looks; hide Between; hide NoLeave;
    ghost var s0, n, k0 := fs.State(), fs.freereg, fs.k;
    var e1;
    ghost var t1, f1;
    e1, t1, f1 := Expression(fs, env, l);
    ghost var v1, k1, plain := fs.At(e1, t1, f1), fs.k, t1 == [] && f1 == [];
    LooksOf(l, k0, fs.k, fs.code, fs.nactvar, e1.k, t1, f1);
    KindClass(e1.k, ClassOf(l), fs.code, fs.k, fs.nactvar, plain);
    ClassFirm(fs, e1.k, l);
    ConstantsStay(fs.k, e1.k, plain);
    var o1, left := fs.Exp2RK(env, e1, t1, f1);
    ghost var s2 := fs.State();
    DenotesLodges(env, k1, fs.k, s0, v1, fs.At(o1, [], []), l, n, n, k0) by { SinceBase(s0, v1); }
    SinceCarries(s0, v1, fs.At(o1, [], []));
    SinceOperand(s0, fs.At(o1, [], []), s2);
    OperandFits(fs.k, s2, o1);
    BetweenOperand(op, l, k1);
    e := CompareWith(fs, env, op, o1, l, r, s0, n, k0);
  }

  lemma ClassFirm(fs: FuncState, kind: Kind, x: Expr)
    requires IsOf(kind, ClassOf(x), fs.code, fs.k, fs.nactvar)
    ensures fs.Firm(kind)
  {
  }

  /** The second operand of a comparison, once the first is in place. */
  method CompareWith(fs: FuncState, ghost env: Env, op: BinOpr, o1: ExpDesc, ghost l: Expr, r: Expr, ghost s0: Snap,
                     ghost n: int,
                     ghost k0: seq<Value>)
    returns (e: ExpDesc)
    requires fs.Valid() && Closed(fs.code) && LocalsBelow(r, fs.nactvar)
    requires LeftPlaced(env, k0, fs.k, s0, fs.State(), op, l, o1, fs.nactvar, n, fs.freereg)
    modifies fs`code, fs`jpc, fs`J, fs`O, fs`k, fs`freereg
    ensures Compiled(fs, env, s0, k0, n, Bin(op, l, r), e, [], [])
    decreases Bin(op, l, r), 0
  {
    hide Step; hide Run; hide Leap; hide PatchedAt; hide Patched; hide Denotes; hide Keeps; hide Compares;
    hide Since; hide Fit;
    hide Carries; hide Base; hide Rest; hide M; hide IsList; hide NoDup; hide Intact; hide Course; hide Emits;
    hide Closed;
    hide LocalsBelow; hide ClassOf; hide Constants; hide Leaves; hide IsOf; hide OperandK; hide Looks;
    hide FuncState.Valid;
    hide LeftPlaced; hide Added; hide FuncState.Holds; hide OpOf; hide CondOf; hide IsOperand; hide OperandOf;
    hide FuncState.Level; hide Delay;
    ghost var s2, k2, m := fs.State(), fs.k, fs.freereg;
    LeftOperand(fs, env, k0, fs.k, s0, s2, op, l, o1, n, m);
    var e2;
    ghost var t2, f2;
    e2, t2, f2 := Expression(fs, env, r);
    ghost var v3, k3, nact := fs.At(e2, t2, f2), fs.k, fs.nactvar;
    assert Denotes(env, k3, s2, v3, r, m, k2) && Since(s2, v3) && k2 <= k3;
    assert Looks(r, k2, k3, v3.s.code, nact, v3.k, t2, f2);
    e := fs.CodeComp(env, OpOf(op), CondOf(op), o1, e2, t2, f2);
    fs.LevelRelocatable(e);
    ghost var v4, k4 := fs.At(e, [], []), fs.k;
    assert fs.freereg == n;
    assert Compares(env, k4, v3, v4, OperandOf(o1), OpOf(op), CondOf(op), n);
    assert k4 == OperandK(k3, v3.k, t2 == [] && f2 == []) && Carries(v3, v4);
    CompareCompiled(env, k0, k2, k3, k4, s0, s2, v3, v4, op, l, r, o1, nact, n, m, t2, f2);
  }

  lemma LeftOperand(fs: FuncState, env: Env, k0: seq<Value>, k2: seq<Value>, s0: Snap, s2: Snap, op: BinOpr, l: Expr,
                    o1: ExpDesc,
                    n: int, m: int)
    requires LeftPlaced(env, k0, k2, s0, s2, op, l, o1, fs.nactvar, n, m)
    ensures IsOperand(o1) && (o1.k.VNONRELOC? ==> o1.k.reg < m && (o1.k.reg >= fs.nactvar ==> o1.k.reg + 1 == m))
    ensures n == if o1.k.VNONRELOC? && o1.k.reg >= fs.nactvar then m - 1 else m
  {
  }

  /** An expression whose value goes to the next free register, as for `local v = x`. */
  method ExpressionToNextReg(fs: FuncState, ghost env: Env, x: Expr) returns (reg: nat)
    requires fs.Valid() && Closed(fs.code) && LocalsBelow(x, fs.nactvar)
    modifies fs`code, fs`jpc, fs`J, fs`O, fs`k, fs`freereg
    ensures fs.Valid() && Closed(fs.code) && reg == old(fs.freereg) && fs.freereg == old(fs.freereg) + 1
    ensures fs.O == old(fs.O)
    ensures old(fs.k) <= fs.k && |old(fs.code)| <= |fs.code| && Intact(old(fs.code), fs.code, fs.O)
    ensures forall k2, p: nat, r {:trigger Run(env, k2, fs.State(), p, r)} | fs.k <= k2 && p <= |old(fs.code)| ::
      Computes(env, x, reg, old(fs.k), old(fs.code), Run(env, k2, old(fs.State()), p, r),
               Run(env, k2, fs.State(), p, r))
  {
    hide Step; hide Run; hide Leap; hide PatchedAt; hide Patched; hide Denotes; hide Keeps; hide Yields;
    hide Since; hide Fit;
    hide Carries; hide Base; hide Rest; hide M; hide IsList; hide NoDup; hide Intact; hide Course; hide Looks;
    hide Unladen;
    hide Computes; hide Closed; hide LocalsBelow;
    ghost var s0, n, k0 := fs.State(), fs.freereg, fs.k;
    var e;
    ghost var t, f;
    e, t, f := Expression(fs, env, x);
    ghost var v1, k1 := fs.At(e, t, f), fs.k;
    e := fs.Exp2NextReg(env, e, t, f);
    reg := e.k.reg;
    ghost var v2 := fs.At(e, [], []);
    SinceCarries(s0, v1, v2);
    EmptyList(fs.code);
    SinceOperand(s0, v2, fs.State());
    SinceBase(s0, v1);
    forall k2, p: nat, r | fs.k <= k2 && p <= |s0.code|
      ensures Computes(env, x, reg, k0, s0.code, Run(env, k2, s0, p, r), Run(env, k2, fs.State(), p, r))
    {
      DenotesComputes(env, k1, fs.k, s0, v1, v2, x, reg, k0, k2, p, r);
    }
  }

  /** Compiling an expression as the body of a function with `nactvar` locals and running the code:
      evaluation takes its course, and leaves the value that it comes to in the first free register and the
      locals as they were. Where no comparison is handed a wrong operand it raises an error exactly when
      the expression denotes one, and else the value is the one denoted just when evaluation is not misled. It never
      is in expressions that are clean, as those without literals are. */
  method CompileAndRun(env: Env, x: Expr, nactvar: nat, locals: Regs) returns (ok: bool, r: Regs)
    requires LocalsBelow(x, nactvar)
    ensures match Course(env, x, locals, None, [])
      case None => !ok
      case Some(w) => ok && Get(r, nactvar) == ValueOf(w) && Agree(locals, r, nactvar, -1)
    ensures Straight(env, x, locals, None, []) ==>
      match Eval(env, x, locals)
      case None => !ok
      case Some(a) => ok && (Get(r, nactvar) == a <==> !Misled(env, x, locals, None, []))
    ensures Clean(x) || LiteralFree(x) ==>
      match Eval(env, x, locals)
      case None => !ok
      case Some(a) => ok && Get(r, nactvar) == a
  {
    hide Step; hide Run; hide Leap; hide PatchedAt; hide Patched; hide Intact; hide Eval; hide IsList;
    hide Emits; hide Course;
    hide Straight; hide Misled; hide Clean; hide LiteralFree;
    var fs := new FuncState(nactvar);
    ghost var s0 := fs.State();
    EmptyRun(env, s0, locals);
    var reg := ExpressionToNextReg(fs, env, x);
    ghost var s1 := fs.State();
    assert Computes(env, x, reg, [], [], Run(env, fs.k, s0, 0, locals), Run(env, fs.k, s1, 0, locals));
    ListMembersOf(fs.code, fs.jpc, fs.J);
    fs.DischargeJpc();
    SettledRuns(env, fs.k, s1, fs.code, locals);
    ok, r := Execute(env, fs.k, fs.code, 0, locals);
    if LiteralFree(x) { LiteralFreeClean(x); }
    if Clean(x) { CleanRight(env, x, locals); }
    if Straight(env, x, locals, None, []) { RightExactly(env, x, locals, None, []); }
  }

  /** `((l0 or l1) and false) and l2`, compiled and run with `l0` equal to 1, gives 1. It denotes false. */
  method RunLost(env: Env) returns (v: Value)
    ensures v == Num(1) && Eval(env, Lost(), map[0 := Num(1)]) == Some(Bool(false))
  {
    LostWrong(env);
    assert LocalsBelow(Lost(), 3) by { LostLocals(); }
    var ok, r := CompileAndRun(env, Lost(), 3, map[0 := Num(1)]);
    v := Get(r, 3);
  }

  lemma LostLocals()
    ensures LocalsBelow(Lost(), 3)
  {
    var p := Bin(OPR_OR, Local(0), Local(1));
    assert LocalsBelow(p, 3);
    assert LocalsBelow(Bin(OPR_AND, Paren(p), FalseLit), 3);
  }
}
