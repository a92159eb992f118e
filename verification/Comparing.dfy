/**
  Comparing: the instruction over two operands that are in place, with its jump.
 */
module Comparing {
  import opened Basics
  import opened Bytecode
  import opened JumpLists
  import opened Views
  import opened Delivering

  /** The operand an expression already is: a constant that fits, or a register. */
  ghost predicate IsOperand(e: ExpDesc) {
    e.t == e.f == NO_JUMP && (e.k.VNONRELOC? || (e.k.VK? && e.k.info <= MAXINDEXRK))
  }

  function OperandOf(e: ExpDesc): RK
    requires e.k.VNONRELOC? || e.k.VK?
  {
    if e.k.VK? then Konst(e.k.info) else Reg(e.k.reg)
  }

  /** What `codecomp` is asked for: `cond` false means different for equality, and the operands
      exchanged for an order. */
  ghost function CompResult(env: Env, op: CmpOp, cond: bool, a: Value, b: Value): Option<bool> {
    if cond then env.cmp(op, a, b)
    else if op == EQ then (match env.cmp(EQ, a, b) case None => None case Some(x) => Some(!x))
    else env.cmp(op, b, a)
  }

  /** From the second operand's outcome to that of the comparison. */
  ghost predicate Compared(env: Env, k: seq<Value>, o1: Outcome, o2: Outcome, left: RK, op: CmpOp, cond: bool, n: int) {
    match o1
    case Came(w, r) =>
      (match CompResult(env, op, cond, RKValue(k, r, left), ValueOf(w))
       case None => o2 == Error
       case Some(x) => o2.Came? && o2.w == Here(Bool(x), None) && Agree(r, o2.r, n, -1))
    case Elsewhere(j, r) => o2 == o1
    case Error => o2 == o1
    case Broken => true
  }

  ghost predicate Compares(env: Env, k: seq<Value>, v1: View, v2: View, left: RK, op: CmpOp, cond: bool, n: int) {
    forall k2, p: nat, r {:trigger M(env, k2, v2, p, r)} | k <= k2 && p <= |Base(v1).code| ::
      Compared(env, k2, M(env, k2, v1, p, r), M(env, k2, v2, p, r), left, op, cond, n)
  }

  lemma YieldsCompares(env: Env, k1: seq<Value>, k2: seq<Value>, v1: View, v2: View, v3: View, left: RK, op: CmpOp,
                       cond: bool, m: int, n: int)
    requires Yields(env, k1, v1, v2, m, -1) && Compares(env, k2, v2, v3, left, op, cond, n) && k1 <= k2 && n <= m
    requires Carries(v1, v2) && Carries(v2, v3)
    requires left.Reg? ==> left.r < m
    ensures Compares(env, k2, v1, v3, left, op, cond, n) && Carries(v1, v3)
  {
    hide M;
    CarriesTrans(v1, v2, v3);
    hide Base;
    hide Intact;
    forall k3, p: nat, r | k2 <= k3 && p <= |Base(v1).code|
      ensures Compared(env, k3, M(env, k3, v1, p, r), M(env, k3, v3, p, r), left, op, cond, n)
    {
      var o1, o2, o3 := M(env, k3, v1, p, r), M(env, k3, v2, p, r), M(env, k3, v3, p, r);
      assert Yielded(o1, o2, m, -1) && Compared(env, k3, o2, o3, left, op, cond, n);
    }
  }

  lemma OperandFits(k: seq<Value>, s: Snap, e: ExpDesc)
    requires Fit(s, k, e, [], [])
    ensures e.k.VK? ==> e.k.info < |k|
    ensures Elems([]) == {}
  {
  }

  /** The comparison and its jump, emitted over an operand that is in place. */
  lemma CompareCompares(env: Env, k: seq<Value>, v1: View, v2: View, left: RK, right: RK, op: CmpOp, cond: bool,
                        test: Instr, n: int)
    requires v1.t == v1.f == v2.t == v2.f == {} && v2.k == VJMP(|v1.s.code| + 1)
    requires Emits(v1.s, v2.s, [test, Jmp(NO_JUMP)]) && v2.s.open == v1.s.open + {|v1.s.code| + 1}
    requires if right.Konst? then v1.k == VK(right.i) && right.i < |k| else v1.k == VNONRELOC(right.r)
    requires test == if !cond && op != EQ then Cmp(op, true, right, left) else Cmp(op, cond, left, right)
    ensures Compares(env, k, v1, v2, left, op, cond, n)
    ensures Carries(v1, v2)
    ensures Fit(v2.s, k, ExpDesc(v2.k, NO_JUMP, NO_JUMP), [], []) && Closed(v2.s.code)
  {
    hide Step; hide Run; hide Leap; hide PatchedAt;
    var m := |v1.s.code|;
    EmitIntact(v1.s, v2.s, [test, Jmp(NO_JUMP)]);
    assert Base(v2) == Snap(v2.s.code[..m], {}, v1.s.open) by { assert Base(v2).open == v1.s.open; }
    assert v2.s.code[m] == test && v2.s.code[m + 1] == Jmp(NO_JUMP);
    forall k2, p: nat, r | k <= k2 && p <= m
      ensures Compared(env, k2, M(env, k2, v1, p, r), M(env, k2, v2, p, r), left, op, cond, n)
    {
      if !Run(env, k2, v1.s, p, r).Stuck? {
        EmitRuns(env, k2, v1.s, v2.s, [test, Jmp(NO_JUMP)], p, r);
      }
    }
  }
}
