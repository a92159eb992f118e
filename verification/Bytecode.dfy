/**
  The part of the virtual machine that boolean and relational expressions use: the
  instructions they compile to and what the interpreter loop does with each of them.
  Instruction fields are kept as separate values instead of being packed in a word.
 */
module Bytecode {
  import opened Basics

  datatype Value = Nil | Bool(b: bool) | Num(n: int) | Str(s: string) | Ref(id: nat)

  /** Negation of `l_isfalse`: only nil and false are false. */
  predicate Truthy(v: Value) { v != Nil && v != Bool(false) }

  datatype CmpOp = EQ | LT | LE

  /** An operand that is either a register or a constant (an RK field). */
  datatype RK = Reg(r: nat) | Konst(i: nat)

  datatype Instr =
    | Move(a: int, b: int)
    | LoadK(a: int, bx: nat)
    | LoadBool(a: int, v: bool, skip: bool)
    | GetUpval(a: int, u: nat)
    | Not(a: int, b: int)
    | Jmp(sbx: int)
    | Cmp(op: CmpOp, cond: bool, rb: RK, rc: RK)
    | Test(a: int, c: bool)
    | TestSet(a: int, b: int, c: bool)

  /** `testTMode`: instructions that must be followed by a jump. */
  predicate IsTest(i: Instr) { i.Cmp? || i.Test? || i.TestSet? }

  /** Register contents; a register never written reads as nil. */
  type Regs = map<int, Value>

  function Get(r: Regs, i: int): Value { if i in r then r[i] else Nil }

  /** What a running function sees besides its registers: the values of its upvalues and what
      a comparison answers, `None` standing for a raised error (metamethods are covered by
      leaving `cmp` arbitrary). */
  datatype Env = Env(up: nat -> Value, cmp: (CmpOp, Value, Value) -> Option<bool>)

  function RKValue(k: seq<Value>, r: Regs, o: RK): Value {
    match o
    case Reg(i) => Get(r, i)
    case Konst(i) => if i < |k| then k[i] else Nil
  }

  /** Code in the making. `held` are the jumps that wait for the next instruction to be emitted
      and will land on it; `open` are the jumps whose destination is not known yet. */
  datatype Snap = Snap(code: seq<Instr>, held: set<nat>, open: set<nat>)

  const NO_JUMP: int := -1

  /** How a stretch of code is left: past its end, where it may have come by a held jump, through an
      open jump, by a raised error, or not at all because the code is ill-formed. */
  datatype Exit = Fall(r: Regs, via: int) | Out(j: nat, r: Regs) | Raise | Stuck

  /** Where control is after one instruction: at `pc`, on the jump at `j` (with registers
      `written`, or `plain` if the test has no register to write yet), or nowhere. */
  datatype Next = Go(pc: nat, r: Regs) | Take(j: nat, plain: Regs, written: Regs) | Throw | Bad

  function Step(env: Env, k: seq<Value>, i: Instr, pc: nat, r: Regs): (n: Next)
    ensures n.Go? ==> n.pc > pc
    ensures n.Take? ==> n.plain == r && n.j == if IsTest(i) then pc + 1 else pc
  {
    match i
    case Move(a, b) => Go(pc + 1, r[a := Get(r, b)])
    case LoadK(a, bx) => if bx < |k| then Go(pc + 1, r[a := k[bx]]) else Bad
    case LoadBool(a, v, skip) => Go(if skip then pc + 2 else pc + 1, r[a := Bool(v)])
    case GetUpval(a, u) => Go(pc + 1, r[a := env.up(u)])
    case Not(a, b) => Go(pc + 1, r[a := Bool(!Truthy(Get(r, b)))])
    case Jmp(_) => Take(pc, r, r)
    case Cmp(op, cond, rb, rc) =>
      (match env.cmp(op, RKValue(k, r, rb), RKValue(k, r, rc))
       case None => Throw
       case Some(x) => if x == cond then Take(pc + 1, r, r) else Go(pc + 2, r))
    case Test(a, c) => if Truthy(Get(r, a)) == c then Take(pc + 1, r, r) else Go(pc + 2, r)
    case TestSet(a, b, c) =>
      if Truthy(Get(r, b)) == c then Take(pc + 1, r, r[a := Get(r, b)]) else Go(pc + 2, r)
  }

  /** Runs code from `pc` until it is left. A TESTSET whose jump is unresolved does not write: it
      has no target register yet. Control never enters between a test and its jump. */
  function Run(env: Env, k: seq<Value>, s: Snap, pc: nat, r: Regs): (x: Exit)
    ensures x.Out? ==> x.j in s.open && x.j < |s.code|
    decreases |s.code| - pc, 1
  {
    if pc > |s.code| || (pc > 0 && IsTest(s.code[pc - 1])) then Stuck
    else if pc == |s.code| then Fall(r, NO_JUMP)
    else
      match Step(env, k, s.code[pc], pc, r)
      case Go(q, r') => Run(env, k, s, q, r')
      case Take(j, plain, written) => Leap(env, k, s, j, if j in s.held + s.open then plain else written)
      case Throw => Raise
      case Bad => Stuck
  }

  /** Takes the jump at `j`. */
  function Leap(env: Env, k: seq<Value>, s: Snap, j: nat, r: Regs): (x: Exit)
    ensures x.Out? ==> x.j in s.open && x.j < |s.code|
    decreases |s.code| - j, 0
  {
    if j >= |s.code| || !s.code[j].Jmp? then Stuck
    else if j in s.open then Out(j, r)
    else if j in s.held then Fall(r, j)
    else
      var target := j + 1 + s.code[j].sbx;
      if j < target <= |s.code| then Run(env, k, s, target, r) else Stuck
  }

  /** The interpreter loop on finished code: it ends past the last instruction, or reports a raised
      error. */
  method Execute(env: Env, k: seq<Value>, code: seq<Instr>, start: nat, regs: Regs)
    returns (ok: bool, r: Regs)
    requires start <= |code|
    requires !Run(env, k, Snap(code, {}, {}), start, regs).Stuck?
    ensures Run(env, k, Snap(code, {}, {}), start, regs) == if ok then Fall(r, NO_JUMP) else Raise
  {
    var pc: nat := start;
    r := regs;
    ghost var s := Snap(code, {}, {});
    while pc < |code|
      invariant pc <= |code|
      invariant Run(env, k, s, pc, r) == Run(env, k, s, start, regs)
      decreases |code| - pc
    {
      var i := code[pc];
      pc := pc + 1;
      var jump := false;
      match i {
        case Move(a, b) => r := r[a := Get(r, b)];
        case LoadK(a, bx) => r := r[a := k[bx]];
        case LoadBool(a, v, skip) =>
          r := r[a := Bool(v)];
          if skip { pc := pc + 1; }
        case GetUpval(a, u) => r := r[a := env.up(u)];
        case Not(a, b) => r := r[a := Bool(!Truthy(Get(r, b)))];
        case Jmp(sbx) => pc := pc + sbx;
        case Cmp(op, cond, rb, rc) =>
          var x := env.cmp(op, RKValue(k, r, rb), RKValue(k, r, rc));
          if x.None? { return false, r; }
          if x.value == cond { pc := pc + code[pc].sbx; }
          pc := pc + 1;
        case Test(a, c) =>
          if Truthy(Get(r, a)) == c { pc := pc + code[pc].sbx; }
          pc := pc + 1;
        case TestSet(a, b, c) =>
          if Truthy(Get(r, b)) == c {
            r := r[a := Get(r, b)];
            pc := pc + code[pc].sbx;
          }
          pc := pc + 1;
      }
    }
    ok := true;
  }
}
