/**
  Boolean and relational expressions: what they denote, and the course that evaluation takes through the
  code that is emitted for them, which can be told from their text.
 */
module Expressions {
  import opened Basics
  import opened Bytecode
  import opened JumpLists
  import opened Views
  import opened Testing
  import opened Negating

  datatype BinOpr = OPR_AND | OPR_OR | OPR_EQ | OPR_NE | OPR_LT | OPR_LE | OPR_GT | OPR_GE

  /** Expressions over locals, upvalues and literals. `Paren` is an expression in parentheses, which
      the parser discharges on its own. */
  datatype Expr =
    | Local(i: nat)
    | Upval(u: nat)
    | NumLit(n: int)
    | StrLit(s: string)
    | TrueLit
    | FalseLit
    | NotE(e: Expr)
    | Bin(op: BinOpr, l: Expr, r: Expr)
    | Paren(e: Expr)

  /** What the comparison operators denote: `a > b` is `b < a`, `a ~= b` is the negation of `a == b`. */
  function Relate(env: Env, op: BinOpr, a: Value, b: Value): Option<bool> {
    match op
    case OPR_EQ => env.cmp(EQ, a, b)
    case OPR_NE => (match env.cmp(EQ, a, b) case None => None case Some(x) => Some(!x))
    case OPR_LT => env.cmp(LT, a, b)
    case OPR_LE => env.cmp(LE, a, b)
    case OPR_GT => env.cmp(LT, b, a)
    case OPR_GE => env.cmp(LE, b, a)
    case _ => None
  }

  /** Numbers are compared as numbers. */
  ghost predicate Arithmetic(env: Env) {
    forall a: int, b: int {:trigger Num(a), Num(b)} ::
      && env.cmp(EQ, Num(a), Num(b)) == Some(a == b) && env.cmp(LT, Num(a), Num(b)) == Some(a < b)
      && env.cmp(LE, Num(a), Num(b)) == Some(a <= b)
  }

  /** The six operators then tell what they should of two numbers. */
  lemma RelateNumbers(env: Env, a: int, b: int)
    requires Arithmetic(env)
    ensures Relate(env, OPR_EQ, Num(a), Num(b)) == Some(a == b) && Relate(env, OPR_NE, Num(a), Num(b)) == Some(a != b)
    ensures Relate(env, OPR_LT, Num(a), Num(b)) == Some(a < b) && Relate(env, OPR_LE, Num(a), Num(b)) == Some(a <= b)
    ensures Relate(env, OPR_GT, Num(a), Num(b)) == Some(a > b) && Relate(env, OPR_GE, Num(a), Num(b)) == Some(a >= b)
  {}

  /** The value an expression denotes, `None` for a raised error. Short-circuit operators give one
      of their operands. */
  function Eval(env: Env, e: Expr, r: Regs): Option<Value> {
    match e
    case Local(i) => Some(Get(r, i))
    case Upval(u) => Some(env.up(u))
    case NumLit(n) => Some(Num(n))
    case StrLit(s) => Some(Str(s))
    case TrueLit => Some(Bool(true))
    case FalseLit => Some(Bool(false))
    case Paren(e) => Eval(env, e, r)
    case NotE(e) => (match Eval(env, e, r) case None => None case Some(a) => Some(Bool(!Truthy(a))))
    case Bin(op, l, rt) =>
      match Eval(env, l, r)
      case None => None
      case Some(a) =>
        if op == OPR_AND then (if Truthy(a) then Eval(env, rt, r) else Some(a))
        else if op == OPR_OR then (if Truthy(a) then Some(a) else Eval(env, rt, r))
        else
          match Eval(env, rt, r)
          case None => None
          case Some(b) => (match Relate(env, op, a, b) case None => None case Some(x) => Some(Bool(x)))
  }

  predicate LocalsBelow(e: Expr, n: nat) {
    match e
    case Local(i) => i < n
    case NotE(e) => LocalsBelow(e, n)
    case Paren(e) => LocalsBelow(e, n)
    case Bin(_, l, r) => LocalsBelow(l, n) && LocalsBelow(r, n)
    case _ => true
  }

  // ------------------------------------------------------------------------------- the emitted code

  /** Where the code leaves the value of an expression when no jump delivers it: a literal, a local or an upvalue
      not loaded yet, a register, an instruction that loads an upvalue or negates, or a comparison. */
  datatype Class = CLit(v: Value) | CLocal | CUpval | CReg | CGet | CNot | CJmp

  /** `luaK_dischargevars` */
  function Discharged(c: Class): Class { if c == CLocal then CReg else if c == CUpval then CGet else c }

  /** `codenot` */
  function NegatedClass(c: Class): Class {
    if c.CLit? then CLit(Bool(!Truthy(c.v))) else if c == CJmp then CJmp else CNot
  }

  function ClassOf(e: Expr): Class {
    match e
    case Local(_) => CLocal
    case Upval(_) => CUpval
    case NumLit(n) => CLit(Num(n))
    case StrLit(s) => CLit(Str(s))
    case TrueLit => CLit(Bool(true))
    case FalseLit => CLit(Bool(false))
    case Paren(e) => Discharged(ClassOf(e))
    case NotE(e) => NegatedClass(ClassOf(e))
    case Bin(op, l, r) => if IsLogic(op) then Discharged(ClassOf(r)) else CJmp
  }

  predicate IsLogic(op: BinOpr) { op == OPR_AND || op == OPR_OR }

  /** A test for `b` that needs no code. */
  predicate Silent(b: bool, c: Class) { c.CLit? && Truthy(c.v) == b }

  /** What the jump that leaves carries. */
  function LeavingOf(b: bool, c: Class): Leaving {
    if c == CJmp || c == CNot then Bare else if c == CLit(Bool(!b)) then Along else Tested
  }

  /** Whether there are jumps by which the expression is left with truth value `b`. */
  predicate Leaves(b: bool, e: Expr)
    decreases e
  {
    match e
    case Paren(y) => Leaves(b, y)
    case NotE(y) => Leaves(!b, y)
    case Bin(op, l, rt) =>
      var go := op == OPR_AND;
      IsLogic(op) && (Leaves(b, rt) || (b != go && (Leaves(b, l) || !Silent(go, ClassOf(l)))))
    case _ => false
  }

  predicate NoLeave(e: Expr) { !Leaves(true, e) && !Leaves(false, e) }

  // ------------------------------------------------------------------------------------- constants

  /** Where `luaK_addk` finds or puts a constant. */
  function IndexOf(k: seq<Value>, v: Value): (i: nat)
    ensures i <= |k| && (i < |k| <==> v in k) && (i < |k| ==> k[i] == v)
  {
    if k == [] then 0 else if k[0] == v then 0 else 1 + IndexOf(k[1..], v)
  }

  function Added(k: seq<Value>, v: Value): (k': seq<Value>)
    ensures k <= k' && v in k'
  {
    if v in k then k else k + [v]
  }

  lemma {:induction false} FirstIndex(k: seq<Value>, v: Value, i: nat)
    requires i < |k| && k[i] == v && v !in k[..i]
    ensures IndexOf(k, v) == i
  {
    if i > 0 {
      assert k[0] in k[..i];
      assert forall x | x in k[1..][..i - 1] :: x in k[..i];
      FirstIndex(k[1..], v, i - 1);
    }
  }

  /** A literal that is loaded in a register; true and false are not among the constants then. */
  function Loaded(c: Class, k: seq<Value>): seq<Value> {
    if c.CLit? && c.v.Num? then Added(k, c.v) else k
  }

  /** The constants once a literal has been tested; to let it pass takes none. */
  function Examined(b: bool, c: Class, k: seq<Value>): seq<Value> {
    if Silent(b, c) then k else Loaded(c, k)
  }

  /** A literal that can be an operand of an instruction itself. */
  predicate InReach(v: Value, k: seq<Value>) { if v.Str? then IndexOf(k, v) <= MAXINDEXRK else |k| <= MAXINDEXRK }

  /** The constants once an expression has been made an operand; `plain` tells that no jumps leave it. */
  function Operand(c: Class, plain: bool, k: seq<Value>): seq<Value> {
    if c.CLit? && c.v.Bool? && plain && InReach(c.v, k) then Added(k, c.v) else Loaded(c, k)
  }

  /** The constants when the second operand of `op` is begun. */
  function Between(op: BinOpr, l: Expr, k: seq<Value>): seq<Value> {
    if IsLogic(op) then Examined(op == OPR_AND, ClassOf(l), k) else Operand(ClassOf(l), NoLeave(l), k)
  }

  /** The constants once the expression has been compiled. */
  function Constants(e: Expr, k: seq<Value>): seq<Value> {
    match e
    case StrLit(s) => Added(k, Str(s))
    case Paren(y) => Constants(y, k)
    case NotE(y) => Constants(y, k)
    case Bin(op, l, rt) =>
      var k1 := Constants(l, k);
      var k2 := Constants(rt, Between(op, l, k1));
      if IsLogic(op) then k2 else Operand(ClassOf(rt), NoLeave(rt), k2)
    case _ => k
  }

  /** Making an expression an operand takes no code, so that jumps on hold are so still. */
  predicate InPlace(c: Class, plain: bool, k: seq<Value>) {
    plain && (c == CLocal || c == CReg || (c.CLit? && InReach(c.v, k)))
  }

  // ------------------------------------------------------------------------------------- the course

  /** The operand of `and` (`b` true) or `or` (`b` false) has been tested. */
  function After(b: bool, c: Class, w: Way): Way { LandWay(b, ForkWay(b, LeavingOf(b, c), Silent(b, c), w)) }

  function DischargedWay(c: Class, w: Way): Way { if c == CUpval && w.Here? then Here(w.v, None) else w }

  /** What jumps on hold carry when the second operand of a comparison is reached. */
  function Behind(l: Expr, k: seq<Value>, w: Way): Option<Value> {
    if w.Here? && InPlace(ClassOf(l), NoLeave(l), k) then w.c else None
  }

  /** How evaluation goes in the emitted code, when control comes to the expression by a jump on hold that
      carries `c`, if any, and `k` are the constants so far. */
  function Course(env: Env, e: Expr, r: Regs, c: Option<Value>, k: seq<Value>): Option<Way> {
    match e
    case Local(i) => Some(Here(Get(r, i), c))
    case Upval(u) => Some(Here(env.up(u), c))
    case NumLit(n) => Some(Here(Num(n), c))
    case StrLit(s) => Some(Here(Str(s), c))
    case TrueLit => Some(Here(Bool(true), c))
    case FalseLit => Some(Here(Bool(false), c))
    case Paren(y) =>
      (match Course(env, y, r, c, k)
       case None => None
       case Some(w) => Some(DischargedWay(ClassOf(y), w)))
    case NotE(y) =>
      (match Course(env, y, r, c, k)
       case None => None
       case Some(w) => Some(NotWay(w, ClassOf(y).CLit?)))
    case Bin(op, l, rt) =>
      match Course(env, l, r, c, k)
      case None => None
      case Some(w) =>
        var k1 := Constants(l, k);
        if IsLogic(op) then
          match After(op == OPR_AND, ClassOf(l), w)
          case Via(b, c1) => Some(Via(b, c1))
          case Here(_, c1) =>
            match Course(env, rt, r, c1, Between(op, l, k1))
            case None => None
            case Some(w2) => Some(DischargedWay(ClassOf(rt), w2))
        else
          match Course(env, rt, r, Behind(l, k1, w), Between(op, l, k1))
          case None => None
          case Some(w2) =>
            match Relate(env, op, ValueOf(w), ValueOf(w2))
            case None => None
            case Some(x) => Some(Here(Bool(x), None))
  }

  lemma {:induction false} CourseAgree(env: Env, e: Expr, r1: Regs, r2: Regs, n: nat, m: int, c: Option<Value>,
                                       k: seq<Value>)
    requires LocalsBelow(e, n) && Agree(r1, r2, m, -1) && n <= m
    ensures Course(env, e, r1, c, k) == Course(env, e, r2, c, k)
  {
    match e
    case NotE(y) => CourseAgree(env, y, r1, r2, n, m, c, k);
    case Paren(y) => CourseAgree(env, y, r1, r2, n, m, c, k);
    case Bin(op, l, rt) =>
      CourseAgree(env, l, r1, r2, n, m, c, k);
      var w, k1 := Course(env, l, r1, c, k), Constants(l, k);
      if w.Some? {
        if IsLogic(op) {
          var a := After(op == OPR_AND, ClassOf(l), w.value);
          if a.Here? { CourseAgree(env, rt, r1, r2, n, m, a.c, Between(op, l, k1)); }
        } else {
          CourseAgree(env, rt, r1, r2, n, m, Behind(l, k1, w.value), Between(op, l, k1));
        }
      }
    case _ =>
  }

  // ---------------------------------------------------------------------- the course and the meaning

  /** The jump by which evaluation leaves carries a value that was not tested here: a literal decided the test,
      and took along a jump on hold. */
  predicate Strays(env: Env, e: Expr, r: Regs, c: Option<Value>, k: seq<Value>) {
    match e
    case Paren(y) => Strays(env, y, r, c, k)
    case Bin(op, l, rt) =>
      var b := op == OPR_AND;
      IsLogic(op) &&
      (match Course(env, l, r, c, k)
       case None => false
       case Some(w) =>
         match After(b, ClassOf(l), w)
         case Here(_, c1) => Strays(env, rt, r, c1, Between(op, l, Constants(l, k)))
         case Via(_, c1) =>
           if w.Via? then Strays(env, l, r, c, k) else LeavingOf(b, ClassOf(l)) == Along && c1.Some?)
    case _ => false
  }

  /** Evaluation leaves with a value that was not tested here, and that is not the literal. */
  predicate Misled(env: Env, e: Expr, r: Regs, c: Option<Value>, k: seq<Value>) {
    Strays(env, e, r, c, k) && match Course(env, e, r, c, k) case Some(Via(b, Some(u))) => u != Bool(b) case _ => false
  }

  /** No comparison that is come to is handed a value that is not its operand's. */
  predicate Straight(env: Env, e: Expr, r: Regs, c: Option<Value>, k: seq<Value>) {
    match e
    case Paren(y) => Straight(env, y, r, c, k)
    case NotE(y) => Straight(env, y, r, c, k)
    case Bin(op, l, rt) =>
      Straight(env, l, r, c, k) &&
      (match Course(env, l, r, c, k)
       case None => true
       case Some(w) =>
         var k1 := Constants(l, k);
         if IsLogic(op) then
           match After(op == OPR_AND, ClassOf(l), w)
           case Via(_, _) => true
           case Here(_, c1) => Straight(env, rt, r, c1, Between(op, l, k1))
         else
           && !Misled(env, l, r, c, k)
           && Straight(env, rt, r, Behind(l, k1, w), Between(op, l, k1))
           && !Misled(env, rt, r, Behind(l, k1, w), Between(op, l, k1)))
    case _ => true
  }

  /** The value at hand is of its class. */
  ghost predicate OfClass(v: Value, c: Class) {
    && (c.CLit? ==> v == c.v)
    && (c == CJmp || c == CNot ==> v.Bool?)
  }

  lemma {:induction false} CourseOfClass(env: Env, e: Expr, r: Regs, c: Option<Value>, k: seq<Value>)
    ensures match Course(env, e, r, c, k) case Some(Here(v, _)) => OfClass(v, ClassOf(e)) case _ => true
  {
    match e
    case Paren(y) => CourseOfClass(env, y, r, c, k);
    case NotE(y) => CourseOfClass(env, y, r, c, k);
    case Bin(op, l, rt) =>
      if IsLogic(op) {
        var w := Course(env, l, r, c, k);
        if w.Some? {
          var a := After(op == OPR_AND, ClassOf(l), w.value);
          if a.Here? { CourseOfClass(env, rt, r, a.c, Between(op, l, Constants(l, k))); }
        }
      }
    case _ =>
  }

  predicate TruthOf(w: Way) { if w.Here? then Truthy(w.v) else w.b }

  /** The way agrees with the value denoted, except for what a stray jump carries. */
  ghost predicate Agrees(o: Option<Way>, a: Option<Value>, strays: bool) {
    match o
    case None => a == None
    case Some(w) =>
      && a.Some? && TruthOf(w) == Truthy(a.value)
      && if strays then w.Via? && w.c.Some? && a.value == Bool(w.b) else ValueOf(w) == a.value
  }

  /** How `and` and `or` go on from the first operand. */
  lemma LogicCourse(env: Env, op: BinOpr, l: Expr, rt: Expr, r: Regs, c: Option<Value>, k: seq<Value>, w: Way)
    requires IsLogic(op) && Course(env, l, r, c, k) == Some(w)
    ensures var e, a, k2 := Bin(op, l, rt), After(op == OPR_AND, ClassOf(l), w), Between(op, l, Constants(l, k));
      && Course(env, e, r, c, k) == (match a
           case Via(_, _) => Some(a)
           case Here(_, c1) =>
             match Course(env, rt, r, c1, k2) case None => None case Some(w2) => Some(DischargedWay(ClassOf(rt), w2)))
      && Strays(env, e, r, c, k) == match a
           case Here(_, c1) => Course(env, rt, r, c1, k2).Some? && Strays(env, rt, r, c1, k2)
           case Via(_, c1) =>
             if w.Via? then Strays(env, l, r, c, k) else LeavingOf(op == OPR_AND, ClassOf(l)) == Along && c1.Some?
  {
    hide After; hide Between; hide Constants; hide ClassOf; hide LeavingOf;
    var a := After(op == OPR_AND, ClassOf(l), w);
    if a.Here? && Course(env, rt, r, a.c, Between(op, l, Constants(l, k))).None? {
      NoCourse(env, rt, r, a.c, Between(op, l, Constants(l, k)));
    }
  }

  lemma {:induction false} NoCourse(env: Env, e: Expr, r: Regs, c: Option<Value>, k: seq<Value>)
    requires Course(env, e, r, c, k) == None
    ensures !Strays(env, e, r, c, k)
  {
    match e
    case Paren(y) => NoCourse(env, y, r, c, k);
    case Bin(op, l, rt) =>
      if IsLogic(op) && Course(env, l, r, c, k).Some? {
        var a := After(op == OPR_AND, ClassOf(l), Course(env, l, r, c, k).value);
        if a.Here? { NoCourse(env, rt, r, a.c, Between(op, l, Constants(l, k))); }
      }
    case _ =>
  }

  lemma LogicMeans(env: Env, op: BinOpr, l: Expr, rt: Expr, r: Regs, c: Option<Value>, k: seq<Value>, w: Way)
    requires IsLogic(op) && Course(env, l, r, c, k) == Some(w) && (w.Here? ==> OfClass(w.v, ClassOf(l)))
    requires Agrees(Some(w), Eval(env, l, r), Strays(env, l, r, c, k))
    requires var a, k2 := After(op == OPR_AND, ClassOf(l), w), Between(op, l, Constants(l, k));
      a.Here? ==> Agrees(Course(env, rt, r, a.c, k2), Eval(env, rt, r), Strays(env, rt, r, a.c, k2))
    ensures var e := Bin(op, l, rt); Agrees(Course(env, e, r, c, k), Eval(env, e, r), Strays(env, e, r, c, k))
  {
    LogicCourse(env, op, l, rt, r, c, k, w);
    hide Course; hide Strays; hide Between; hide Constants; hide ClassOf;
  }

  /** Evaluation takes the right branches always, and comes to the value denoted unless it strays. */
  lemma {:induction false} CourseMeans(env: Env, e: Expr, r: Regs, c: Option<Value>, k: seq<Value>)
    requires Straight(env, e, r, c, k)
    ensures Agrees(Course(env, e, r, c, k), Eval(env, e, r), Strays(env, e, r, c, k))
    decreases e
  {
    match e
    case Paren(y) => CourseMeans(env, y, r, c, k);
    case NotE(y) => CourseMeans(env, y, r, c, k);
    case Bin(op, l, rt) =>
      CourseMeans(env, l, r, c, k);
      var w, k1 := Course(env, l, r, c, k), Constants(l, k);
      if w.Some? {
        if IsLogic(op) {
          CourseOfClass(env, l, r, c, k);
          var a := After(op == OPR_AND, ClassOf(l), w.value);
          if a.Here? { CourseMeans(env, rt, r, a.c, Between(op, l, k1)); }
          LogicMeans(env, op, l, rt, r, c, k, w.value);
        } else {
          CourseMeans(env, rt, r, Behind(l, k1, w.value), Between(op, l, k1));
        }
      }
    case _ =>
  }

  /** The value come to is the value denoted, just when evaluation is not misled. */
  lemma RightExactly(env: Env, e: Expr, r: Regs, c: Option<Value>, k: seq<Value>)
    requires Straight(env, e, r, c, k)
    ensures match Course(env, e, r, c, k)
      case None => Eval(env, e, r) == None
      case Some(w) => Eval(env, e, r).Some? && (ValueOf(w) == Eval(env, e, r).value <==> !Misled(env, e, r, c, k))
  {
    CourseMeans(env, e, r, c, k);
  }
}
