/**
  Which expressions the code generator gets right always, told from their text: all the courses that evaluation
  can take, and whether a stray jump is among them. The ones without literals are right; for expressions whose
  parts can be true and false independently of each other, the ones that are not told to be right are wrong for
  some values of their variables.
 */
module Straying {
  import opened Basics
  import opened Bytecode
  import opened JumpLists
  import opened Views
  import opened Testing
  import opened Negating
  import opened Expressions

  /** What can be told of a way: truth values in the place of values, and whether a jump that leaves is a stray. */
  datatype Trace = HereT(t: bool, c: Option<bool>) | ViaT(b: bool, c: Option<bool>, stray: bool)

  function TruthIn(c: Option<Value>): Option<bool> { if c.Some? then Some(Truthy(c.value)) else None }

  function TraceOf(w: Way, strays: bool): Trace {
    match w
    case Here(v, c) => HereT(Truthy(v), TruthIn(c))
    case Via(b, c) => ViaT(b, TruthIn(c), strays)
  }

  function CarriedT(lv: Leaving, t: bool, c: Option<bool>): Option<bool> {
    match lv
    case Bare => None
    case Tested => Some(t)
    case Along => c
  }

  function AfterT(b: bool, cls: Class, t: Trace): Trace {
    match t
    case HereT(x, c) =>
      if x == b then HereT(b, if Silent(b, cls) then c else None)
      else ViaT(!b, CarriedT(LeavingOf(b, cls), x, c), LeavingOf(b, cls) == Along && c.Some?)
    case ViaT(x, c, _) => if x == b then HereT(b, c) else t
  }

  function DischargedT(cls: Class, t: Trace): Trace { if cls == CUpval && t.HereT? then HereT(t.t, None) else t }

  function NotT(silent: bool, t: Trace): Trace {
    match t
    case HereT(x, c) => HereT(!x, if silent then c else None)
    case ViaT(b, _, _) => ViaT(!b, None, false)
  }

  function BehindT(l: Expr, k: seq<Value>, t: Trace): Option<bool> {
    if t.HereT? && InPlace(ClassOf(l), NoLeave(l), k) then t.c else None
  }

  /** All the courses there can be, when a jump on hold carries a value of truth `c`, if any. */
  function Traces(e: Expr, c: Option<bool>, k: seq<Value>): set<Trace> {
    match e
    case Local(_) => {HereT(true, c), HereT(false, c)}
    case Upval(_) => {HereT(true, c), HereT(false, c)}
    case FalseLit => {HereT(false, c)}
    case Paren(y) => set t | t in Traces(y, c, k) :: DischargedT(ClassOf(y), t)
    case NotE(y) => set t | t in Traces(y, c, k) :: NotT(ClassOf(y).CLit?, t)
    case Bin(op, l, rt) =>
      if IsLogic(op) then
        set t, u | t in Traces(l, c, k) && u in Second(op, l, rt, t, k) :: u
      else {HereT(true, None), HereT(false, None)}
    case _ => {HereT(true, c)}
  }

  /** The courses of `and` or `or` after that of the first operand. */
  function Second(op: BinOpr, l: Expr, rt: Expr, t: Trace, k: seq<Value>): set<Trace>
    decreases rt
  {
    match AfterT(op == OPR_AND, ClassOf(l), t)
    case ViaT(b, c, s) => {ViaT(b, c, s)}
    case HereT(_, c) =>
      set u | u in Traces(rt, c, Between(op, l, Constants(l, k))) :: DischargedT(ClassOf(rt), u)
  }

  predicate NoStray(e: Expr, c: Option<bool>, k: seq<Value>) { forall t | t in Traces(e, c, k) :: t.ViaT? ==> !t.stray }

  /** No comparison is handed what a stray jump carries. */
  predicate Steady(e: Expr, c: Option<bool>, k: seq<Value>) {
    match e
    case Paren(y) => Steady(y, c, k)
    case NotE(y) => Steady(y, c, k)
    case Bin(op, l, rt) =>
      var k2 := Between(op, l, Constants(l, k));
      && Steady(l, c, k)
      && if IsLogic(op) then
           forall t | t in Traces(l, c, k) ::
             match AfterT(op == OPR_AND, ClassOf(l), t) case HereT(_, c1) => Steady(rt, c1, k2) case _ => true
         else
           && NoStray(l, c, k)
           && forall t | t in Traces(l, c, k) ::
                var c1 := BehindT(l, Constants(l, k), t);
                Steady(rt, c1, k2) && NoStray(rt, c1, k2)
    case _ => true
  }

  /** Evaluation cannot be misled, whatever the values. */
  predicate Clean(e: Expr) { Steady(e, None, []) && NoStray(e, None, []) }

  // ------------------------------------------------------------------------------- clean is right

  lemma AfterTrace(b: bool, cls: Class, w: Way, strays: bool)
    ensures var a := After(b, cls, w);
      AfterT(b, cls, TraceOf(w, strays)) == match a
        case Here(_, c) => HereT(b, TruthIn(c))
        case Via(x, c) =>
          ViaT(x, TruthIn(c), if w.Via? then strays else LeavingOf(b, cls) == Along && c.Some?)
  {
  }

  lemma DischargedTrace(cls: Class, w: Way, strays: bool)
    ensures TraceOf(DischargedWay(cls, w), strays) == DischargedT(cls, TraceOf(w, strays))
  {
  }

  /** The course that evaluation takes is among the traces. */
  lemma {:induction false} CourseTraced(env: Env, e: Expr, r: Regs, c: Option<Value>, k: seq<Value>)
    ensures var w := Course(env, e, r, c, k);
      w.Some? ==> TraceOf(w.value, Strays(env, e, r, c, k)) in Traces(e, TruthIn(c), k)
  {
    match e
    case Paren(y) =>
      CourseTraced(env, y, r, c, k);
    case NotE(y) =>
      CourseTraced(env, y, r, c, k);
    case Bin(op, l, rt) =>
      if IsLogic(op) {
        CourseTraced(env, l, r, c, k);
        var w := Course(env, l, r, c, k);
        if w.Some? {
          AfterTrace(op == OPR_AND, ClassOf(l), w.value, Strays(env, l, r, c, k));
          var a := After(op == OPR_AND, ClassOf(l), w.value);
          if a.Here? { CourseTraced(env, rt, r, a.c, Between(op, l, Constants(l, k))); }
          LogicTraced(env, op, l, rt, r, c, k, w.value);
        }
      }
    case _ =>
  }

  lemma LogicTraced(env: Env, op: BinOpr, l: Expr, rt: Expr, r: Regs, c: Option<Value>, k: seq<Value>, w: Way)
    requires IsLogic(op) && Course(env, l, r, c, k) == Some(w)
    requires TraceOf(w, Strays(env, l, r, c, k)) in Traces(l, TruthIn(c), k)
    requires var a, k2 := After(op == OPR_AND, ClassOf(l), w), Between(op, l, Constants(l, k));
      a.Here? ==> var w2 := Course(env, rt, r, a.c, k2);
        w2.Some? ==> TraceOf(w2.value, Strays(env, rt, r, a.c, k2)) in Traces(rt, TruthIn(a.c), k2)
    ensures var e := Bin(op, l, rt);
      var o := Course(env, e, r, c, k);
      o.Some? ==> TraceOf(o.value, Strays(env, e, r, c, k)) in Traces(e, TruthIn(c), k)
  {
    var e, t := Bin(op, l, rt), TraceOf(w, Strays(env, l, r, c, k));
    var a, k2 := After(op == OPR_AND, ClassOf(l), w), Between(op, l, Constants(l, k));
    LogicCourse(env, op, l, rt, r, c, k, w);
    AfterTrace(op == OPR_AND, ClassOf(l), w, Strays(env, l, r, c, k));
    hide After; hide AfterT; hide Between; hide Constants; hide ClassOf; hide LeavingOf; hide Course; hide Strays;
    if a.Here? {
      var w2 := Course(env, rt, r, a.c, k2);
      if w2.Some? {
        DischargedTrace(ClassOf(rt), w2.value, Strays(env, rt, r, a.c, k2));
        hide TraceOf; hide DischargedWay; hide DischargedT; hide TruthIn;
        var u := TraceOf(w2.value, Strays(env, rt, r, a.c, k2));
        assert DischargedT(ClassOf(rt), u) in Second(op, l, rt, t, k);
      }
    } else {
      assert TraceOf(a, Strays(env, e, r, c, k)) in Second(op, l, rt, t, k);
    }
  }

  lemma NoStrayRight(env: Env, e: Expr, r: Regs, c: Option<Value>, k: seq<Value>)
    requires NoStray(e, TruthIn(c), k)
    ensures !Misled(env, e, r, c, k)
  {
    CourseTraced(env, e, r, c, k);
  }

  lemma {:induction false} SteadyStraight(env: Env, e: Expr, r: Regs, c: Option<Value>, k: seq<Value>)
    requires Steady(e, TruthIn(c), k)
    ensures Straight(env, e, r, c, k)
  {
    hide Traces; hide Strays; hide Misled; hide NoStray; hide LeavingOf; hide Silent; hide InPlace;
    match e
    case Paren(y) => SteadyStraight(env, y, r, c, k);
    case NotE(y) => SteadyStraight(env, y, r, c, k);
    case Bin(op, l, rt) =>
      SteadyStraight(env, l, r, c, k);
      CourseTraced(env, l, r, c, k);
      var w, k1 := Course(env, l, r, c, k), Constants(l, k);
      if w.Some? {
        if IsLogic(op) {
          AfterTrace(op == OPR_AND, ClassOf(l), w.value, Strays(env, l, r, c, k));
          var a := After(op == OPR_AND, ClassOf(l), w.value);
          if a.Here? { SteadyStraight(env, rt, r, a.c, Between(op, l, k1)); }
        } else {
          var c1, k2 := Behind(l, k1, w.value), Between(op, l, k1);
          assert TruthIn(c1) == BehindT(l, k1, TraceOf(w.value, Strays(env, l, r, c, k)));
          NoStrayRight(env, l, r, c, k);
          SteadyStraight(env, rt, r, c1, k2);
          NoStrayRight(env, rt, r, c1, k2);
        }
      }
    case _ =>
  }

  /** Clean expressions come to the value denoted. */
  lemma CleanRight(env: Env, e: Expr, r: Regs)
    requires Clean(e)
    ensures Straight(env, e, r, None, []) && !Misled(env, e, r, None, [])
    ensures match Course(env, e, r, None, [])
      case None => Eval(env, e, r) == None
      case Some(w) => Eval(env, e, r) == Some(ValueOf(w))
  {
    SteadyStraight(env, e, r, None, []);
    NoStrayRight(env, e, r, None, []);
    RightExactly(env, e, r, None, []);
  }

  // ------------------------------------------------------------------------------- without literals

  predicate IsLiteral(e: Expr) { e.NumLit? || e.StrLit? || e.TrueLit? || e.FalseLit? }

  /** There are no literals but as operands of comparisons. */
  predicate LiteralFree(e: Expr) {
    match e
    case Local(_) => true
    case Upval(_) => true
    case Paren(y) => LiteralFree(y)
    case NotE(y) => LiteralFree(y)
    case Bin(op, l, rt) =>
      if IsLogic(op) then LiteralFree(l) && LiteralFree(rt)
      else (IsLiteral(l) || LiteralFree(l)) && (IsLiteral(rt) || LiteralFree(rt))
    case _ => false
  }

  lemma {:induction false} FreeClass(e: Expr)
    requires LiteralFree(e)
    ensures !ClassOf(e).CLit?
  {
    match e
    case Paren(y) => FreeClass(y);
    case NotE(y) => FreeClass(y);
    case Bin(op, l, rt) => if IsLogic(op) { FreeClass(rt); }
    case _ =>
  }

  lemma {:induction false} FreeNoStray(e: Expr, c: Option<bool>, k: seq<Value>)
    requires LiteralFree(e) || IsLiteral(e)
    ensures NoStray(e, c, k)
  {
    match e
    case Paren(y) => FreeNoStray(y, c, k);
    case Bin(op, l, rt) =>
      if IsLogic(op) {
        FreeNoStray(l, c, k);
        FreeClass(l);
        forall t, u | t in Traces(l, c, k) && u in Second(op, l, rt, t, k) ensures u.ViaT? ==> !u.stray {
          match AfterT(op == OPR_AND, ClassOf(l), t)
          case HereT(_, c1) => FreeNoStray(rt, c1, Between(op, l, Constants(l, k)));
          case ViaT(_, _, _) =>
        }
      }
    case _ =>
  }

  lemma {:induction false} FreeSteady(e: Expr, c: Option<bool>, k: seq<Value>)
    requires LiteralFree(e) || IsLiteral(e)
    ensures Steady(e, c, k)
  {
    hide Traces; hide NoStray; hide AfterT; hide InPlace;
    match e
    case Paren(y) => FreeSteady(y, c, k);
    case NotE(y) => FreeSteady(y, c, k);
    case Bin(op, l, rt) =>
      var k2 := Between(op, l, Constants(l, k));
      FreeSteady(l, c, k);
      FreeNoStray(l, c, k);
      forall c1 ensures Steady(rt, c1, k2) && NoStray(rt, c1, k2) {
        FreeSteady(rt, c1, k2);
        FreeNoStray(rt, c1, k2);
      }
    case _ =>
  }

  /** Without literals, but as operands of comparisons, nothing can go wrong. */
  lemma LiteralFreeClean(e: Expr)
    requires LiteralFree(e)
    ensures Clean(e)
  {
    FreeSteady(e, None, []);
    FreeNoStray(e, None, []);
  }

  // ------------------------------------------------------------------------------- unclean is wrong

  /** A variable of the expression. */
  datatype Name = OfLocal(i: nat) | OfUpval(u: nat)

  function Names(e: Expr): set<Name> {
    match e
    case Local(i) => {OfLocal(i)}
    case Upval(u) => {OfUpval(u)}
    case Paren(y) => Names(y)
    case NotE(y) => Names(y)
    case Bin(_, l, rt) => Names(l) + Names(rt)
    case _ => {}
  }

  /** A variable or a literal. */
  predicate Simple(e: Expr) { !e.Paren? && !e.NotE? && !e.Bin? }

  /** No variable occurs in two operands of `and` or `or`, and comparisons are between variables, or a variable and a
      literal: every part can be true, and can be false, whatever the others are. */
  predicate Apart(e: Expr) {
    match e
    case Paren(y) => Apart(y)
    case NotE(y) => Apart(y)
    case Bin(op, l, rt) =>
      if IsLogic(op) then Apart(l) && Apart(rt) && Names(l) !! Names(rt)
      else Simple(l) && Simple(rt) && Names(l) + Names(rt) != {}
    case _ => true
  }

  /** The variables have the values given; a comparison tells whether one of its operands is an object, which no literal
      is. */
  ghost predicate Suits(env: Env, r: Regs, given: map<Name, Value>) {
    && (forall op, a, b :: env.cmp(op, a, b) == Some(a == Ref(0) || b == Ref(0)))
    && forall x | x in given ::
         match x
         case OfLocal(i) => Get(r, i) == given[x]
         case OfUpval(u) => env.up(u) == given[x]
  }

  /** Values that are no truth values. */
  predicate Solid(c: Option<Value>) { c.Some? ==> !c.value.Bool? }

  predicate SolidWay(cls: Class, w: Way) {
    Solid(w.c) && (w.Here? && cls in {CLocal, CReg, CUpval, CGet} ==> !w.v.Bool?)
  }

  /** With the values given, evaluation leaves the trace `t`. */
  ghost predicate Leads(e: Expr, c: Option<bool>, k: seq<Value>, t: Trace, given: map<Name, Value>) {
    forall env, r, u {:trigger Course(env, e, r, u, k)} | Suits(env, r, given) && TruthIn(u) == c && Solid(u) ::
      var w := Course(env, e, r, u, k);
      w.Some? && TraceOf(w.value, Strays(env, e, r, u, k)) == t && SolidWay(ClassOf(e), w.value)
  }

  /** Every trace can be had by some values, none of which is a truth value. */
  lemma {:induction false} TracesReached(e: Expr, c: Option<bool>, k: seq<Value>, t: Trace) returns (given: map<Name,
                                                                                                     Value>)
    requires Apart(e) && t in Traces(e, c, k)
    ensures given.Keys <= Names(e) && Leads(e, c, k, t, given)
    decreases e
  {
    hide Leads;
    match e
    case Local(i) =>
      given := map[OfLocal(i) := Of(t.t)];
      VariableLeads(e, c, k, t, given);
    case Upval(u) =>
      given := map[OfUpval(u) := Of(t.t)];
      VariableLeads(e, c, k, t, given);
    case Paren(y) =>
      var t1 :| t1 in Traces(y, c, k) && DischargedT(ClassOf(y), t1) == t;
      given := TracesReached(y, c, k, t1);
      ParenLeads(y, c, k, t1, given);
    case NotE(y) =>
      var t1 :| t1 in Traces(y, c, k) && NotT(ClassOf(y).CLit?, t1) == t;
      given := TracesReached(y, c, k, t1);
      NotLeads(y, c, k, t1, given);
    case Bin(op, l, rt) =>
      if IsLogic(op) {
        var t1 :| t1 in Traces(l, c, k) && t in Second(op, l, rt, t1, k);
        given := TracesReached(l, c, k, t1);
        var a, k2 := AfterT(op == OPR_AND, ClassOf(l), t1), Between(op, l, Constants(l, k));
        var t2, given2 := t, map[];
        if a.HereT? {
          t2 :| t2 in Traces(rt, a.c, k2) && DischargedT(ClassOf(rt), t2) == t;
          given2 := TracesReached(rt, a.c, k2, t2);
        }
        LogicLeads(op, l, rt, c, k, t1, t2, t, given, given2);
        given := given + given2;
      } else {
        given := Compared(op, Names(l) + Names(rt), t.t);
        CompareLeads(op, l, rt, c, k, t, given);
      }
    case _ =>
      given := map[];
      VariableLeads(e, c, k, t, given);
  }

  lemma ParenLeads(y: Expr, c: Option<bool>, k: seq<Value>, t: Trace, given: map<Name, Value>)
    requires Leads(y, c, k, t, given)
    ensures Leads(Paren(y), c, k, DischargedT(ClassOf(y), t), given)
  {
    forall env, r, u | Suits(env, r, given) && TruthIn(u) == c && Solid(u)
      ensures var w := Course(env, Paren(y), r, u, k);
        && w.Some? && TraceOf(w.value, Strays(env, Paren(y), r, u, k)) == DischargedT(ClassOf(y), t)
        && SolidWay(ClassOf(Paren(y)), w.value)
    {
      hide Leads; hide Suits;
      LeadsTo(env, y, r, u, c, k, t, given);
    }
  }

  lemma NotLeads(y: Expr, c: Option<bool>, k: seq<Value>, t: Trace, given: map<Name, Value>)
    requires Leads(y, c, k, t, given)
    ensures Leads(NotE(y), c, k, NotT(ClassOf(y).CLit?, t), given)
  {
    forall env, r, u | Suits(env, r, given) && TruthIn(u) == c && Solid(u)
      ensures var w := Course(env, NotE(y), r, u, k);
        && w.Some? && TraceOf(w.value, Strays(env, NotE(y), r, u, k)) == NotT(ClassOf(y).CLit?, t)
        && SolidWay(ClassOf(NotE(y)), w.value)
    {
      hide Leads; hide Suits;
      LeadsTo(env, y, r, u, c, k, t, given);
    }
  }

  lemma VariableLeads(e: Expr, c: Option<bool>, k: seq<Value>, t: Trace, given: map<Name, Value>)
    requires !e.Paren? && !e.NotE? && !e.Bin? && t in Traces(e, c, k)
    requires e.Local? ==> given == map[OfLocal(e.i) := Of(t.t)]
    requires e.Upval? ==> given == map[OfUpval(e.u) := Of(t.t)]
    ensures Leads(e, c, k, t, given)
  {
    forall env, r, u | Suits(env, r, given) && TruthIn(u) == c && Solid(u)
      ensures var w := Course(env, e, r, u, k);
        w.Some? && TraceOf(w.value, Strays(env, e, r, u, k)) == t && SolidWay(ClassOf(e), w.value)
    {
      if e.Local? {
        assert OfLocal(e.i) in given;
        assert Get(r, e.i) == Of(t.t);
      }
      if e.Upval? { assert OfUpval(e.u) in given; }
    }
  }

  lemma CompareLeads(op: BinOpr, l: Expr, rt: Expr, c: Option<bool>, k: seq<Value>, t: Trace, given: map<Name, Value>)
    requires !IsLogic(op) && Apart(Bin(op, l, rt)) && t in Traces(Bin(op, l, rt), c, k)
    requires given == Compared(op, Names(l) + Names(rt), t.t)
    ensures Leads(Bin(op, l, rt), c, k, t, given)
  {
    var e := Bin(op, l, rt);
    forall env, r, u | Suits(env, r, given) && TruthIn(u) == c && Solid(u)
      ensures var w := Course(env, e, r, u, k);
        w.Some? && TraceOf(w.value, Strays(env, e, r, u, k)) == t && SolidWay(CJmp, w.value)
    {
      CompareRuns(env, op, l, rt, r, u, k);
      SimpleGiven(env, l, r, given, (op == OPR_NE) != t.t);
      SimpleGiven(env, rt, r, given, (op == OPR_NE) != t.t);
    }
  }

  /** What a variable or a literal denotes. */
  function Plainly(env: Env, e: Expr, r: Regs): Value
    requires Simple(e)
  {
    match e
    case Local(i) => Get(r, i)
    case Upval(u) => env.up(u)
    case NumLit(n) => Num(n)
    case StrLit(s) => Str(s)
    case TrueLit => Bool(true)
    case FalseLit => Bool(false)
  }

  lemma SimpleGiven(env: Env, e: Expr, r: Regs, given: map<Name, Value>, t: bool)
    requires Simple(e) && Suits(env, r, given) && Names(e) <= given.Keys && forall x | x in given :: given[x] == Of(t)
    ensures Plainly(env, e, r) == Ref(0) <==> t && Names(e) != {}
  {
    if e.Local? { assert OfLocal(e.i) in given; }
    if e.Upval? { assert OfUpval(e.u) in given; }
  }

  lemma CompareRuns(env: Env, op: BinOpr, l: Expr, rt: Expr, r: Regs, u: Option<Value>, k: seq<Value>)
    requires !IsLogic(op) && Simple(l) && Simple(rt)
    ensures Course(env, Bin(op, l, rt), r, u, k) ==
      match Relate(env, op, Plainly(env, l, r), Plainly(env, rt, r)) case None => None case Some(x) =>
            Some(Here(Bool(x), None))
  {
    hide Relate; hide Behind; hide Between; hide Constants;
    var k1 := Constants(l, k);
    var w := Course(env, l, r, u, k).value;
    var w2 := Course(env, rt, r, Behind(l, k1, w), Between(op, l, k1));
    assert ValueOf(w) == Plainly(env, l, r) && w2.Some? && ValueOf(w2.value) == Plainly(env, rt, r);
  }

  /** An object for true: it is no truth value, and no literal. */
  function Of(t: bool): Value { if t then Ref(0) else Nil }

  /** Values of the variables that make a comparison true, or false. */
  function Compared(op: BinOpr, names: set<Name>, t: bool): map<Name, Value> {
    map x | x in names :: Of((op == OPR_NE) != t)
  }

  lemma LogicLeads(op: BinOpr, l: Expr, rt: Expr, c: Option<bool>, k: seq<Value>, t1: Trace, t2: Trace, t: Trace,
                   given1: map<Name, Value>, given2: map<Name, Value>)
    requires IsLogic(op) && Leads(l, c, k, t1, given1) && given1.Keys !! given2.Keys
    requires match AfterT(op == OPR_AND, ClassOf(l), t1)
      case ViaT(b, c, s) => t == ViaT(b, c, s)
      case HereT(_, c1) =>
        Leads(rt, c1, Between(op, l, Constants(l, k)), t2, given2) && DischargedT(ClassOf(rt), t2) == t
    ensures Leads(Bin(op, l, rt), c, k, t, given1 + given2)
  {
    hide Between; hide Constants; hide ClassOf; hide Traces; hide AfterT;
    forall env, r, u | Suits(env, r, given1 + given2) && TruthIn(u) == c && Solid(u)
      ensures var w := Course(env, Bin(op, l, rt), r, u, k);
        && w.Some? && TraceOf(w.value, Strays(env, Bin(op, l, rt), r, u, k)) == t
        && SolidWay(ClassOf(Bin(op, l, rt)), w.value)
    {
      SuitsBoth(env, r, given1, given2);
      LeadsAt(env, op, l, rt, r, u, c, k, t1, t2, t, given1, given2);
    }
  }

  lemma SuitsBoth(env: Env, r: Regs, given1: map<Name, Value>, given2: map<Name, Value>)
    requires Suits(env, r, given1 + given2) && given1.Keys !! given2.Keys
    ensures Suits(env, r, given1) && Suits(env, r, given2)
  {
    forall x | x in given1 ensures x in given1 + given2 && (given1 + given2)[x] == given1[x] {}
    forall x | x in given2 ensures x in given1 + given2 && (given1 + given2)[x] == given2[x] {}
  }

  lemma LeadsAt(env: Env, op: BinOpr, l: Expr, rt: Expr, r: Regs, u: Option<Value>, c: Option<bool>, k: seq<Value>,
                t1: Trace, t2: Trace, t: Trace, given1: map<Name, Value>, given2: map<Name, Value>)
    requires IsLogic(op) && Leads(l, c, k, t1, given1) && Suits(env, r, given1) && Suits(env, r, given2)
    requires match AfterT(op == OPR_AND, ClassOf(l), t1)
      case ViaT(b, c, s) => t == ViaT(b, c, s)
      case HereT(_, c1) =>
        Leads(rt, c1, Between(op, l, Constants(l, k)), t2, given2) && DischargedT(ClassOf(rt), t2) == t
    requires TruthIn(u) == c && Solid(u)
    ensures var w := Course(env, Bin(op, l, rt), r, u, k);
      && w.Some? && TraceOf(w.value, Strays(env, Bin(op, l, rt), r, u, k)) == t
      && SolidWay(ClassOf(Bin(op, l, rt)), w.value)
  {
    hide Between; hide Constants; hide Traces; hide Suits; hide Leads; hide ClassOf; hide Course; hide Strays;
    hide LeavingOf;
    hide OfClass; hide After; hide AfterT; hide Solid; hide SolidWay; hide TraceOf;
    LeadsTo(env, l, r, u, c, k, t1, given1);
    var w := Course(env, l, r, u, k).value;
    CourseOfClass(env, l, r, u, k);
    AfterTrace(op == OPR_AND, ClassOf(l), w, Strays(env, l, r, u, k));
    AfterSolid(op == OPR_AND, ClassOf(l), w);
    if After(op == OPR_AND, ClassOf(l), w).Here? {
      LeadsOn(env, op, l, rt, r, u, k, w, t2, given2);
    } else {
      LeadsOff(env, op, l, rt, r, u, k, w);
    }
  }

  /** The first operand decides. */
  lemma LeadsOff(env: Env, op: BinOpr, l: Expr, rt: Expr, r: Regs, u: Option<Value>, k: seq<Value>, w: Way)
    requires IsLogic(op) && Course(env, l, r, u, k) == Some(w)
    requires var a := After(op == OPR_AND, ClassOf(l), w); a.Via? && Solid(a.c)
    ensures var e, a := Bin(op, l, rt), After(op == OPR_AND, ClassOf(l), w);
      var o := Course(env, e, r, u, k);
      && o.Some? && SolidWay(ClassOf(e), o.value)
      && TraceOf(o.value, Strays(env, e, r, u, k)) == ViaT(a.b, TruthIn(a.c),
           if w.Via? then Strays(env, l, r, u, k) else LeavingOf(op == OPR_AND, ClassOf(l)) == Along && a.c.Some?)
  {
    hide Between; hide Constants; hide ClassOf; hide Course; hide Strays; hide After; hide Solid; hide LeavingOf;
    LogicCourse(env, op, l, rt, r, u, k, w);
  }

  /** The first operand lets evaluation pass. */
  lemma LeadsOn(env: Env, op: BinOpr, l: Expr, rt: Expr, r: Regs, u: Option<Value>, k: seq<Value>, w: Way,
                t2: Trace, given2: map<Name, Value>)
    requires IsLogic(op) && Course(env, l, r, u, k) == Some(w) && Suits(env, r, given2)
    requires var a, k2 := After(op == OPR_AND, ClassOf(l), w), Between(op, l, Constants(l, k));
      a.Here? && Solid(a.c) && Leads(rt, TruthIn(a.c), k2, t2, given2)
    ensures var e := Bin(op, l, rt);
      var o := Course(env, e, r, u, k);
      && o.Some? && TraceOf(o.value, Strays(env, e, r, u, k)) == DischargedT(ClassOf(rt), t2)
      && SolidWay(ClassOf(e), o.value)
  {
    hide Between; hide Constants; hide Traces; hide Suits; hide Leads; hide ClassOf; hide Course; hide Strays;
    hide After;
    hide Solid; hide LeavingOf; hide SolidWay;
    LogicCourse(env, op, l, rt, r, u, k, w);
    ClassOfLogic(op, l, rt);
    var a, k2 := After(op == OPR_AND, ClassOf(l), w), Between(op, l, Constants(l, k));
    LeadsTo(env, rt, r, a.c, TruthIn(a.c), k2, t2, given2);
    var w2 := Course(env, rt, r, a.c, k2).value;
    DischargedTrace(ClassOf(rt), w2, Strays(env, rt, r, a.c, k2));
    DischargedSolid(ClassOf(rt), w2);
  }

  lemma DischargedSolid(cls: Class, w: Way)
    requires SolidWay(cls, w)
    ensures SolidWay(Discharged(cls), DischargedWay(cls, w))
  {
  }

  lemma LeadsTo(env: Env, e: Expr, r: Regs, u: Option<Value>, c: Option<bool>, k: seq<Value>, t: Trace,
                given: map<Name, Value>)
    requires Leads(e, c, k, t, given) && Suits(env, r, given) && TruthIn(u) == c && Solid(u)
    ensures var w := Course(env, e, r, u, k);
      w.Some? && TraceOf(w.value, Strays(env, e, r, u, k)) == t && SolidWay(ClassOf(e), w.value)
  {
  }

  lemma ClassOfLogic(op: BinOpr, l: Expr, rt: Expr)
    requires IsLogic(op)
    ensures ClassOf(Bin(op, l, rt)) == Discharged(ClassOf(rt))
  {
  }

  lemma AfterSolid(b: bool, cls: Class, w: Way)
    requires SolidWay(cls, w) && (w.Here? ==> OfClass(w.v, cls))
    ensures Solid(After(b, cls, w).c)
  {
  }

  lemma {:induction false} StraysCarry(env: Env, e: Expr, r: Regs, c: Option<Value>, k: seq<Value>)
    requires Strays(env, e, r, c, k) && Course(env, e, r, c, k).Some?
    ensures var w := Course(env, e, r, c, k).value; w.Via? && w.c.Some?
  {
    match e
    case Paren(y) => StraysCarry(env, y, r, c, k);
    case Bin(op, l, rt) =>
      var w := Course(env, l, r, c, k).value;
      var a := After(op == OPR_AND, ClassOf(l), w);
      if a.Here? {
        StraysCarry(env, rt, r, a.c, Between(op, l, Constants(l, k)));
      } else if w.Via? {
        StraysCarry(env, l, r, c, k);
      }
  }

  lemma {:induction false} ApartSteady(e: Expr, c: Option<bool>, k: seq<Value>)
    requires Apart(e)
    ensures Steady(e, c, k)
  {
    hide AfterT; hide InPlace;
    match e
    case Paren(y) => ApartSteady(y, c, k);
    case NotE(y) => ApartSteady(y, c, k);
    case Bin(op, l, rt) =>
      ApartSteady(l, c, k);
      if IsLogic(op) {
        forall c1 ensures Steady(rt, c1, Between(op, l, Constants(l, k))) {
          ApartSteady(rt, c1, Between(op, l, Constants(l, k)));
        }
      }
    case _ =>
  }

  /** The values given, as an environment and registers. */
  function EnvOf(given: map<Name, Value>): Env {
    Env((u: nat) => if OfUpval(u) in given then given[OfUpval(u)] else Nil,
        (op, a, b) => Some(a == Ref(0) || b == Ref(0)))
  }

  function RegsOf(given: map<Name, Value>): Regs {
    map x | x in given && x.OfLocal? :: x.i as int := given[x]
  }

  /** An expression that is not clean comes to a wrong value for some values of its variables. */
  lemma UncleanWrong(e: Expr) returns (env: Env, r: Regs)
    requires Apart(e) && !Clean(e)
    ensures Misled(env, e, r, None, [])
    ensures var w, a := Course(env, e, r, None, []), Eval(env, e, r); w.Some? && a.Some? && ValueOf(w.value) != a.value
  {
    ApartSteady(e, None, []);
    var t :| t in Traces(e, None, []) && t.ViaT? && t.stray;
    var given := TracesReached(e, None, [], t);
    env, r := EnvOf(given), RegsOf(given);
    SuitsOwn(given);
    LeadsTo(env, e, r, None, None, [], t, given);
    StraysCarry(env, e, r, None, []);
    SteadyStraight(env, e, r, None, []);
    RightExactly(env, e, r, None, []);
  }

  lemma SuitsOwn(given: map<Name, Value>)
    ensures Suits(EnvOf(given), RegsOf(given), given)
  {
  }

  /** For expressions with independent parts, being clean is the exact condition. */
  lemma CleanExactly(e: Expr)
    requires Apart(e)
    ensures Clean(e) <==> forall env, r :: Straight(env, e, r, None, []) && !Misled(env, e, r, None, [])
  {
    if Clean(e) {
      forall env, r ensures Straight(env, e, r, None, []) && !Misled(env, e, r, None, []) {
        CleanRight(env, e, r);
      }
    } else {
      var env, r := UncleanWrong(e);
    }
  }

  /** `((l0 or l1) and false) and l2` */
  function Lost(): Expr {
    Bin(OPR_AND, Paren(Bin(OPR_AND, Paren(Bin(OPR_OR, Local(0), Local(1))), FalseLit)), Local(2))
  }

  /** With `l0` equal to 1 it denotes false, but the jump that tested `l0` is taken along when `false` decides
      the test, and delivers 1. */
  lemma LostWrong(env: Env)
    ensures var r := map[0 := Num(1)];
      && Eval(env, Lost(), r) == Some(Bool(false))
      && Course(env, Lost(), r, None, []) == Some(Via(false, Some(Num(1))))
      && Straight(env, Lost(), r, None, []) && Misled(env, Lost(), r, None, []) && !Clean(Lost())
  {
    var r: Regs := map[0 := Num(1)];
    LostInner(env, r);
    var p := Paren(Bin(OPR_OR, Local(0), Local(1)));
    var q := Paren(Bin(OPR_AND, p, FalseLit));
    assert ClassOf(q) == CLit(Bool(false));
    assert After(true, ClassOf(q), Here(Bool(false), Some(Num(1)))) == Via(false, Some(Num(1)));
    LogicCourse(env, OPR_AND, q, Local(2), r, None, [], Here(Bool(false), Some(Num(1))));
    if Clean(Lost()) { CleanRight(env, Lost(), r); }
  }

  lemma LostInner(env: Env, r: Regs)
    requires r == map[0 := Num(1)]
    ensures var q := Paren(Bin(OPR_AND, Paren(Bin(OPR_OR, Local(0), Local(1))), FalseLit));
      && Course(env, q, r, None, []) == Some(Here(Bool(false), Some(Num(1))))
      && Straight(env, q, r, None, []) && Eval(env, q, r) == Some(Bool(false))
  {
    var w, o := Here(Num(1), None), Bin(OPR_OR, Local(0), Local(1));
    assert Course(env, Local(0), r, None, []) == Some(w);
    assert After(false, CLocal, w) == Via(true, Some(Num(1)));
    LogicCourse(env, OPR_OR, Local(0), Local(1), r, None, [], w);
    assert Course(env, o, r, None, []) == Some(Via(true, Some(Num(1))));
    var p := Paren(o);
    assert Course(env, p, r, None, []) == Some(Via(true, Some(Num(1))));
    assert Straight(env, o, r, None, []) && Eval(env, o, r) == Some(Num(1));
    assert Straight(env, p, r, None, []) && Eval(env, p, r) == Some(Num(1));
    LogicCourse(env, OPR_AND, p, FalseLit, r, None, [], Via(true, Some(Num(1))));
    assert Straight(env, Bin(OPR_AND, p, FalseLit), r, None, []);
    assert Eval(env, Bin(OPR_AND, p, FalseLit), r) == Some(Bool(false));
  }

  /** Made of comparisons, true and false alone. */
  predicate TestsOnly(e: Expr) {
    match e
    case TrueLit => true
    case FalseLit => true
    case Paren(y) => TestsOnly(y)
    case NotE(y) => TestsOnly(y)
    case Bin(op, l, rt) => !IsLogic(op) || (TestsOnly(l) && TestsOnly(rt))
    case _ => false
  }

  predicate Unloaded(e: Expr, k: seq<Value>) {
    forall t | t in Traces(e, None, k) :: t.c == None && (t.ViaT? ==> !t.stray)
  }

  lemma {:induction false} TracesOfClass(e: Expr, c: Option<bool>, k: seq<Value>)
    ensures forall t | t in Traces(e, c, k) :: t.HereT? && ClassOf(e).CLit? ==> t.t == Truthy(ClassOf(e).v)
  {
    match e
    case Paren(y) => TracesOfClass(y, c, k);
    case NotE(y) => TracesOfClass(y, c, k);
    case Bin(op, l, rt) =>
      if IsLogic(op) {
        var k2 := Between(op, l, Constants(l, k));
        forall t, u | t in Traces(l, c, k) && u in Second(op, l, rt, t, k)
          ensures u.HereT? && ClassOf(e).CLit? ==> u.t == Truthy(ClassOf(e).v)
        {
          match AfterT(op == OPR_AND, ClassOf(l), t)
          case HereT(_, c1) => TracesOfClass(rt, c1, k2);
          case ViaT(_, _, _) =>
        }
      }
    case _ =>
  }

  lemma NotNoStray(y: Expr, c: Option<bool>, k: seq<Value>)
    ensures NoStray(NotE(y), c, k)
  {
  }

  /** Comparisons leave by jumps that carry nothing. */
  lemma {:induction false} TestsUnloaded(e: Expr, k: seq<Value>)
    requires TestsOnly(e)
    ensures Unloaded(e, k)
    ensures match ClassOf(e) case CLit(v) => v.Bool? case CJmp => true case CNot => true case _ => false
  {
    hide Between; hide Constants;
    match e
    case Paren(y) => TestsUnloaded(y, k);
    case NotE(y) => TestsUnloaded(y, k);
    case Bin(op, l, rt) =>
      if IsLogic(op) {
        TestsUnloaded(l, k);
        TestsUnloaded(rt, Between(op, l, Constants(l, k)));
        TracesOfClass(l, None, k);
        forall t, u | t in Traces(l, None, k) && u in Second(op, l, rt, t, k)
          ensures u.c == None && (u.ViaT? ==> !u.stray)
        {
        }
      }
    case _ =>
  }

  /** A first operand of `and` or `or` that leaves nothing on hold does no harm. */
  lemma UnloadedFirst(op: BinOpr, l: Expr, rt: Expr, k: seq<Value>)
    requires IsLogic(op) && Unloaded(l, k) && (LiteralFree(rt) || IsLiteral(rt))
    ensures NoStray(Bin(op, l, rt), None, k)
  {
    forall t, u | t in Traces(l, None, k) && u in Second(op, l, rt, t, k) ensures u.ViaT? ==> !u.stray {
      match AfterT(op == OPR_AND, ClassOf(l), t)
      case HereT(_, c1) => FreeNoStray(rt, c1, Between(op, l, Constants(l, k)));
      case ViaT(_, _, _) =>
    }
  }

  /** `((l0 < l1 or l2 < l3) and false) and l4` and `not (((l0 or l1) and false) and l2)` are right: comparisons leave
      by jumps that carry nothing, and `not` gives up what is carried. */
  lemma CleanThough()
    ensures Clean(Bin(OPR_AND, Paren(Bin(OPR_AND, Paren(Bin(OPR_OR, Bin(OPR_LT, Local(0), Local(1)),
                      Bin(OPR_LT, Local(2), Local(3)))), FalseLit)), Local(4)))
    ensures Clean(NotE(Paren(Lost())))
  {
    var p := Bin(OPR_OR, Bin(OPR_LT, Local(0), Local(1)), Bin(OPR_LT, Local(2), Local(3)));
    var q := Paren(Bin(OPR_AND, Paren(p), FalseLit));
    hide Traces; hide NoStray; hide Steady; hide Unloaded; hide Between; hide Constants; hide ClassOf;
    assert TestsOnly(p) && Apart(p);
    assert TestsOnly(q) && Apart(Bin(OPR_AND, q, Local(4)));
    TestsUnloaded(q, []);
    UnloadedFirst(OPR_AND, q, Local(4), []);
    ApartSteady(Bin(OPR_AND, q, Local(4)), None, []);
    LostApart();
    ApartSteady(NotE(Paren(Lost())), None, []);
    NotNoStray(Paren(Lost()), None, []);
  }

  lemma LostApart()
    ensures Apart(NotE(Paren(Lost())))
  {
    var p := Bin(OPR_OR, Local(0), Local(1));
    assert Apart(p) && Names(p) == {OfLocal(0), OfLocal(1)};
    var q := Bin(OPR_AND, Paren(p), FalseLit);
    assert Apart(q) && Names(q) == {OfLocal(0), OfLocal(1)};
    assert Names(Paren(q)) == {OfLocal(0), OfLocal(1)};
    assert Apart(Lost());
    assert Apart(Paren(Lost()));
  }
}
