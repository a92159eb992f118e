/**
  Descriptors of expressions and their lists of jumps: what the code generator's small steps need to know of them.
 */
module Describing {
  import opened Basics
  import opened Bytecode
  import opened JumpLists
  import opened Views
  import opened Delivering
  import opened Testing
  import opened Negating
  import opened Comparing
  import opened Expressions
  import opened Denoting

  /** Patching one more jump of the list. */
  lemma PatchOneMore(code0: seq<Instr>, done: set<nat>, j: nat, v: int, reg: int, d: int, mid: seq<Instr>)
    requires j < |code0| && code0[j].Jmp? && j !in done
    requires |mid| == |code0|
    requires forall i | 0 <= i < |code0| :: var b := Patched(code0, done, v, reg, d)[i];
      mid[i] == if i + 1 == j && b.TestSet? then PatchTest(b, reg) else b
    ensures Control(Patched(code0, done, v, reg, d), j).TestSet? == Control(code0, j).TestSet?
    ensures Patched(code0, done, v, reg, d)[j] == code0[j]
    ensures Patched(code0, done + {j}, v, reg, d) == mid[j := Jmp(Target(code0, j, v, d) - (j + 1))]
  {
    var b := Patched(code0, done, v, reg, d);
    if j >= 1 { assert b[j-1] == PatchedAt(code0, done, v, reg, d, j - 1); }
    forall i | 0 <= i < |code0|
      ensures PatchedAt(code0, done + {j}, v, reg, d, i) == mid[j := Jmp(Target(code0, j, v, d) - (j + 1))][i]
    {
      assert b[i] == PatchedAt(code0, done, v, reg, d, i);
    }
  }

  /** The constants once a value of this kind is in a register. */
  function StoredK(k: seq<Value>, kind: Kind): seq<Value>
  {
    if kind.VKNUM? then Added(k, Num(kind.nval)) else k
  }

  /** The constants once a value of this kind is an operand. */
  function OperandK(k: seq<Value>, kind: Kind, plain: bool): seq<Value>
  {
    if plain && |k| <= MAXINDEXRK && (kind.VTRUE? || kind.VFALSE?) then Added(k, Bool(kind.VTRUE?))
      else StoredK(k, kind)
  }

  lemma ConstantsStay(k: seq<Value>, kind: Kind, plain: bool)
    ensures k <= StoredK(k, kind) && k <= OperandK(k, kind, plain)
  {
  }

  /** Kinds that are operands already, or can be made so without code. */
  predicate StaysPut(k: seq<Value>, kind: Kind) {
    match kind
    case VLOCAL(_) => true
    case VNONRELOC(_) => true
    case VK(info) => info <= MAXINDEXRK
    case VKNUM(_) => |k| <= MAXINDEXRK
    case VTRUE => |k| <= MAXINDEXRK
    case VFALSE => |k| <= MAXINDEXRK
    case _ => false
  }

  /** What becomes of the constants can be told from the class. */
  lemma KindClass(kind: Kind, c: Class, code: seq<Instr>, k: seq<Value>, nact: nat, plain: bool)
    requires IsOf(kind, c, code, k, nact)
    ensures StoredK(k, kind) == Loaded(c, k)
    ensures OperandK(k, kind, plain) == Operand(c, plain, k)
    ensures plain && StaysPut(k, kind) <==> InPlace(c, plain, k)
  {
  }

  /** What a jump on hold carries is not changed by padding. */
  lemma PadUnladen(s1: Snap, s2: Snap)
    requires Closed(s1.code) && |s2.code| >= |s1.code| && s2.code[..|s1.code|] == s1.code && s1.held == {}
    requires s2.held <= {|s1.code|} && (s2.held != {} ==> |s2.code| > |s1.code| && s2.code[|s1.code|].Jmp?)
    ensures Unladen(s2)
  {
    var n := |s1.code|;
    if n >= 1 { assert s2.code[n - 1] == s1.code[n - 1]; }
  }

  /** Only jumps have been relinked. */
  lemma KindKept(kind: Kind, c: Class, code: seq<Instr>, code': seq<Instr>, k: seq<Value>, nact: nat)
    requires IsOf(kind, c, code, k, nact) && |code'| == |code|
    requires forall i: nat | i < |code| && !code[i].Jmp? :: code'[i] == code[i]
    ensures IsOf(kind, c, code', k, nact)
  {
  }

  lemma FitGrows(s: Snap, k: seq<Value>, k': seq<Value>, e: ExpDesc, t: seq<nat>, f: seq<nat>)
    requires Fit(s, k, e, t, f) && k <= k'
    ensures Fit(s, k', e, t, f)
  {
  }

  lemma LoadsSame(k: seq<Value>, kind: Kind, kind': Kind)
    requires kind.VLOCAL? || kind.VUPVAL? || kind' == kind
    requires kind.VLOCAL? || kind.VUPVAL? ==> kind'.VNONRELOC? || kind'.VRELOCABLE?
    ensures StoredK(k, kind) == StoredK(k, kind') && k <= StoredK(k, kind)
    ensures kind'.VNONRELOC? || kind'.VJMP? ==> StoredK(k, kind) == k
  {
  }

  lemma BaseOf(v: View, k: seq<Value>, e: ExpDesc, t: seq<nat>, f: seq<nat>)
    requires Fit(v.s, k, e, t, f) && v.k == e.k && Jumps(v.s.code, v.s.open)
    ensures Delay(e.k) == 0 ==> Base(v) == v.s && Intact(v.s.code, v.s.code, v.s.open)
    ensures e.k.VRELOCABLE? ==>
      |v.s.code| == e.k.pc + 1 && (v.s.code[e.k.pc].Not? || v.s.code[e.k.pc].GetUpval?) && Closed(v.s.code[..e.k.pc])
  {
  }

  lemma FreshJump(code: seq<Instr>, jpc: int, l: seq<nat>)
    requires IsList(code, jpc, l) && NoDup(l)
    ensures NoDup([|code|] + l) && Elems([|code|] + l) == {|code|} + Elems(l)
  {
    ListMembers(code, jpc, l);
    NoDupAppend([|code|], l);
  }

  lemma LongerList(c: seq<Instr>, c': seq<Instr>, head: int, l: seq<nat>)
    requires IsList(c, head, l) && c <= c'
    ensures IsList(c', head, l)
  {
    ListMembers(c, head, l);
    ListFrame(c, c', head, l);
  }

  lemma NoneHeld(s: Snap)
    requires s.held == {}
    ensures Unladen(s)
  {
  }

  lemma JumpPart(v: View, k: seq<Value>, e: ExpDesc, t: seq<nat>, f: seq<nat>)
    requires Fit(v.s, k, e, t, f) && e.k.VJMP? && v == View(v.s, e.k, Elems(t), Elems(f)) && Jumps(v.s.code, v.s.open)
    ensures var pc := e.k.pc;
      && pc < |v.s.code| && pc !in t && pc !in f && IsList(v.s.code, pc, [pc]) && NoDup([pc]) && Elems([pc]) == {pc}
      && NoDup(t + [pc]) && Elems(t + [pc]) == Elems(t) + {pc} && Elems(t) !! {pc}
      && IsList(v.s.code, e.t, t) && NoDup(t) && IsList(v.s.code, e.f, f) && Elems(t) !! Elems(f)
      && v.t + v.f + {pc} <= v.s.open
  {
    var pc := e.k.pc;
    JmpEmits(v, k, e, t, f);
    assert forall j | j in t + f :: j in Elems(t) + Elems(f);
    NoDupAppend(t, [pc]);
  }

  lemma PlacedRelinked(v: View, s1: Snap, s2: Snap, k: seq<Value>, e: ExpDesc, t: seq<nat>, f: seq<nat>)
    requires v == View(s1, e.k, Elems(t), Elems(f)) && e.k.VJMP? && Relinked(s1.code, s2.code, Elems(t))
    requires Fit(s1, k, e, t, f) && Closed(s1.code) && s2.held == s1.held == {} && s2.open == s1.open
    requires Elems(t + [e.k.pc]) == Elems(t) + {e.k.pc} && v.t + v.f + {e.k.pc} <= s1.open && Jumps(s1.code, s1.open)
    ensures Closed(s2.code) && e.k.pc < |s2.code| && !Control(s2.code, e.k.pc).TestSet? && Jumps(s2.code, s2.open)
    ensures var v1, v2 := Placed(v), View(s2, VFALSE, Elems(t + [e.k.pc]), Elems(f));
      && v1.s == s1 && v1.k == v2.k && v1.t == v2.t && v1.f == v2.f && v1.t + v1.f <= Base(v1).open
  {
    hide IsList; hide NoDup;
    JoinClosed(s1.code, s2.code, Elems(t));
  }

  /** The jumps on hold are not among the patched ones. */
  lemma HeldAside(s2: Snap, s4: Snap, l: set<nat>, head: int, m: seq<nat>)
    requires IsList(s2.code, head, m) && s2.held == Elems(m) && s2.held !! l && |s4.code| == |s2.code|
    requires s4.held == s2.held
    requires forall i | 0 <= i < |s2.code| && s2.code[i].Jmp? && i !in l ::
      s4.code[i] == s2.code[i] && Control(s4.code, i) == Control(s2.code, i)
    ensures IsList(s4.code, head, m) && (Unladen(s2) ==> Unladen(s4))
  {
    ListMembers(s2.code, head, m);
    assert forall j | j in m :: j in Elems(m);
    ListFrame(s2.code, s4.code, head, m);
  }

  lemma UnladenStayed(env: Env, k: seq<Value>, v1: View, v2: View, n: int)
    requires Stayed(env, k, v1, v2, n, false)
    ensures Unladen(v2.s)
  {
  }

  lemma BecameTrans(env: Env, k1: seq<Value>, k2: seq<Value>, v0: View, v1: View, v2: View, n: int,
                    firm1: bool, stays1: bool, firm2: bool, stays2: bool, stays: bool)
    requires k1 <= k2 && Carries(v0, v1) && Carries(v1, v2) && Yields(env, k1, v0, v1, n, -1)
    requires Yields(env, k2, v1, v2, n, -1)
    requires firm1 || stays1 ==> Stayed(env, k1, v0, v1, n, stays1)
    requires firm2 || stays2 ==> Stayed(env, k2, v1, v2, n, stays2)
    requires stays ==> stays1 && stays2
    requires firm1 && !stays ==> (v1.s == v2.s && Unladen(v1.s)) || (!stays2 && firm2)
    ensures Carries(v0, v2) && Yields(env, k2, v0, v2, n, -1)
    ensures firm1 || stays ==> Stayed(env, k2, v0, v2, n, stays)
  {
    hide Carries; hide Yields; hide Keeps; hide Unladen;
    YieldsTrans(env, k1, k2, v0, v1, v2, n, -1, n, -1, n, -1);
    if stays { KeepsTrans(env, k1, k2, v0, v1, v2, n, -1, n, -1, n, -1); }
  }

  lemma SingleList(t: seq<nat>, f: seq<nat>, j: nat)
    requires j !in t && j !in f
    ensures NoDup([j]) && Elems([j]) == {j} && Elems([j]) !! Elems(t) + Elems(f)
  {
  }

  lemma ShowFit(s: Snap, k: seq<Value>, e: ExpDesc, t: seq<nat>, f: seq<nat>)
    requires Fit(s, k, e, t, f) && e.k.VJMP?
    ensures 1 <= e.k.pc < |s.code| && s.code[e.k.pc].Jmp? && s.code[e.k.pc - 1].Cmp? && s.held == {}
  {
  }

  lemma FitOpen(v: View, k: seq<Value>, e: ExpDesc, t: seq<nat>, f: seq<nat>)
    requires Fit(v.s, k, e, t, f) && v.k == e.k && v.t == Elems(t) && v.f == Elems(f)
    ensures v.t + v.f <= Base(v).open && v.t !! v.f && NoDup(t) && NoDup(f) && Delay(v.k) <= |v.s.code|
  {
  }
}
