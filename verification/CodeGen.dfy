/**
  The code generator for boolean and relational expressions (lcode.c).
 */
module CodeGen {
  import opened Basics
  import opened Bytecode
  import opened JumpLists
  import opened Views
  import opened Delivering
  import opened Testing
  import opened Negating
  import opened Comparing
  import opened Expressions
  import opened Denoting
  import opened Describing

  class FuncState {
    const nactvar: nat
    var code: seq<Instr>
    var jpc: int
    var freereg: nat
    var k: seq<Value>
    /** The jumps listed at `jpc`. */
    ghost var J: seq<nat>
    /** Every other jump without a destination. */
    ghost var O: set<nat>

    ghost function State(): Snap
      reads this
    {
      Snap(code, Elems(J), O)
    }

    ghost predicate Valid()
      reads this
    {
      && IsList(code, jpc, J) && NoDup(J) && Elems(J) !! O
      && (forall j | j in O :: j < |code| && code[j].Jmp?)
      && nactvar <= freereg
    }

    constructor (nactvar: nat)
      ensures Valid() && code == [] && k == [] && jpc == NO_JUMP && J == [] && O == {}
      ensures this.nactvar == freereg == nactvar
    {
      this.nactvar := nactvar;
      freereg, code, jpc, k, J, O := nactvar, [], NO_JUMP, [], [], {};
    }

    method FixJump(pc: nat, dest: int)
      requires pc < |code| && code[pc].Jmp?
      modifies `code
      ensures code == old(code)[pc := Jmp(dest - (pc + 1))]
    {
      code := code[pc := Jmp(dest - (pc + 1))];
    }

    method PatchTestReg(node: nat, reg: int) returns (b: bool)
      requires node < |code| && code[node].Jmp?
      modifies `code
      ensures b == Control(old(code), node).TestSet?
      ensures |code| == |old(code)|
      ensures forall i | 0 <= i < |code| ::
        code[i] == if i + 1 == node && old(code)[i].TestSet? then PatchTest(old(code)[i], reg) else old(code)[i]
    {
      var i := if node >= 1 && IsTest(code[node - 1]) then node - 1 else node;
      if !code[i].TestSet? {
        return false;
      }
      var t := code[i];
      if reg != NO_REG && reg != t.b {
        code := code[i := TestSet(reg, t.b, t.c)];
      } else {
        code := code[i := Test(t.b, t.c)];
      }
      return true;
    }

    /** One round of `patchlistaux`. */
    method Redirect(j: nat, vtarget: int, reg: int, dtarget: int, ghost code0: seq<Instr>, ghost done: set<nat>)
      requires |code| == |code0| && code == Patched(code0, done, vtarget, reg, dtarget)
      requires j < |code| && code0[j].Jmp? && j !in done && code[j].Jmp?
      modifies `code
      ensures code == Patched(code0, done + {j}, vtarget, reg, dtarget)
      ensures forall i | 0 <= i < |code| && i != j && old(code)[i].Jmp? :: code[i] == old(code)[i]
    {
      var value := PatchTestReg(j, reg);
      PatchOneMore(code0, done, j, vtarget, reg, dtarget, code);
      if value {
        FixJump(j, vtarget);
      } else {
        FixJump(j, dtarget);
      }
    }

    method PatchListAux(list: int, vtarget: int, reg: int, dtarget: int, ghost l: seq<nat>)
      requires IsList(code, list, l) && NoDup(l)
      modifies `code
      ensures code == Patched(old(code), Elems(l), vtarget, reg, dtarget)
    {
      var cur := list;
      ghost var n := 0;
      ListMembers(code, list, l);
      assert Patched(code, Elems(l[..0]), vtarget, reg, dtarget) == code;
      while cur != NO_JUMP
        invariant n <= |l| && |code| == |old(code)|
        invariant IsList(code, cur, l[n..])
        invariant code == Patched(old(code), Elems(l[..n]), vtarget, reg, dtarget)
        decreases |l| - n
      {
        hide Patched;
        ghost var before := code;
        assert l[n] == cur && l[n] !in l[..n] && l[n] in l;
        var next := GetJump(code, cur);
        Redirect(cur, vtarget, reg, dtarget, old(code), Elems(l[..n]));
        assert Elems(l[..n+1]) == Elems(l[..n]) + {cur};
        assert l[n..][1..] == l[n+1..];
        ListMembers(before, next, l[n+1..]);
        ListFrame(before, code, next, l[n+1..]);
        cur := next;
        n := n + 1;
      }
      assert l[n..] == [];
      assert l[..n] == l;
    }

    method Concat(l1: int, l2: int, ghost m1: seq<nat>, ghost m2: seq<nat>) returns (l: int)
      requires IsList(code, l1, m1) && IsList(code, l2, m2) && NoDup(m1) && Elems(m1) !! Elems(m2)
      modifies `code
      ensures IsList(code, l, m1 + m2)
      ensures |code| == |old(code)|
      ensures forall i | 0 <= i < |code| ::
        if i in m1 then code[i].Jmp? else code[i] == old(code)[i]
      ensures m1 == [] || m2 == [] ==> code == old(code)
      ensures Relinked(old(code), code, Elems(m1))
    {
      ListMembers(code, l1, m1);
      assert forall i | i in Elems(m1) :: code[i].Jmp?;
      if l2 == NO_JUMP {
        assert m1 + m2 == m1;
        return l1;
      } else if l1 == NO_JUMP {
        assert m1 + m2 == m2;
        return l2;
      }
      var list := l1;
      ghost var n := 0;
      var next := GetJump(code, list);
      while next != NO_JUMP
        invariant n < |m1| && list == m1[n] && list < |code| && code[list].Jmp? && next == GetJump(code, list)
        invariant IsList(code, next, m1[n + 1..])
        decreases |m1| - n
      {
        assert m1[n + 1..][1..] == m1[n + 2..];
        list := next;
        next := GetJump(code, list);
        n := n + 1;
      }
      assert list in m1;
      FixJump(list, l2);
      ListAppend(old(code), code, l1, m1, l2, m2);
      return l1;
    }

    method DischargeJpc()
      requires Valid()
      modifies `code, `jpc, `J
      ensures code == Patched(old(code), Elems(old(J)), |old(code)|, NO_REG, |old(code)|)
      ensures jpc == NO_JUMP && J == []
    {
      PatchListAux(jpc, |code|, NO_REG, |code|, J);
      jpc, J := NO_JUMP, [];
    }

    /** `luaK_code` */
    method Code(i: Instr) returns (pc: nat)
      requires Valid()
      modifies `code, `jpc, `J
      ensures Valid() && pc == |old(code)|
      ensures code == Patched(old(code), Elems(old(J)), |old(code)|, NO_REG, |old(code)|) + [i]
      ensures jpc == NO_JUMP && J == []
      ensures Closed(old(code)) ==> Emits(old(State()), State(), [i])
      ensures old(J) == [] ==> code == old(code) + [i]
    {
      ListMembers(code, jpc, J);
      if J == [] { assert Patched(code, Elems(J), |code|, NO_REG, |code|) == code; }
      DischargeJpc();
      code := code + [i];
      pc := |code| - 1;
      forall j | j in O ensures j < |code| && code[j].Jmp? {
        assert code[j] == PatchedAt(old(code), Elems(old(J)), pc, NO_REG, pc, j);
      }
    }

    /** `luaK_jump`: the jumps on hold join the new one instead of landing on it. */
    method Jump() returns (j: int)
      requires Valid()
      modifies `code, `jpc, `J, `O
      ensures Valid() && j == |old(code)| && jpc == NO_JUMP && J == []
      ensures |code| == |old(code)| + 1 && code[..j] == old(code) && code[j].Jmp?
      ensures old(J) == [] ==> code[j] == Jmp(NO_JUMP)
      ensures IsList(code, j, [j] + old(J))
      ensures O == old(O) + {j} + Elems(old(J))
    {
      ListMembers(code, jpc, J);
      var hold := jpc;
      ghost var held := J;
      jpc, J := NO_JUMP, [];
      var n := Code(Jmp(NO_JUMP));
      assert Patched(old(code), {}, n, NO_REG, n) == old(code);
      ListFrame(old(code), code, hold, held);
      assert IsList(code, n, [n]);
      j := Concat(n, hold, [n], held);
      O := O + {n} + Elems(held);
    }

    method PatchToHere(list: int, ghost l: seq<nat>)
      requires Valid() && IsList(code, list, l) && NoDup(l) && Elems(l) <= O
      modifies `code, `jpc, `J, `O
      ensures Valid() && J == old(J) + l && O == old(O) - Elems(l) && Elems(J) == old(Elems(J)) + Elems(l)
      ensures Relinked(old(code), code, old(Elems(J)))
    {
      jpc := Concat(jpc, list, J, l);
      NoDupAppend(J, l);
      J, O := J + l, O - Elems(l);
      assert Elems(J) == Elems(old(J)) + Elems(l);
    }

    method NeedValue(list: int, ghost l: seq<nat>) returns (b: bool)
      requires IsList(code, list, l)
      ensures b <==> exists j :: j in l && j < |code| && !Control(code, j).TestSet?
    {
      ListMembers(code, list, l);
      var cur := list;
      ghost var n := 0;
      while cur != NO_JUMP
        invariant n <= |l| && IsList(code, cur, l[n..])
        invariant forall j | j in l[..n] :: j < |code| && Control(code, j).TestSet?
        decreases |l| - n
      {
        assert l[n] == cur && l[n] in l;
        if !Control(code, cur).TestSet? {
          return true;
        }
        assert l[n..][1..] == l[n+1..];
        assert l[..n+1] == l[..n] + [cur];
        cur := GetJump(code, cur);
        n := n + 1;
      }
      assert l[..n] == l;
      return false;
    }

    method RemoveValues(list: int, ghost l: seq<nat>)
      requires IsList(code, list, l)
      modifies `code
      ensures Strips(old(code), code, Elems(l))
    {
      var cur := list;
      ghost var n := 0;
      ListMembers(code, list, l);
      while cur != NO_JUMP
        invariant n <= |l| && |code| == |old(code)|
        invariant IsList(code, cur, l[n..])
        invariant forall i | 0 <= i < |code| :: code[i] == StrippedAt(old(code), Elems(l[..n]), i)
        decreases |l| - n
      {
        assert l[n] == cur && l[n] in l;
        ghost var before := code;
        var b := PatchTestReg(cur, NO_REG);
        assert Elems(l[..n+1]) == Elems(l[..n]) + {cur};
        assert l[n..][1..] == l[n+1..];
        ListMembers(before, GetJump(before, cur), l[n+1..]);
        ListFrame(before, code, GetJump(before, cur), l[n+1..]);
        cur := GetJump(code, cur);
        n := n + 1;
      }
      assert l[..n] == l;
    }

    ghost function At(e: ExpDesc, t: seq<nat>, f: seq<nat>): View
      reads this
    {
      View(State(), e.k, Elems(t), Elems(f))
    }

    /** The state between two operations on an expression. */
    ghost predicate Holds(e: ExpDesc, t: seq<nat>, f: seq<nat>)
      reads this
    {
      && Valid() && Closed(code) && Fit(State(), k, e, t, f)
      && (Delay(e.k) > 0 ==> J == [])
      && (e.k.VLOCAL? ==> e.k.reg < nactvar)
      && (e.k.VNONRELOC? && e.k.reg >= nactvar ==> e.k.reg + 1 == freereg)
      && (e.k.VNONRELOC? ==> e.k.reg < freereg)
    }

    method DischargeVars(ghost env: Env, e: ExpDesc, ghost t: seq<nat>, ghost f: seq<nat>) returns (e': ExpDesc)
      requires Holds(e, t, f)
      modifies `code, `jpc, `J
      ensures Holds(e', t, f) && e'.t == e.t && e'.f == e.f
      ensures Carries(old(At(e, t, f)), At(e', t, f))
      ensures Keeps(env, k, old(At(e, t, f)), At(e', t, f), freereg, -1)
      ensures e'.k == if e.k.VLOCAL? then VNONRELOC(e.k.reg)
                      else if e.k.VUPVAL? then VRELOCABLE(|old(code)|) else e.k
      ensures e.k.VUPVAL? ==> |code| == |old(code)| + 1 && code[|old(code)|].GetUpval?
      ensures if e.k.VUPVAL? then J == [] else code == old(code) && J == old(J) && jpc == old(jpc)
    {
      hide Step; hide Run; hide Leap; hide PatchedAt; hide M; hide Keeps; hide Alike; hide NoDup; hide IsList;
      hide Fit; hide Emits; hide Intact; hide Carries; hide Closed;
      ghost var v1 := At(e, t, f);
      match e.k {
        case VLOCAL(reg) =>
          e' := e.(k := VNONRELOC(reg));
          FitPlain(State(), k, e, e', t, f);
          SameKeeps(env, k, v1, At(e', t, f), freereg, -1);
        case VUPVAL(u) =>
          var pc := Code(GetUpval(0, u));
          e' := e.(k := VRELOCABLE(pc));
          DelayFits(k, v1.s, State(), e, e', GetUpval(0, u), t, f);
          DelayKeeps(env, k, v1, At(e', t, f), [GetUpval(0, u)], freereg, -1);
        case _ =>
          e' := e;
          SameKeeps(env, k, v1, v1, freereg, -1);
      }
    }

    method Discharge2Reg(ghost env: Env, e: ExpDesc, reg: nat, ghost t: seq<nat>,
                         ghost f: seq<nat>) returns (e': ExpDesc)
      requires Holds(e, t, f)
      modifies `code, `jpc, `J, `k
      ensures Valid() && Closed(code) && Fit(State(), k, e', t, f) && e'.t == e.t && e'.f == e.f
      ensures k == StoredK(old(k), e.k)
      ensures Carries(old(At(e, t, f)), At(e', t, f))
      ensures Keeps(env, k, old(At(e, t, f)), At(e', t, f), freereg, reg)
      ensures e'.k == if e.k.VJMP? then e.k else VNONRELOC(reg)
      ensures Delay(e'.k) > 0 ==> J == []
      ensures J == [] || (J == old(J) && (e.k == VNONRELOC(reg) || e.k == VLOCAL(reg)))
    {
      hide Step; hide Run; hide Leap; hide PatchedAt; hide IsList; hide NoDup; hide Keeps; hide Carries;
      hide Emits; hide Intact;
      hide Patched; hide Fit; hide Closed; hide Base; hide StoreInstr; hide StoredK;
      ghost var v0, k0 := At(e, t, f), k;
      var d := DischargeVars(env, e, t, f);
      ghost var v1 := At(d, t, f);
      if d.k == VNONRELOC(reg) || d.k.VJMP? {
        KeepsLoosen(env, k, v0, v1, freereg, reg);
        LoadsSame(k, e.k, d.k);
        return d;
      }
      ghost var c := Store(d, reg, t, f);
      e' := d.(k := VNONRELOC(reg));
      ghost var v2 := At(e', t, f);
      assert k == StoredK(k0, e.k) && k0 <= k by { LoadsSame(k0, e.k, d.k); }
      FitGrows(v1.s, k0, k, d, t, f);
      StoreKeeps(env, k, v1, v2, d, t, f, reg, c, freereg);
      KeepsTrans(env, k0, k, v0, v1, v2, freereg, -1, freereg, reg, freereg, reg);
    }

    /** The switch of `discharge2reg`. */
    method Store(d: ExpDesc, reg: nat, ghost t: seq<nat>, ghost f: seq<nat>) returns (ghost c: nat)
      requires Holds(d, t, f) && !d.k.VLOCAL? && !d.k.VUPVAL? && !d.k.VJMP?
      modifies `code, `jpc, `J, `k
      ensures Valid() && J == [] && k == StoredK(old(k), d.k) && (d.k.VKNUM? ==> c < |k| && k[c] == Num(d.k.nval))
      ensures var v := old(At(d, t, f));
        && Emits(Base(v), State(), [StoreInstr(v.s.code, d.k, reg, c)]) && O == Base(v).open
        && Intact(v.s.code, Base(v).code, Base(v).open)
    {
      hide PatchedAt; hide IsList; hide NoDup; hide Patched; hide Fit; hide Closed; hide Base; hide Emits; hide Intact;
      BaseOf(At(d, t, f), k, d, t, f);
      c := 0;
      match d.k {
        case VTRUE => var _ := Code(LoadBool(reg, true, false));
        case VFALSE => var _ := Code(LoadBool(reg, false, false));
        case VK(info) => var _ := Code(LoadK(reg, info));
        case VKNUM(nval) =>
          var i := AddK(Num(nval));
          c := i;
          var _ := Code(LoadK(reg, i));
        case VRELOCABLE(pc) =>
          SetTarget(pc, reg, At(d, t, f));
        case VNONRELOC(from) =>
          var _ := Code(Move(reg, from));
      }
    }

    /** The end of `exp2reg` for an expression with jumps, first half: a place to get true or false
        from, for jumps that do not deliver their value. */
    method LoadValues(ghost env: Env, jumps: bool, reg: nat, ghost v: View, ghost t: seq<nat>, ghost f: seq<nat>,
                      tl: int, fl: int)
      returns (pf: int, pt: int)
      requires Valid() && Closed(code)
      requires v == View(State(), if jumps then VFALSE else VNONRELOC(reg), Elems(t), Elems(f))
      requires IsList(code, tl, t) && IsList(code, fl, f) && v.t !! v.f && v.t + v.f <= O
      requires jumps ==> J == [] && exists j :: j in t && j < |code| && !Control(code, j).TestSet?
      modifies `code, `jpc, `J, `O
      ensures Valid() && Completes(v, State(), reg, pf, pt)
      ensures pf == pt == NO_JUMP || (pf >= |v.s.code| && pt == pf + 1)
      ensures jumps ==> J == []
      ensures old(J) == [] ==> Unladen(State())
      ensures IsList(code, tl, t) && IsList(code, fl, f)
      ensures forall k2, p, r :: Finishes(env, k2, v, State(), reg, p, r)
    {
      hide Step; hide Run; hide Leap; hide PatchedAt; hide Patched; hide Finishes; hide Completes;
      ListMembers(code, jpc, J);
      ghost var J0 := J;
      var n1 := NeedValue(tl, t);
      var n2 := NeedValue(fl, f);
      if !n1 && !n2 {
        NoLoads(env, v, reg, t, f);
        return NO_JUMP, NO_JUMP;
      }
      pf, pt := EmitLoads(jumps, reg);
      AfterLoads(env, v, State(), reg, if jumps then 0 else 1, tl, t, fl, f);
      if J0 == [] { PadUnladen(v.s, State()); }
    }

    method EmitLoads(jumps: bool, reg: nat) returns (pf: int, pt: int)
      requires Valid() && Closed(code) && (jumps ==> J == [])
      modifies `code, `jpc, `J, `O
      ensures Valid() && pf == |old(code)| + (if jumps then 0 else 1) && pt == pf + 1 && |code| == pt + 1
      ensures code[..|old(code)|] == old(code) && (!jumps ==> code[|old(code)|].Jmp?)
      ensures code[pf] == LoadBool(reg, false, true) && code[pt] == LoadBool(reg, true, false)
      ensures O == old(O)
      ensures Elems(J) == (if jumps then {} else old(Elems(J)) + {|old(code)|}) && (jumps ==> J == [])
    {
      hide Patched; hide Emits; hide IsList; hide NoDup; hide Closed;
      var fj := NO_JUMP;
      ghost var l, c := [], code;
      EmptyList(code);
      if !jumps {
        l := [|code|] + J;
        FreshJump(code, jpc, J);
        fj := Jump();
        c := code;
        assert c[..|old(code)|] == old(code) && c[|old(code)|].Jmp?;
      }
      pf := Code(LoadBool(reg, false, true));
      pt := Code(LoadBool(reg, true, false));
      assert code == c + [LoadBool(reg, false, true), LoadBool(reg, true, false)];
      assert code[..|old(code)|] == c[..|old(code)|];
      LongerList(c, code, fj, l);
      PatchToHere(fj, l);
    }

    method SetTarget(pc: nat, reg: nat, ghost v: View)
      requires Valid() && v.s == State() && v.k == VRELOCABLE(pc)
      requires |code| == pc + 1 && (code[pc].Not? || code[pc].GetUpval?) && Closed(code[..pc]) && J == []
      modifies `code
      ensures Valid() && code == old(code)[pc := Filled(old(code)[pc], reg)]
      ensures Emits(Base(v), State(), [code[pc]]) && Base(v).open == O
      ensures Intact(v.s.code, Base(v).code, O)
    {
      match code[pc] {
        case Not(_, b) => code := code[pc := Not(reg, b)];
        case GetUpval(_, u) => code := code[pc := GetUpval(reg, u)];
      }
      FillEmits(v, code, code[pc], O);
    }

    /** `luaK_addk`: a constant is there only once. */
    method AddK(v: Value) returns (i: nat)
      modifies `k
      ensures k == Added(old(k), v) && i == IndexOf(k, v) && i < |k| && k[i] == v && i <= |old(k)|
    {
      i := 0;
      while i < |k|
        invariant i <= |k| && v !in k[..i]
      {
        if k[i] == v {
          FirstIndex(k, v, i);
          return;
        }
        i := i + 1;
      }
      assert k[..i] == k;
      k := k + [v];
      assert k[..i] == old(k);
      FirstIndex(k, v, i);
    }

    /** `exp2reg`: the value of the expression ends up in `reg`, however it is come by. */
    method Exp2Reg(ghost env: Env, e: ExpDesc, reg: nat, ghost t: seq<nat>, ghost f: seq<nat>) returns (e': ExpDesc)
      requires Holds(e, t, f)
      requires reg < freereg && (reg >= nactvar ==> reg + 1 == freereg)
      modifies `code, `jpc, `J, `O, `k
      ensures Holds(e', [], []) && e' == ExpDesc(VNONRELOC(reg), NO_JUMP, NO_JUMP)
      ensures k == StoredK(old(k), e.k)
      ensures Carries(old(At(e, t, f)), At(e', [], []))
      ensures Yields(env, k, old(At(e, t, f)), At(e', [], []), freereg, reg)
      ensures e.k == VNONRELOC(reg) || e.k == VLOCAL(reg) || Unladen(State())
    {
      hide Step; hide Run; hide Leap; hide PatchedAt; hide Patched; hide Finishes; hide Completes;
      hide Keeps; hide Yields; hide Carries; hide Intact; hide Control; hide IsTest; hide NoDup; hide Closed;
      hide Unladen;
      hide StoredK;
      ghost var v0, k0 := At(e, t, f), k;
      var d := Discharge2Reg(env, e, reg, t, f);
      ghost var v1, k1 := At(d, t, f), k;
      KeepsYields(env, k, v0, v1, freereg, reg);
      var tl, jumps := d.t, d.k.VJMP?;
      ghost var t2, v2 := t, v1;
      if jumps {
        tl := PlaceJump(env, d, t, f);
        t2 := t + [d.k.pc];
        v2 := View(State(), VFALSE, Elems(t2), Elems(f));
        YieldsTrans(env, k1, k1, v0, v1, v2, freereg, reg, freereg, -1, freereg, reg);
      }
      e' := ExpDesc(VNONRELOC(reg), NO_JUMP, NO_JUMP);
      EmptyList(code);
      if J == [] { NoneHeld(State()); }
      NoJumps(code, tl, t2, d.f, f);
      if tl != d.f {
        PatchLists(env, jumps, reg, tl, d.f, t2, f, v2);
        assert At(e', [], []) == View(State(), VNONRELOC(reg), {}, {});
        YieldsTrans(env, k1, k1, v0, v2, At(e', [], []), freereg, reg, freereg, reg, freereg, reg);
      }
    }

    method PlaceJump(ghost env: Env, e: ExpDesc, ghost t: seq<nat>, ghost f: seq<nat>) returns (tl: int)
      requires Valid() && Closed(code) && Fit(State(), k, e, t, f) && e.k.VJMP? && J == []
      modifies `code
      ensures Valid() && Closed(code) && IsList(code, tl, t + [e.k.pc]) && NoDup(t + [e.k.pc]) && IsList(code, e.f, f)
      ensures e.k.pc < |code| && !Control(code, e.k.pc).TestSet?
      ensures var v2 := View(State(), VFALSE, Elems(t + [e.k.pc]), Elems(f));
        && Carries(old(At(e, t, f)), v2)
        && Yields(env, k, old(At(e, t, f)), v2, freereg, -1)
        && v2.t !! v2.f && v2.t + v2.f <= O
    {
      hide Step; hide Run; hide Leap; hide PatchedAt; hide Patched; hide IsList; hide NoDup; hide Yields;
      hide Keeps; hide Carries;
      hide Fit; hide Closed; hide Relinked; hide Control; hide Base; hide Placed;
      var pc := e.k.pc;
      ghost var v, s1 := At(e, t, f), State();
      JumpPart(v, k, e, t, f);
      PlacedYields(env, k, v, e, t, f, freereg, -1);
      tl := Concat(e.t, pc, t, [pc]);
      ghost var v1, v2 := Placed(v), View(State(), VFALSE, Elems(t + [pc]), Elems(f));
      PlacedRelinked(v, s1, State(), k, e, t, f);
      RelinkKeeps(env, k, v1, v2, Elems(t), freereg, -1);
      KeepsYields(env, k, v1, v2, freereg, -1);
      YieldsTrans(env, k, k, v, v1, v2, freereg, -1, freereg, -1, freereg, -1);
      ListRelinked(s1.code, code, Elems(t), e.f, f);
      ListRelinked(s1.code, code, Elems(t), jpc, J);
    }

    method PatchLists(ghost env: Env, jumps: bool, reg: nat, tl: int, fl: int, ghost t: seq<nat>, ghost f: seq<nat>,
                      ghost v: View)
      requires Valid() && Closed(code)
      requires v == View(State(), if jumps then VFALSE else VNONRELOC(reg), Elems(t), Elems(f))
      requires IsList(code, tl, t) && IsList(code, fl, f) && NoDup(t) && NoDup(f) && v.t !! v.f && v.t + v.f <= O
      requires jumps ==> J == [] && exists j :: j in t && j < |code| && !Control(code, j).TestSet?
      modifies `code, `jpc, `J, `O
      ensures Valid() && Closed(code)
      ensures Carries(v, View(State(), VNONRELOC(reg), {}, {}))
      ensures Yields(env, k, v, View(State(), VNONRELOC(reg), {}, {}), freereg, reg)
      ensures jumps ==> J == []
      ensures old(J) == [] ==> Unladen(State())
    {
      hide Step; hide Run; hide Leap; hide PatchedAt; hide Patched; hide Finishes; hide Completes; hide Patches;
      hide Keeps; hide Yields;
      hide IsList; hide NoDup; hide Closed; hide Carries; hide Intact; hide Unladen; hide Control;
      var pf, pt := LoadValues(env, jumps, reg, v, t, f, tl, fl);
      var final := |code|;
      ghost var s2 := State();
      PatchListAux(fl, final, reg, pf, f);
      O := O - Elems(f);
      ghost var s3 := State();
      ghost var c4 := Patched(code, Elems(t), final, reg, pt);
      ghost var s4 := Snap(c4, s3.held, O - Elems(t));
      CompletesPatches(v, s2, s3, s4, reg, pf, pt);
      CompletesIntact(v, s2, reg, pf, pt);
      ListIntact(s2.code, s3.code, s3.open, tl, t);
      PatchListAux(tl, final, reg, pt, t);
      O := O - Elems(t);
      ListMembers(s2.code, jpc, J);
      assert Jumps(s2.code, s2.held);
      FinishYields(env, k, v, s2, s3, s4, reg, pf, pt, freereg);
      HeldAside(s2, s4, v.t + v.f, jpc, J);
    }

    /** Registers below this one do not belong to the expression. */
    ghost function Level(e: ExpDesc): int
      reads this
    {
      if e.k.VNONRELOC? && e.k.reg >= nactvar then freereg - 1 else freereg
    }

    /** The expression seen as `v1` at level `n` has been put in place; no code was needed if it stays. */
    ghost predicate Became(env: Env, v1: View, n: int, e: ExpDesc, firm: bool, stays: bool)
      reads this
    {
      && Holds(e, [], []) && Level(e) == n && e.t == e.f == NO_JUMP
      && Carries(v1, At(e, [], [])) && Yields(env, k, v1, At(e, [], []), n, -1)
      && (firm || stays ==> Stayed(env, k, v1, At(e, [], []), n, stays))
    }

    method ReserveRegs(n: nat)
      modifies `freereg
      ensures freereg == old(freereg) + n
    {
      freereg := freereg + n;
    }

    method FreeReg(reg: nat)
      requires nactvar <= freereg && (reg >= nactvar ==> reg + 1 == freereg)
      modifies `freereg
      ensures freereg == if reg >= nactvar then old(freereg) - 1 else old(freereg)
    {
      if reg >= nactvar {
        freereg := freereg - 1;
        assert reg == freereg;
      }
    }

    method FreeExp(e: ExpDesc)
      requires nactvar <= freereg && (e.k.VNONRELOC? && e.k.reg >= nactvar ==> e.k.reg + 1 == freereg)
      modifies `freereg
      ensures freereg == old(Level(e)) && nactvar <= freereg
    {
      if e.k.VNONRELOC? {
        FreeReg(e.k.reg);
      }
    }

    /** Not in a register that is only lent to it. */
    ghost predicate Firm(kind: Kind) { kind.VNONRELOC? ==> kind.reg < nactvar }

    method Exp2NextReg(ghost env: Env, e: ExpDesc, ghost t: seq<nat>, ghost f: seq<nat>) returns (e': ExpDesc)
      requires Holds(e, t, f)
      modifies `code, `jpc, `J, `O, `k, `freereg
      ensures Became(env, old(At(e, t, f)), old(Level(e)), e', Firm(e.k), false) && k == StoredK(old(k), e.k)
      ensures e' == ExpDesc(VNONRELOC(old(Level(e))), NO_JUMP, NO_JUMP) && freereg == old(Level(e)) + 1
    {
      hide Step; hide Run; hide Leap; hide PatchedAt; hide Patched; hide Keeps; hide Yields; hide Carries; hide Fit;
      hide Unladen; hide Intact; hide Closed;
      ghost var v0, k0 := At(e, t, f), k;
      var d := DischargeVars(env, e, t, f);
      ghost var v1 := At(d, t, f);
      KeepsYields(env, k, v0, v1, freereg, -1);
      FreeExp(d);
      ReserveRegs(1);
      e' := Exp2Reg(env, d, freereg - 1, t, f);
      YieldsTrans(env, k0, k, v0, v1, At(e', [], []), old(freereg), -1, freereg, freereg - 1, freereg - 1, -1);
    }

    method Exp2AnyReg(ghost env: Env, e: ExpDesc, ghost t: seq<nat>, ghost f: seq<nat>) returns (e': ExpDesc)
      requires Holds(e, t, f)
      modifies `code, `jpc, `J, `O, `k, `freereg
      ensures Became(env, old(At(e, t, f)), old(Level(e)), e', Firm(e.k),
                     t == [] && f == [] && (e.k.VLOCAL? || e.k.VNONRELOC?))
      ensures k == StoredK(old(k), e.k) && e'.k.VNONRELOC?
      ensures t == [] && f == [] && e.k.VNONRELOC? ==> e' == e && State() == old(State())
    {
      hide Step; hide Run; hide Leap; hide PatchedAt; hide Patched; hide Keeps; hide Yields; hide Carries; hide Fit;
      hide Unladen; hide Intact; hide Closed;
      ghost var v0, k0, n := At(e, t, f), k, Level(e);
      var d := DischargeVars(env, e, t, f);
      ghost var v1 := At(d, t, f);
      KeepsYields(env, k, v0, v1, freereg, -1);
      FitLists(k, d, t, f);
      NoJumps(code, d.t, t, d.f, f);
      if d.k.VNONRELOC? {
        if d.t == d.f {
          KeepsWeaken(env, k, v0, v1, freereg, -1, n);
          KeepsYields(env, k, v0, v1, n, -1);
          return d;
        }
        if d.k.reg >= nactvar {
          e' := Exp2Reg(env, d, d.k.reg, t, f);
          YieldsTrans(env, k0, k, v0, v1, At(e', [], []), freereg, -1, freereg, d.k.reg, n, -1);
          return;
        }
      }
      e' := Exp2NextReg(env, d, t, f);
      YieldsTrans(env, k0, k, v0, v1, At(e', [], []), old(freereg), -1, n, -1, n, -1);
    }

    lemma FitLists(k: seq<Value>, e: ExpDesc, t: seq<nat>, f: seq<nat>)
      requires Fit(State(), k, e, t, f)
      ensures IsList(code, e.t, t) && IsList(code, e.f, f) && Elems(t) !! Elems(f)
      ensures t == [] && f == [] ==> e.t == e.f == NO_JUMP
    {
    }

    method Exp2Val(ghost env: Env, e: ExpDesc, ghost t: seq<nat>, ghost f: seq<nat>) returns (e': ExpDesc)
      requires Holds(e, t, f)
      modifies `code, `jpc, `J, `O, `k, `freereg
      ensures Became(env, old(At(e, t, f)), old(Level(e)), e', Firm(e.k), t == [] && f == [] && !e.k.VUPVAL?)
      ensures if t == [] && f == []
        then k == old(k)
          && e'.k == (if e.k.VLOCAL? then VNONRELOC(e.k.reg) else if e.k.VUPVAL? then VRELOCABLE(|old(code)|) else e.k)
        else k == StoredK(old(k), e.k) && e'.k.VNONRELOC?
    {
      hide Step; hide Run; hide Leap; hide PatchedAt; hide Patched; hide Keeps; hide Yields; hide Carries; hide Fit;
      hide Intact; hide Closed;
      FitLists(k, e, t, f);
      NoJumps(code, e.t, t, e.f, f);
      if e.t != e.f {
        e' := Exp2AnyReg(env, e, t, f);
      } else {
        ghost var v0, n := At(e, t, f), Level(e);
        e' := DischargeVars(env, e, t, f);
        KeepsWeaken(env, k, v0, At(e', t, f), freereg, -1, n);
        KeepsYields(env, k, v0, At(e', t, f), n, -1);
      }
    }

    method Exp2RK(ghost env: Env, e: ExpDesc, ghost t: seq<nat>, ghost f: seq<nat>) returns (e': ExpDesc, o: RK)
      requires Holds(e, t, f)
      modifies `code, `jpc, `J, `O, `k, `freereg
      ensures Became(env, old(At(e, t, f)), old(Level(e)), e', Firm(e.k), t == [] && f == [] && StaysPut(old(k), e.k))
      ensures k == OperandK(old(k), e.k, t == [] && f == [])
      ensures if o.Konst? then o.i <= MAXINDEXRK && e'.k == VK(o.i) else e'.k == VNONRELOC(o.r)
    {
      hide Holds; hide Carries; hide Yields; hide Stayed; hide Unladen;
      ghost var v0, n, plain, k0 := At(e, t, f), Level(e), t == [] && f == [], k;
      var d := Exp2Val(env, e, t, f);
      ghost var v1, k1 := At(d, [], []), k;
      e', o := Val2RK(env, d);
      ghost var v2, stays1, stays2 := At(e', [], []), plain && !e.k.VUPVAL?, StaysPut(k1, d.k);
      ConstantsStay(k1, d.k, true);
      BecameTrans(env, k1, k, v0, v1, v2, n, Firm(e.k), stays1, Firm(d.k), stays2, plain && StaysPut(k0, e.k)) by {
        if Firm(e.k) && !plain { UnladenStayed(env, k1, v0, v1, n); }
      }
    }

    /** The switch of `luaK_exp2RK`: a constant is used as it is while the instruction can name it. */
    method Val2RK(ghost env: Env, d: ExpDesc) returns (e': ExpDesc, o: RK)
      requires Holds(d, [], []) && d.t == d.f == NO_JUMP
      modifies `code, `jpc, `J, `O, `k, `freereg
      ensures Became(env, old(At(d, [], [])), old(Level(d)), e', Firm(d.k), StaysPut(old(k), d.k))
      ensures k == OperandK(old(k), d.k, true) && (d.k.VNONRELOC? ==> State() == old(State()))
      ensures if o.Konst? then o.i <= MAXINDEXRK && e'.k == VK(o.i) else e'.k == VNONRELOC(o.r)
    {
      hide Step; hide Run; hide Leap; hide PatchedAt; hide Patched; hide Keeps; hide Yields; hide Carries;
      hide Unladen; hide Intact; hide Closed; hide IsList; hide NoDup;
      ghost var v1, n := At(d, [], []), Level(d);
      match d.k {
        case VKNUM(_) | VTRUE | VFALSE =>
          if |k| <= MAXINDEXRK {
            var c := AddK(match d.k case VKNUM(nval) => Num(nval) case VTRUE => Bool(true) case _ => Bool(false));
            e' := d.(k := VK(c));
            SameKeeps(env, k, v1, At(e', [], []), n, -1);
            KeepsYields(env, k, v1, At(e', [], []), n, -1);
            return e', Konst(c);
          }
        case VK(info) =>
          if info <= MAXINDEXRK {
            SameKeeps(env, k, v1, v1, n, -1);
            KeepsYields(env, k, v1, v1, n, -1);
            return d, Konst(info);
          }
        case _ =>
      }
      e' := Exp2AnyReg(env, d, [], []);
      o := Reg(e'.k.reg);
    }

    method Discharge2AnyReg(ghost env: Env, e: ExpDesc, ghost t: seq<nat>, ghost f: seq<nat>) returns (e': ExpDesc)
      requires Holds(e, t, f) && !e.k.VJMP?
      modifies `code, `jpc, `J, `k, `freereg
      ensures Holds(e', t, f) && Level(e') == old(Level(e)) && k == StoredK(old(k), e.k)
      ensures Carries(old(At(e, t, f)), At(e', t, f))
      ensures Keeps(env, k, old(At(e, t, f)), At(e', t, f), old(Level(e)), -1)
      ensures e'.k.VNONRELOC? && e'.t == e.t && e'.f == e.f
    {
      hide Step; hide Run; hide Leap; hide PatchedAt; hide Patched; hide Keeps; hide Carries;
      ghost var v0, n := At(e, t, f), Level(e);
      if e.k.VNONRELOC? {
        SameKeeps(env, k, v0, v0, n, -1);
        return e;
      }
      ReserveRegs(1);
      e' := Discharge2Reg(env, e, freereg - 1, t, f);
      KeepsWeaken(env, k, v0, At(e', t, f), freereg, freereg - 1, n);
    }

    method CondJump(test: Instr) returns (j: nat)
      requires Valid() && Closed(code) && IsTest(test)
      modifies `code, `jpc, `J, `O
      ensures Valid() && j == |old(code)| + 1 == |code| - 1
      ensures Emits(old(State()), State(), [test, Jmp(NO_JUMP)]) && O == old(O) + {j} && J == []
    {
      hide PatchedAt;
      var pc := Code(test);
      ghost var c := code;
      j := Jump();
      assert code == c + [Jmp(NO_JUMP)];
      assert [test] + [Jmp(NO_JUMP)] == [test, Jmp(NO_JUMP)];
    }

    /** The expression seen as `v1` has been tested: control falls through if its truth is `b`, else
        leaves through a jump on the other list or one of the list `p` at `pc`. */
    ghost predicate Forked(env: Env, v1: View, n: int, b: bool, lv: Leaving, silent: bool, pc: int, p: seq<nat>,
                           tl: int, t: seq<nat>, fl: int, f: seq<nat>)
      reads this
    {
      && Valid() && Closed(code) && freereg == n
      && IsList(code, tl, t) && IsList(code, fl, f) && IsList(code, pc, p) && NoDup(t) && NoDup(f) && NoDup(p)
      && Elems(t) !! Elems(f) && Elems(p) !! Elems(t) + Elems(f)
      && Elems(t) + Elems(f) + Elems(p) <= O
      && Tests(env, k, v1, Fork(State(), b, Elems(t), Elems(f), Elems(p)), b, lv, silent, n)
      && Carries(v1, Fork(State(), b, Elems(t), Elems(f), Elems(p)))
    }

    method InvertJump(pc: nat)
      requires 1 <= pc < |code| && code[pc].Jmp? && code[pc - 1].Cmp?
      modifies `code
      ensures code == old(code)[pc - 1 := Inverted(old(code)[pc - 1])]
    {
      var i := code[pc - 1];
      code := code[pc - 1 := Cmp(i.op, !i.cond, i.rb, i.rc)];
    }

    method JumpOnCond(ghost env: Env, e: ExpDesc, cond: bool, ghost t: seq<nat>, ghost f: seq<nat>) returns (j: nat)
      requires Holds(e, t, f) && !e.k.VJMP?
      modifies `code, `jpc, `J, `O, `k, `freereg
      ensures Forked(env, old(At(e, t, f)), old(Level(e)), !cond,
                     if e.k.VRELOCABLE? && old(code)[e.k.pc].Not? then Bare else Tested, false, j, [j], e.t, t, e.f, f)
      ensures k == StoredK(old(k), e.k)
    {
      hide Step; hide Run; hide Leap; hide PatchedAt; hide Patched; hide Keeps; hide Carries; hide Tests; hide Examines;
      ghost var v0, k0, n := At(e, t, f), k, Level(e);
      if e.k.VRELOCABLE? {
        if code[e.k.pc].Not? {
          var b := code[e.k.pc].b;
          code := code[..e.k.pc];
          var test := Test(b, !cond);
          forall k2, r | k <= k2 ensures Examines(env, k2, v0, test, |code|, cond, r) {
            ExaminesValue(env, k2, v0, e, t, f, cond, |code|, r);
          }
          j := TestJump(env, test, cond, e, t, f, v0);
          return;
        }
      }
      var d := Discharge2AnyReg(env, e, t, f);
      FreeExp(d);
      ghost var v1 := At(d, t, f);
      forall k2, r | k <= k2 ensures Examines(env, k2, v1, TestSet(NO_REG, d.k.reg, cond), |code|, cond, r) {
        ExaminesValue(env, k2, v1, d, t, f, cond, |code|, r);
      }
      j := TestJump(env, TestSet(NO_REG, d.k.reg, cond), cond, d, t, f, v1);
      KeepsTests(env, k, k, v0, v1, Fork(State(), !cond, v1.t, v1.f, Elems([j])), !cond, Tested, false, n);
    }

    method TestJump(ghost env: Env, test: Instr, ghost cond: bool, ghost e: ExpDesc, ghost t: seq<nat>,
                    ghost f: seq<nat>,
                    ghost v: View)
      returns (j: nat)
      requires Valid() && Fit(v.s, k, e, t, f) && v == View(v.s, e.k, Elems(t), Elems(f)) && State() == Base(v)
      requires Closed(code) && IsTest(test) && Intact(v.s.code, code, O)
      requires forall k2, r | k <= k2 :: Examines(env, k2, v, test, |code|, cond, r)
      modifies `code, `jpc, `J, `O
      ensures Forked(env, v, freereg, !cond, LeavesWith(test), false, j, [j], e.t, t, e.f, f)
    {
      hide Step; hide Run; hide Leap; hide PatchedAt; hide Patched; hide Keeps; hide Carries; hide Tests; hide Examines;
      hide IsList; hide Emits; hide Intact; hide NoDup;
      ghost var s := State();
      j := CondJump(test);
      BranchTests(env, k, v, State(), test, cond, freereg);
      BranchLists(v, k, e, t, f, s, State(), test);
      SingleList(t, f, j);
    }

    /** Control goes on with the truth value `b`; the other values have left by the list `l`. */
    ghost predicate Goes(env: Env, v1: View, n: int, b: bool, lv: Leaving, silent: bool, head: int, l: seq<nat>)
      reads this
    {
      && Valid() && Closed(code) && freereg == n && IsList(code, head, l) && NoDup(l) && Elems(l) <= O
      && Decides(env, k, v1, Passed(State(), b, Elems(l)), b, lv, silent, n)
      && Carries(v1, Passed(State(), b, Elems(l)))
    }

    ghost predicate ForkedTo(env: Env, v1: View, n: int, b: bool, lv: Leaving, silent: bool, pc: int, p: seq<nat>,
                             leave: int, l: seq<nat>, here: int, h: seq<nat>)
      reads this
    {
      if b then Forked(env, v1, n, b, lv, silent, pc, p, here, h, leave, l)
      else Forked(env, v1, n, b, lv, silent, pc, p, leave, l, here, h)
    }

    /** The last jump, with those that it took along, joins the list of those leaving. */
    method Join(ghost env: Env, ghost b: bool, ghost lv: Leaving, ghost silent: bool, pc: int, ghost p: seq<nat>,
                leave: int, ghost l: seq<nat>, ghost here: int, ghost h: seq<nat>, ghost v0: View, ghost n: int)
      returns (head: int, ghost l': seq<nat>)
      requires ForkedTo(env, v0, n, b, lv, silent, pc, p, leave, l, here, h)
      modifies `code
      ensures ForkedTo(env, v0, n, b, lv, silent, NO_JUMP, [], head, l', here, h) && l' == l + p
    {
      hide Step; hide Run; hide Leap; hide PatchedAt; hide Patched; hide Tests; hide Carries; hide Control; hide Rest;
      hide IsTest; hide Fork; hide Closed; hide NoDup; hide Keeps; hide Fit; hide Base; hide IsList; hide Relinked;
      ghost var s := State();
      ghost var x, y := if b then Elems(h) else Elems(l), if b then Elems(l) else Elems(h);
      head := Concat(leave, pc, l, p);
      l' := l + p;
      NoDupAppend(l, p);
      JoinTests(env, k, v0, s, State(), b, lv, silent, x, y, Elems(p), Elems(l), n);
      ListRelinked(s.code, code, Elems(l), here, h);
      ListRelinked(s.code, code, Elems(l), jpc, J);
      EmptyList(code);
      if b {
        assert Forked(env, v0, n, b, lv, silent, NO_JUMP, [], here, h, head, l');
      } else {
        assert Forked(env, v0, n, b, lv, silent, NO_JUMP, [], head, l', here, h);
      }
    }

    /** The jumps agreeing with `b` are patched to here. */
    method PatchAgreeing(ghost env: Env, ghost b: bool, ghost lv: Leaving, ghost silent: bool, ghost leave: int,
                         ghost l: seq<nat>, here: int, ghost h: seq<nat>, ghost v0: View, ghost n: int)
      requires ForkedTo(env, v0, n, b, lv, silent, NO_JUMP, [], leave, l, here, h)
      modifies `code, `jpc, `J, `O
      ensures Goes(env, v0, n, b, lv, silent, leave, l) && J == old(J) + h
    {
      hide Step; hide Run; hide Leap; hide PatchedAt; hide Patched; hide Tests; hide Decides; hide Carries;
      hide Control;
      hide Rest; hide IsTest; hide IsList; hide NoDup; hide Closed; hide Relinked; hide Lands;
      ghost var v1 := if b then View(State(), VTRUE, Elems(h), Elems(l)) else View(State(), VFALSE, Elems(l), Elems(h));
      ghost var c, held := code, Elems(J);
      assert v1 == Fork(State(), b, v1.t, v1.f, Elems([]));
      PatchToHere(here, h);
      ghost var v2 := Passed(State(), b, Elems(l));
      HoldLands(env, k, v1, State(), b);
      TestsLands(env, k, k, v0, v1, v2, b, lv, silent, n);
      ListRelinked(c, code, held, leave, l);
      JoinClosed(c, code, held);
    }

    /** The first half of `luaK_goiftrue` and `luaK_goiffalse`: test the value, falling through on `b`. */
    method Decide(ghost env: Env, e: ExpDesc, b: bool, ghost c: Class, ghost t: seq<nat>, ghost f: seq<nat>)
      returns (d: ExpDesc, pc: int, ghost p: seq<nat>)
      requires Holds(e, t, f) && IsOf(e.k, c, code, k, nactvar)
      modifies `code, `jpc, `J, `O, `k, `freereg
      ensures Forked(env, old(At(e, t, f)), old(Level(e)), b, LeavingOf(b, c), Silent(b, c), pc, p, d.t, t, d.f, f)
      ensures k == Examined(b, c, old(k)) && (p == [] <==> Silent(b, c))
    {
      hide Step; hide Run; hide Leap; hide PatchedAt; hide Patched; hide Tests; hide Carries; hide Keeps; hide Examines;
      hide IsList; hide NoDup; hide Intact; hide Closed;
      ghost var v0, k0, n := At(e, t, f), k, Level(e);
      d := DischargeVars(env, e, t, f);
      ghost var v1 := At(d, t, f);
      KeepsWeaken(env, k, v0, v1, freereg, -1, n);
      if d.k.VJMP? {
        pc, p := d.k.pc, [d.k.pc];
        PlaceTest(env, d, b, t, f);
        assert LeavingOf(b, c) == Bare && !Silent(b, c);
      } else if if b then d.k.VK? || d.k.VKNUM? || d.k.VTRUE? else d.k.VFALSE? {
        pc, p := NO_JUMP, [];
        Pass(env, d, b, c, t, f);
      } else if if b then d.k.VFALSE? else d.k.VTRUE? {
        pc, p := Always(env, d, b, t, f);
        assert LeavingOf(b, c) == Along && !Silent(b, c);
      } else {
        ghost var code1 := code;
        pc := JumpOnCond(env, d, !b, t, f);
        p := [pc];
        assert LeavingOf(b, c) == (if d.k.VRELOCABLE? && code1[d.k.pc].Not? then Bare else Tested);
        assert !Silent(b, c);
      }
      KeepsTests(env, k0, k, v0, v1, Fork(State(), b, v1.t, v1.f, Elems(p)), b, LeavingOf(b, c), Silent(b, c), n);
    }

    /** A literal passes without code. */
    lemma Pass(env: Env, e: ExpDesc, b: bool, c: Class, t: seq<nat>, f: seq<nat>)
      requires Holds(e, t, f) && IsOf(e.k, c, code, k, nactvar) && Silent(b, c)
      ensures Forked(env, At(e, t, f), freereg, b, LeavingOf(b, c), true, NO_JUMP, [], e.t, t, e.f, f)
    {
      hide Step; hide Run; hide Leap; hide PatchedAt; hide Patched; hide Tests; hide Carries; hide Keeps;
      ghost var v := At(e, t, f);
      ConstTests(env, k, v, b, LeavingOf(b, c), freereg);
      assert Fork(State(), b, v.t, v.f, Elems([])) == View(v.s, if b then VTRUE else VFALSE, v.t, v.f);
      EmptyList(code);
    }

    method PlaceTest(ghost env: Env, e: ExpDesc, b: bool, ghost t: seq<nat>, ghost f: seq<nat>)
      requires Holds(e, t, f) && e.k.VJMP?
      modifies `code
      ensures Forked(env, old(At(e, t, f)), freereg, b, Bare, false, e.k.pc, [e.k.pc], e.t, t, e.f, f)
    {
      hide Fit;
      ghost var v := At(e, t, f);
      assert 1 <= e.k.pc < |code| && code[e.k.pc].Jmp? && code[e.k.pc - 1].Cmp?
        && J == [] by { ShowFit(v.s, k, e, t, f); }
      if b {
        InvertJump(e.k.pc);
      }
      TestPlaced(env, v, e, b, t, f);
    }

    lemma TestPlaced(env: Env, v: View, e: ExpDesc, b: bool, t: seq<nat>, f: seq<nat>)
      requires Fit(v.s, k, e, t, f) && e.k.VJMP? && v == View(v.s, e.k, Elems(t), Elems(f)) && Jumps(v.s.code, v.s.open)
      requires 1 <= e.k.pc < |v.s.code| && State() == Snap(code, v.s.held, v.s.open) && J == [] && jpc == NO_JUMP
      requires code == if b then v.s.code[e.k.pc - 1 := Inverted(v.s.code[e.k.pc - 1])] else v.s.code
      requires nactvar <= freereg
      ensures Forked(env, v, freereg, b, Bare, false, e.k.pc, [e.k.pc], e.t, t, e.f, f)
    {
      hide Step; hide Run; hide Leap; hide PatchedAt; hide Patched; hide Tests; hide Carries; hide Keeps; hide Examines;
      hide IsList; hide NoDup; hide Intact; hide Emits; hide Closed; hide Base;
      var pc, test := e.k.pc, code[e.k.pc - 1];
      PlaceEmits(v, k, e, t, f, test);
      FitOpen(v, k, e, t, f);
      var at, cond := pc - 1, !b;
      forall k2, r | k <= k2 ensures Examines(env, k2, v, test, at, cond, r) {
        ExaminesValue(env, k2, v, e, t, f, cond, at, r);
      }
      assert code == v.s.code[pc - 1 := test];
      hide Fit;
      BranchTests(env, k, v, State(), test, !b, freereg);
      BranchLists(v, k, e, t, f, Base(v), State(), test);
      SingleList(t, f, pc);
      EmptyList(code);
      assert Jumps(code, O);
    }

    /** The literal decides the test: `luaK_jump`, which takes the jumps on hold along. */
    method Always(ghost env: Env, e: ExpDesc, ghost b: bool, ghost t: seq<nat>, ghost f: seq<nat>)
      returns (pc: int, ghost p: seq<nat>)
      requires Holds(e, t, f) && e.k == if b then VFALSE else VTRUE
      modifies `code, `jpc, `J, `O
      ensures Forked(env, old(At(e, t, f)), freereg, b, Along, false, pc, p, e.t, t, e.f, f)
      ensures p == [|old(code)|] + old(J)
    {
      hide Step; hide Run; hide Leap; hide PatchedAt; hide Patched; hide Tests; hide Carries; hide Keeps; hide IsList;
      ghost var v := At(e, t, f);
      ListMembersOf(code, jpc, J);
      p := [|code|] + J;
      NoDupAppend([|code|], J);
      FitLists(k, e, t, f);
      pc := Jump();
      assert Elems(p) == v.s.held + {|v.s.code|};
      AlongTests(env, k, v, State(), !b, freereg);
      ListIntact(v.s.code, code, v.s.open, e.t, t);
      ListIntact(v.s.code, code, v.s.open, e.f, f);
    }

    /** `luaK_goiftrue`: go on only if the value is true; the jumps taken otherwise are listed at `f`. */
    method GoIfTrue(ghost env: Env, e: ExpDesc, ghost c: Class, ghost t: seq<nat>, ghost f: seq<nat>)
      returns (e': ExpDesc, ghost l: seq<nat>)
      requires Holds(e, t, f) && IsOf(e.k, c, code, k, nactvar)
      modifies `code, `jpc, `J, `O, `k, `freereg
      ensures Goes(env, old(At(e, t, f)), old(Level(e)), true, LeavingOf(true, c), Silent(true, c), e'.f, l)
      ensures k == Examined(true, c, old(k)) && e'.t == NO_JUMP && (l == [] <==> f == [] && Silent(true, c))
    {
      hide Forked; hide Goes; hide Holds; hide Valid; hide IsOf;
      ghost var v0, n := At(e, t, f), Level(e);
      var d, pc;
      ghost var p;
      d, pc, p := Decide(env, e, true, c, t, f);
      assert ForkedTo(env, v0, n, true, LeavingOf(true, c), Silent(true, c), pc, p, d.f, f, d.t, t);
      var head;
      head, l := Join(env, true, LeavingOf(true, c), Silent(true, c), pc, p, d.f, f, d.t, t, v0, n);
      PatchAgreeing(env, true, LeavingOf(true, c), Silent(true, c), head, l, d.t, t, v0, n);
      e' := ExpDesc(d.k, NO_JUMP, head);
    }

    /** `luaK_goiffalse` */
    method GoIfFalse(ghost env: Env, e: ExpDesc, ghost c: Class, ghost t: seq<nat>, ghost f: seq<nat>)
      returns (e': ExpDesc, ghost l: seq<nat>)
      requires Holds(e, t, f) && IsOf(e.k, c, code, k, nactvar)
      modifies `code, `jpc, `J, `O, `k, `freereg
      ensures Goes(env, old(At(e, t, f)), old(Level(e)), false, LeavingOf(false, c), Silent(false, c), e'.t, l)
      ensures k == Examined(false, c, old(k)) && e'.f == NO_JUMP && (l == [] <==> t == [] && Silent(false, c))
    {
      hide Forked; hide Goes; hide Holds; hide Valid; hide IsOf;
      ghost var v0, n := At(e, t, f), Level(e);
      var d, pc;
      ghost var p;
      d, pc, p := Decide(env, e, false, c, t, f);
      assert ForkedTo(env, v0, n, false, LeavingOf(false, c), Silent(false, c), pc, p, d.t, t, d.f, f);
      var head;
      head, l := Join(env, false, LeavingOf(false, c), Silent(false, c), pc, p, d.t, t, d.f, f, v0, n);
      PatchAgreeing(env, false, LeavingOf(false, c), Silent(false, c), head, l, d.f, f, v0, n);
      e' := ExpDesc(d.k, head, NO_JUMP);
    }

    /** The switch of `codenot`: negates the value at hand. */
    method NegateReady(ghost env: Env, e: ExpDesc, ghost c: Class, ghost t: seq<nat>, ghost f: seq<nat>)
      returns (e': ExpDesc, ghost v1: View)
      requires Holds(e, t, f) && IsOf(e.k, c, code, k, nactvar)
      modifies `code, `jpc, `J, `k, `freereg
      ensures Holds(e', t, f) && Level(e') == old(Level(e)) && k == old(k)
      ensures Keeps(env, k, old(At(e, t, f)), v1, old(Level(e)), -1) && Carries(old(At(e, t, f)), v1)
      ensures NegatesReady(env, k, v1, At(e', t, f)) && v1.t == Elems(t) && v1.f == Elems(f)
      ensures e'.t == e.t && e'.f == e.f && IsOf(e'.k, NegatedClass(c), code, k, nactvar)
      ensures J == if c.CLit? then old(J) else []
    {
      hide Step; hide Run; hide Leap; hide PatchedAt; hide Patched; hide Carries; hide Keeps; hide NegatesReady;
      hide IsList; hide NoDup; hide Intact; hide Closed; hide Fit;
      ghost var n := Level(e);
      var d := DischargeVars(env, e, t, f);
      v1 := At(d, t, f);
      KeepsWeaken(env, k, old(At(e, t, f)), v1, freereg, -1, n);
      if d.k.VFALSE? || d.k.VK? || d.k.VKNUM? || d.k.VTRUE? {
        e' := d.(k := if d.k.VFALSE? then VTRUE else VFALSE);
        NegateLiteral(env, d, e', t, f);
      } else if d.k.VJMP? {
        e' := d;
        InvertTest(d, t, f);
        NegateTest(env, v1, d, t, f);
      } else {
        ghost var k0, v0 := k, v1;
        e', v1 := EmitNot(env, d, t, f);
        KeepsTrans(env, k0, k, old(At(e, t, f)), v0, v1, n, -1, n, -1, n, -1);
      }
    }

    lemma NegateLiteral(env: Env, d: ExpDesc, e: ExpDesc, t: seq<nat>, f: seq<nat>)
      requires Holds(d, t, f) && e == d.(k := if d.k.VFALSE? then VTRUE else VFALSE)
      requires d.k.VFALSE? || d.k.VTRUE? || d.k.VKNUM? || (d.k.VK? && Truthy(k[d.k.info]))
      ensures NegatesReady(env, k, At(d, t, f), At(e, t, f)) && Holds(e, t, f)
    {
      hide Step; hide Run; hide Leap; hide NegatesReady; hide Intact; hide IsList; hide NoDup;
      ReadyNegated(env, k, At(d, t, f), At(e, t, f));
    }

    lemma NegateTest(env: Env, v: View, d: ExpDesc, t: seq<nat>, f: seq<nat>)
      requires Fit(v.s, k, d, t, f) && d.k.VJMP? && v == View(v.s, d.k, Elems(t), Elems(f)) && Jumps(v.s.code, v.s.open)
      requires State() == Snap(v.s.code[d.k.pc - 1 := Inverted(v.s.code[d.k.pc - 1])], {}, v.s.open)
      ensures NegatesReady(env, k, v, At(d, t, f))
    {
      hide Step; hide Run; hide Leap; hide NegatesReady; hide Intact; hide IsList; hide NoDup;
      ReadyNegated(env, k, v, At(d, t, f));
    }

    method EmitNot(ghost env: Env, e: ExpDesc, ghost t: seq<nat>, ghost f: seq<nat>) returns (e': ExpDesc,
                                                                                              ghost v1: View)
      requires Holds(e, t, f) && !e.k.VJMP?
      modifies `code, `jpc, `J, `k, `freereg
      ensures Holds(e', t, f) && Level(e') == old(Level(e)) && k == StoredK(old(k), e.k)
      ensures Keeps(env, k, old(At(e, t, f)), v1, old(Level(e)), -1) && Carries(old(At(e, t, f)), v1)
      ensures NegatesReady(env, k, v1, At(e', t, f)) && v1.t == Elems(t) && v1.f == Elems(f)
      ensures e'.t == e.t && e'.f == e.f && J == [] && e'.k.VRELOCABLE?
      ensures e'.k.pc < |code| && code[e'.k.pc].Not?
    {
      hide Step; hide Run; hide Leap; hide PatchedAt; hide Patched; hide Carries; hide Keeps; hide NegatesReady;
      hide Level;
      hide Emits; hide IsList; hide NoDup; hide Fit; hide Intact;
      var d := Discharge2AnyReg(env, e, t, f);
      v1 := At(d, t, f);
      FreeExp(d);
      var pc := Code(Not(0, d.k.reg));
      e' := d.(k := VRELOCABLE(pc));
      DelayFits(k, v1.s, State(), d, e', Not(0, d.k.reg), t, f);
      ReadyNegated(env, k, v1, At(e', t, f));
      assert Level(e') == freereg by { LevelRelocatable(e'); }
    }

    lemma LevelRelocatable(e: ExpDesc)
      requires !e.k.VNONRELOC?
      ensures Level(e) == freereg
    {
    }

    method InvertTest(e: ExpDesc, ghost t: seq<nat>, ghost f: seq<nat>)
      requires Holds(e, t, f) && e.k.VJMP?
      modifies `code
      ensures J == old(J) && O == old(O)
      ensures Holds(e, t, f) && code == old(code)[e.k.pc - 1 := Inverted(old(code)[e.k.pc - 1])]
    {
      ghost var s, pc := State(), e.k.pc;
      InvertJump(e.k.pc);
      assert Relinked(s.code[..pc - 1], code[..pc - 1], {});
      ListMembers(s.code, e.t, t);
      ListMembers(s.code, e.f, f);
      ListFrame(s.code, code, e.t, t);
      ListFrame(s.code, code, e.f, f);
      assert Base(View(State(), e.k, {}, {})).open == Base(View(s, e.k, {}, {})).open;
    }

    /** `codenot`: the lists change places. */
    method CodeNot(ghost env: Env, e: ExpDesc, ghost c: Class, ghost t: seq<nat>,
                   ghost f: seq<nat>) returns (e': ExpDesc)
      requires Holds(e, t, f) && IsOf(e.k, c, code, k, nactvar)
      modifies `code, `jpc, `J, `k, `freereg
      ensures Holds(e', f, t) && Level(e') == old(Level(e)) && k == old(k)
      ensures Negates(env, k, old(At(e, t, f)), At(e', f, t), old(Level(e)))
      ensures Carries(old(At(e, t, f)), At(e', f, t))
      ensures IsOf(e'.k, NegatedClass(c), code, k, nactvar) && J == if c.CLit? then old(J) else []
    {
      hide Step; hide Run; hide Leap; hide PatchedAt; hide Patched; hide Carries; hide Keeps; hide NegatesReady;
      hide Negates;
      hide Intact; hide IsList; hide NoDup; hide Closed; hide IsOf; hide Strips; hide Fit; hide Base;
      ghost var v0, n := At(e, t, f), Level(e);
      ghost var v1;
      var d;
      d, v1 := NegateReady(env, e, c, t, f);
      ghost var s2, b := State(), code;
      e' := ExpDesc(d.k, d.f, d.t);
      FitLists(k, d, t, f);
      RemoveValues(e'.f, t);
      ghost var b' := code;
      StripLists(b, code, Elems(t), e'.t, f);
      RemoveValues(e'.t, f);
      StripsTrans(b, b', code, Elems(t), Elems(f));
      ListMembersOf(b, jpc, J);
      ghost var v2, v3 := View(s2, d.k, Elems(t), Elems(f)), At(e', f, t);
      FitOpen(v2, k, d, t, f);
      StripNegates(env, k, v1, v2, code, n);
      StripFits(s2, State(), k, d, t, f);
      StripLists(b, code, Elems(t) + Elems(f), jpc, J);
      StripKind(b, code, Elems(t) + Elems(f), d.k, NegatedClass(c));
      KeepsNegates(env, k, k, v0, v1, v3, n);
    }

    lemma StripKind(b: seq<Instr>, b': seq<Instr>, l: set<nat>, kind: Kind, c: Class)
      requires Strips(b, b', l) && IsOf(kind, c, b, k, nactvar)
      ensures IsOf(kind, c, b', k, nactvar)
    {
    }

    /** `codecomp`: the first operand is in place already, so `luaK_exp2RK` has nothing to do for it. */
    method CodeComp(ghost env: Env, op: CmpOp, cond: bool, e1: ExpDesc, e2: ExpDesc, ghost t: seq<nat>,
                    ghost f: seq<nat>)
      returns (e': ExpDesc)
      requires Holds(e2, t, f) && IsOperand(e1)
      requires e1.k.VNONRELOC? ==> e1.k.reg < Level(e2) && (e1.k.reg >= nactvar ==> e1.k.reg + 1 == Level(e2))
      modifies `code, `jpc, `J, `O, `k, `freereg
      ensures Holds(e', [], []) && e'.k.VJMP? && k == OperandK(old(k), e2.k, t == [] && f == [])
      ensures freereg == if e1.k.VNONRELOC? && e1.k.reg >= nactvar then old(Level(e2)) - 1 else old(Level(e2))
      ensures Carries(old(At(e2, t, f)), At(e', [], []))
      ensures Compares(env, k, old(At(e2, t, f)), At(e', [], []), OperandOf(e1), op, cond, freereg)
    {
      hide Step; hide Run; hide Leap; hide PatchedAt; hide Patched; hide Carries; hide Keeps; hide Yields;
      hide Compares;
      hide Fit; hide Emits; hide NoDup; hide Intact; hide Unladen; hide OperandK;
      ghost var v0, m := At(e2, t, f), Level(e2);
      var d, right := Exp2RK(env, e2, t, f);
      ghost var v1 := At(d, [], []);
      var left := OperandOf(e1);
      FreeExp(d);
      FreeExp(e1);
      var test;
      if !cond && op != EQ {
        test := Cmp(op, true, right, left);
      } else {
        test := Cmp(op, cond, left, right);
      }
      var j := CondJump(test);
      e' := ExpDesc(VJMP(j), NO_JUMP, NO_JUMP);
      OperandFits(k, v1.s, d);
      CompareCompares(env, k, v1, At(e', [], []), left, right, op, cond, test, freereg);
      YieldsCompares(env, k, k, v0, v1, At(e', [], []), left, op, cond, m, freereg);
    }

    /** `luaK_infix` for `and` (`b` true) and `or`. */
    method InfixLogic(ghost env: Env, b: bool, e: ExpDesc, ghost c: Class, ghost t: seq<nat>, ghost f: seq<nat>)
      returns (first: int, ghost leave: seq<nat>)
      requires Holds(e, t, f) && IsOf(e.k, c, code, k, nactvar)
      modifies `code, `jpc, `J, `O, `k, `freereg
      ensures Goes(env, old(At(e, t, f)), old(Level(e)), b, LeavingOf(b, c), Silent(b, c), first, leave)
      ensures k == Examined(b, c, old(k)) && (leave == [] <==> (if b then f else t) == [] && Silent(b, c))
    {
      hide Goes; hide Holds;
      if b {
        var e1;
        e1, leave := GoIfTrue(env, e, c, t, f);
        first := e1.f;
      } else {
        var e1;
        e1, leave := GoIfFalse(env, e, c, t, f);
        first := e1.t;
      }
    }

    /** `luaK_posfix` for `and` (`b` true) and `or`: the jumps of the first operand join those of the
        second. */
    method PosfixLogic(ghost env: Env, b: bool, first: int, ghost l: seq<nat>, e2: ExpDesc, ghost c: Class,
                       ghost t: seq<nat>, ghost f: seq<nat>)
      returns (e: ExpDesc, ghost t': seq<nat>, ghost f': seq<nat>)
      requires Holds(e2, t, f) && IsList(code, first, l) && NoDup(l) && Elems(l) <= Rest(At(e2, t, f))
      requires IsOf(e2.k, c, code, k, nactvar)
      modifies `code, `jpc, `J
      ensures Holds(e, t', f') && Level(e) == old(Level(e2)) && IsOf(e.k, Discharged(c), code, k, nactvar)
      ensures t' == (if b then t else t + l) && f' == if b then f + l else f
      ensures var v3 := View(State(), e.k, Elems(t), Elems(f));
        && Keeps(env, k, old(At(e2, t, f)), v3, old(Level(e2)), -1) && Carries(old(At(e2, t, f)), v3)
        && Joined(v3, b, Elems(l)) == At(e, t', f') && Elems(l) !! v3.t + v3.f
      ensures J == if c == CUpval then [] else old(J)
    {
      hide Step; hide Run; hide Leap; hide PatchedAt; hide Patched; hide Keeps; hide Fit; hide NoDup; hide Intact;
      hide Base; hide Carries; hide IsList; hide Closed; hide IsOf; hide Rest; hide Joined; hide M; hide Delay;
      ghost var v0, n := At(e2, t, f), Level(e2);
      var d := DischargeVars(env, e2, t, f);
      ghost var v1 := At(d, t, f);
      KeepsWeaken(env, k, v0, v1, freereg, -1, n);
      FitParts(v0, v1, k, d, t, f, first, l);
      ghost var code1 := code;
      DischargedIs(e2, d, c, v0.s.code);
      e, t', f' := AppendList(env, b, first, l, d, t, f);
      KindKept(e.k, Discharged(c), code1, code, k, nactvar);
      KeepsTrans(env, k, k, v0, v1, View(State(), e.k, Elems(t), Elems(f)), n, -1, n, -1, n, -1);
    }

    lemma DischargedIs(e: ExpDesc, d: ExpDesc, c: Class, code0: seq<Instr>)
      requires IsOf(e.k, c, code0, k, nactvar) && (e.k.VLOCAL? ==> e.k.reg < nactvar)
      requires d.k == if e.k.VLOCAL? then VNONRELOC(e.k.reg) else if e.k.VUPVAL? then VRELOCABLE(|code0|) else e.k
      requires if e.k.VUPVAL? then |code| == |code0| + 1 && code[|code0|].GetUpval? else code == code0
      ensures IsOf(d.k, Discharged(c), code, k, nactvar) && (e.k.VUPVAL? <==> c == CUpval)
    {
    }

    method AppendList(ghost env: Env, b: bool, first: int, ghost l: seq<nat>, d: ExpDesc, ghost t: seq<nat>,
                      ghost f: seq<nat>)
      returns (e: ExpDesc, ghost t': seq<nat>, ghost f': seq<nat>)
      requires Holds(d, t, f) && IsList(code, first, l) && NoDup(l) && Elems(l) <= Base(At(d, t, f)).open
      requires Elems(l) !! Elems(t) + Elems(f)
      modifies `code
      ensures Holds(e, t', f') && e.k == d.k
      ensures |code| == |old(code)| && forall i: nat | i < |code| && !old(code)[i].Jmp? :: code[i] == old(code)[i]
      ensures t' == (if b then t else t + l) && f' == if b then f + l else f
      ensures var v3 := View(State(), e.k, Elems(t), Elems(f));
        && Keeps(env, k, old(At(d, t, f)), v3, old(Level(d)), -1) && Carries(old(At(d, t, f)), v3)
        && Joined(v3, b, Elems(l)) == At(e, t', f') && Elems(l) !! v3.t + v3.f
    {
      hide Step; hide Run; hide Leap; hide PatchedAt; hide Patched; hide Keeps; hide Fit; hide NoDup;
      hide Relinked; hide Intact;
      hide Rest; hide Carries; hide IsList; hide Closed; hide Joined; hide Delay;
      ghost var v1, x := At(d, t, f), if b then f else t;
      FitParts(v1, v1, k, d, t, f, NO_JUMP, []) by {
        assert Carries(v1, v1) by { CarriesSame(v1, k, d, t, f); }
        assert IsList(code, NO_JUMP, []) by { EmptyList(code); }
      }
      var h := Concat(if b then d.f else d.t, first, x, l);
      t', f' := if b then t else t + l, if b then f + l else f;
      e := if b then ExpDesc(d.k, d.t, h) else ExpDesc(d.k, h, d.f);
      JoinFits(k, v1.s, State(), d, e, t, f, l, b);
      RelinkKeeps(env, k, v1, View(State(), e.k, Elems(t), Elems(f)), Elems(x), Level(d), -1);
      ListRelinked(v1.s.code, code, Elems(x), jpc, J);
      JoinedView(State(), e.k, t, f, l, b, t', f');
      assert Valid() by { assert Jumps(code, O); }
    }

  }
}
