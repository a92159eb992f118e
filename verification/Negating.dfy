/**
  Negating an expression: its value at hand, and its two lists of jumps, which change places and give up
  the values they carry.
 */
module Negating {
  import opened Basics
  import opened Bytecode
  import opened JumpLists
  import opened Views
  import opened Delivering
  import opened Testing

  /** The negated way; if no code was needed, jumps on hold are so still. */
  function NotWay(w: Way, silent: bool): Way {
    match w
    case Here(v, c) => Here(Bool(!Truthy(v)), if silent then c else None)
    case Via(b, _) => Via(!b, None)
  }

  /** The negated outcome. */
  ghost predicate Negated(o1: Outcome, o2: Outcome, n: int, silent: bool) {
    match o1
    case Came(w, r) => o2.Came? && o2.w == NotWay(w, silent) && Agree(r, o2.r, n, -1)
    case Elsewhere(j, r) => o2 == o1
    case Error => o2 == o1
    case Broken => true
  }

  ghost predicate Negates(env: Env, k: seq<Value>, v1: View, v2: View, n: int) {
    && (v2.s.held == {} || v2.s.held == v1.s.held)
    && forall k2, p: nat, r {:trigger M(env, k2, v2, p, r)} | k <= k2 && p <= |Base(v1).code| ::
         Negated(M(env, k2, v1, p, r), M(env, k2, v2, p, r), n, v2.s.held == v1.s.held)
  }

  lemma KeepsNegates(env: Env, k1: seq<Value>, k2: seq<Value>, v1: View, v2: View, v3: View, n: int)
    requires Keeps(env, k1, v1, v2, n, -1) && Negates(env, k2, v2, v3, n) && k1 <= k2
    requires Carries(v1, v2) && Carries(v2, v3)
    ensures Negates(env, k2, v1, v3, n) && Carries(v1, v3)
  {
    hide M;
    CarriesTrans(v1, v2, v3);
    hide Base;
    hide Intact;
    forall k3, p: nat, r | k2 <= k3 && p <= |Base(v1).code|
      ensures Negated(M(env, k3, v1, p, r), M(env, k3, v3, p, r), n, v3.s.held == v1.s.held)
    {
      var o1, o2, o3 := M(env, k3, v1, p, r), M(env, k3, v2, p, r), M(env, k3, v3, p, r);
      assert Alike(o1, o2, n, -1, v2.s.held == v1.s.held) && Negated(o2, o3, n, v3.s.held == v2.s.held);
    }
  }

  /** The value at hand has been negated; the values in the jumps have not. */
  ghost predicate NegatesReady(env: Env, k: seq<Value>, v1: View, v2: View) {
    && v2.t == v1.t && v2.f == v1.f && Carries(v1, v2) && Intact(v1.s.code, v2.s.code, v1.t + v1.f)
    && (v2.s.held == {} || (v2.s.held == v1.s.held && v2.s.code == v1.s.code))
    && forall k2, p: nat, r {:trigger Run(env, k2, Base(v2), p, r)} | k <= k2 && p <= |Base(v1).code| ::
         var x, y := Run(env, k2, Base(v1), p, r), Run(env, k2, Base(v2), p, r);
         x.Stuck? || (y == (if v2.s.held == v1.s.held then x else NoVia(x)) && (x.Fall? ==>
           var a, b := Ready(env, k2, v1.s.code, v1.k, x.r), Ready(env, k2, v2.s.code, v2.k, x.r);
           b == if a.None? then None else Some(Bool(!Truthy(a.value)))))
  }

  /** What a list turns into when nobody wants its values. */
  function StrippedAt(code: seq<Instr>, l: set<nat>, i: nat): Instr
    requires i < |code|
  {
    if i + 1 in l && code[i].TestSet? then Test(code[i].b, code[i].c) else code[i]
  }

  ghost predicate Strips(code1: seq<Instr>, code2: seq<Instr>, l: set<nat>) {
    |code2| == |code1| && forall i | 0 <= i < |code1| :: code2[i] == StrippedAt(code1, l, i)
  }

  lemma StripControl(code1: seq<Instr>, code2: seq<Instr>, l: set<nat>, j: nat)
    requires Strips(code1, code2, l) && j < |code1| && code1[j].Jmp?
    ensures code2[j] == code1[j]
    ensures j in l ==> !Control(code2, j).TestSet?
    ensures j !in l ==> Control(code2, j) == Control(code1, j)
  {
    assert code2[j] == StrippedAt(code1, l, j);
    if j >= 1 { assert code2[j - 1] == StrippedAt(code1, l, j - 1); }
  }

  /** Swapping the lists and giving up the values in the jumps completes the negation. */
  lemma StripNegates(env: Env, k: seq<Value>, v1: View, v2: View, code3: seq<Instr>, n: int)
    requires NegatesReady(env, k, v1, v2) && Strips(v2.s.code, code3, v1.t + v1.f) && v2.t == v1.t && v2.f == v1.f
    requires v2.t + v2.f <= Base(v2).open && v2.t !! v2.f && Jumps(v2.s.code, v2.s.open)
    requires Delay(v2.k) <= |v2.s.code| && Jumps(v2.s.code, v2.s.held) && v2.s.held !! v2.s.open
    ensures var v3 := View(Snap(code3, v2.s.held, v2.s.open), v2.k, v2.f, v2.t);
      Negates(env, k, v1, v3, n) && Carries(v1, v3)
  {
    hide Step; hide Run; hide Leap; hide NegatesReady;
    var v3 := View(Snap(code3, v2.s.held, v2.s.open), v2.k, v2.f, v2.t);
    var l := v1.t + v1.f;
    StripBase(v1, v2, v3, l, env, k);
    forall k2, p: nat, r | k <= k2 && p <= |Base(v1).code|
      ensures Negated(M(env, k2, v1, p, r), M(env, k2, v3, p, r), n, v3.s.held == v1.s.held)
    {
      RunInert(env, k2, Base(v2), Base(v3), l, p, r);
      StripAt(env, k, v1, v2, v3, l, n, k2, p, r);
    }
  }

  /** The three ways in which `codenot` negates the value at hand. */
  lemma ReadyNegated(env: Env, k: seq<Value>, v1: View, v2: View)
    requires v2.t == v1.t && v2.f == v1.f && Jumps(v1.s.code, v1.s.open)
    requires v1.t + v1.f <= Base(v1).open
    requires
      || (Delay(v1.k) == 0 && v2.s == v1.s && ((v1.k == VFALSE && v2.k == VTRUE)
          || (v2.k == VFALSE && (v1.k.VTRUE? || v1.k.VKNUM? || (v1.k.VK? && v1.k.info < |k| && Truthy(k[v1.k.info]))))))
      || (v1.k.VJMP? && v2.k == v1.k && v1.k.pc + 1 == |v1.s.code| && v1.k.pc >= 1 && v1.s.code[v1.k.pc - 1].Cmp?
          && v1.s.held == {} && !v1.s.code[v1.k.pc - 1].Jmp?
          && v2.s == Snap(v1.s.code[v1.k.pc - 1 := Inverted(v1.s.code[v1.k.pc - 1])], {}, v1.s.open))
      || (v1.k.VNONRELOC? && v2.k == VRELOCABLE(|v1.s.code|) && Emits(v1.s, v2.s, [Not(0, v1.k.reg)])
          && v2.s.open == v1.s.open)
    ensures NegatesReady(env, k, v1, v2)
  {
    hide Step; hide Run; hide Leap; hide PatchedAt;
    if v1.k.VNONRELOC? {
      EmitIntact(v1.s, v2.s, [Not(0, v1.k.reg)]);
      assert Base(v2) == Snap(v2.s.code[..|v1.s.code|], {}, v1.s.open) by {
        assert Base(v2).open == v1.s.open;
      }
      forall k2, p: nat, r | k <= k2 && p <= |v1.s.code| && !Run(env, k2, v1.s, p, r).Stuck?
        ensures Run(env, k2, Base(v2), p, r) == if v2.s.held == v1.s.held then Run(env, k2, v1.s, p, r)
          else NoVia(Run(env, k2, v1.s, p, r))
      {
        RunHolds(env, k2, v1.s, p, r);
        EmitRuns(env, k2, v1.s, v2.s, [Not(0, v1.k.reg)], p, r);
      }
    } else if v1.k.VJMP? {
      assert Base(v2) == Base(v1);
    }
  }

  lemma StripsTrans(code1: seq<Instr>, code2: seq<Instr>, code3: seq<Instr>, l1: set<nat>, l2: set<nat>)
    requires Strips(code1, code2, l1) && Strips(code2, code3, l2)
    ensures Strips(code1, code3, l1 + l2)
  {
    forall i | 0 <= i < |code1| ensures code3[i] == StrippedAt(code1, l1 + l2, i) {
      assert code2[i] == StrippedAt(code1, l1, i) && code3[i] == StrippedAt(code2, l2, i);
    }
  }

  lemma StripLists(code1: seq<Instr>, code2: seq<Instr>, l: set<nat>, head: int, m: seq<nat>)
    requires Strips(code1, code2, l) && IsList(code1, head, m)
    ensures IsList(code2, head, m)
  {
    ListMembers(code1, head, m);
    forall j | j in m && j < |code1| ensures code2[j] == code1[j] { StripControl(code1, code2, l, j); }
    ListFrame(code1, code2, head, m);
  }

  lemma StripFits(s1: Snap, s2: Snap, k: seq<Value>, e: ExpDesc, t: seq<nat>, f: seq<nat>)
    requires Fit(s1, k, e, t, f) && Strips(s1.code, s2.code, Elems(t) + Elems(f)) && Closed(s1.code)
    requires s2.held == s1.held && s2.open == s1.open && Jumps(s1.code, s1.open)
    ensures Fit(s2, k, ExpDesc(e.k, e.f, e.t), f, t) && Closed(s2.code) && Jumps(s2.code, s2.open)
  {
    var l := Elems(t) + Elems(f);
    StripLists(s1.code, s2.code, l, e.t, t);
    StripLists(s1.code, s2.code, l, e.f, f);
    assert forall i | 0 <= i < |s1.code| :: s2.code[i] == StrippedAt(s1.code, l, i);
    assert Base(View(s2, e.k, {}, {})).open == Base(View(s1, e.k, {}, {})).open;
  }

  lemma DelayFits(k: seq<Value>, s1: Snap, s2: Snap, e: ExpDesc, e': ExpDesc, i: Instr, t: seq<nat>, f: seq<nat>)
    requires Fit(s1, k, e, t, f) && Delay(e.k) == 0 && e' == e.(k := VRELOCABLE(|s1.code|)) && (i.Not? || i.GetUpval?)
    requires Emits(s1, s2, [i]) && s2.open == s1.open
    ensures Fit(s2, k, e', t, f) && Closed(s2.code)
    ensures Elems(t) + Elems(f) <= s1.open
  {
    EmitIntact(s1, s2, [i]);
    var v1, v2 := View(s1, e.k, Elems(t), Elems(f)), View(s2, e'.k, Elems(t), Elems(f));
    assert Base(v2).open == s1.open;
    ListsIntact(k, k, v1, v2, e, e', t, f);
  }

  lemma StripBase(v1: View, v2: View, v3: View, l: set<nat>, env: Env, k: seq<Value>)
    requires NegatesReady(env, k, v1, v2) && l == v1.t + v1.f && l <= Base(v2).open && Jumps(v2.s.code, v2.s.open)
    requires Strips(v2.s.code, v3.s.code, l) && Delay(v2.k) <= |v2.s.code|
    requires v3 == View(Snap(v3.s.code, v2.s.held, v2.s.open), v2.k, v2.f, v2.t)
    ensures Inert(Base(v2).code, Base(v3).code, l) && Base(v3).held == Base(v2).held && Base(v3).open == Base(v2).open
    ensures Carries(v1, v3) && (v3.s.held == {} || v3.s.held == v1.s.held)
    ensures forall k2, r :: Ready(env, k2, v3.s.code, v3.k, r) == Ready(env, k2, v2.s.code, v2.k, r)
  {
    hide Run; hide Leap; hide Step;
    assert forall i | 0 <= i < |v2.s.code| :: v3.s.code[i] == StrippedAt(v2.s.code, l, i);
    assert Rest(v3) == Rest(v1);
    forall j | j in Rest(v1) ensures v3.s.code[j] == v1.s.code[j] && Control(v3.s.code, j) == Control(v1.s.code, j) {
      StripControl(v2.s.code, v3.s.code, l, j);
    }
  }

  lemma StripAt(env: Env, k: seq<Value>, v1: View, v2: View, v3: View, l: set<nat>, n: int, k2: seq<Value>, p: nat,
                r: Regs)
    requires NegatesReady(env, k, v1, v2) && l == v1.t + v1.f && l <= Base(v2).open && Jumps(v2.s.code, v2.s.open)
    requires Strips(v2.s.code, v3.s.code, l) && v2.t !! v2.f && Jumps(v2.s.code, v2.s.held) && v2.s.held !! v2.s.open
    requires v3 == View(Snap(v3.s.code, v2.s.held, v2.s.open), v2.k, v2.f, v2.t)
    requires k <= k2 && p <= |Base(v1).code| && Run(env, k2, Base(v3), p, r) == Run(env, k2, Base(v2), p, r)
    requires forall q :: Ready(env, k2, v3.s.code, v3.k, q) == Ready(env, k2, v2.s.code, v2.k, q)
    ensures Negated(M(env, k2, v1, p, r), M(env, k2, v3, p, r), n, v3.s.held == v1.s.held)
  {
    assert |v3.s.code| == |v2.s.code|;
    hide Run; hide Leap; hide Step; hide Ready;
    var x, y := Run(env, k2, Base(v1), p, r), Run(env, k2, Base(v2), p, r);
    assert x.Stuck? || y == if v2.s.held == v1.s.held then x else NoVia(x);
    assert Intact(v1.s.code, v2.s.code, l) && (v2.s.held == {} || (v2.s.held == v1.s.held && v2.s.code == v1.s.code));
    if x.Fall? {
      var a := Ready(env, k2, v1.s.code, v1.k, x.r);
      assert Ready(env, k2, v3.s.code, v3.k, x.r) == if a.None? then None else Some(Bool(!Truthy(a.value)));
    }
    RunHolds(env, k2, Base(v1), p, r);
    RunHolds(env, k2, Base(v2), p, r);
    hide NegatesReady; hide Base;
    if x.Out? && x.j in l {
      StripControl(v2.s.code, v3.s.code, l, x.j);
    }
    if x.Fall? && x.via in v1.s.held && v2.s.held == v1.s.held { StripControl(v2.s.code, v3.s.code, l, x.via); }
    hide Strips;
  }
}
