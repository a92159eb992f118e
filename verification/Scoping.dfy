/**
  How the parser finds out what a name means: the variables, blocks and upvalues of the functions it is
  in, and the closures that the code it emits makes of them.
 */
module Scoping {
  import opened Basics

  type Name = string

  /** Where a closure finds an upvalue: in a register of the enclosing function, or among its upvalues. */
  datatype Desc = Register(r: nat) | Upvalue(u: nat)

  /** What a name means where it stands. */
  datatype Var = Global | Local(i: nat) | Upval(j: nat)

  datatype Block = Block(nactvar: nat, upval: bool, breakable: bool)

  datatype Op = Closure(p: nat) | Move(b: nat) | GetUpval(b: nat) | Close(a: nat) | Other

  /** A function being parsed. The variables from `nactvar` on have been declared but are not active yet. */
  datatype Func = Func(vars: seq<Name>, nactvar: nat, upvalues: seq<Desc>, names: seq<Name>, blocks: seq<Block>,
                       code: seq<Op>, protos: seq<Proto>)

  /** A function that has been parsed, with the functions inside it. */
  datatype Proto = Proto(code: seq<Op>, upvalues: seq<Desc>, protos: seq<Proto>)

  function Finished(f: Func): Proto { Proto(f.code, f.upvalues, f.protos) }

  function NewFunc(): Func { Func([], 0, [], [], [], [], []) }

  /** A declaration: the function, counted from the main one, and the register. */
  type Place = (nat, nat)

  // ---------------------------------------------------------------------------------- what names mean

  /** The last active variable of that name. */
  function Search(f: Func, n: Name): (r: Option<nat>)
    requires f.nactvar <= |f.vars|
    ensures match r
      case Some(i) => i < f.nactvar && f.vars[i] == n && forall k :: i < k < f.nactvar ==> f.vars[k] != n
      case None => forall k :: 0 <= k < f.nactvar ==> f.vars[k] != n
  {
    SearchBelow(f.vars[..f.nactvar], n)
  }

  function SearchBelow(vars: seq<Name>, n: Name): (r: Option<nat>)
    ensures match r
      case Some(i) => i < |vars| && vars[i] == n && forall k :: i < k < |vars| ==> vars[k] != n
      case None => forall k :: 0 <= k < |vars| ==> vars[k] != n
  {
    if vars == [] then None
    else if vars[|vars| - 1] == n then Some(|vars| - 1)
    else SearchBelow(vars[..|vars| - 1], n)
  }

  ghost predicate Shaped(fs: seq<Func>) { forall l :: 0 <= l < |fs| ==> fs[l].nactvar <= |fs[l].vars| }

  /** The innermost active declaration of a name in the first `level` functions. */
  function Innermost(fs: seq<Func>, level: nat, n: Name): Option<Place>
    requires Shaped(fs) && level <= |fs|
  {
    if level == 0 then None
    else match Search(fs[level - 1], n)
      case Some(i) => Some((level - 1, i))
      case None => Innermost(fs, level - 1, n)
  }

  /** The declaration that a descriptor leads to, seen from inside function `l`. */
  function Target(fs: seq<Func>, l: nat, d: Desc): Option<Place> {
    if l >= |fs| then None
    else match d
      case Register(r) => Some((l, r))
      case Upvalue(u) => if u < |fs[l].upvalues| && l > 0 then Target(fs, l - 1, fs[l].upvalues[u]) else None
  }

  /** Upvalue `j` of function `l` leads to what its name means in the enclosing functions. */
  ghost predicate Leads(fs: seq<Func>, l: nat, j: nat)
    requires Shaped(fs) && l < |fs| && j < |fs[l].upvalues| == |fs[l].names|
  {
    l > 0 && Innermost(fs, l, fs[l].names[j]).Some?
      && Target(fs, l - 1, fs[l].upvalues[j]) == Innermost(fs, l, fs[l].names[j])
  }

  ghost predicate NoDup<T>(s: seq<T>) { forall i, j :: 0 <= i < j < |s| ==> s[i] != s[j] }

  /** Every upvalue of every function leads to its declaration, and none is there twice. */
  ghost predicate Resolved(fs: seq<Func>) {
    && Shaped(fs)
    && (forall l :: 0 <= l < |fs| ==> |fs[l].upvalues| == |fs[l].names| && NoDup(fs[l].upvalues))
    && (forall l, j :: 0 <= l < |fs| && 0 <= j < |fs[l].upvalues| ==> Leads(fs, l, j))
  }

  /** Where the variables of block `i` end. */
  function End(f: Func, i: nat): nat { if i + 1 < |f.blocks| then f.blocks[i + 1].nactvar else f.nactvar }

  /** Some variable of block `i` is an upvalue of some function. */
  ghost predicate Captures(f: Func, cap: set<nat>, i: nat)
    requires i < |f.blocks|
  {
    exists v :: v in cap && f.blocks[i].nactvar <= v < End(f, i)
  }

  /** Blocks are nested, and marked just when one of their variables is captured. */
  ghost predicate Marked(f: Func, cap: set<nat>) {
    && (forall v :: v in cap ==> v < f.nactvar)
    && (forall i :: 0 <= i < |f.blocks| ==> f.blocks[i].nactvar <= f.nactvar)
    && (forall i, j :: 0 <= i < j < |f.blocks| ==> f.blocks[i].nactvar <= f.blocks[j].nactvar)
    && (forall i :: 0 <= i < |f.blocks| ==> (f.blocks[i].upval <==> Captures(f, cap, i)))
  }

  ghost predicate AllMarked(fs: seq<Func>, caps: seq<set<nat>>) {
    |caps| == |fs| && forall l :: 0 <= l < |fs| ==> Marked(fs[l], caps[l])
  }

  // -------------------------------------------------------------------------------- what changes keep

  /** The same functions, except that upvalues have been added and blocks marked. */
  ghost predicate Grows(fs: seq<Func>, gs: seq<Func>) {
    |fs| == |gs| && forall l :: 0 <= l < |fs| ==>
      gs[l].vars == fs[l].vars && gs[l].nactvar == fs[l].nactvar && fs[l].upvalues <= gs[l].upvalues
        && fs[l].names <= gs[l].names
      && gs[l].code == fs[l].code && gs[l].protos == fs[l].protos && SameBlocks(fs[l].blocks, gs[l].blocks)
  }

  ghost predicate SameBlocks(a: seq<Block>, b: seq<Block>) {
    |a| == |b| && forall i :: 0 <= i < |a| ==> b[i].nactvar == a[i].nactvar && b[i].breakable == a[i].breakable
  }

  lemma GrowsTrans(fs: seq<Func>, gs: seq<Func>, hs: seq<Func>)
    requires Grows(fs, gs) && Grows(gs, hs)
    ensures Grows(fs, hs)
  {}

  lemma {:induction false} GrowsInnermost(fs: seq<Func>, gs: seq<Func>, level: nat, n: Name)
    requires Shaped(fs) && Grows(fs, gs) && level <= |fs|
    ensures Shaped(gs) && Innermost(gs, level, n) == Innermost(fs, level, n)
  {
    if level > 0 { GrowsInnermost(fs, gs, level - 1, n); }
  }

  /** A descriptor goes on leading where it led. */
  lemma {:induction false} GrowsTarget(fs: seq<Func>, gs: seq<Func>, l: nat, d: Desc)
    requires Grows(fs, gs) && Target(fs, l, d).Some?
    ensures Target(gs, l, d) == Target(fs, l, d)
  {
    if d.Upvalue? { GrowsTarget(fs, gs, l - 1, fs[l].upvalues[d.u]); }
  }

  /** What a name means depends on the functions around it only. */
  lemma {:induction false} SameInnermost(fs: seq<Func>, gs: seq<Func>, level: nat, n: Name)
    requires Shaped(fs) && Shaped(gs) && level <= |fs| && level <= |gs| && fs[..level] == gs[..level]
    ensures Innermost(gs, level, n) == Innermost(fs, level, n)
  {
    if level > 0 {
      assert fs[level - 1] == fs[..level][level - 1] == gs[..level][level - 1] == gs[level - 1];
      assert fs[..level - 1] == fs[..level][..level - 1] == gs[..level][..level - 1] == gs[..level - 1];
      SameInnermost(fs, gs, level - 1, n);
    }
  }

  lemma {:induction false} SameTarget(fs: seq<Func>, gs: seq<Func>, l: nat, d: Desc)
    requires l < |fs| && l < |gs| && fs[..l + 1] == gs[..l + 1]
    ensures Target(gs, l, d) == Target(fs, l, d)
  {
    assert fs[l] == fs[..l + 1][l] == gs[..l + 1][l] == gs[l];
    if d.Upvalue? && d.u < |fs[l].upvalues| && l > 0 {
      assert fs[..l] == fs[..l + 1][..l] == gs[..l + 1][..l] == gs[..l];
      SameTarget(fs, gs, l - 1, fs[l].upvalues[d.u]);
    }
  }

  /** Whatever happens to the variables of the innermost function, all upvalues still lead where they should. */
  lemma TopKeeps(fs: seq<Func>, gs: seq<Func>)
    requires Resolved(fs) && |gs| == |fs| > 0 && gs[..|fs| - 1] == fs[..|fs| - 1] && Shaped(gs)
    requires gs[|fs| - 1].upvalues == fs[|fs| - 1].upvalues && gs[|fs| - 1].names == fs[|fs| - 1].names
    ensures Resolved(gs)
  {
    SamePrefix(fs, gs, |fs| - 1);
    forall l, j | 0 <= l < |gs| && 0 <= j < |gs[l].upvalues|
      ensures |gs[l].names| == |gs[l].upvalues| && Leads(gs, l, j)
    {
      assert Leads(fs, l, j);
      SameLeads(fs, gs, l, j);
    }
  }

  lemma SamePrefix(fs: seq<Func>, gs: seq<Func>, n: nat)
    requires n <= |fs| && n <= |gs| && fs[..n] == gs[..n]
    ensures forall l :: 0 <= l < n ==> fs[l] == gs[l]
  {
    forall l | 0 <= l < n ensures fs[l] == gs[l] { assert fs[..n][l] == gs[..n][l]; }
  }

  lemma SameLeads(fs: seq<Func>, gs: seq<Func>, l: nat, j: nat)
    requires Shaped(fs) && Shaped(gs) && l < |fs| && l < |gs| && fs[..l] == gs[..l]
    requires gs[l].upvalues == fs[l].upvalues && gs[l].names == fs[l].names && j < |fs[l].upvalues| == |fs[l].names|
    requires Leads(fs, l, j)
    ensures Leads(gs, l, j)
  {
    SameInnermost(fs, gs, l, fs[l].names[j]);
    assert fs[..l - 1 + 1] == gs[..l - 1 + 1];
    SameTarget(fs, gs, l - 1, fs[l].upvalues[j]);
  }

  /** The declaration that is found is active, and has that name. */
  lemma {:induction false} InnermostIs(fs: seq<Func>, level: nat, n: Name)
    requires Shaped(fs) && level <= |fs|
    ensures match Innermost(fs, level, n)
      case Some((l, i)) => l < level && i < fs[l].nactvar && fs[l].vars[i] == n
        && (forall k :: i < k < fs[l].nactvar ==> fs[l].vars[k] != n)
                           && (forall m, k :: l < m < level && 0 <= k < fs[m].nactvar ==> fs[m].vars[k] != n)
      case None => forall m, k :: 0 <= m < level && 0 <= k < fs[m].nactvar ==> fs[m].vars[k] != n
  {
    if level > 0 { InnermostIs(fs, level - 1, n); }
  }

  lemma {:induction false} TargetWithin(fs: seq<Func>, l: nat, d: Desc)
    requires Target(fs, l, d).Some?
    ensures Target(fs, l, d).value.0 <= l && (d.Upvalue? ==> Target(fs, l, d).value.0 < l)
  {
    if d.Upvalue? { TargetWithin(fs, l - 1, fs[l].upvalues[d.u]); }
  }

  /** No variable is among the upvalues of a function twice. */
  lemma {:induction false} OnceOnly(fs: seq<Func>, l: nat, d: Desc, e: Desc)
    requires Resolved(fs) && Target(fs, l, d).Some? && Target(fs, l, d) == Target(fs, l, e)
    ensures d == e
  {
    TargetWithin(fs, l, d);
    TargetWithin(fs, l, e);
    if d.Upvalue? && e.Upvalue? {
      OnceOnly(fs, l - 1, fs[l].upvalues[d.u], fs[l].upvalues[e.u]);
    }
  }

  /** Function `l` has no upvalue for that declaration, and no room for one. */
  ghost predicate NoRoom(fs: seq<Func>, l: nat, place: Place, max: nat)
    requires l < |fs|
  {
    && place.0 < l && |fs[l].upvalues| >= max
    && forall j :: 0 <= j < |fs[l].upvalues| ==> Target(fs, l, Upvalue(j)) != Some(place)
  }

  /** Some function on the way from a name to its declaration has no room for it. */
  ghost predicate Cramped(fs: seq<Func>, level: nat, n: Name, max: nat)
    requires Shaped(fs) && level <= |fs|
  {
    Innermost(fs, level, n).Some? && exists l :: 0 <= l < level && NoRoom(fs, l, Innermost(fs, level, n).value, max)
  }

  /** A descriptor that leads to the declaration is among the upvalues if any of them leads there. */
  lemma CrampedUp(fs: seq<Func>, gs: seq<Func>, l: nat, n: Name, d: Desc, max: nat)
    requires Resolved(fs) && Resolved(gs) && Grows(fs, gs) && 0 < l < |fs| && gs[l] == fs[l] && Search(fs[l], n).None?
    requires Innermost(fs, l, n).Some? && Target(gs, l - 1, d) == Innermost(fs, l, n)
    ensures Cramped(fs, l + 1, n, max)
            <==> Cramped(fs, l, n, max) || (d !in fs[l].upvalues && |fs[l].upvalues| >= max)
  {
    var t := Innermost(fs, l, n);
    InnermostIs(fs, l, n);
    forall j | 0 <= j < |fs[l].upvalues| ensures Target(fs, l, Upvalue(j)) == t <==> fs[l].upvalues[j] == d {
      assert Leads(fs, l, j);
      GrowsTarget(fs, gs, l - 1, fs[l].upvalues[j]);
      if Target(fs, l, Upvalue(j)) == t { OnceOnly(gs, l - 1, d, fs[l].upvalues[j]); }
    }
    hide Target;
    hide Resolved;
    assert Innermost(fs, l + 1, n) == t;
    assert NoRoom(fs, l, t.value, max) <==> d !in fs[l].upvalues && |fs[l].upvalues| >= max;
  }

  lemma AddedGrows(fs: seq<Func>, gs: seq<Func>, l: nat, d: Desc, n: Name)
    requires Resolved(fs) && l < |fs| && d !in fs[l].upvalues
    requires gs == fs[l := fs[l].(upvalues := fs[l].upvalues + [d], names := fs[l].names + [n])]
    ensures Grows(fs, gs) && Shaped(gs)
    ensures forall m :: 0 <= m < |gs| ==> |gs[m].upvalues| == |gs[m].names| && NoDup(gs[m].upvalues)
  {
    hide Leads;
    assert NoDup(fs[l].upvalues) && NoDup(gs[l].upvalues);
  }

  /** An upvalue leads where it led. */
  lemma GrownLeads(fs: seq<Func>, gs: seq<Func>, m: nat, j: nat)
    requires Shaped(fs) && Grows(fs, gs) && m < |fs| && j < |fs[m].upvalues| == |fs[m].names| && Leads(fs, m, j)
    requires |gs[m].upvalues| == |gs[m].names| && j < |gs[m].names|
    requires gs[m].upvalues[j] == fs[m].upvalues[j] && gs[m].names[j] == fs[m].names[j]
    ensures Shaped(gs) && Leads(gs, m, j)
  {
    GrowsInnermost(fs, gs, m, fs[m].names[j]);
    GrowsTarget(fs, gs, m - 1, fs[m].upvalues[j]);
  }

  /** Functions whose upvalues lead right may get one more that does. */
  lemma AddedKeeps(fs: seq<Func>, gs: seq<Func>, l: nat, d: Desc, n: Name)
    requires Resolved(fs) && 0 < l < |fs| && d !in fs[l].upvalues
    requires Innermost(fs, l, n).Some? && Target(fs, l - 1, d) == Innermost(fs, l, n)
    requires gs == fs[l := fs[l].(upvalues := fs[l].upvalues + [d], names := fs[l].names + [n])]
    ensures Resolved(gs) && Grows(fs, gs)
  {
    AddedGrows(fs, gs, l, d, n);
    GrowsInnermost(fs, gs, l, n);
    GrowsTarget(fs, gs, l - 1, d);
    hide Innermost;
    hide Target;
    hide NoDup;
    hide Grows;
    assert Leads(gs, l, |fs[l].upvalues|);
    hide Leads;
    forall m, j | 0 <= m < |gs| && 0 <= j < |gs[m].upvalues| ensures Leads(gs, m, j) {
      if m != l || j != |fs[l].upvalues| { GrownLeads(fs, gs, m, j); }
    }
  }

  /** Marking blocks does not change where upvalues lead. */
  lemma MarkKeepsResolved(fs: seq<Func>, gs: seq<Func>)
    requires Resolved(fs) && Grows(fs, gs)
    requires forall l :: 0 <= l < |fs| ==> gs[l].upvalues == fs[l].upvalues && gs[l].names == fs[l].names
    ensures Resolved(gs)
  {
    hide Leads;
    forall m, j | 0 <= m < |gs| && 0 <= j < |gs[m].upvalues|
      ensures Shaped(gs) && Leads(gs, m, j)
    {
      GrownLeads(fs, gs, m, j);
    }
  }

  /** The variable `v` is captured, and the innermost block that it belongs to, if any, is marked. */
  lemma MarkKeeps(f: Func, g: Func, cap: set<nat>, v: nat, i: int)
    requires Marked(f, cap) && v < f.nactvar && -1 <= i < |f.blocks|
    requires (i >= 0 ==> f.blocks[i].nactvar <= v) && (forall k :: i < k < |f.blocks| ==> f.blocks[k].nactvar > v)
    requires g == if i < 0 then f else f.(blocks := f.blocks[i := f.blocks[i].(upval := true)])
    ensures Marked(g, cap + {v}) && SameBlocks(f.blocks, g.blocks)
  {
    forall k | 0 <= k < |g.blocks| ensures g.blocks[k].upval <==> Captures(g, cap + {v}, k) {
      assert f.blocks[k].upval <==> Captures(f, cap, k);
      assert End(g, k) == End(f, k) && g.blocks[k].nactvar == f.blocks[k].nactvar;
      if Captures(f, cap, k) {
        var w :| w in cap && f.blocks[k].nactvar <= w < End(f, k);
        assert w in cap + {v};
      }
      if k == i { assert v in cap + {v} && v < End(g, k); }
      if Captures(g, cap + {v}, k) && k != i {
        var w :| w in cap + {v} && g.blocks[k].nactvar <= w < End(g, k);
        assert w != v;
      }
    }
  }

  // -------------------------------------------------------------------------------------- one step

  /** The enclosing function once the one inside it is finished. */
  function Enclosing(g: Func, f: Func): Func {
    g.(protos := g.protos + [Finished(f)], code := g.code + [Closure(|g.protos|)] + Pseudo(f.upvalues))
  }

  ghost predicate NoClosure(code: seq<Op>) { forall o :: o in code ==> !o.Closure? }

  /** Code without closures, and upvalues, have been added. */
  ghost predicate Longer(f: Func, g: Func) {
    && f.upvalues <= g.upvalues && g.protos == f.protos
    && f.code <= g.code && NoClosure(g.code[|f.code|..])
  }

  /** What one step of the parser does to the functions that it is in. */
  ghost predicate Goes(fs: seq<Func>, gs: seq<Func>) {
    || (|gs| == |fs| && forall l :: 0 <= l < |fs| ==> Longer(fs[l], gs[l]))
    || gs == fs + [NewFunc()]
    || (|fs| > 1 && gs == fs[..|fs| - 1][|fs| - 2 := Enclosing(fs[|fs| - 2], fs[|fs| - 1])])
  }

  lemma LongerSame(f: Func)
    ensures Longer(f, f)
  {
    assert f.code[|f.code|..] == [];
  }

  lemma GrowsGoes(fs: seq<Func>, gs: seq<Func>)
    requires Grows(fs, gs)
    ensures Goes(fs, gs)
  {
    forall l | 0 <= l < |fs| ensures Longer(fs[l], gs[l]) {
      assert gs[l].code[|fs[l].code|..] == [];
    }
  }

  /** Only the innermost function has changed. */
  lemma TopGoes(fs: seq<Func>, gs: seq<Func>, code: seq<Op>)
    requires |gs| == |fs| > 0 && gs == fs[|fs| - 1 := gs[|fs| - 1]] && NoClosure(code)
    requires var f, g := fs[|fs| - 1], gs[|fs| - 1];
      g.upvalues == f.upvalues && g.protos == f.protos && g.code == f.code + code
    ensures Goes(fs, gs)
  {
    forall l | 0 <= l < |fs| ensures Longer(fs[l], gs[l]) {
      if l < |fs| - 1 { LongerSame(fs[l]); } else { assert gs[l].code[|fs[l].code|..] == code; }
    }
  }

  // -------------------------------------------------------------------------------------- the parser

  class LexState {
    const maxVars: nat
    const maxUpvalues: nat
    /** The functions being parsed, from the main one to the innermost. */
    var funcs: seq<Func>
    /** The active variables of each of them that some function has as an upvalue. */
    ghost var caps: seq<set<nat>>

    ghost predicate Valid()
      reads this
    {
      Resolved(funcs) && AllMarked(funcs, caps)
    }

    constructor (maxVars: nat, maxUpvalues: nat)
      ensures Valid() && funcs == []
    {
      this.maxVars, this.maxUpvalues := maxVars, maxUpvalues;
      funcs, caps := [], [];
    }

    /** `searchvar`. */
    method SearchVar(l: nat, n: Name) returns (r: Option<nat>)
      requires Shaped(funcs) && l < |funcs|
      ensures r == Search(funcs[l], n)
    {
      var f := funcs[l];
      var i := f.nactvar;
      while i > 0
        invariant 0 <= i <= f.nactvar && forall k :: i <= k < f.nactvar ==> f.vars[k] != n
      {
        i := i - 1;
        if f.vars[i] == n {
          return Some(i);
        }
      }
      return None;
    }

    /** `indexupvalue`: the upvalue of function `l` with that descriptor, added if it is not there. */
    method IndexUpvalue(l: nat, n: Name, d: Desc) returns (ok: bool, j: nat)
      requires Valid() && 0 < l < |funcs| && Innermost(funcs, l, n).Some?
      requires Target(funcs, l - 1, d) == Innermost(funcs, l, n)
      modifies `funcs
      ensures Valid() && Grows(old(funcs), funcs)
      ensures ok ==> j < |funcs[l].upvalues| && funcs[l].upvalues[j] == d && funcs[l].names[j] == n
      ensures ok ==> Target(funcs, l, Upvalue(j)) == Innermost(old(funcs), l, n)
      ensures d in old(funcs)[l].upvalues ==> ok && funcs == old(funcs)
      ensures ok <==> d in old(funcs)[l].upvalues || |old(funcs)[l].upvalues| < maxUpvalues
      ensures (!ok ==> funcs == old(funcs)) && funcs == old(funcs)[l := funcs[l]]
    {
      var f := funcs[l];
      j := 0;
      while j < |f.upvalues|
        invariant 0 <= j <= |f.upvalues| && forall k :: 0 <= k < j ==> f.upvalues[k] != d
      {
        if f.upvalues[j] == d {
          SameName(funcs, l, j, n);
          return true, j;
        }
        j := j + 1;
      }
      if |f.upvalues| + 1 > maxUpvalues {
        return false, 0;
      }
      ghost var fs := funcs;
      funcs := funcs[l := f.(upvalues := f.upvalues + [d], names := f.names + [n])];
      AddedKeeps(fs, funcs, l, d, n);
      SameMarked(fs, funcs, caps);
      GrowsTarget(fs, funcs, l - 1, d);
      ok := true;
    }

    /** `markupval`: the innermost block that variable `v` of function `l` belongs to will close upvalues. */
    method MarkUpval(l: nat, v: nat)
      requires Valid() && l < |funcs| && v < funcs[l].nactvar
      modifies `funcs, `caps
      ensures Valid() && Grows(old(funcs), funcs) && caps == old(caps)[l := old(caps)[l] + {v}]
      ensures funcs == old(funcs)[l := funcs[l]]
      ensures forall k :: 0 <= k < |funcs| ==>
        funcs[k].upvalues == old(funcs)[k].upvalues && funcs[k].names == old(funcs)[k].names
    {
      var f := funcs[l];
      var i := |f.blocks| - 1;
      while i >= 0 && f.blocks[i].nactvar > v
        invariant -1 <= i < |f.blocks| && forall k :: i < k < |f.blocks| ==> f.blocks[k].nactvar > v
      {
        i := i - 1;
      }
      ghost var fs := funcs;
      if i >= 0 {
        funcs := funcs[l := f.(blocks := f.blocks[i := f.blocks[i].(upval := true)])];
      }
      MarkKeeps(f, funcs[l], caps[l], v, i);
      caps := caps[l := caps[l] + {v}];
      assert Grows(fs, funcs);
      MarkKeepsResolved(fs, funcs);
    }

    /** `singlevaraux`: what a name means in the first `level` functions; in all but the innermost, a variable found
        is captured. */
    method SingleVarAux(level: nat, n: Name, base: bool) returns (ok: bool, v: Var)
      requires Valid() && level <= |funcs|
      modifies `funcs, `caps
      ensures Valid() && Grows(old(funcs), funcs)
      ensures ok <==> !Cramped(old(funcs), level, n, maxUpvalues)
      ensures ok ==> Means(funcs, level, v, Innermost(old(funcs), level, n))
      ensures forall k :: level <= k < |funcs| ==> funcs[k] == old(funcs)[k]
      ensures ok ==> caps == Capture(old(caps), Innermost(old(funcs), level, n), level, base)
      decreases level
    {
      hide Grows;
      hide Resolved;
      hide AllMarked;
      hide Search;
      hide Target;
      ResolvedShaped(funcs);
      hide Shaped;
      ghost var fs := funcs;
      GrowsRefl(fs);
      if level == 0 {
        return true, Global;
      }
      var r := SearchVar(level - 1, n);
      if r.Some? {
        if !base {
          FoundMarked(fs, caps, level - 1, r.value);
          MarkUpval(level - 1, r.value);
        }
        return true, Local(r.value);
      }
      var w;
      ok, w := SingleVarAux(level - 1, n, false);
      if !ok || w.Global? {
        return ok, Global;
      }
      ghost var gs := funcs;
      GrowsInnermost(fs, gs, level - 1, n);
      var d := if w.Local? then Register(w.i) else Upvalue(w.j);
      FoundAbove(fs, gs, level, n, w, d);
      CrampedUp(fs, gs, level - 1, n, d, maxUpvalues);
      CaptureUp(fs, old(caps), level, n, base);
      hide Capture;
      var j;
      ok, j := IndexUpvalue(level - 1, n, d);
      GrowsTrans(fs, gs, funcs);
      v := Upval(j);
    }

    /** `singlevar`: a name means its innermost active declaration; what is not declared is global. */
    method SingleVar(n: Name) returns (ok: bool, v: Var)
      requires Valid() && funcs != []
      modifies `funcs, `caps
      ensures Valid() && Grows(old(funcs), funcs)
      ensures ok <==> !Cramped(old(funcs), |funcs|, n, maxUpvalues)
      ensures ok ==> Means(funcs, |funcs|, v, Innermost(old(funcs), |funcs|, n))
      ensures ok ==> caps == Capture(old(caps), Innermost(old(funcs), |funcs|, n), |funcs|, true)
      ensures Goes(old(funcs), funcs)
    {
      ghost var fs := funcs;
      ok, v := SingleVarAux(|funcs|, n, true);
      GrowsGoes(fs, funcs);
    }

    /** `new_localvar`: declared, but not active yet. */
    method NewLocalVar(n: Name) returns (ok: bool)
      requires Valid() && funcs != []
      modifies `funcs
      ensures Valid()
      ensures var t := |funcs| - 1; var f := old(funcs)[t];
        funcs == if ok then old(funcs)[t := f.(vars := f.vars + [n])] else old(funcs)
      ensures ok <==> |old(funcs)[|funcs| - 1].vars| < maxVars
      ensures forall m :: Innermost(funcs, |funcs|, m) == Innermost(old(funcs), |funcs|, m)
      ensures Goes(old(funcs), funcs)
    {
      ghost var fs := funcs;
      var t := |funcs| - 1;
      if |funcs[t].vars| + 1 > maxVars {
        GrowsRefl(fs);
        GrowsGoes(fs, fs);
        return false;
      }
      funcs := funcs[t := funcs[t].(vars := funcs[t].vars + [n])];
      TopKeeps(fs, funcs);
      SameMarked(fs, funcs, caps);
      TopGoes(fs, funcs, []);
      assert funcs[t].vars[..funcs[t].nactvar] == fs[t].vars[..fs[t].nactvar];
      forall m ensures Innermost(funcs, |funcs|, m) == Innermost(fs, |fs|, m) { SameInnermost(fs, funcs, t, m); }
      ok := true;
    }

    /** `adjustlocalvars`: the next `k` variables become active. */
    method AdjustLocalVars(k: nat)
      requires Valid() && funcs != []
      requires funcs[|funcs| - 1].nactvar + k <= |funcs[|funcs| - 1].vars|
      modifies `funcs
      ensures Valid()
      ensures var t := |funcs| - 1; var f := old(funcs)[t]; funcs == old(funcs)[t := f.(nactvar := f.nactvar + k)]
      ensures Goes(old(funcs), funcs)
    {
      ghost var fs := funcs;
      var t := |funcs| - 1;
      funcs := funcs[t := funcs[t].(nactvar := funcs[t].nactvar + k)];
      TopKeeps(fs, funcs);
      TopGoes(fs, funcs, []);
      MoreMarked(fs[t], funcs[t], caps[t]);
    }

    /** `enterblock`. */
    method EnterBlock(breakable: bool)
      requires Valid() && funcs != []
      modifies `funcs
      ensures Valid()
      ensures var t := |funcs| - 1; var f := old(funcs)[t];
        funcs == old(funcs)[t := f.(blocks := f.blocks + [Block(f.nactvar, false, breakable)])]
      ensures Goes(old(funcs), funcs)
    {
      ghost var fs := funcs;
      var t := |funcs| - 1;
      var f := funcs[t];
      funcs := funcs[t := f.(blocks := f.blocks + [Block(f.nactvar, false, breakable)])];
      TopKeeps(fs, funcs);
      TopGoes(fs, funcs, []);
      EnteredMarked(f, funcs[t], caps[t]);
    }

    /**
      `leaveblock`: the variables of the block are gone; if one of them was captured, and only then, the code closes
      the upvalues from the first of them on.
     */
    method LeaveBlock()
      requires Valid() && funcs != [] && funcs[|funcs| - 1].blocks != []
      modifies `funcs, `caps
      ensures Valid() && |funcs| == |old(funcs)|
      ensures var t := |funcs| - 1; var f := old(funcs)[t]; var b := f.blocks[|f.blocks| - 1];
        && funcs == old(funcs)[t := f.(vars := f.vars[..b.nactvar], nactvar := b.nactvar,
                                       blocks := f.blocks[..|f.blocks| - 1],
                                       code := f.code + if exists v ::
                                         v in old(caps)[t] && v >= b.nactvar then [Close(b.nactvar)] else [])]
        && caps == old(caps)[t := set v | v in old(caps)[t] && v < b.nactvar]
      ensures Goes(old(funcs), funcs)
    {
      ghost var fs := funcs;
      var t := |funcs| - 1;
      var f := funcs[t];
      var b := f.blocks[|f.blocks| - 1];
      assert Marked(f, caps[t]);
      assert b.upval <==> exists v :: v in caps[t] && v >= b.nactvar;
      funcs := funcs[t := f.(vars := f.vars[..b.nactvar], nactvar := b.nactvar, blocks := f.blocks[..|f.blocks| - 1],
                             code := f.code + if b.upval then [Close(b.nactvar)] else [])];
      TopKeeps(fs, funcs);
      TopGoes(fs, funcs, if b.upval then [Close(b.nactvar)] else []);
      LeftMarked(f, funcs[t], caps[t]);
      caps := caps[t := set v | v in caps[t] && v < b.nactvar];
    }

    /** `breakstat`: leaving the innermost loop, the code closes upvalues if any was made of a variable inside. */
    method BreakStat() returns (ok: bool)
      requires Valid() && funcs != []
      modifies `funcs
      ensures Valid() && |funcs| == |old(funcs)|
      ensures var t := |funcs| - 1; var f := old(funcs)[t];
        if !ok then funcs == old(funcs) && forall i :: 0 <= i < |f.blocks| ==> !f.blocks[i].breakable
        else exists i ::
          0 <= i < |f.blocks| && InnermostLoop(f, i)
            && funcs == old(funcs)[t := f.(code := f.code + Closing(f, caps[t], i))]
            && ClosesInside(f, caps[t], i, funcs[t].code[|f.code|..])
      ensures Goes(old(funcs), funcs)
    {
      ghost var fs := funcs;
      var t := |funcs| - 1;
      var f := funcs[t];
      assert Marked(f, caps[t]);
      var i, upval := FindLoop(f, caps[t]);
      if i < 0 {
        GrowsRefl(fs);
        GrowsGoes(fs, fs);
        return false;
      }
      hide Marked;
      funcs := funcs[t := f.(code := f.code + if upval then [Close(f.blocks[i].nactvar)] else [])];
      ClosingInside(f, caps[t], i);
      assert funcs[t].code[|f.code|..] == Closing(f, caps[t], i);
      TopKeeps(fs, funcs);
      SameMarked(fs, funcs, caps);
      TopGoes(fs, funcs, if upval then [Close(f.blocks[i].nactvar)] else []);
      ok := true;
    }

    /** The walk from the innermost block out to the innermost loop, and whether it meets a block that captures. */
    method FindLoop(f: Func, ghost cap: set<nat>) returns (i: int, upval: bool)
      requires Marked(f, cap)
      ensures -1 <= i < |f.blocks|
      ensures if i < 0 then forall k :: 0 <= k < |f.blocks| ==> !f.blocks[k].breakable
              else InnermostLoop(f, i) && (upval <==> exists v :: v in cap && v >= End(f, i))
    {
      hide Marked;
      MarkedBelow(f, cap);
      i, upval := |f.blocks| - 1, false;
      while i >= 0 && !f.blocks[i].breakable
        invariant -1 <= i < |f.blocks| && forall k :: i < k < |f.blocks| ==> !f.blocks[k].breakable
        invariant upval <==> exists v :: v in cap && v >= if i < 0 then FirstOf(f) else End(f, i)
      {
        InsideMore(f, cap, i);
        upval := upval || f.blocks[i].upval;
        i := i - 1;
      }
    }

    /** `open_func`. */
    method OpenFunc()
      requires Valid()
      modifies `funcs, `caps
      ensures Valid() && funcs == old(funcs) + [NewFunc()] && caps == old(caps) + [{}]
      ensures Goes(old(funcs), funcs)
    {
      ghost var fs := funcs;
      funcs := funcs + [NewFunc()];
      caps := caps + [{}];
      PushedKeeps(fs, funcs);
    }

    /** `close_func`, and `pushclosure` into the enclosing function: after the instruction that makes the closure, one
        for each upvalue. */
    method CloseFunc()
      requires Valid() && |funcs| > 1
      modifies `funcs, `caps
      ensures Valid() && |funcs| == |old(funcs)| - 1 && |old(caps)| == |old(funcs)| && caps == old(caps)[..|funcs|]
      ensures var t := |old(funcs)| - 1; var f, g := old(funcs)[t], old(funcs)[t - 1];
        && funcs == old(funcs)[..t][t - 1 := Enclosing(g, f)]
      ensures Goes(old(funcs), funcs)
    {
      ghost var fs := funcs;
      var t := |funcs| - 1;
      var f := funcs[t];
      funcs := funcs[..t];
      caps := caps[..t];
      ghost var gs := funcs;
      PoppedKeeps(fs, gs);
      var g := funcs[t - 1];
      var code := g.code + [Closure(|g.protos|)];
      var i := 0;
      while i < |f.upvalues|
        invariant 0 <= i <= |f.upvalues| && code == g.code + [Closure(|g.protos|)] + Pseudo(f.upvalues[..i])
      {
        var o := match f.upvalues[i] case Register(r) => Move(r) case Upvalue(u) => GetUpval(u);
        assert f.upvalues[..i + 1] == f.upvalues[..i] + [f.upvalues[i]];
        code := code + [o];
        i := i + 1;
      }
      assert f.upvalues[..|f.upvalues|] == f.upvalues;
      funcs := funcs[t - 1 := g.(protos := g.protos + [Finished(f)], code := code)];
      TopKeeps(gs, funcs);
      SameMarked(gs, funcs, caps);
    }
  }

  lemma GrowsRefl(fs: seq<Func>)
    ensures Grows(fs, fs)
  {}

  lemma FoundMarked(fs: seq<Func>, caps: seq<set<nat>>, l: nat, v: nat)
    requires AllMarked(fs, caps) && l < |fs|
    ensures |caps| == |fs|
  {}

  /** What has been found in an enclosing function is what the descriptor leads to. */
  lemma FoundAbove(fs: seq<Func>, gs: seq<Func>, level: nat, n: Name, w: Var, d: Desc)
    requires Shaped(fs) && Shaped(gs) && 0 < level <= |fs| && Grows(fs, gs) && Search(fs[level - 1], n) == None
    requires !w.Global?
    requires Means(gs, level - 1, w, Innermost(fs, level - 1, n))
    requires Innermost(gs, level - 1, n) == Innermost(fs, level - 1, n)
    requires d == if w.Local? then Register(w.i) else Upvalue(w.j)
    ensures level > 1 && |gs| == |fs| && Innermost(gs, level - 1, n).Some?
    ensures Target(gs, level - 2, d) == Innermost(gs, level - 1, n)
  {}

  lemma ResolvedShaped(fs: seq<Func>)
    requires Resolved(fs)
    ensures Shaped(fs)
  {}

  /** What an enclosing function declares is captured however it was looked up. */
  lemma CaptureUp(fs: seq<Func>, caps: seq<set<nat>>, level: nat, n: Name, base: bool)
    requires Shaped(fs) && 0 < level <= |fs| && Search(fs[level - 1], n) == None
    ensures Capture(caps, Innermost(fs, level - 1, n), level - 1, false) == Capture(caps, Innermost(fs, level, n),
                                                                                    level, base)
  {
    InnermostIs(fs, level - 1, n);
  }

  /** Upvalues with the same descriptor have the same name. */
  lemma SameName(fs: seq<Func>, l: nat, j: nat, n: Name)
    requires Resolved(fs) && l < |fs| && j < |fs[l].upvalues| && Innermost(fs, l, n).Some? && l > 0
    requires Target(fs, l - 1, fs[l].upvalues[j]) == Innermost(fs, l, n)
    ensures j < |fs[l].names| && fs[l].names[j] == n
  {
    assert Leads(fs, l, j);
    InnermostIs(fs, l, n);
    InnermostIs(fs, l, fs[l].names[j]);
  }

  predicate InnermostLoop(f: Func, i: nat)
    requires i < |f.blocks|
  {
    f.blocks[i].breakable && forall k :: i < k < |f.blocks| ==> !f.blocks[k].breakable
  }

  /** The code that closes what has been captured inside block `i`. */
  ghost function Closing(f: Func, cap: set<nat>, i: nat): seq<Op>
    requires i < |f.blocks|
  {
    if exists v :: v in cap && v >= End(f, i) then [Close(f.blocks[i].nactvar)] else []
  }

  /** Code that closes just what it should on the way out of block `i`: it is there if something inside is captured, and
      then closes all of that, and no variable from outside the block. */
  ghost predicate ClosesInside(f: Func, cap: set<nat>, i: nat, code: seq<Op>)
    requires i < |f.blocks|
  {
    && |code| <= 1 && (code != [] <==> exists v :: v in cap && v >= End(f, i))
    && (code != [] ==>
          && code[0].Close? && (forall v :: v in cap && v >= End(f, i) ==> code[0].a <= v)
          && f.blocks[i].nactvar <= code[0].a)
  }

  lemma ClosingInside(f: Func, cap: set<nat>, i: nat)
    requires Marked(f, cap) && i < |f.blocks|
    ensures ClosesInside(f, cap, i, Closing(f, cap, i))
  {
    assert f.blocks[i].nactvar <= End(f, i);
  }

  /** What the parser says a name means in the first `level` functions is where it was declared. */
  ghost predicate Means(fs: seq<Func>, level: nat, v: Var, place: Option<Place>) {
    match v
    case Global => place == None
    case Local(i) => level > 0 && place == Some((level - 1, i))
    case Upval(j) => level > 0 && place.Some? && Target(fs, level - 1, Upvalue(j)) == place
  }

  /** The variable is captured, unless it belongs to the function that it is used in. */
  ghost function Capture(caps: seq<set<nat>>, place: Option<Place>, level: nat, base: bool): seq<set<nat>> {
    match place
    case None => caps
    case Some((l, i)) => if l >= |caps| || (base && l + 1 == level) then caps else caps[l := caps[l] + {i}]
  }

  /** The instructions after OP_CLOSURE. */
  function Pseudo(ds: seq<Desc>): (r: seq<Op>)
    ensures |r| == |ds|
  {
    seq(|ds|, i requires 0 <= i < |ds| => match ds[i] case Register(r) => Move(r) case Upvalue(u) => GetUpval(u))
  }

  function FirstOf(f: Func): nat { if f.blocks == [] then f.nactvar else f.blocks[0].nactvar }

  lemma MarkedBelow(f: Func, cap: set<nat>)
    requires Marked(f, cap)
    ensures forall v :: v in cap ==> v < f.nactvar
  {}

  lemma InsideMore(f: Func, cap: set<nat>, i: nat)
    requires Marked(f, cap) && i < |f.blocks|
    ensures (exists v :: v in cap && v >= if i == 0 then FirstOf(f) else End(f, i - 1)) <==>
            f.blocks[i].upval || exists v :: v in cap && v >= End(f, i)
  {
    assert f.blocks[i].upval <==> Captures(f, cap, i);
  }

  lemma MoreMarked(f: Func, g: Func, cap: set<nat>)
    requires Marked(f, cap) && g == f.(nactvar := g.nactvar) && f.nactvar <= g.nactvar
    ensures Marked(g, cap)
  {
    forall i | 0 <= i < |g.blocks| ensures g.blocks[i].upval <==> Captures(g, cap, i) {
      assert f.blocks[i].upval <==> Captures(f, cap, i);
    }
  }

  lemma EnteredMarked(f: Func, g: Func, cap: set<nat>)
    requires Marked(f, cap) && |g.blocks| == |f.blocks| + 1 && g.blocks[..|f.blocks|] == f.blocks
    requires g.nactvar == f.nactvar
    requires g.blocks[|f.blocks|].nactvar == f.nactvar && !g.blocks[|f.blocks|].upval
    ensures Marked(g, cap)
  {
    assert forall i :: 0 <= i < |f.blocks| ==> g.blocks[i] == f.blocks[i];
    forall i | 0 <= i < |g.blocks| ensures g.blocks[i].upval <==> Captures(g, cap, i) {
      if i < |f.blocks| { assert f.blocks[i].upval <==> Captures(f, cap, i); }
    }
  }

  lemma LeftMarked(f: Func, g: Func, cap: set<nat>)
    requires Marked(f, cap) && f.blocks != [] && g.blocks == f.blocks[..|f.blocks| - 1]
    requires g.nactvar == f.blocks[|f.blocks| - 1].nactvar
    ensures Marked(g, set v | v in cap && v < g.nactvar)
  {
    var c := set v | v in cap && v < g.nactvar;
    forall i | 0 <= i < |g.blocks| ensures g.blocks[i].upval <==> Captures(g, c, i) {
      assert f.blocks[i].upval <==> Captures(f, cap, i);
      assert End(g, i) == End(f, i) <= g.nactvar;
      if Captures(f, cap, i) {
        var v :| v in cap && f.blocks[i].nactvar <= v < End(f, i);
        assert v in c;
      }
    }
  }

  lemma PushedKeeps(fs: seq<Func>, gs: seq<Func>)
    requires Resolved(fs) && gs == fs + [NewFunc()]
    ensures Resolved(gs)
  {
    forall l, j | 0 <= l < |gs| && 0 <= j < |gs[l].upvalues| ensures Shaped(gs) && Leads(gs, l, j) {
      assert Leads(fs, l, j) && fs[..l] == gs[..l];
      SameLeads(fs, gs, l, j);
    }
  }

  lemma PoppedKeeps(fs: seq<Func>, gs: seq<Func>)
    requires Resolved(fs) && fs != [] && gs == fs[..|fs| - 1]
    ensures Resolved(gs)
  {
    forall l, j | 0 <= l < |gs| && 0 <= j < |gs[l].upvalues| ensures Shaped(gs) && Leads(gs, l, j) {
      assert Leads(fs, l, j) && fs[..l] == gs[..l];
      SameLeads(fs, gs, l, j);
    }
  }

  lemma SameMarked(fs: seq<Func>, gs: seq<Func>, caps: seq<set<nat>>)
    requires AllMarked(fs, caps) && |gs| == |fs|
    requires forall l :: 0 <= l < |fs| ==> gs[l].nactvar == fs[l].nactvar && gs[l].blocks == fs[l].blocks
    ensures AllMarked(gs, caps)
  {
    forall l | 0 <= l < |gs| ensures Marked(gs[l], caps[l]) {
      assert Marked(fs[l], caps[l]);
      forall i | 0 <= i < |gs[l].blocks| ensures Captures(gs[l], caps[l], i) <==> Captures(fs[l], caps[l], i) {
        assert End(gs[l], i) == End(fs[l], i);
      }
    }
  }
}
