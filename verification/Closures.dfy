/**
  What becomes of the functions that the parser is in: the finished functions, the closures made of them when the
  code runs, and the variables that the names in them lead to.
 */
module Closures {
  import opened Basics
  import opened Scoping

  // ---------------------------------------------------------------------------- the finished functions

  /** Wherever the code makes a closure, of one of the functions inside, that function's upvalues follow. */
  ghost predicate Makes(p: Proto) {
    forall at :: 0 <= at < |p.code| && p.code[at].Closure? ==> MakesAt(p, at)
  }

  ghost predicate MakesAt(p: Proto, at: nat)
    requires at < |p.code| && p.code[at].Closure?
  {
    var i := p.code[at].p;
    && i < |p.protos|
    && at + 1 + |p.protos[i].upvalues| <= |p.code|
    && p.code[at + 1..at + 1 + |p.protos[i].upvalues|] == Pseudo(p.protos[i].upvalues)
  }

  /** And in the functions inside. */
  ghost predicate Sound(p: Proto) { Makes(p) && forall i :: 0 <= i < |p.protos| ==> Sound(p.protos[i]) }

  ghost predicate AllSound(fs: seq<Func>) { forall l :: 0 <= l < |fs| ==> Sound(Finished(fs[l])) }

  /** A run of the parser, from the start of the main function. */
  ghost predicate Parses(run: seq<seq<Func>>) {
    && run != [] && run[0] == [NewFunc()]
    && (forall i :: 0 <= i < |run| ==> run[i] != [])
    && forall i :: 0 <= i < |run| - 1 ==> Goes(run[i], run[i + 1])
  }

  lemma LongerSound(f: Func, g: Func)
    requires Longer(f, g) && Sound(Finished(f))
    ensures Sound(Finished(g))
  {
    var p, q := Finished(f), Finished(g);
    NewNone(f, g);
    forall at | 0 <= at < |q.code| && q.code[at].Closure? ensures MakesAt(q, at) {
      assert p.code[at] == q.code[at] && MakesAt(p, at);
      Slice(p.code, q.code, at + 1, at + 1 + |p.protos[p.code[at].p].upvalues|);
    }
  }

  lemma NewNone(f: Func, g: Func)
    requires Longer(f, g)
    ensures forall i | |f.code| <= i < |g.code| :: !g.code[i].Closure?
  {
    forall i | |f.code| <= i < |g.code| ensures g.code[i] in g.code[|f.code|..] {
      assert g.code[|f.code|..][i - |f.code|] == g.code[i];
    }
  }

  lemma Slice<T>(s: seq<T>, t: seq<T>, i: nat, j: nat)
    requires s <= t && i <= j <= |s|
    ensures t[i..j] == s[i..j]
  {
  }

  lemma EnclosingSound(g: Func, f: Func)
    requires Sound(Finished(g)) && Sound(Finished(f))
    ensures Sound(Finished(Enclosing(g, f)))
  {
    var p, q := Finished(g), Finished(Enclosing(g, f));
    forall at | 0 <= at < |q.code| && q.code[at].Closure? ensures MakesAt(q, at) {
      if at < |g.code| {
        assert p.code[at] == q.code[at] && MakesAt(p, at);
        var i := p.code[at].p;
        assert q.protos[i] == p.protos[i];
        var n := |p.protos[i].upvalues|;
        assert q.code[at + 1..at + 1 + n] == p.code[at + 1..at + 1 + n];
      } else {
        if at > |g.code| { PseudoMakesNone(f.upvalues, at - |g.code| - 1); }
        assert at == |g.code|;
        assert q.protos[|g.protos|] == Finished(f);
        assert q.code[at + 1..at + 1 + |f.upvalues|] == Pseudo(f.upvalues);
      }
    }
    forall i | 0 <= i < |q.protos| ensures Sound(q.protos[i]) {
      if i < |p.protos| { assert q.protos[i] == p.protos[i]; }
    }
  }

  lemma PseudoMakesNone(ds: seq<Desc>, i: nat)
    requires i < |ds|
    ensures !Pseudo(ds)[i].Closure?
  {
  }

  lemma GoesSound(fs: seq<Func>, gs: seq<Func>)
    requires Goes(fs, gs) && AllSound(fs)
    ensures AllSound(gs)
  {
    forall l | 0 <= l < |gs| ensures Sound(Finished(gs[l])) {
      if |gs| == |fs| {
        LongerSound(fs[l], gs[l]);
      } else if |gs| == |fs| - 1 && l == |fs| - 2 {
        EnclosingSound(fs[l], fs[l + 1]);
      } else if l < |fs| {
        assert gs[l] == fs[l];
      }
    }
  }

  /** Whatever has been parsed is sound. */
  lemma {:induction false} ParsedSound(run: seq<seq<Func>>, n: nat)
    requires Parses(run) && n < |run|
    ensures AllSound(run[n])
  {
    if n > 0 {
      ParsedSound(run, n - 1);
      GoesSound(run[n - 1], run[n - 1 + 1]);
    }
  }

  // ------------------------------------------------------------------------------ what becomes of them

  /** What the functions `fs` have become by the time that the parser is in `gs`: the first `m` it is still in, the
      others are finished, each inside the one before, where its turn was. */
  ghost predicate Becomes(fs: seq<Func>, gs: seq<Func>, ps: seq<Proto>, m: nat) {
    && |ps| == |fs| && 1 <= m <= |fs| && m <= |gs|
    && (forall l :: 0 <= l < |fs| ==> fs[l].upvalues <= ps[l].upvalues)
    && (forall l :: 0 <= l < m ==> ps[l] == Finished(gs[l]))
    && (forall l :: 0 <= l < m - 1 ==> |gs[l].protos| == |fs[l].protos|)
    && (forall l :: m <= l < |fs| ==> Inside(fs, ps, l))
  }

  ghost predicate Inside(fs: seq<Func>, ps: seq<Proto>, l: nat)
    requires 0 < l < |fs| == |ps|
  {
    var i := |fs[l - 1].protos|;
    i < |ps[l - 1].protos| && ps[l - 1].protos[i] == ps[l]
  }

  lemma LongerBecomes(fs: seq<Func>, gs: seq<Func>, hs: seq<Func>, ps: seq<Proto>, m: nat) returns (qs: seq<Proto>)
    requires Becomes(fs, gs, ps, m) && |hs| == |gs| && forall l :: 0 <= l < |gs| ==> Longer(gs[l], hs[l])
    ensures Becomes(fs, hs, qs, m)
  {
    qs := seq(|ps|, l requires 0 <= l < |ps| => if l < m then Finished(hs[l]) else ps[l]);
    forall l | m <= l < |fs| ensures Inside(fs, qs, l) { assert Inside(fs, ps, l); }
    forall l | 0 <= l < |fs| ensures fs[l].upvalues <= qs[l].upvalues {
      if l < m { assert ps[l] == Finished(gs[l]) && Longer(gs[l], hs[l]); }
    }
  }

  lemma ClosedBecomes(fs: seq<Func>, gs: seq<Func>, hs: seq<Func>, ps: seq<Proto>, m: nat)
    returns (qs: seq<Proto>, m': nat)
    requires Becomes(fs, gs, ps, m)
    requires |gs| > 1 && hs == gs[..|gs| - 1][|gs| - 2 := Enclosing(gs[|gs| - 2], gs[|gs| - 1])]
    ensures Becomes(fs, hs, qs, m')
  {
    var t := |gs| - 1;
    m' := if m > t then t else m;
    qs := if m >= t then ps[t - 1 := Finished(hs[t - 1])] else ps;
    forall l | m' <= l < |fs| ensures Inside(fs, qs, l) {
      if l == t && m > t {
        assert |gs[t - 1].protos| == |fs[t - 1].protos|;
        assert qs[t] == ps[t] == Finished(gs[t]);
      } else {
        assert Inside(fs, ps, l);
      }
    }
    forall l | 0 <= l < m' ensures qs[l] == Finished(hs[l]) {
      if l != t - 1 { assert hs[l] == gs[l]; }
    }
    forall l | 0 <= l < m' - 1 ensures |hs[l].protos| == |fs[l].protos| {
      assert hs[l] == gs[l];
    }
  }

  /** Functions go on becoming what they become. */
  lemma GoesBecomes(fs: seq<Func>, gs: seq<Func>, hs: seq<Func>, ps: seq<Proto>, m: nat)
    returns (qs: seq<Proto>, m': nat)
    requires Becomes(fs, gs, ps, m) && Goes(gs, hs)
    ensures Becomes(fs, hs, qs, m')
  {
    if |hs| == |gs| {
      qs := LongerBecomes(fs, gs, hs, ps, m);
      m' := m;
    } else if |hs| > |gs| {
      qs, m' := ps, m;
      forall l | 0 <= l < m ensures hs[l] == gs[l] {}
    } else {
      qs, m' := ClosedBecomes(fs, gs, hs, ps, m);
    }
  }

  lemma {:induction false} ParsedBecomes(run: seq<seq<Func>>, now: nat, n: nat) returns (ps: seq<Proto>, m: nat)
    requires Parses(run) && now <= n < |run|
    ensures Becomes(run[now], run[n], ps, m)
    decreases n - now
  {
    if n == now {
      var fs := run[now];
      ps, m := seq(|fs|, l requires 0 <= l < |fs| => Finished(fs[l])), |fs|;
    } else {
      var qs, k := ParsedBecomes(run, now, n - 1);
      ps, m := GoesBecomes(run[now], run[n - 1], run[n - 1 + 1], qs, k);
    }
  }

  /** The functions that a name stands in, as they are in the finished main function. */
  ghost predicate Path(fs: seq<Func>, main: Proto, ps: seq<Proto>) {
    |ps| == |fs| > 0 && ps[0] == main && forall l :: 0 < l < |fs| ==> Inside(fs, ps, l)
  }

  lemma {:induction false} PathOnly(fs: seq<Func>, main: Proto, ps: seq<Proto>, qs: seq<Proto>, l: nat)
    requires Path(fs, main, ps) && Path(fs, main, qs) && l < |fs|
    ensures ps[l] == qs[l]
  {
    if l > 0 {
      PathOnly(fs, main, ps, qs, l - 1);
      assert Inside(fs, ps, l) && Inside(fs, qs, l);
    }
  }

  /** Every function that the parser was in ends up inside the main function, sound and with all its upvalues. */
  lemma PathThere(run: seq<seq<Func>>, now: nat) returns (ps: seq<Proto>)
    requires Parses(run) && now < |run| && |run[|run| - 1]| == 1
    ensures Path(run[now], Finished(run[|run| - 1][0]), ps)
    ensures forall l :: 0 <= l < |ps| ==> run[now][l].upvalues <= ps[l].upvalues && Sound(ps[l])
  {
    var m;
    ps, m := ParsedBecomes(run, now, |run| - 1);
    ParsedSound(run, |run| - 1);
    forall l | 0 <= l < |ps| ensures Sound(ps[l]) { PathSound(run[now], Finished(run[|run| - 1][0]), ps, l); }
  }

  lemma {:induction false} PathSound(fs: seq<Func>, main: Proto, ps: seq<Proto>, l: nat)
    requires Path(fs, main, ps) && Sound(main) && l < |ps|
    ensures Sound(ps[l])
  {
    if l > 0 {
      PathSound(fs, main, ps, l - 1);
      assert Inside(fs, ps, l);
    }
  }

  // ------------------------------------------------------------------------------------- running code

  /** A register of one activation of a function. */
  datatype Cell = Cell(activation: nat, register: nat)

  /** OP_CLOSURE: where the upvalues of a new closure are, when activation `act`, with the upvalues `ups`, makes it. */
  function MakeUpvals(code: seq<Op>, pc: nat, n: nat, act: nat, ups: seq<Cell>): (r: seq<Option<Cell>>)
    requires pc + n <= |code|
    ensures |r| == n
  {
    seq(n, j requires 0 <= j < n =>
      match code[pc + j]
      case Move(b) => Some(Cell(act, b))
      case GetUpval(b) => if b < |ups| then Some(ups[b]) else None
      case _ => None)
  }

  /** The closures that are running, one in the other: each was made by an activation of the function around it. */
  ghost predicate Nested(descs: seq<seq<Desc>>, code: seq<seq<Op>>, at: seq<nat>, acts: seq<nat>, ups: seq<seq<Cell>>) {
    && |descs| == |code| == |at| == |acts| == |ups| && |descs| > 0 && ups[0] == []
    && forall l :: 0 < l < |descs| ==>
         && at[l] + |descs[l]| <= |code[l - 1]| && code[l - 1][at[l]..at[l] + |descs[l]|] == Pseudo(descs[l])
         && |ups[l]| == |descs[l]|
         && forall j :: 0 <= j < |descs[l]| ==>
              MakeUpvals(code[l - 1], at[l], |descs[l]|, acts[l - 1], ups[l - 1])[j] == Some(ups[l][j])
  }

  /** Where the code of function `l` finds a variable. */
  function Finds(l: nat, v: Var, acts: seq<nat>, ups: seq<seq<Cell>>): Option<Cell> {
    match v
    case Global => None
    case Local(i) => if l < |acts| then Some(Cell(acts[l], i)) else None
    case Upval(j) => if l < |ups| && j < |ups[l]| then Some(ups[l][j]) else None
  }

  /** Following the descriptors of the finished functions through the closures leads to a register of the right
      activation. */
  lemma {:induction false} Follows(fs: seq<Func>, descs: seq<seq<Desc>>, code: seq<seq<Op>>, at: seq<nat>,
                                   acts: seq<nat>, ups: seq<seq<Cell>>,
                                   l: nat, j: nat)
    requires Nested(descs, code, at, acts, ups) && |fs| <= |descs| && l < |fs|
    requires forall k :: 0 <= k < |fs| ==> fs[k].upvalues <= descs[k]
    requires Target(fs, l, Upvalue(j)).Some?
    ensures var (m, r) := Target(fs, l, Upvalue(j)).value; j < |ups[l]| && m < l && ups[l][j] == Cell(acts[m], r)
  {
    var d := fs[l].upvalues[j];
    assert descs[l][j] == d;
    assert Pseudo(descs[l])[j] == code[l - 1][at[l]..at[l] + |descs[l]|][j] == code[l - 1][at[l] + j];
    assert MakeUpvals(code[l - 1], at[l], |descs[l]|, acts[l - 1], ups[l - 1])[j] == Some(ups[l][j]);
    if d.Upvalue? { Follows(fs, descs, code, at, acts, ups, l - 1, d.u); }
  }

  /** Closures of the functions `ps` that are running, one in the other: activation `acts[l - 1]` of the function
      around it made
      the closure of function `l`, with upvalues `ups[l]`, by the instruction at `at[l]`. */
  ghost predicate Running(ps: seq<Proto>, at: seq<nat>, acts: seq<nat>, ups: seq<seq<Cell>>) {
    && |at| == |acts| == |ups| == |ps| > 0 && ups[0] == []
    && forall l :: 0 < l < |ps| ==> ClosureOf(ps[l - 1], at[l], ps[l], acts[l - 1], ups[l - 1], ups[l])
  }

  /** The instruction at `pc` makes a closure of `p`, which gets the upvalues `made`. */
  ghost predicate ClosureOf(around: Proto, pc: nat, p: Proto, act: nat, ups: seq<Cell>, made: seq<Cell>) {
    && pc < |around.code| && around.code[pc].Closure?
    && around.code[pc].p < |around.protos| && around.protos[around.code[pc].p] == p
    && |made| == |p.upvalues| && pc + 1 + |p.upvalues| <= |around.code|
    && forall j :: 0 <= j < |made| ==> MakeUpvals(around.code, pc + 1, |made|, act, ups)[j] == Some(made[j])
  }

  lemma RunningNested(ps: seq<Proto>, at: seq<nat>, acts: seq<nat>, ups: seq<seq<Cell>>) returns (after: seq<nat>)
    requires Running(ps, at, acts, ups) && forall l :: 0 <= l < |ps| ==> Sound(ps[l])
    ensures Nested(seq(|ps|, l requires 0 <= l < |ps| => ps[l].upvalues),
                   seq(|ps|, l requires 0 <= l < |ps| => ps[l].code),
                   after, acts, ups)
  {
    hide Sound; hide Pseudo; hide MakeUpvals;
    after := seq(|at|, l requires 0 <= l < |at| => at[l] + 1);
    var descs := seq(|ps|, l requires 0 <= l < |ps| => ps[l].upvalues);
    var code := seq(|ps|, l requires 0 <= l < |ps| => ps[l].code);
    forall l | 0 < l < |ps|
      ensures after[l] + |descs[l]| <= |code[l - 1]| && |ups[l]| == |descs[l]|
      ensures code[l - 1][after[l]..after[l] + |descs[l]|] == Pseudo(descs[l])
      ensures forall j :: 0 <= j < |descs[l]| ==>
        MakeUpvals(code[l - 1], after[l], |descs[l]|, acts[l - 1], ups[l - 1])[j] == Some(ups[l][j])
    {
      ClosurePseudo(ps[l - 1], at[l], ps[l], acts[l - 1], ups[l - 1], ups[l]);
    }
  }

  lemma ClosurePseudo(around: Proto, pc: nat, p: Proto, act: nat, ups: seq<Cell>, made: seq<Cell>)
    requires Sound(around) && ClosureOf(around, pc, p, act, ups, made)
    ensures pc + 1 + |p.upvalues| <= |around.code|
    ensures around.code[pc + 1..pc + 1 + |p.upvalues|] == Pseudo(p.upvalues)
  {
    assert MakesAt(around, pc);
  }

  /**
    What the parser made of a name is, when the finished code runs, the register of its innermost declaration, in the
    activation of the function that declares it, however deep the functions are nested, and whatever upvalues they
    got later.
   */
  lemma ReachesDeclaration(run: seq<seq<Func>>, now: nat, v: Var, place: Option<Place>, ps: seq<Proto>, at: seq<nat>,
                           acts: seq<nat>, ups: seq<seq<Cell>>)
    requires Parses(run) && now < |run| && |run[|run| - 1]| == 1
    requires Means(run[now], |run[now]|, v, place)
    requires Path(run[now], Finished(run[|run| - 1][0]), ps) && Running(ps, at, acts, ups)
    ensures match place
      case None => v == Global
      case Some((m, r)) => m < |acts| && Finds(|ps| - 1, v, acts, ups) == Some(Cell(acts[m], r))
  {
    var fs := run[now];
    var qs := PathThere(run, now);
    forall l | 0 <= l < |ps| ensures ps[l] == qs[l] { PathOnly(fs, Finished(run[|run| - 1][0]), ps, qs, l); }
    var after := RunningNested(ps, at, acts, ups);
    if v.Upval? {
      Follows(fs, seq(|ps|, l requires 0 <= l < |ps| => ps[l].upvalues),
              seq(|ps|, l requires 0 <= l < |ps| => ps[l].code),
              after, acts, ups, |fs| - 1, v.j);
    }
  }
}
