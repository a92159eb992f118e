/**
  Lists of pending jumps, threaded through the offsets of the jump instructions themselves, and
  what running the code means before and after a list is patched.
 */
module JumpLists {
  import opened Basics
  import opened Bytecode

  const NO_REG: int := -1

  /** The jump that follows the one at `pc` in its list. */
  function GetJump(code: seq<Instr>, pc: nat): int
    requires pc < |code| && code[pc].Jmp?
  {
    if code[pc].sbx == NO_JUMP then NO_JUMP else pc + 1 + code[pc].sbx
  }

  ghost predicate IsList(code: seq<Instr>, head: int, l: seq<nat>)
    decreases l
  {
    if l == [] then head == NO_JUMP
    else head == l[0] && l[0] < |code| && code[l[0]].Jmp? && IsList(code, GetJump(code, l[0]), l[1..])
  }

  ghost predicate NoDup(l: seq<nat>) { forall i, j :: 0 <= i < j < |l| ==> l[i] != l[j] }

  function Elems(l: seq<nat>): set<nat> { set x | x in l }

  /** `getjumpcontrol`: the instruction that decides whether the jump at `j` is taken. */
  function Control(code: seq<Instr>, j: nat): Instr
    requires j < |code|
  {
    if j >= 1 && IsTest(code[j - 1]) then code[j - 1] else code[j]
  }

  /** A TESTSET told to leave its value in `reg`, or told that nobody wants it. */
  function PatchTest(i: Instr, reg: int): Instr
    requires i.TestSet?
  {
    if reg != NO_REG && reg != i.b then TestSet(reg, i.b, i.c) else Test(i.b, i.c)
  }

  /** Where patching sends the jump at `j`: value producers to `vtarget`, others to `dtarget`. */
  function Target(code: seq<Instr>, j: nat, vtarget: int, dtarget: int): int
    requires j < |code|
  {
    if Control(code, j).TestSet? then vtarget else dtarget
  }

  function PatchedAt(code: seq<Instr>, l: set<nat>, vtarget: int, reg: int, dtarget: int, i: nat): Instr
    requires i < |code|
  {
    if i in l && code[i].Jmp? then Jmp(Target(code, i, vtarget, dtarget) - (i + 1))
    else if i + 1 in l && code[i].TestSet? then PatchTest(code[i], reg)
    else code[i]
  }

  /** The code after all jumps in `l`, and no others, have been redirected. */
  function Patched(code: seq<Instr>, l: set<nat>, vtarget: int, reg: int, dtarget: int): (c: seq<Instr>)
    ensures |c| == |code|
    ensures forall i | 0 <= i < |code| :: c[i] == PatchedAt(code, l, vtarget, reg, dtarget, i)
  {
    seq(|code|, i requires 0 <= i < |code| => PatchedAt(code, l, vtarget, reg, dtarget, i))
  }

  /** The registers on arrival after a patched jump that left the code at `j` with `r`. */
  function Landed(code: seq<Instr>, j: nat, r: Regs, reg: int): Regs
    requires j < |code|
  {
    var c := Control(code, j);
    if c.TestSet? && reg != NO_REG && reg != c.b then r[reg := Get(r, c.b)] else r
  }

  /** Going on from where the code used to end. */
  function Onward(env: Env, k: seq<Value>, x: Exit, s: Snap, n: nat): Exit {
    if x.Fall? then Run(env, k, s, n, x.r) else x
  }

  lemma PatchedTests(code: seq<Instr>, l: set<nat>, v: int, reg: int, d: int)
    ensures forall i | 0 <= i < |code| :: IsTest(Patched(code, l, v, reg, d)[i]) == IsTest(code[i])
  {
  }

  /** Patching leaves every instruction's step alone, but for the register a TESTSET writes. */
  lemma PatchedStep(env: Env, k: seq<Value>, code: seq<Instr>, l: set<nat>, v: int, reg: int, d: int, p: nat, r: Regs)
    requires p < |code|
    ensures var n, n' := Step(env, k, code[p], p, r), Step(env, k, Patched(code, l, v, reg, d)[p], p, r);
      if n.Take?
      then n'.Take? && n'.j == n.j && n'.plain == n.plain
           && (n.j !in l ==> n'.written == n.written)
           && (n.j in l && (code[p].Jmp? ==> p == 0 || !IsTest(code[p - 1]))
               ==> n.j < |code| ==> n'.written == Landed(code, n.j, r, reg))
      else n' == n
  {
    if p + 1 < |code| && IsTest(code[p]) { assert Control(code, p + 1) == code[p]; }
  }

  /** Appending code: whatever left the old code at its end now runs the new part, the held jumps
      included; everything else is as before. */
  lemma {:induction false} RunEmit(env: Env, k: seq<Value>, s: Snap, s': Snap, new_: seq<Instr>, p: nat, r: Regs)
    requires s'.code == Patched(s.code, s.held, |s.code|, NO_REG, |s.code|) + new_
    requires s.held !! s.open
    requires forall j | j in s.held :: j < |s.code|
    requires forall j | j < |s.code| :: j in s'.open <==> j in s.open
    requires forall j | j in s'.held :: j >= |s.code|
    requires !Run(env, k, s, p, r).Stuck?
    ensures Run(env, k, s', p, r) == Onward(env, k, Run(env, k, s, p, r), s', |s.code|)
    decreases |s.code| - p, 1
  {
    hide Step;
    var n := |s.code|;
    if p < n {
      assert s'.code[p] == Patched(s.code, s.held, n, NO_REG, n)[p];
      PatchedStep(env, k, s.code, s.held, n, NO_REG, n, p, r);
      PatchedTests(s.code, s.held, n, NO_REG, n);
      if p > 0 { assert s'.code[p-1] == Patched(s.code, s.held, n, NO_REG, n)[p-1]; }
      match Step(env, k, s.code[p], p, r) {
        case Go(q, r') => RunEmit(env, k, s, s', new_, q, r');
        case Take(j, plain, written) =>
          LeapEmit(env, k, s, s', new_, j, if j in s.held + s.open then plain else written);
        case Throw =>
      }
    }
  }

  lemma {:induction false} LeapEmit(env: Env, k: seq<Value>, s: Snap, s': Snap, new_: seq<Instr>, j: nat, r: Regs)
    requires s'.code == Patched(s.code, s.held, |s.code|, NO_REG, |s.code|) + new_
    requires s.held !! s.open
    requires forall j | j in s.held :: j < |s.code|
    requires forall j | j < |s.code| :: j in s'.open <==> j in s.open
    requires forall j | j in s'.held :: j >= |s.code|
    requires !Leap(env, k, s, j, r).Stuck?
    ensures Leap(env, k, s', j, r) == Onward(env, k, Leap(env, k, s, j, r), s', |s.code|)
    decreases |s.code| - j, 0
  {
    hide Step;
    var n := |s.code|;
    assert s'.code[j] == Patched(s.code, s.held, n, NO_REG, n)[j];
    if j !in s.open && j !in s.held {
      RunEmit(env, k, s, s', new_, j + 1 + s.code[j].sbx, r);
    }
  }

  /** Where an open jump of the list goes once the list is patched. */
  function Redirected(env: Env, k: seq<Value>, x: Exit, s: Snap, s': Snap, l: set<nat>, vtarget: int, reg: int,
                      dtarget: int): Exit
  {
    if x.Out? && x.j in l && x.j < |s.code| then
      var t := Target(s.code, x.j, vtarget, dtarget);
      if t < 0 then Stuck else Run(env, k, s', t, Landed(s.code, x.j, x.r, reg))
    else x
  }

  ghost predicate Patches(s: Snap, s': Snap, l: set<nat>, vtarget: int, reg: int, dtarget: int) {
    && s'.code == Patched(s.code, l, vtarget, reg, dtarget)
    && s'.held == s.held && s'.open == s.open - l && l <= s.open && s.held !! s.open
    && forall j | j in l :: j < |s.code| && s.code[j].Jmp? && j < Target(s.code, j, vtarget, dtarget) <= |s.code|
  }

  /** Patching a list redirects exactly the jumps on it. */
  lemma {:induction false} RunPatch(env: Env, k: seq<Value>, s: Snap, s': Snap, l: set<nat>, v: int, reg: int, d: int,
                                    p: nat, r: Regs)
    requires Patches(s, s', l, v, reg, d)
    requires !Run(env, k, s, p, r).Stuck?
    ensures Run(env, k, s', p, r) == Redirected(env, k, Run(env, k, s, p, r), s, s', l, v, reg, d)
    decreases |s.code| - p, 1
  {
    hide Step;
    PatchedTests(s.code, l, v, reg, d);
    if p < |s.code| {
      PatchedStep(env, k, s.code, l, v, reg, d, p, r);
      match Step(env, k, s.code[p], p, r) {
        case Go(q, r') => RunPatch(env, k, s, s', l, v, reg, d, q, r');
        case Take(j, plain, written) =>
          if j in l {
            LeapRedirected(env, k, s, s', l, v, reg, d, j, Landed(s.code, j, plain, reg));
          } else if j !in s.held + s.open {
            LeapPatch(env, k, s, s', l, v, reg, d, j, written);
          }
        case Throw =>
      }
    }
  }

  lemma LeapRedirected(env: Env, k: seq<Value>, s: Snap, s': Snap, l: set<nat>, v: int, reg: int, d: int, j: nat,
                       r: Regs)
    requires Patches(s, s', l, v, reg, d) && j in l
    ensures Leap(env, k, s', j, r) == Run(env, k, s', Target(s.code, j, v, d), r)
  {
    hide Step;
    assert s'.code[j] == PatchedAt(s.code, l, v, reg, d, j);
  }

  lemma {:induction false} LeapPatch(env: Env, k: seq<Value>, s: Snap, s': Snap, l: set<nat>, v: int, reg: int, d: int,
                                     j: nat, r: Regs)
    requires Patches(s, s', l, v, reg, d)
    requires j !in s.held + s.open
    requires !Leap(env, k, s, j, r).Stuck?
    ensures Leap(env, k, s', j, r) == Redirected(env, k, Leap(env, k, s, j, r), s, s', l, v, reg, d)
    decreases |s.code| - j, 0
  {
    hide Step;
    RunPatch(env, k, s, s', l, v, reg, d, j + 1 + s.code[j].sbx, r);
  }

  /** Jumps put on hold land at the end of the code. */
  function Held(x: Exit, l: set<nat>): Exit {
    if x.Out? && x.j in l then Fall(x.r, x.j) else x
  }

  lemma {:induction false} RunHold(env: Env, k: seq<Value>, s: Snap, s': Snap, l: set<nat>, p: nat, r: Regs)
    requires s' == Snap(s.code, s.held + l, s.open - l) && l <= s.open
    ensures Run(env, k, s', p, r) == Held(Run(env, k, s, p, r), l)
    decreases |s.code| - p
  {
    hide Step;
    if p < |s.code| && !(p > 0 && IsTest(s.code[p - 1])) {
      match Step(env, k, s.code[p], p, r) {
        case Go(q, r') => RunHold(env, k, s, s', l, q, r');
        case Take(j, plain, written) =>
          if j < |s.code| && s.code[j].Jmp? && j !in s.held + s.open {
            var target := j + 1 + s.code[j].sbx;
            if j < target <= |s.code| { RunHold(env, k, s, s', l, target, written); }
          }
        case Throw =>
        case Bad =>
      }
    }
  }

  /** Changes that only concern unresolved jumps: their offsets and what their TESTSETs keep. */
  ghost predicate Inert(code: seq<Instr>, code': seq<Instr>, l: set<nat>) {
    && |code'| == |code|
    && forall i: nat | i < |code| ::
      || code'[i] == code[i]
      || (i in l && code[i].Jmp? && code'[i].Jmp?)
      || (i + 1 in l && code[i].TestSet? && code'[i] == Test(code[i].b, code[i].c))
  }

  lemma InertStep(env: Env, k: seq<Value>, code: seq<Instr>, code': seq<Instr>, l: set<nat>, p: nat, r: Regs)
    requires Inert(code, code', l) && p < |code|
    ensures var n, n' := Step(env, k, code[p], p, r), Step(env, k, code'[p], p, r);
      n' == n || (n.Take? && n'.Take? && n'.j == n.j && n.j in l && n'.plain == n.plain)
  {
  }

  lemma {:induction false} RunInert(env: Env, k: seq<Value>, s: Snap, s': Snap, l: set<nat>, p: nat, r: Regs)
    requires Inert(s.code, s'.code, l) && l <= s.held + s.open && s'.held == s.held && s'.open == s.open
    ensures Run(env, k, s', p, r) == Run(env, k, s, p, r)
    decreases |s.code| - p
  {
    hide Step;
    if p < |s.code| && !(p > 0 && IsTest(s.code[p - 1])) {
      InertStep(env, k, s.code, s'.code, l, p, r);
      match Step(env, k, s.code[p], p, r) {
        case Go(q, r') => RunInert(env, k, s, s', l, q, r');
        case Take(j, plain, written) =>
          if j < |s.code| && s.code[j].Jmp? && j !in s.held + s.open {
            var target := j + 1 + s.code[j].sbx;
            if j < target <= |s.code| { RunInert(env, k, s, s', l, target, written); }
          }
        case Throw =>
        case Bad =>
      }
    }
  }
}
