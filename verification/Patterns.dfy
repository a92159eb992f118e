/**
  What a pattern means: the items it is read as, and the ways in which a subject may be divided among
  them. The matcher is to find the first way, in an order that every repetition item decides for itself.
 */
module Patterns {
  const NUL: char := '\0'
  const ESC: char := '%'

  const MAXCAPTURES: nat := 32
  const UNFINISHED: int := -1
  const POSITION: int := -2

  datatype Cap = Cap(init: nat, len: int)

  datatype Answer = Fail | Error | Success(end: nat, caps: seq<Cap>)

  /** A character of a C string: there is a 0 after the last. */
  function Char(s: string, i: nat): char { if i < |s| then s[i] else NUL }

  // ------------------------------------------------------------------------------- character classes

  predicate IsUpper(c: char) { 'A' <= c <= 'Z' }

  predicate IsLower(c: char) { 'a' <= c <= 'z' }

  predicate IsAlpha(c: char) { IsUpper(c) || IsLower(c) }

  predicate IsDigit(c: char) { '0' <= c <= '9' }

  predicate IsAlnum(c: char) { IsAlpha(c) || IsDigit(c) }

  predicate IsXDigit(c: char) { IsDigit(c) || 'a' <= c <= 'f' || 'A' <= c <= 'F' }

  predicate IsSpace(c: char) { c == ' ' || 9 <= c as int <= 13 }

  predicate IsCntrl(c: char) { c as int < 32 || c as int == 127 }

  predicate IsPunct(c: char) { 32 < c as int < 127 && !IsAlnum(c) }

  function ToLower(c: char): char { if IsUpper(c) then (c as int + 32) as char else c }

  /** `match_class`. */
  predicate MatchClass(c: char, cl: char) {
    match ToLower(cl)
    case 'a' => IsAlpha(c) == IsLower(cl)
    case 'c' => IsCntrl(c) == IsLower(cl)
    case 'd' => IsDigit(c) == IsLower(cl)
    case 'l' => IsLower(c) == IsLower(cl)
    case 'p' => IsPunct(c) == IsLower(cl)
    case 's' => IsSpace(c) == IsLower(cl)
    case 'u' => IsUpper(c) == IsLower(cl)
    case 'w' => IsAlnum(c) == IsLower(cl)
    case 'x' => IsXDigit(c) == IsLower(cl)
    case 'z' => (c == NUL) == IsLower(cl)
    case _ => cl == c
  }

  /** Whether one of the elements of a set, from `p` to `ec`, has `c` in it. */
  predicate InSet(pat: string, c: char, p: nat, ec: nat)
    decreases ec - p
  {
    if p >= ec then false
    else if Char(pat, p) == ESC then MatchClass(c, Char(pat, p + 1)) || InSet(pat, c, p + 2, ec)
    else if Char(pat, p + 1) == '-' && p + 2 < ec then
      (Char(pat, p) <= c <= Char(pat, p + 2)) || InSet(pat, c, p + 3, ec)
    else Char(pat, p) == c || InSet(pat, c, p + 1, ec)
  }

  /** A set is from its `[` at `p` to its `]` at `ec`. */
  predicate MatchBracketClass(pat: string, c: char, p: nat, ec: nat) {
    if Char(pat, p + 1) == '^' then !InSet(pat, c, p + 2, ec) else InSet(pat, c, p + 1, ec)
  }

  predicate SingleMatch(pat: string, c: char, p: nat, ep: nat)
    requires ep > 0
  {
    match Char(pat, p)
    case '.' => true
    case '%' => MatchClass(c, Char(pat, p + 1))
    case '[' => MatchBracketClass(pat, c, p, ep - 1)
    case x => x == c
  }

  /** Behind the `]` that ends a set, or -1; the character at `q` is part of the set even if it is `]`. */
  function SetEnd(pat: string, q: nat): (r: int)
    ensures r == -1 || q < r <= |pat|
    decreases |pat| - q
  {
    if Char(pat, q) == NUL then -1
    else
      var n := if pat[q] == ESC && Char(pat, q + 1) != NUL then q + 2 else q + 1;
      if Char(pat, n) == ']' then n + 1 else SetEnd(pat, n)
  }

  /** `classend`: behind a single-character item, or -1 if it is malformed. */
  function ClassEnd(pat: string, p: nat): (r: int)
    requires p < |pat|
    ensures r == -1 || p < r <= |pat|
  {
    if pat[p] == ESC then (if Char(pat, p + 1) == NUL then -1 else p + 2)
    else if pat[p] == '[' then SetEnd(pat, if Char(pat, p + 1) == '^' then p + 2 else p + 1)
    else p + 1
  }

  /** Behind the `e` that balances the `b` before `s`, with `cont` of them open; or -1. */
  function Balance(src: string, s: nat, b: char, e: char, cont: nat): (r: int)
    requires s <= |src| && cont > 0
    ensures r == -1 || s < r <= |src|
    decreases |src| - s
  {
    if s == |src| then -1
    else if src[s] == e then (if cont == 1 then s + 1 else Balance(src, s + 1, b, e, cont - 1))
    else Balance(src, s + 1, b, e, if src[s] == b then cont + 1 else cont)
  }

  /** The last capture that is still open, or -1. */
  function ToClose(caps: seq<Cap>): (l: int)
    ensures l == -1 || (0 <= l < |caps| && caps[l].len == UNFINISHED)
    ensures forall k :: l < k < |caps| ==> caps[k].len != UNFINISHED
  {
    if caps == [] then -1
    else if caps[|caps| - 1].len == UNFINISHED then |caps| - 1
    else ToClose(caps[..|caps| - 1])
  }

  // ----------------------------------------------------------------------------------- items of a pattern

  datatype Mode = Optional | Greedy | GreedyOne | Lazy

  /** What an item asks for: an answer, to go on elsewhere, or to choose how often it repeats. */
  datatype Step = Stop(answer: Answer) | Go(s: nat, p: nat, caps: seq<Cap>) | Choose(ep: nat, mode: Mode)

  function ModeOf(c: char): (m: Mode)
    requires c in "?*+-"
  {
    match c case '?' => Optional case '*' => Greedy case '+' => GreedyOne case _ => Lazy
  }

  /** A back reference: what was captured has to come again. */
  function BackReference(src: string, s: nat, p: nat, caps: seq<Cap>, digit: char): (r: Step)
    requires s <= |src|
    ensures r.Go? ==> s <= r.s <= |src| && r.p == p && r.caps == caps
  {
    var l := digit as int - '1' as int;
    if l < 0 || l >= |caps| || caps[l].len == UNFINISHED then Stop(Error)
    else if caps[l].len >= 0 && caps[l].init + caps[l].len <= |src| && s + caps[l].len <= |src|
            && src[caps[l].init..caps[l].init + caps[l].len] == src[s..s + caps[l].len]
              then Go(s + caps[l].len, p, caps)
    else Stop(Fail)
  }

  /** A single character, possibly repeated. */
  function CharItem(src: string, pat: string, s: nat, p: nat, caps: seq<Cap>): (r: Step)
    requires s <= |src| && p < |pat|
    ensures r.Go? ==> r.s <= |src| && p < r.p <= |pat|
    ensures r.Choose? ==> p < r.ep < |pat|
  {
    var ep := ClassEnd(pat, p);
    if ep == -1 then Stop(Error)
    else if Char(pat, ep) in "?*+-" then Choose(ep, ModeOf(Char(pat, ep)))
    else if s < |src| && SingleMatch(pat, src[s], p, ep) then Go(s + 1, ep, caps)
    else Stop(Fail)
  }

  function Item(src: string, pat: string, s: nat, p: nat, caps: seq<Cap>): (r: Step)
    requires s <= |src| && p <= |pat|
    ensures r.Go? ==> r.s <= |src| && p < r.p <= |pat|
    ensures r.Choose? ==> p < r.ep < |pat|
  {
    if Char(pat, p) == NUL then Stop(Success(s, caps))
    else if pat[p] == '(' then
      if |caps| >= MAXCAPTURES then Stop(Error)
      else if Char(pat, p + 1) == ')' then Go(s, p + 2, caps + [Cap(s, POSITION)])
      else Go(s, p + 1, caps + [Cap(s, UNFINISHED)])
    else if pat[p] == ')' then
      var l := ToClose(caps);
      if l == -1 then Stop(Error) else Go(s, p + 1, caps[l := Cap(caps[l].init, s - caps[l].init)])
    else if pat[p] == '$' && Char(pat, p + 1) == NUL then
      Stop(if s == |src| then Success(s, caps) else Fail)
    else if pat[p] == ESC && Char(pat, p + 1) == 'b' then
      if Char(pat, p + 2) == NUL || Char(pat, p + 3) == NUL then Stop(Error)
      else if Char(src, s) != pat[p + 2] || s == |src| then Stop(Fail)
      else
        var e := Balance(src, s + 1, pat[p + 2], pat[p + 3], 1);
        if e == -1 then Stop(Fail) else Go(e, p + 4, caps)
    else if pat[p] == ESC && Char(pat, p + 1) == 'f' then
      if Char(pat, p + 2) != '[' then Stop(Error)
      else
        var ep := ClassEnd(pat, p + 2);
        if ep == -1 then Stop(Error)
        else if MatchBracketClass(pat, if s == 0 then NUL else src[s - 1], p + 2, ep - 1)
                || !MatchBracketClass(pat, Char(src, s), p + 2, ep - 1) then Stop(Fail)
        else Go(s, ep, caps)
    else if pat[p] == ESC && IsDigit(Char(pat, p + 1)) then BackReference(src, s, p + 2, caps, Char(pat, p + 1))
    else CharItem(src, pat, s, p, caps)
  }

  // ------------------------------------------------------------------------------------ ways of matching

  /** `k` characters from `s` on all match the item from `p` to `ep`, and its mode allows that many. */
  predicate Feasible(src: string, pat: string, s: nat, p: nat, ep: nat, mode: Mode, k: nat)
    requires ep > 0
  {
    && s + k <= |src| && (forall i :: s <= i < s + k ==> SingleMatch(pat, src[i], p, ep))
    && (mode.Optional? ==> k <= 1) && (mode.GreedyOne? ==> k >= 1)
  }

  /** How a match goes when the choices are made beforehand, one number for each repetition that is met. */
  function Follow(src: string, pat: string, s: nat, p: nat, caps: seq<Cap>, choices: seq<nat>): Answer
    requires s <= |src| && p <= |pat|
    decreases |pat| - p
  {
    match Item(src, pat, s, p, caps)
    case Stop(a) => if a.Success? && choices != [] then Fail else a
    case Go(s1, p1, caps1) => Follow(src, pat, s1, p1, caps1, choices)
    case Choose(ep, mode) =>
      if choices == [] || !Feasible(src, pat, s, p, ep, mode, choices[0]) then Fail
      else Follow(src, pat, s + choices[0], ep + 1, caps, choices[1..])
  }

  /** The longest first, except for the lazy repetition, which takes the shortest first. */
  predicate Preferred(mode: Mode, k: nat, than: nat) { if mode.Lazy? then k < than else k > than }

  /** `c` is tried before `d`: at the first repetition where they differ, it makes the preferred choice. */
  predicate Better(src: string, pat: string, s: nat, p: nat, caps: seq<Cap>, c: seq<nat>, d: seq<nat>)
    requires s <= |src| && p <= |pat|
    decreases |pat| - p
  {
    match Item(src, pat, s, p, caps)
    case Stop(_) => false
    case Go(s1, p1, caps1) => Better(src, pat, s1, p1, caps1, c, d)
    case Choose(ep, mode) =>
      c != [] && d != [] &&
      if c[0] != d[0] then Preferred(mode, c[0], d[0])
      else Feasible(src, pat, s, p, ep, mode, c[0]) && Better(src, pat, s + c[0], ep + 1, caps, c[1..], d[1..])
  }

  ghost predicate NoWay(src: string, pat: string, s: nat, p: nat, caps: seq<Cap>)
    requires s <= |src| && p <= |pat|
  {
    forall c :: Follow(src, pat, s, p, caps, c) == Fail
  }

  ghost predicate FirstWay(src: string, pat: string, s: nat, p: nat, caps: seq<Cap>, a: Answer, c: seq<nat>)
    requires s <= |src| && p <= |pat|
  {
    && Follow(src, pat, s, p, caps, c) == a
    && forall d :: Better(src, pat, s, p, caps, d, c) ==> Follow(src, pat, s, p, caps, d) == Fail
  }

  /** `a` is what matching has to answer: failure if no way leads anywhere, or else where the first way leads. */
  ghost predicate First(src: string, pat: string, s: nat, p: nat, caps: seq<Cap>, a: Answer)
    requires s <= |src| && p <= |pat|
  {
    if a.Fail? then NoWay(src, pat, s, p, caps) else exists c :: FirstWay(src, pat, s, p, caps, a, c)
  }

  /** Of two ways that match, one comes first; ways to an error may share the choices up to it. */
  lemma {:induction false} Total(src: string, pat: string, s: nat, p: nat, caps: seq<Cap>, c: seq<nat>, d: seq<nat>)
    requires s <= |src| && p <= |pat| && c != d
    requires !Follow(src, pat, s, p, caps, c).Fail? && !Follow(src, pat, s, p, caps, d).Fail?
    ensures Better(src, pat, s, p, caps, c, d) || Better(src, pat, s, p, caps, d, c)
            || (Follow(src, pat, s, p, caps, c).Error? && Follow(src, pat, s, p, caps, d).Error?)
    decreases |pat| - p
  {
    hide Item;
    match Item(src, pat, s, p, caps)
    case Stop(_) =>
    case Go(s1, p1, caps1) => Total(src, pat, s1, p1, caps1, c, d);
    case Choose(ep, mode) =>
      if c[0] == d[0] {
        assert c == [c[0]] + c[1..] && d == [d[0]] + d[1..];
        Total(src, pat, s + c[0], ep + 1, caps, c[1..], d[1..]);
      }
  }

  /** There is only one answer. */
  lemma OneAnswer(src: string, pat: string, s: nat, p: nat, caps: seq<Cap>, a: Answer, b: Answer)
    requires s <= |src| && p <= |pat| && First(src, pat, s, p, caps, a) && First(src, pat, s, p, caps, b)
    ensures a == b
  {
    if !a.Fail? && !b.Fail? {
      var c :| FirstWay(src, pat, s, p, caps, a, c);
      var d :| FirstWay(src, pat, s, p, caps, b, d);
      if c != d { Total(src, pat, s, p, caps, c, d); }
    }
  }

  // -------------------------------------------------------------------------------- how answers combine

  lemma FirstStop(src: string, pat: string, s: nat, p: nat, caps: seq<Cap>)
    requires s <= |src| && p <= |pat| && Item(src, pat, s, p, caps).Stop?
    ensures First(src, pat, s, p, caps, Item(src, pat, s, p, caps).answer)
  {
    var a := Item(src, pat, s, p, caps).answer;
    if !a.Fail? { assert FirstWay(src, pat, s, p, caps, a, []); }
  }

  lemma FirstGo(src: string, pat: string, s: nat, p: nat, caps: seq<Cap>, a: Answer)
    requires s <= |src| && p <= |pat| && Item(src, pat, s, p, caps).Go?
    requires var i := Item(src, pat, s, p, caps); First(src, pat, i.s, i.p, i.caps, a)
    ensures First(src, pat, s, p, caps, a)
  {
    var i := Item(src, pat, s, p, caps);
    hide Item;
    if a.Fail? {
      forall c ensures Follow(src, pat, s, p, caps, c) == Fail { assert Follow(src, pat, i.s, i.p, i.caps, c) == Fail; }
    } else {
      var c :| FirstWay(src, pat, i.s, i.p, i.caps, a, c);
      forall d | Better(src, pat, s, p, caps, d, c) ensures Follow(src, pat, s, p, caps, d) == Fail {
        assert Better(src, pat, i.s, i.p, i.caps, d, c);
      }
      assert FirstWay(src, pat, s, p, caps, a, c);
    }
  }

  /** Every repetition fails that would be tried before the `k`-th. */
  ghost predicate Tried(src: string, pat: string, s: nat, p: nat, caps: seq<Cap>, ep: nat, mode: Mode, k: nat)
    requires s <= |src| && p < ep < |pat|
  {
    forall j :: Preferred(mode, j, k) && Feasible(src, pat, s, p, ep, mode, j) ==> NoWay(src, pat, s + j, ep + 1, caps)
  }

  /** The first repetition that leads anywhere decides. */
  lemma FirstChoice(src: string, pat: string, s: nat, p: nat, caps: seq<Cap>, k: nat, a: Answer)
    requires s <= |src| && p <= |pat| && Item(src, pat, s, p, caps).Choose? && !a.Fail?
    requires var i := Item(src, pat, s, p, caps);
      Feasible(src, pat, s, p, i.ep, i.mode, k) && Tried(src, pat, s, p, caps, i.ep, i.mode, k)
      && First(src, pat, s + k, i.ep + 1, caps, a)
    ensures First(src, pat, s, p, caps, a)
  {
    var i := Item(src, pat, s, p, caps);
    hide Item;
    var c :| FirstWay(src, pat, s + k, i.ep + 1, caps, a, c);
    var e := [k] + c;
    assert e[1..] == c;
    assert Follow(src, pat, s, p, caps, e) == a;
    forall d | Better(src, pat, s, p, caps, d, e) ensures Follow(src, pat, s, p, caps, d) == Fail {
      if d[0] != k && Feasible(src, pat, s, p, i.ep, i.mode, d[0]) {
        assert NoWay(src, pat, s + d[0], i.ep + 1, caps);
        assert Follow(src, pat, s + d[0], i.ep + 1, caps, d[1..]) == Fail;
      }
    }
    assert FirstWay(src, pat, s, p, caps, a, e);
  }

  /** No repetition leads anywhere. */
  lemma FirstNone(src: string, pat: string, s: nat, p: nat, caps: seq<Cap>)
    requires s <= |src| && p <= |pat| && Item(src, pat, s, p, caps).Choose?
    requires var i := Item(src, pat, s, p, caps);
      forall j :: Feasible(src, pat, s, p, i.ep, i.mode, j) ==> NoWay(src, pat, s + j, i.ep + 1, caps)
    ensures First(src, pat, s, p, caps, Fail)
  {
    var i := Item(src, pat, s, p, caps);
    hide Item;
    forall c ensures Follow(src, pat, s, p, caps, c) == Fail {
      if c != [] && Feasible(src, pat, s, p, i.ep, i.mode, c[0]) {
        assert NoWay(src, pat, s + c[0], i.ep + 1, caps);
        assert Follow(src, pat, s + c[0], i.ep + 1, caps, c[1..]) == Fail;
      }
    }
  }

  // ---------------------------------------------------------------------------- what characters match

  /** The classes, character by character, and that a capital letter is for what its small letter is not for. */
  lemma ClassesAre(c: char, cl: char)
    requires cl in ['a', 'c', 'd', 'l', 'p', 's', 'u', 'w', 'x', 'z']
    ensures MatchClass(c, cl) <==> match cl
      case 'a' => 'a' <= c <= 'z' || 'A' <= c <= 'Z'
      case 'c' => c as int < 32 || c as int == 127
      case 'd' => '0' <= c <= '9'
      case 'l' => 'a' <= c <= 'z'
      case 'p' => '!' <= c <= '/' || ':' <= c <= '@' || '[' <= c <= '`' || '{' <= c <= '~'
      case 's' => c as int in {9, 10, 11, 12, 13, 32}
      case 'u' => 'A' <= c <= 'Z'
      case 'w' => 'a' <= c <= 'z' || 'A' <= c <= 'Z' || '0' <= c <= '9'
      case 'x' => '0' <= c <= '9' || 'a' <= c <= 'f' || 'A' <= c <= 'F'
      case _ => c as int == 0
    ensures MatchClass(c, (cl as int - 32) as char) <==> !MatchClass(c, cl)
  {}

  /** A set of characters each of which stands for itself. */
  lemma {:induction false} SetIs(pat: string, c: char, p: nat, ec: nat)
    requires p <= ec <= |pat| && forall i :: p <= i < ec ==> pat[i] !in [ESC, '-']
    requires ec == |pat| || pat[ec] != '-'
    ensures InSet(pat, c, p, ec) <==> c in pat[p..ec]
    decreases ec - p
  {
    if p < ec {
      SetIs(pat, c, p + 1, ec);
      assert pat[p..ec] == [pat[p]] + pat[p + 1..ec];
    }
  }

  /** A range, and what comes behind it. */
  lemma RangeIs(pat: string, c: char, p: nat, ec: nat)
    requires p + 2 < ec <= |pat| && pat[p] != ESC && pat[p + 1] == '-'
    ensures InSet(pat, c, p, ec) <==> pat[p] <= c <= pat[p + 2] || InSet(pat, c, p + 3, ec)
  {}

  function Count(s: string, lo: nat, hi: nat, c: char): nat
    requires hi <= |s|
  {
    if lo >= hi then 0 else Count(s, lo, hi - 1, c) + if s[hi - 1] == c then 1 else 0
  }

  /** How many more have been opened than closed, with `cont` open before. */
  function Depth(s: string, lo: nat, hi: nat, b: char, e: char, cont: nat): int
    requires hi <= |s|
  {
    cont + (if b == e then 0 else Count(s, lo, hi, b)) - Count(s, lo, hi, e)
  }

  /** `%b` ends where for the first time as many have been closed as opened. */
  lemma {:induction false} BalanceIs(src: string, s: nat, b: char, e: char, cont: nat, from: nat, open: nat)
    requires from <= s <= |src| && cont > 0 && Depth(src, from, s, b, e, open) == cont
    ensures var r := Balance(src, s, b, e, cont);
      && (r != -1 ==> Depth(src, from, r, b, e, open) == 0)
      && forall m :: s <= m < (if r == -1 then |src| + 1 else r) ==> Depth(src, from, m, b, e, open) > 0
    decreases |src| - s
  {
    if s < |src| && !(src[s] == e && cont == 1) {
      var next := if src[s] == e then cont - 1 else if src[s] == b then cont + 1 else cont;
      BalanceIs(src, s + 1, b, e, next, from, open);
    }
  }

  // -------------------------------------------------------------------------- what the operators promise

  /** `k` characters from `s` on all match the single-character item from `p` to `ep`. */
  predicate Repeats(src: string, pat: string, s: nat, p: nat, ep: nat, k: nat)
    requires ep > 0
  {
    s + k <= |src| && forall i :: s <= i < s + k ==> SingleMatch(pat, src[i], p, ep)
  }

  /** At `p` there is a single-character item, and `op` is behind it, at `ep`. */
  predicate Repeated(pat: string, p: nat, ep: nat, op: char) {
    && p < |pat| && pat[p] !in [NUL, '(', ')'] && !(pat[p] == '$' && Char(pat, p + 1) == NUL)
    && !(pat[p] == ESC && (Char(pat, p + 1) in ['b', 'f'] || IsDigit(Char(pat, p + 1))))
    && ClassEnd(pat, p) == ep < |pat| && pat[ep] == op
  }

  /** `?` is for at most one, `+` for at least one. */
  predicate Allowed(op: char, k: nat) { (op == '?' ==> k <= 1) && (op == '+' ==> k >= 1) }

  /** `k` repetitions lead to the answer, and no other number that comes first leads anywhere: a larger one, but for
      `-` a smaller one. */
  ghost predicate Decides(src: string, pat: string, s: nat, p: nat, caps: seq<Cap>, ep: nat, op: char, a: Answer,
                          k: nat)
    requires s <= |src| && p < ep < |pat|
  {
    && Repeats(src, pat, s, p, ep, k) && Allowed(op, k) && First(src, pat, s + k, ep + 1, caps, a)
    && forall j: nat | Repeats(src, pat, s, p, ep, j) && Allowed(op, j) && (if op == '-' then j < k else j > k) ::
         First(src, pat, s + j, ep + 1, caps, Fail)
  }

  /** The longest match for `*`, `+` and `?`, the shortest for `-`, so that the rest matches. */
  lemma OperatorDecides(src: string, pat: string, s: nat, p: nat, caps: seq<Cap>, ep: nat, op: char, a: Answer)
    requires s <= |src| && op in ['*', '+', '?', '-'] && Repeated(pat, p, ep, op) && !a.Fail?
    ensures First(src, pat, s, p, caps, a) <==> exists k :: Decides(src, pat, s, p, caps, ep, op, a, k)
  {
    OperatorItem(src, pat, s, p, caps, ep, op);
    hide Item;
    hide SingleMatch;
    if First(src, pat, s, p, caps, a) {
      var k := ChoiceDecides(src, pat, s, p, caps, a);
      assert Decides(src, pat, s, p, caps, ep, op, a, k);
    }
    if k :| Decides(src, pat, s, p, caps, ep, op, a, k) {
      FirstChoice(src, pat, s, p, caps, k, a);
    }
  }

  /** And none if no number of repetitions leads anywhere. */
  lemma OperatorFails(src: string, pat: string, s: nat, p: nat, caps: seq<Cap>, ep: nat, op: char)
    requires s <= |src| && op in ['*', '+', '?', '-'] && Repeated(pat, p, ep, op)
    ensures First(src, pat, s, p, caps, Fail)
            <==> forall j: nat | Repeats(src, pat, s, p, ep, j) && Allowed(op, j) ::
                   First(src, pat, s + j, ep + 1, caps, Fail)
  {
    OperatorItem(src, pat, s, p, caps, ep, op);
    hide Item;
    hide SingleMatch;
    if First(src, pat, s, p, caps, Fail) {
      forall j: nat | Repeats(src, pat, s, p, ep, j) && Allowed(op, j)
        ensures First(src, pat, s + j, ep + 1, caps, Fail)
      {
        var t, n := s + j, ep + 1;
        forall d ensures Follow(src, pat, t, n, caps, d) == Fail {
          assert ([j] + d)[1..] == d;
          assert Follow(src, pat, s, p, caps, [j] + d) == Fail;
        }
      }
    } else if forall j: nat | Repeats(src, pat, s, p, ep, j) && Allowed(op, j) ::
      First(src, pat, s + j, ep + 1, caps, Fail) {
      FirstNone(src, pat, s, p, caps);
    }
  }

  lemma OperatorItem(src: string, pat: string, s: nat, p: nat, caps: seq<Cap>, ep: nat, op: char)
    requires s <= |src| && op in ['*', '+', '?', '-'] && Repeated(pat, p, ep, op)
    ensures Item(src, pat, s, p, caps) == Choose(ep, ModeOf(op))
    ensures forall k: nat :: Feasible(src, pat, s, p, ep, ModeOf(op), k) <==>
                             Repeats(src, pat, s, p, ep, k) && Allowed(op, k)
    ensures forall j: nat, k: nat :: Preferred(ModeOf(op), j, k) <==> if op == '-' then j < k else j > k
  {
    hide SingleMatch;
    assert "?*+-" == ['?', '*', '+', '-'];
  }

  /** With nothing behind it, `*` goes on to the first character that does not match, and `-` stays where it is. */
  lemma OperatorAlone(src: string, pat: string, s: nat, p: nat, caps: seq<Cap>, ep: nat, op: char, e: nat)
    requires s <= e <= |src| && op in ['*', '+', '?', '-'] && Repeated(pat, p, ep, op) && ep + 1 == |pat|
    requires if op == '-' then e == s
             else Repeats(src, pat, s, p, ep, e - s)
                  && ((op == '?' && e == s + 1) || e == |src| || !SingleMatch(pat, src[e], p, ep))
    requires Allowed(op, e - s)
    ensures First(src, pat, s, p, caps, Success(e, caps))
  {
    hide SingleMatch;
    FirstStop(src, pat, e, ep + 1, caps);
    hide First;
    hide Item;
    assert Decides(src, pat, s, p, caps, ep, op, Success(e, caps), e - s);
    OperatorDecides(src, pat, s, p, caps, ep, op, Success(e, caps));
  }

  /** `$` behind everything else is the end of the subject. */
  lemma EndIs(src: string, pat: string, s: nat, p: nat, caps: seq<Cap>)
    requires s <= |src| && p + 1 == |pat| && pat[p] == '$'
    ensures First(src, pat, s, p, caps, if s == |src| then Success(s, caps) else Fail)
  {
    FirstStop(src, pat, s, p, caps);
  }

  /** `()` captures where it stands. */
  lemma PositionIs(src: string, pat: string, s: nat, p: nat, caps: seq<Cap>, a: Answer)
    requires s <= |src| && p + 1 < |pat| && pat[p] == '(' && pat[p + 1] == ')'
    ensures |caps| < 32 && First(src, pat, s, p + 2, caps + [Cap(s, POSITION)], a) ==> First(src, pat, s, p, caps, a)
    ensures |caps| >= 32 ==> First(src, pat, s, p, caps, Error)
  {
    if |caps| >= 32 { FirstStop(src, pat, s, p, caps); }
    else if First(src, pat, s, p + 2, caps + [Cap(s, POSITION)], a) { FirstGo(src, pat, s, p, caps, a); }
  }

  /** A back reference is for what was captured, once more; one to a capture that is not there, or open, is an error. */
  lemma ReferenceIs(src: string, pat: string, s: nat, p: nat, caps: seq<Cap>, n: nat, a: Answer)
    requires s <= |src| && p + 1 < |pat| && pat[p] == '%' && '0' <= pat[p + 1] <= '9'
    requires n == pat[p + 1] as int - '0' as int
    ensures n == 0 || n > |caps| || caps[n - 1].len == UNFINISHED ==> First(src, pat, s, p, caps, Error)
    ensures 0 < n <= |caps| && caps[n - 1].len >= 0 && caps[n - 1].init + caps[n - 1].len <= |src| ==>
              var text := src[caps[n - 1].init..][..caps[n - 1].len];
              if text <= src[s..] then
                First(src, pat, s + |text|, p + 2, caps, a) ==> First(src, pat, s, p, caps, a)
              else First(src, pat, s, p, caps, Fail)
  {
    if n == 0 || n > |caps| || caps[n - 1].len == UNFINISHED {
      FirstStop(src, pat, s, p, caps);
    } else if caps[n - 1].len >= 0 && caps[n - 1].init + caps[n - 1].len <= |src| {
      var from, len := caps[n - 1].init, caps[n - 1].len;
      var text := src[from..][..len];
      assert text == src[from..from + len];
      if text <= src[s..] {
        assert src[s..][..len] == src[s..s + len];
        if First(src, pat, s + len, p + 2, caps, a) { FirstGo(src, pat, s, p, caps, a); }
      } else {
        if s + len <= |src| { assert src[s..][..len] == src[s..s + len]; }
        FirstStop(src, pat, s, p, caps);
      }
    }
  }

  /** What was opened before `lo` is not closed before `hi`. */
  predicate Unclosed(src: string, lo: nat, hi: nat, b: char, e: char)
    requires hi <= |src| + 1
  {
    forall m :: lo <= m < hi ==> Depth(src, lo, m, b, e, 1) > 0
  }

  /** `%b` goes from an opening character to the one that closes it, or nowhere. */
  lemma BalancedIs(src: string, pat: string, s: nat, p: nat, caps: seq<Cap>, e: nat, a: Answer)
    requires s <= |src| && p + 3 < |pat| && pat[p] == '%' && pat[p + 1] == 'b' && pat[p + 2] != NUL && pat[p + 3] != NUL
    ensures s == |src| || src[s] != pat[p + 2] ==> First(src, pat, s, p, caps, Fail)
    ensures s < |src| && src[s] == pat[p + 2] && Unclosed(src, s + 1, |src| + 1, pat[p + 2], pat[p + 3]) ==>
              First(src, pat, s, p, caps, Fail)
    ensures s < e <= |src| && src[s] == pat[p + 2] && Unclosed(src, s + 1, e, pat[p + 2], pat[p + 3])
            && Depth(src, s + 1, e, pat[p + 2], pat[p + 3], 1) == 0 ==>
              (First(src, pat, e, p + 4, caps, a) ==> First(src, pat, s, p, caps, a))
  {
    hide First;
    if s == |src| || src[s] != pat[p + 2] {
      FirstStop(src, pat, s, p, caps);
    } else {
      BalanceIs(src, s + 1, pat[p + 2], pat[p + 3], 1, s + 1, 1);
      var r := Balance(src, s + 1, pat[p + 2], pat[p + 3], 1);
      if r == -1 {
        FirstStop(src, pat, s, p, caps);
      } else if First(src, pat, r, p + 4, caps, a) {
        FirstGo(src, pat, s, p, caps, a);
      }
    }
  }

  /** A frontier is between a character that is not in the set and one that is, with a zero at both ends. */
  lemma FrontierIs(src: string, pat: string, s: nat, p: nat, caps: seq<Cap>, ep: nat, a: Answer)
    requires s <= |src| && p + 2 < |pat| && pat[p] == '%' && pat[p + 1] == 'f' && pat[p + 2] == '['
    requires ClassEnd(pat, p + 2) == ep
    ensures var before, next := if s == 0 then NUL else src[s - 1], if s == |src| then NUL else src[s];
      if MatchBracketClass(pat, before, p + 2, ep - 1) || !MatchBracketClass(pat, next, p + 2, ep - 1)
      then First(src, pat, s, p, caps, Fail)
      else First(src, pat, s, ep, caps, a) ==> First(src, pat, s, p, caps, a)
  {
    var before, next := if s == 0 then NUL else src[s - 1], if s == |src| then NUL else src[s];
    if MatchBracketClass(pat, before, p + 2, ep - 1) || !MatchBracketClass(pat, next, p + 2, ep - 1) {
      FirstStop(src, pat, s, p, caps);
    } else if First(src, pat, s, ep, caps, a) {
      FirstGo(src, pat, s, p, caps, a);
    }
  }

  /** In parentheses, what it goes over is captured. */
  lemma CaptureAlone(src: string, pat: string, s: nat, p: nat, ep: nat, op: char, e: nat)
    requires s <= e <= |src| && p < |pat| && pat[p] == '(' && op in ['*', '+', '?', '-']
    requires Repeated(pat, p + 1, ep, op) && ep + 2 == |pat| && pat[ep + 1] == ')'
    requires if op == '-' then e == s
             else Repeats(src, pat, s, p + 1, ep, e - s)
                  && ((op == '?' && e == s + 1) || e == |src| || !SingleMatch(pat, src[e], p + 1, ep))
    requires Allowed(op, e - s)
    ensures First(src, pat, s, p, [], Success(e, [Cap(s, e - s)]))
  {
    hide SingleMatch;
    var open, done := [Cap(s, UNFINISHED)], [Cap(s, e - s)];
    assert [] + open == open && ToClose(open) == 0 && open[0 := done[0]] == done;
    FirstStop(src, pat, e, ep + 2, done);
    FirstGo(src, pat, e, ep + 1, open, Success(e, done));
    var goes := Item(src, pat, s, p, []) == Go(s, p + 1, open);
    assert goes;
    hide First;
    hide Item;
    assert Decides(src, pat, s, p + 1, open, ep, op, Success(e, done), e - s);
    OperatorDecides(src, pat, s, p + 1, open, ep, op, Success(e, done));
    FirstGo(src, pat, s, p, [], Success(e, done));
  }

  /** Of an item that is chosen, what is first comes of the first choice that leads anywhere. */
  lemma ChoiceDecides(src: string, pat: string, s: nat, p: nat, caps: seq<Cap>, a: Answer) returns (k: nat)
    requires s <= |src| && p <= |pat| && Item(src, pat, s, p, caps).Choose? && !a.Fail?
    requires First(src, pat, s, p, caps, a)
    ensures var i := Item(src, pat, s, p, caps);
      && Feasible(src, pat, s, p, i.ep, i.mode, k) && First(src, pat, s + k, i.ep + 1, caps, a)
      && Tried(src, pat, s, p, caps, i.ep, i.mode, k)
  {
    hide Item;
    var c :| FirstWay(src, pat, s, p, caps, a, c);
    k := c[0];
    ChoiceRest(src, pat, s, p, caps, a, c);
    var i := Item(src, pat, s, p, caps);
    forall j | Preferred(i.mode, j, k) && Feasible(src, pat, s, p, i.ep, i.mode, j)
      ensures NoWay(src, pat, s + j, i.ep + 1, caps)
    {
      ChoiceTried(src, pat, s, p, caps, a, c, j);
    }
  }

  lemma ChoiceRest(src: string, pat: string, s: nat, p: nat, caps: seq<Cap>, a: Answer, c: seq<nat>)
    requires s <= |src| && p <= |pat| && Item(src, pat, s, p, caps).Choose? && !a.Fail?
    requires FirstWay(src, pat, s, p, caps, a, c)
    ensures var i := Item(src, pat, s, p, caps);
      && c != [] && Feasible(src, pat, s, p, i.ep, i.mode, c[0])
      && FirstWay(src, pat, s + c[0], i.ep + 1, caps, a, c[1..])
  {
    var i := Item(src, pat, s, p, caps);
    hide Item;
    var t, n, rest := s + c[0], i.ep + 1, c[1..];
    forall d | Better(src, pat, t, n, caps, d, rest) ensures Follow(src, pat, t, n, caps, d) == Fail {
      assert ([c[0]] + d)[1..] == d;
      assert Better(src, pat, s, p, caps, [c[0]] + d, c);
    }
  }

  lemma ChoiceTried(src: string, pat: string, s: nat, p: nat, caps: seq<Cap>, a: Answer, c: seq<nat>, j: nat)
    requires s <= |src| && p <= |pat| && Item(src, pat, s, p, caps).Choose? && c != []
    requires FirstWay(src, pat, s, p, caps, a, c)
    requires var i := Item(src, pat, s, p, caps);
      Preferred(i.mode, j, c[0]) && Feasible(src, pat, s, p, i.ep, i.mode, j)
    ensures NoWay(src, pat, s + j, Item(src, pat, s, p, caps).ep + 1, caps)
  {
    var i := Item(src, pat, s, p, caps);
    hide Item;
    var t, n := s + j, i.ep + 1;
    forall d ensures Follow(src, pat, t, n, caps, d) == Fail {
      assert ([j] + d)[1..] == d;
      assert Better(src, pat, s, p, caps, [j] + d, c);
    }
  }
}
