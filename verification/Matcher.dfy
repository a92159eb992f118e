/**
  The pattern matcher: it walks the pattern and the subject at once, backtracking over repetitions, with
  the captures kept in a fixed array that is changed on the way and restored after a failure.
 */
module Matcher {
  import opened Patterns

  /** What `match` returns: a null pointer, an error raised, or where the match ends. */
  datatype Result = NoMatch | Raised | Ends(at: nat)

  class MatchState {
    const src: string
    const pat: string
    var level: nat
    const capture: array<Cap>

    constructor (src: string, pat: string)
      ensures this.src == src && this.pat == pat && Valid() && level == 0 && fresh(capture)
    {
      this.src, this.pat := src, pat;
      level := 0;
      capture := new Cap[MAXCAPTURES](_ => Cap(0, 0));
    }

    predicate Valid()
      reads this
    {
      capture.Length == MAXCAPTURES && level <= MAXCAPTURES
    }

    function Caps(): seq<Cap>
      requires Valid()
      reads this, capture
    {
      capture[..level]
    }

    /** The answer a result stands for. */
    function Meant(r: Result): Answer
      requires Valid()
      reads this, capture
    {
      match r
      case NoMatch => Fail
      case Raised => Error
      case Ends(e) => Success(e, Caps())
    }

    /** `match`, from `p` on in the pattern and `s` on in the subject. */
    ghost predicate Answers(s: nat, p: nat, caps: seq<Cap>, r: Result)
      requires Valid() && s <= |src| && p <= |pat|
      reads this, capture
    {
      && First(src, pat, s, p, caps, Meant(r))
      && (r.NoMatch? ==> Caps() == caps)
      && (r.Ends? ==> r.at <= |src|)
    }

    /** `matchbracketclass`. */
    method BracketClass(c: char, from: nat, ec: nat) returns (m: bool)
      ensures m == MatchBracketClass(pat, c, from, ec)
    {
      var sig := true;
      var p := from;
      if Char(pat, p + 1) == '^' {
        sig := false;
        p := p + 1;
      }
      ghost var first := p + 1;
      p := p + 1;
      while p < ec
        invariant InSet(pat, c, p, ec) == InSet(pat, c, first, ec)
        decreases ec - p
      {
        if Char(pat, p) == ESC {
          p := p + 1;
          if MatchClass(c, Char(pat, p)) {
            return sig;
          }
        } else if Char(pat, p + 1) == '-' && p + 2 < ec {
          p := p + 2;
          if Char(pat, p - 2) <= c <= Char(pat, p) {
            return sig;
          }
        } else if Char(pat, p) == c {
          return sig;
        }
        p := p + 1;
      }
      return !sig;
    }

    /** `singlematch`. */
    method Single(c: char, p: nat, ep: nat) returns (m: bool)
      requires ep > 0
      ensures m == SingleMatch(pat, c, p, ep)
    {
      if Char(pat, p) == '.' {
        m := true;
      } else if Char(pat, p) == ESC {
        m := MatchClass(c, Char(pat, p + 1));
      } else if Char(pat, p) == '[' {
        m := BracketClass(c, p, ep - 1);
      } else {
        m := Char(pat, p) == c;
      }
    }

    /** The loop of `matchbalance`. */
    method FindBalance(from: nat, b: char, e: char) returns (r: int)
      requires from < |src|
      ensures r == Balance(src, from + 1, b, e, 1) && (r == -1 || from < r <= |src|)
    {
      var cont := 1;
      var s := from + 1;
      while s < |src|
        invariant from < s <= |src| && cont > 0
        invariant Balance(src, s, b, e, cont) == Balance(src, from + 1, b, e, 1)
      {
        if src[s] == e {
          cont := cont - 1;
          if cont == 0 {
            return s + 1;
          }
        } else if src[s] == b {
          cont := cont + 1;
        }
        s := s + 1;
      }
      return -1;
    }

    /** `capture_to_close`. */
    method CaptureToClose() returns (l: int)
      requires Valid()
      ensures l == ToClose(Caps())
    {
      l := level - 1;
      assert Caps()[..l + 1] == Caps();
      while l >= 0
        invariant -1 <= l < level && ToClose(Caps()[..l + 1]) == ToClose(Caps())
        decreases l
      {
        assert Caps()[..l + 1][..l] == Caps()[..l];
        if capture[l].len == UNFINISHED {
          return l;
        }
        l := l - 1;
      }
      return -1;
    }

    /** `max_expand`, of the item from `p` to `ep` behind `least` repetitions; `c` is where the item starts. */
    method MaxExpand(c: nat, least: nat, p: nat, ep: nat) returns (r: Result)
      requires Valid() && c + least <= |src| && p < |pat|
      requires Item(src, pat, c, p, Caps()) == Choose(ep, if least == 0 then Greedy else GreedyOne) && least <= 1
      requires least == 1 ==> SingleMatch(pat, src[c], p, ep)
      requires p < ep < |pat|
      modifies this`level, capture
      ensures Valid() && Answers(c, p, old(Caps()), r)
      decreases |pat| - p, 0
    {
      hide Item;
      hide First;
      hide SingleMatch;
      hide NoWay;
      ghost var caps := Caps();
      ghost var mode := if least == 0 then Greedy else GreedyOne;
      var s := c + least;
      var i := 0;
      var more := s < |src|;
      if more {
        more := Single(src[s], p, ep);
      }
      while more
        invariant Valid() && Caps() == caps && s + i <= |src|
        invariant (more ==> s + i < |src| && SingleMatch(pat, src[s + i], p, ep))
        invariant !more ==> s + i == |src| || !SingleMatch(pat, src[s + i], p, ep)
        invariant forall k :: c <= k < s + i ==> SingleMatch(pat, src[k], p, ep)
        decreases |src| - i, more
      {
        i := i + 1;
        more := s + i < |src|;
        if more {
          more := Single(src[s + i], p, ep);
        }
      }
      assert forall j: nat :: Feasible(src, pat, c, p, ep, mode, j) ==> j <= i + least;
      while i >= 0
        invariant -1 <= i && s + i <= |src| && Valid() && Caps() == caps
        invariant forall k :: c <= k < s + i ==> SingleMatch(pat, src[k], p, ep)
        invariant forall j: nat :: Feasible(src, pat, c, p, ep, mode, j) && j > i + least ==>
          NoWay(src, pat, c + j, ep + 1, caps)
        decreases i
      {
        r := Match(s + i, ep + 1);
        if r != NoMatch {
          FirstChoice(src, pat, c, p, caps, i + least, Meant(r));
          return;
        }
        FirstFails(src, pat, s + i, ep + 1, caps);
        i := i - 1;
      }
      FirstNone(src, pat, c, p, caps);
      return NoMatch;
    }

    /** `min_expand`, of the item from `p` to `ep`. */
    method MinExpand(c: nat, p: nat, ep: nat) returns (r: Result)
      requires Valid() && c <= |src| && p < ep < |pat| && Item(src, pat, c, p, Caps()) == Choose(ep, Lazy)
      modifies this`level, capture
      ensures Valid() && Answers(c, p, old(Caps()), r)
      decreases |pat| - p, 0
    {
      hide Item;
      hide First;
      hide SingleMatch;
      hide NoWay;
      ghost var caps := Caps();
      var s := c;
      while true
        invariant c <= s <= |src| && Valid() && Caps() == caps
        invariant forall k :: c <= k < s ==> SingleMatch(pat, src[k], p, ep)
        invariant forall j: nat :: Feasible(src, pat, c, p, ep, Lazy, j) && j < s - c ==>
          NoWay(src, pat, c + j, ep + 1, caps)
        decreases |src| - s
      {
        r := Match(s, ep + 1);
        if r != NoMatch {
          FirstChoice(src, pat, c, p, caps, s - c, Meant(r));
          return;
        }
        FirstFails(src, pat, s, ep + 1, caps);
        var more := s < |src|;
        if more {
          more := Single(src[s], p, ep);
        }
        if !more {
          FirstNone(src, pat, c, p, caps);
          return NoMatch;
        }
        s := s + 1;
      }
    }

    /** `start_capture`, of the item at `from`, which goes on at `p`. */
    method StartCapture(s: nat, ghost from: nat, p: nat, what: int) returns (r: Result)
      requires Valid() && s <= |src| && from < p <= |pat|
      requires Item(src, pat, s, from, Caps()) ==
               if |Caps()| >= MAXCAPTURES then Stop(Error) else Go(s, p, Caps() + [Cap(s, what)])
      modifies this`level, capture
      ensures Valid() && Answers(s, from, old(Caps()), r)
      decreases |pat| - p, 3
    {
      hide Item;
      hide First;
      ghost var caps := Caps();
      if level >= MAXCAPTURES {
        FirstStop(src, pat, s, from, caps);
        return Raised;
      }
      capture[level] := Cap(s, what);
      level := level + 1;
      assert Caps() == caps + [Cap(s, what)];
      r := Match(s, p);
      FirstGo(src, pat, s, from, caps, Meant(r));
      if r == NoMatch {
        level := level - 1;
      }
    }

    /** `end_capture`, of the item at `from`, which goes on at `p`. */
    method EndCapture(s: nat, ghost from: nat, p: nat) returns (r: Result)
      requires Valid() && s <= |src| && from < p <= |pat|
      requires var l := ToClose(Caps());
        Item(src, pat, s, from, Caps()) ==
        if l == -1 then Stop(Error) else Go(s, p, Caps()[l := Cap(Caps()[l].init, s - Caps()[l].init)])
      modifies this`level, capture
      ensures Valid() && Answers(s, from, old(Caps()), r)
      decreases |pat| - p, 3
    {
      hide Item;
      hide First;
      hide ToClose;
      ghost var caps := Caps();
      var l := CaptureToClose();
      if l == -1 {
        FirstStop(src, pat, s, from, caps);
        return Raised;
      }
      capture[l] := Cap(capture[l].init, s - capture[l].init);
      assert Caps() == caps[l := Cap(caps[l].init, s - caps[l].init)];
      r := Match(s, p);
      FirstGo(src, pat, s, from, caps, Meant(r));
      if r == NoMatch {
        capture[l] := Cap(capture[l].init, UNFINISHED);
        assert Caps() == caps;
      }
    }

    /** The items that neither capture nor repeat: where they end, or the answer. */
    method Special(s: nat, p: nat) returns (done: bool, r: Result, s1: nat, p1: nat)
      requires Valid() && s <= |src| && p < |pat| && pat[p] == ESC
      requires Char(pat, p + 1) == 'b' || Char(pat, p + 1) == 'f' || IsDigit(Char(pat, p + 1))
      ensures done ==> !r.Ends? && Item(src, pat, s, p, Caps()) == Stop(Meant(r))
      ensures !done ==> Item(src, pat, s, p, Caps()) == Go(s1, p1, Caps()) && s1 <= |src| && p < p1 <= |pat|
    {
      hide SingleMatch;
      hide MatchBracketClass;
      hide Balance;
      done, r, s1, p1 := true, NoMatch, s, p;
      if pat[p + 1] == 'b' {
        if Char(pat, p + 2) == NUL || Char(pat, p + 3) == NUL {
          return true, Raised, s, p;
        }
        if s == |src| || src[s] != pat[p + 2] {
          return;
        }
        var e := FindBalance(s, pat[p + 2], pat[p + 3]);
        if e == -1 {
          return;
        }
        return false, NoMatch, e, p + 4;
      } else if pat[p + 1] == 'f' {
        if Char(pat, p + 2) != '[' {
          return true, Raised, s, p;
        }
        var ep := ClassEnd(pat, p + 2);
        if ep == -1 {
          return true, Raised, s, p;
        }
        var before := BracketClass(if s == 0 then NUL else src[s - 1], p + 2, ep - 1);
        if before {
          return;
        }
        var here := BracketClass(Char(src, s), p + 2, ep - 1);
        if !here {
          return;
        }
        return false, NoMatch, s, ep;
      } else {
        var l := pat[p + 1] as int - '1' as int;
        if l < 0 || l >= level || capture[l].len == UNFINISHED {
          return true, Raised, s, p;
        }
        var cap := capture[l];
        assert cap == Caps()[l];
        if cap.len >= 0 && cap.init + cap.len <= |src| && s + cap.len <= |src|
           && src[cap.init..cap.init + cap.len] == src[s..s + cap.len] {
          return false, NoMatch, s + cap.len, p + 2;
        }
      }
    }

    /** `match`. */
    method Match(s0: nat, p0: nat) returns (r: Result)
      requires Valid() && s0 <= |src| && p0 <= |pat|
      modifies this`level, capture
      ensures Valid() && Answers(s0, p0, old(Caps()), r)
      decreases |pat| - p0, 2
    {
      hide First;
      hide Leads;
      hide BackReference;
      hide ToClose;
      hide SingleMatch;
      hide MatchBracketClass;
      hide Balance;
      ghost var caps := Caps();
      var s: nat, p: nat := s0, p0;
      LeadsHere(src, pat, s, p, caps);
      while true
        invariant s <= |src| && p0 <= p <= |pat| && Valid() && Caps() == caps
        invariant Leads(src, pat, s, p, s0, p0, caps)
        decreases |pat| - p
      {
        if Char(pat, p) == NUL {
          FirstStop(src, pat, s, p, caps);
          LeadsTo(src, pat, s, p, s0, p0, caps, Success(s, caps));
          return Ends(s);
        } else if pat[p] == '(' {
          if Char(pat, p + 1) == ')' {
            r := StartCapture(s, p, p + 2, POSITION);
          } else {
            r := StartCapture(s, p, p + 1, UNFINISHED);
          }
          LeadsTo(src, pat, s, p, s0, p0, caps, Meant(r));
          return;
        } else if pat[p] == ')' {
          r := EndCapture(s, p, p + 1);
          LeadsTo(src, pat, s, p, s0, p0, caps, Meant(r));
          return;
        } else if pat[p] == '$' && Char(pat, p + 1) == NUL {
          FirstStop(src, pat, s, p, caps);
          r := if s == |src| then Ends(s) else NoMatch;
          LeadsTo(src, pat, s, p, s0, p0, caps, Meant(r));
          return;
        } else if pat[p] == ESC && (Char(pat, p + 1) == 'b' || Char(pat, p + 1) == 'f' || IsDigit(Char(pat, p + 1))) {
          var done, r1, s1, p1 := Special(s, p);
          if done {
            r := r1;
            FirstStop(src, pat, s, p, caps);
            LeadsTo(src, pat, s, p, s0, p0, caps, Meant(r));
            return;
          }
          LeadsOn(src, pat, s, p, s0, p0, caps);
          s, p := s1, p1;
        } else {
          var done, r1, s1, p1 := Character(s, p);
          if done {
            r := r1;
            LeadsTo(src, pat, s, p, s0, p0, caps, Meant(r));
            return;
          }
          LeadsVia(src, pat, s1, p1, s, p, s0, p0, caps);
          s, p := s1, p1;
        }
      }
    }

    /** The default case of `match`: a single character, once or repeated. */
    method Character(s: nat, p: nat) returns (done: bool, r: Result, s1: nat, p1: nat)
      requires Valid() && s <= |src| && p < |pat| && Item(src, pat, s, p, Caps()) == CharItem(src, pat, s, p, Caps())
      modifies this`level, capture
      ensures Valid() && (done ==> Answers(s, p, old(Caps()), r))
      ensures !done ==> Caps() == old(Caps()) && s1 <= |src| && p < p1 <= |pat| && Leads(src, pat, s1, p1, s, p, Caps())
      decreases |pat| - p, 1
    {
      hide First;
      hide Item;
      hide ClassEnd;
      hide SingleMatch;
      done, r, s1, p1 := true, NoMatch, s, p;
      ghost var caps := Caps();
      var ep := ClassEnd(pat, p);
      if ep == -1 {
        FirstStop(src, pat, s, p, caps);
        return true, Raised, s, p;
      }
      var m := s < |src|;
      if m {
        m := Single(src[s], p, ep);
      }
      if Char(pat, ep) == '?' {
        if m {
          r := Match(s + 1, ep + 1);
          if r != NoMatch {
            FirstChoice(src, pat, s, p, caps, 1, Meant(r));
            return;
          }
          FirstFails(src, pat, s + 1, ep + 1, caps);
        }
        LeadsZero(src, pat, s, p, ep, caps);
        return false, NoMatch, s, ep + 1;
      } else if Char(pat, ep) == '*' {
        r := MaxExpand(s, 0, p, ep);
      } else if Char(pat, ep) == '+' {
        if m {
          r := MaxExpand(s, 1, p, ep);
        } else {
          FirstNone(src, pat, s, p, caps);
        }
      } else if Char(pat, ep) == '-' {
        r := MinExpand(s, p, ep);
      } else if !m {
        FirstStop(src, pat, s, p, caps);
      } else {
        LeadsStep(src, pat, s, p, caps);
        return false, NoMatch, s + 1, ep;
      }
    }
  }

  // ------------------------------------------------------------------------------- searching a subject

  /** `lmemfind`: the first place where `what` occurs in `text`, or -1. */
  method MemFind(text: string, what: string) returns (r: int)
    ensures r == -1 ==> forall k :: !OccursAt(text, what, k)
    ensures r != -1 ==> r >= 0 && OccursAt(text, what, r) && forall k :: 0 <= k < r ==> !OccursAt(text, what, k)
  {
    if |what| == 0 {
      return 0;
    }
    if |what| > |text| {
      return -1;
    }
    var last := |text| - |what|;
    var s1 := 0;
    while s1 <= last
      invariant 0 <= s1 <= last + 1 && forall k :: 0 <= k < s1 ==> !OccursAt(text, what, k)
    {
      var init := MemChr(text, s1, last + 1, what[0]);
      if init == -1 {
        return -1;
      }
      if text[init + 1..init + |what|] == what[1..] {
        SameHead(text, what, init);
        return init;
      }
      assert text[init..init + |what|][1..] == text[init + 1..init + |what|];
      assert !OccursAt(text, what, init);
      s1 := init + 1;
    }
    return -1;
  }

  predicate OccursAt(text: string, what: string, k: int) { 0 <= k <= |text| - |what| && text[k..k + |what|] == what }

  lemma SameHead(text: string, what: string, k: nat)
    requires |what| > 0 && k <= |text| - |what| && text[k] == what[0] && text[k + 1..k + |what|] == what[1..]
    ensures OccursAt(text, what, k)
  {
    assert text[k..k + |what|] == [text[k]] + text[k + 1..k + |what|];
    assert what == [what[0]] + what[1..];
  }

  /** `memchr`, from `lo` up to `hi`. */
  method MemChr(text: string, lo: nat, hi: nat, c: char) returns (r: int)
    requires lo <= hi <= |text|
    ensures r == -1 ==> forall k :: lo <= k < hi ==> text[k] != c
    ensures r != -1 ==> lo <= r < hi && text[r] == c && forall k :: lo <= k < r ==> text[k] != c
  {
    r := lo;
    while r < hi
      invariant lo <= r <= hi && forall k :: lo <= k < r ==> text[k] != c
    {
      if text[r] == c {
        return;
      }
      r := r + 1;
    }
    return -1;
  }

  datatype Hit = NotFound | Failure | Found(start: nat, end: nat)

  predicate Anchored(pat: string) { Char(pat, 0) == '^' }

  /** Where the pattern starts, behind its anchor. */
  function Start(pat: string): (p: nat)
    ensures p <= |pat|
  {
    if Anchored(pat) then 1 else 0
  }

  /** The first place from `init` on where the pattern matches, where it ends, and what it captures; or an error before
      there is one; an anchored pattern has one chance. */
  ghost predicate Searched(src: string, pat: string, init: nat, hit: Hit, caps: seq<Cap>)
    requires init <= |src|
  {
    match hit
    case Found(s1, e) =>
      && init <= s1 <= |src| && (Anchored(pat) ==> s1 == init) && First(src, pat, s1, Start(pat), [], Success(e, caps))
      && forall k :: init <= k < s1 ==> NoWay(src, pat, k, Start(pat), [])
    case NotFound =>
      forall k :: init <= k <= |src| && (Anchored(pat) ==> k == init) ==> NoWay(src, pat, k, Start(pat), [])
    case Failure => exists k :: FailsAt(src, pat, init, k)
  }

  ghost predicate FailsAt(src: string, pat: string, init: nat, k: nat) {
    && init <= k <= |src| && (Anchored(pat) ==> k == init) && First(src, pat, k, Start(pat), [], Error)
    && forall j :: init <= j < k ==> NoWay(src, pat, j, Start(pat), [])
  }

  /** The search for a pattern. */
  method Find(src: string, pat: string, init: nat) returns (hit: Hit, caps: seq<Cap>)
    requires init <= |src|
    ensures Searched(src, pat, init, hit, caps)
  {
    hide First;
    hide NoWay;
    var ms := new MatchState(src, pat);
    var anchor := Char(pat, 0) == '^';
    var p := if anchor then 1 else 0;
    var s1 := init;
    while s1 <= |src|
      invariant init <= s1 <= |src| + 1 && ms.Valid() && fresh(ms) && fresh(ms.capture)
      invariant (anchor ==> s1 == init) && forall k :: init <= k < s1 ==> NoWay(src, pat, k, p, [])
    {
      ms.level := 0;
      var r := ms.Match(s1, p);
      if r.Ends? {
        return Found(s1, r.at), ms.Caps();
      }
      if r.Raised? {
        assert FailsAt(src, pat, init, s1);
        return Failure, [];
      }
      FirstFails(src, pat, s1, p, []);
      s1 := s1 + 1;
      if anchor {
        return NotFound, [];
      }
    }
    return NotFound, [];
  }

  const SPECIALS := "^$*+?.([%-"

  /** Where a C string ends: at its first 0. */
  function CLength(s: string): (n: nat)
    ensures n <= |s| && (n < |s| ==> s[n] == NUL) && forall i :: 0 <= i < n ==> s[i] != NUL
  {
    if s == [] || s[0] == NUL then 0 else 1 + CLength(s[1..])
  }

  /** What `strpbrk` finds nothing in. */
  predicate NoSpecials(pat: string) { forall i :: 0 <= i < CLength(pat) ==> pat[i] !in SPECIALS }

  /** The answer a plain search stands for. */
  function Plainly(src: string, pat: string, s: nat, p: nat): Answer
    requires p <= |pat|
  {
    if OccursAt(src, pat[p..], s) then Success(s + |pat| - p, []) else Fail
  }

  /** `str_find_aux`: patterns without special characters, or any if `plain` is asked for, are looked for as they
      are. */
  method StrFind(src: string, pat: string, init: nat, find: bool, plain: bool) returns (hit: Hit, caps: seq<Cap>)
    requires init <= |src|
    ensures find && (plain || NoSpecials(pat)) ==>
              caps == [] &&
              match hit
              case Found(s1, e) => && init <= s1 && OccursAt(src, pat, s1) && e == s1 + |pat|
                                   && forall k :: init <= k < s1 ==> !OccursAt(src, pat, k)
              case NotFound => forall k :: init <= k ==> !OccursAt(src, pat, k)
              case Failure => false
    ensures !(find && plain) && (find && NoSpecials(pat) ==> NUL !in pat && ')' !in pat) ==>
              Searched(src, pat, init, hit, caps)
  {
    hide Searched;
    if find && (plain || NoSpecials(pat)) {
      var r := MemFind(src[init..], pat);
      hit, caps := if r == -1 then NotFound else Found(init + r, init + r + |pat|), [];
      PlainHit(src, pat, init, r);
      if !plain && NUL !in pat && ')' !in pat {
        PlainSearched(src, pat, init, hit);
      }
    } else {
      hit, caps := Find(src, pat, init);
    }
  }

  /** An occurrence in what is left is one in the whole. */
  lemma PlainHit(src: string, pat: string, init: nat, r: int)
    requires init <= |src| && -1 <= r
    requires r == -1 ==> forall k :: !OccursAt(src[init..], pat, k)
    requires r != -1 ==> OccursAt(src[init..], pat, r) && forall k :: 0 <= k < r ==> !OccursAt(src[init..], pat, k)
    ensures r == -1 ==> forall k :: init <= k ==> !OccursAt(src, pat, k)
    ensures r != -1 ==> OccursAt(src, pat, init + r) && forall k :: init <= k < init + r ==> !OccursAt(src, pat, k)
  {
    forall k | 0 <= k ensures OccursAt(src[init..], pat, k) == OccursAt(src, pat, init + k) {
      if k <= |src| - init - |pat| {
        assert src[init..][k..k + |pat|] == src[init + k..init + k + |pat|];
      }
    }
    forall k | init <= k && (r == -1 || k < init + r) ensures !OccursAt(src, pat, k) {
      assert !OccursAt(src[init..], pat, k - init);
    }
  }

  /** What the search for a pattern would have found is what the plain search finds. */
  lemma PlainSearched(src: string, pat: string, init: nat, hit: Hit)
    requires init <= |src| && NoSpecials(pat) && NUL !in pat && ')' !in pat && !hit.Failure?
    requires hit.Found? ==> init <= hit.start && OccursAt(src, pat, hit.start) && hit.end == hit.start + |pat|
                            && forall k :: init <= k < hit.start ==> !OccursAt(src, pat, k)
    requires hit.NotFound? ==> forall k :: init <= k ==> !OccursAt(src, pat, k)
    ensures Searched(src, pat, init, hit, [])
  {
    hide First;
    hide NoWay;
    assert !Anchored(pat) by {
      assert CLength(pat) == |pat|;
      assert |pat| > 0 ==> pat[0] !in SPECIALS;
    }
    forall k | init <= k <= |src|
      ensures OccursAt(src, pat, k) ==> First(src, pat, k, 0, [], Success(k + |pat|, []))
      ensures !OccursAt(src, pat, k) ==> NoWay(src, pat, k, 0, [])
    {
      PlainFirst(src, pat, k, 0);
      assert pat[0..] == pat;
      if !OccursAt(src, pat, k) { FirstFails(src, pat, k, 0, []); }
    }
  }

  /** Ordinary characters match themselves. */
  lemma {:induction false} PlainFirst(src: string, pat: string, s: nat, p: nat)
    requires s <= |src| && p <= |pat| && NoSpecials(pat) && NUL !in pat && ')' !in pat
    ensures First(src, pat, s, p, [], Plainly(src, pat, s, p))
    decreases |pat| - p
  {
    hide First;
    PlainItem(src, pat, s, p, CLength(pat));
    PlainStep(src, pat, s, p);
    if p < |pat| && s < |src| && src[s] == pat[p] {
      PlainFirst(src, pat, s + 1, p + 1);
      FirstGo(src, pat, s, p, [], Plainly(src, pat, s + 1, p + 1));
    } else {
      FirstStop(src, pat, s, p, []);
    }
  }

  lemma PlainStep(src: string, pat: string, s: nat, p: nat)
    requires s <= |src| && p <= |pat|
    ensures Plainly(src, pat, s, p) ==
            if p == |pat| then Success(s, [])
            else if s < |src| && src[s] == pat[p] then Plainly(src, pat, s + 1, p + 1)
            else Fail
  {
    if p < |pat| {
      var w := pat[p..];
      assert w[0] == pat[p] && w[1..] == pat[p + 1..];
      if s < |src| && src[s] == pat[p] && s + |w| <= |src| {
        assert src[s..s + |w|] == [src[s]] + src[s + 1..s + |w|] && w == [w[0]] + w[1..];
        assert src[s..s + |w|][1..] == src[s + 1..s + |w|];
      } else if s < |src| && s + |w| <= |src| {
        assert src[s..s + |w|][0] == src[s];
      }
    } else {
      assert pat[p..] == [] && src[s..s] == [];
    }
  }

  lemma PlainItem(src: string, pat: string, s: nat, p: nat, n: nat)
    requires s <= |src| && p <= n == CLength(pat) && NoSpecials(pat) && (p < n ==> pat[p] != ')')
    ensures Item(src, pat, s, p, []) ==
            if p == n then Stop(Success(s, []))
            else if s < |src| && src[s] == pat[p] then Go(s + 1, p + 1, [])
            else Stop(Fail)
  {
    if p < n {
      assert pat[p] !in SPECIALS;
      assert "^$*+?.([%-" == ['^', '$', '*', '+', '?', '.', '(', '[', '%', '-'];
      assert Char(pat, p + 1) !in "?*+-" by {
        if p + 1 < n { assert pat[p + 1] !in SPECIALS; }
      }
    }
  }

  /** Which patterns can be looked for as they are without a difference to matching them: a pattern that ends early for
      C, or closes a capture it never opened, is taken for a text although matching would do something else. */
  lemma PlainExactly(pat: string)
    requires NoSpecials(pat)
    ensures (forall src, s: nat | s <= |src| :: First(src, pat, s, 0, [], Plainly(src, pat, s, 0)))
            <==> NUL !in pat && ')' !in pat
  {
    if NUL !in pat && ')' !in pat {
      forall src, s: nat | s <= |src| ensures First(src, pat, s, 0, [], Plainly(src, pat, s, 0)) {
        PlainFirst(src, pat, s, 0);
      }
    } else {
      var n := FirstOdd(pat, 0);
      var src := pat[..n];
      PlainUntil(src, pat, 0, n);
      assert !OccursAt(src, pat[0..], 0);
      var a := if pat[n] == NUL then Success(n, []) else Error;
      if First(src, pat, 0, 0, [], Plainly(src, pat, 0, 0)) { OneAnswer(src, pat, 0, 0, [], a, Fail); }
    }
  }

  function FirstOdd(pat: string, k: nat): (n: nat)
    requires exists i :: k <= i < |pat| && pat[i] in [NUL, ')']
    ensures k <= n < |pat| && pat[n] in [NUL, ')'] && forall i :: k <= i < n ==> pat[i] !in [NUL, ')']
    decreases |pat| - k
  {
    if pat[k] in [NUL, ')'] then k else FirstOdd(pat, k + 1)
  }

  /** Up to the character at `n` the subject is matched, and then matching stops. */
  lemma {:induction false} PlainUntil(src: string, pat: string, k: nat, n: nat)
    requires k <= n < |pat| && src == pat[..n] && NoSpecials(pat) && pat[n] in [NUL, ')']
    requires forall i :: 0 <= i < n ==> pat[i] !in [NUL, ')']
    ensures First(src, pat, k, k, [], if pat[n] == NUL then Success(n, []) else Error)
    decreases n - k
  {
    hide First;
    assert CLength(pat) >= n;
    if k < n {
      PlainItem(src, pat, k, k, CLength(pat));
      PlainUntil(src, pat, k + 1, n);
      FirstGo(src, pat, k, k, [], if pat[n] == NUL then Success(n, []) else Error);
    } else {
      assert ToClose([]) == -1;
      FirstStop(src, pat, k, k, []);
    }
  }

  // -------------------------------------------------------------------------------------- substitution

  /** A stretch of the subject, and what stands for it in the result. */
  datatype Piece = Matched(from: nat, to: nat, caps: seq<Cap>) | Copied(from: nat, to: nat)

  /** What `add_value` puts in for a match. */
  type Replacement = (nat, nat, seq<Cap>) -> string

  function Text(src: string, repl: Replacement, piece: Piece): string {
    match piece
    case Matched(a, b, caps) => repl(a, b, caps)
    case Copied(a, b) => if a <= b <= |src| then src[a..b] else []
  }

  function Assembled(src: string, repl: Replacement, pieces: seq<Piece>): string {
    if pieces == [] then [] else Assembled(src, repl, pieces[..|pieces| - 1]) + Text(src, repl, pieces[|pieces| - 1])
  }

  function Matches(pieces: seq<Piece>): nat {
    if pieces == [] then 0 else Matches(pieces[..|pieces| - 1]) + if pieces[|pieces| - 1].Matched? then 1 else 0
  }

  /** The pieces follow each other from the start of the subject to `end`. */
  ghost predicate Cover(pieces: seq<Piece>, end: nat) {
    && (pieces == [] ==> end == 0)
    && (pieces != [] ==> pieces[0].from == 0 && pieces[|pieces| - 1].to == end)
    && (forall i :: 0 <= i < |pieces| ==> pieces[i].from <= pieces[i].to)
    && (forall i :: 0 < i < |pieces| ==> pieces[i].from == pieces[i - 1].to)
  }

  /** The last piece is an empty match; its place has been tried. */
  predicate Idle(pieces: seq<Piece>) {
    pieces != [] && pieces[|pieces| - 1].Matched? && pieces[|pieces| - 1].from == pieces[|pieces| - 1].to
  }

  /**
    What may follow the pieces before it: the first way to match, where no match was tried yet; or a character, where
    nothing matches or nothing but the empty string did. There are no more than `max` matches, and with an anchor there
    is one place to try.
   */
  ghost predicate Follows(src: string, pat: string, max: int, before: seq<Piece>, q: Piece) {
    && (Anchored(pat) ==> q.from == 0)
    && match q
       case Matched(a, b, caps) =>
         && !Idle(before) && Matches(before) < max && a <= b <= |src|
         && First(src, pat, a, Start(pat), [], Success(b, caps))
       case Copied(a, b) =>
         b == a + 1 <= |src| && (Idle(before) || (Matches(before) < max && NoWay(src, pat, a, Start(pat), [])))
  }

  /** Pieces that substitution gets to. */
  ghost predicate Cut(src: string, pat: string, max: int, pieces: seq<Piece>, s: nat) {
    && s <= |src| && Cover(pieces, s)
    && forall i :: 0 <= i < |pieces| ==> Follows(src, pat, max, pieces[..i], pieces[i])
  }

  /** Why substitution ends: enough matches, the one try of an anchored pattern, or the end of the subject; or an error,
      where the next match would be tried. */
  ghost predicate Ended(src: string, pat: string, max: int, pieces: seq<Piece>, s: nat, ok: bool)
    requires s <= |src|
  {
    if ok then
      && (Idle(pieces) ==> s == |src|)
      && (|| Matches(pieces) >= max || (Anchored(pat) && pieces != [])
          || (s == |src| && (Idle(pieces) || NoWay(src, pat, s, Start(pat), []))))
    else
      && !Idle(pieces) && Matches(pieces) < max && (Anchored(pat) ==> s == 0)
      && First(src, pat, s, Start(pat), [], Error)
  }

  lemma CutMore(src: string, pat: string, max: int, pieces: seq<Piece>, s: nat, q: Piece)
    requires Cut(src, pat, max, pieces, s) && Follows(src, pat, max, pieces, q) && q.from == s <= q.to <= |src|
    ensures Cut(src, pat, max, pieces + [q], q.to)
  {
    hide Follows;
    var r := pieces + [q];
    assert Cover(r, q.to);
    forall i | 0 <= i < |r| ensures Follows(src, pat, max, r[..i], r[i]) {
      assert r[..i] == pieces[..i];
      if i == |pieces| { assert pieces[..i] == pieces; }
    }
  }

  /** A piece more, and what it adds. */
  lemma Adding(src: string, repl: Replacement, pieces: seq<Piece>, q: Piece)
    ensures Assembled(src, repl, pieces + [q]) == Assembled(src, repl, pieces) + Text(src, repl, q)
    ensures Matches(pieces + [q]) == Matches(pieces) + if q.Matched? then 1 else 0
  {
    assert (pieces + [q])[..|pieces|] == pieces;
  }

  lemma AddMatch(src: string, pat: string, max: int, repl: Replacement, pieces: seq<Piece>, a: nat, b: nat,
                 caps: seq<Cap>)
    requires Cut(src, pat, max, pieces, a) && Follows(src, pat, max, pieces, Matched(a, b, caps))
    ensures var more := pieces + [Matched(a, b, caps)];
      && Cut(src, pat, max, more, b) && Idle(more) == (a == b)
      && Assembled(src, repl, more) == Assembled(src, repl, pieces) + repl(a, b, caps)
      && Matches(more) == Matches(pieces) + 1
  {
    hide First;
    hide NoWay;
    hide Assembled;
    hide Matches;
    CutMore(src, pat, max, pieces, a, Matched(a, b, caps));
    hide Cut;
    Adding(src, repl, pieces, Matched(a, b, caps));
  }

  lemma AddChar(src: string, pat: string, max: int, repl: Replacement, pieces: seq<Piece>, a: nat)
    requires Cut(src, pat, max, pieces, a) && Follows(src, pat, max, pieces, Copied(a, a + 1))
    ensures var more := pieces + [Copied(a, a + 1)];
      && Cut(src, pat, max, more, a + 1) && !Idle(more) && a < |src|
      && Assembled(src, repl, more) == Assembled(src, repl, pieces) + [src[a]]
      && Matches(more) == Matches(pieces)
  {
    hide First;
    hide NoWay;
    hide Assembled;
    hide Matches;
    CutMore(src, pat, max, pieces, a, Copied(a, a + 1));
    hide Cut;
    Adding(src, repl, pieces, Copied(a, a + 1));
    assert src[a..a + 1] == [src[a]];
  }

  /** What substitution gives: the pieces it got to, put together, and the rest of the subject behind them. */
  ghost predicate Substituted(src: string, pat: string, repl: Replacement, max: int, ok: bool, out: string, n: nat) {
    exists pieces, rest :: SubstitutedBy(src, pat, repl, max, ok, out, n, pieces, rest)
  }

  ghost predicate SubstitutedBy(src: string, pat: string, repl: Replacement, max: int, ok: bool, out: string, n: nat,
                                pieces: seq<Piece>, rest: nat) {
    && Cut(src, pat, max, pieces, rest) && Ended(src, pat, max, pieces, rest, ok)
    && (ok ==> out == Assembled(src, repl, pieces) + src[rest..] && n == Matches(pieces))
  }

  /** `str_gsub`. */
  method Gsub(src: string, pat: string, repl: Replacement, max: int) returns (ok: bool, out: string, n: nat)
    ensures Substituted(src, pat, repl, max, ok, out, n)
  {
    hide First;
    hide NoWay;
    hide Cut;
    hide Assembled;
    hide Matches;
    var ms := new MatchState(src, pat);
    var anchor := Char(pat, 0) == '^';
    var p := if anchor then 1 else 0;
    var s: nat := 0;
    ok, out, n := true, [], 0;
    ghost var pieces: seq<Piece> := [];
    NothingCut(src, pat, max, repl);
    ghost var over := false;
    while n < max
      invariant s <= |src| && ms.Valid() && fresh(ms) && fresh(ms.capture) && ok && !over
      invariant Cut(src, pat, max, pieces, s) && out == Assembled(src, repl, pieces) && n == Matches(pieces)
      invariant !Idle(pieces) && (anchor ==> pieces == [] && s == 0)
      decreases |src| - s
    {
      ms.level := 0;
      var r := ms.Match(s, p);
      if r.Raised? {
        assert SubstitutedBy(src, pat, repl, max, false, [], 0, pieces, s);
        return false, [], 0;
      }
      if r.Ends? {
        MatchForward(src, pat, s, p, [], r.at, ms.Caps());
        AddMatch(src, pat, max, repl, pieces, s, r.at, ms.Caps());
        n := n + 1;
        out := out + repl(s, r.at, ms.Caps());
        pieces := pieces + [Matched(s, r.at, ms.Caps())];
      } else {
        FirstFails(src, pat, s, p, []);
      }
      if r.Ends? && r.at > s {
        s := r.at;
      } else if s < |src| {
        AddChar(src, pat, max, repl, pieces, s);
        pieces := pieces + [Copied(s, s + 1)];
        out := out + [src[s]];
        s := s + 1;
      } else {
        over := true;
        break;
      }
      if anchor {
        break;
      }
    }
    out := out + src[s..];
    assert SubstitutedBy(src, pat, repl, max, ok, out, n, pieces, s);
  }

  lemma NothingCut(src: string, pat: string, max: int, repl: Replacement)
    ensures Cut(src, pat, max, [], 0) && Assembled(src, repl, []) == [] && Matches([]) == 0
  {}

  /** There is one result. */
  lemma OneResult(src: string, pat: string, repl: Replacement, max: int, ok: bool, out: string, n: nat, ok1: bool,
                  out1: string, n1: nat)
    requires Substituted(src, pat, repl, max, ok, out, n) && Substituted(src, pat, repl, max, ok1, out1, n1)
    ensures ok == ok1 && (ok ==> out == out1 && n == n1)
  {
    var a, s :| SubstitutedBy(src, pat, repl, max, ok, out, n, a, s);
    var b, t :| SubstitutedBy(src, pat, repl, max, ok1, out1, n1, b, t);
    hide Cut;
    hide Ended;
    OneOutcome(src, pat, max, a, s, ok, b, t, ok1);
  }

  /** There is one way for substitution to go, to one end. */
  lemma OneOutcome(src: string, pat: string, max: int, a: seq<Piece>, s: nat, ok: bool, b: seq<Piece>, t: nat,
                   ok1: bool)
    requires Cut(src, pat, max, a, s) && Ended(src, pat, max, a, s, ok)
    requires Cut(src, pat, max, b, t) && Ended(src, pat, max, b, t, ok1)
    ensures a == b && s == t && ok == ok1
  {
    Agree(src, pat, max, a, s, b, t, if |a| < |b| then |a| else |b|);
    if |a| < |b| {
      NoneFollows(src, pat, max, a, s, ok, b, t);
    } else if |b| < |a| {
      NoneFollows(src, pat, max, b, t, ok1, a, s);
    } else {
      assert a[..|a|] == a && b[..|b|] == b;
      if ok != ok1 { OneEnd(src, pat, max, a, s); }
    }
  }

  /** Where a piece starts, and why it is there, follows from those before it. */
  lemma PieceAt(src: string, pat: string, max: int, a: seq<Piece>, s: nat, i: nat)
    requires Cut(src, pat, max, a, s) && i < |a|
    ensures Follows(src, pat, max, a[..i], a[i]) && a[i].from == if i == 0 then 0 else a[..i][i - 1].to
  {
    hide Follows;
  }

  lemma {:induction false} Agree(src: string, pat: string, max: int, a: seq<Piece>, s: nat, b: seq<Piece>, t: nat,
                                 k: nat)
    requires Cut(src, pat, max, a, s) && Cut(src, pat, max, b, t) && k <= |a| && k <= |b|
    ensures a[..k] == b[..k]
  {
    hide Cut;
    hide Follows;
    if k > 0 {
      var i := k - 1;
      Agree(src, pat, max, a, s, b, t, i);
      PieceAt(src, pat, max, a, s, i);
      PieceAt(src, pat, max, b, t, i);
      OneFollows(src, pat, max, a[..i], a[i], b[i]);
      assert a[..k] == a[..i] + [a[i]] && b[..k] == b[..i] + [b[i]];
    }
  }

  lemma OneFollows(src: string, pat: string, max: int, before: seq<Piece>, q: Piece, r: Piece)
    requires Follows(src, pat, max, before, q) && Follows(src, pat, max, before, r) && q.from == r.from
    ensures q == r
  {
    var a := if q.Matched? then Success(q.to, q.caps) else Fail;
    var b := if r.Matched? then Success(r.to, r.caps) else Fail;
    if !Idle(before) { OneAnswer(src, pat, q.from, Start(pat), [], a, b); }
  }

  /** With the pieces of an end nothing follows. */
  lemma NoneFollows(src: string, pat: string, max: int, a: seq<Piece>, s: nat, ok: bool, b: seq<Piece>, t: nat)
    requires Cut(src, pat, max, a, s) && Ended(src, pat, max, a, s, ok) && Cut(src, pat, max, b, t)
    requires |a| < |b|
    ensures a != b[..|a|]
  {
    if a == b[..|a|] {
      var q := b[|a|];
      assert Follows(src, pat, max, a, q) && q.from == s;
      if a != [] && s == 0 { assert Follows(src, pat, max, a[..|a| - 1], a[|a| - 1]); }
      var answer := if q.Matched? then Success(q.to, q.caps) else Fail;
      if !Idle(a) && !ok { OneAnswer(src, pat, s, Start(pat), [], answer, Error); }
      if !Idle(a) && ok && s == |src| && q.Matched? && NoWay(src, pat, s, Start(pat), []) {
        OneAnswer(src, pat, s, Start(pat), [], answer, Fail);
      }
    }
  }

  lemma OneEnd(src: string, pat: string, max: int, a: seq<Piece>, s: nat)
    requires Cut(src, pat, max, a, s)
    ensures !(Ended(src, pat, max, a, s, true) && Ended(src, pat, max, a, s, false))
  {
    if a != [] && s == 0 { assert Follows(src, pat, max, a[..|a| - 1], a[|a| - 1]); }
    if First(src, pat, s, Start(pat), [], Error) && NoWay(src, pat, s, Start(pat), []) {
      OneAnswer(src, pat, s, Start(pat), [], Error, Fail);
    }
  }

  /** Matches do not end before they start. */
  lemma MatchForward(src: string, pat: string, s: nat, p: nat, caps: seq<Cap>, e: nat, caps1: seq<Cap>)
    requires s <= |src| && p <= |pat| && First(src, pat, s, p, caps, Success(e, caps1))
    ensures s <= e <= |src|
  {
    var c :| FirstWay(src, pat, s, p, caps, Success(e, caps1), c);
    FollowForward(src, pat, s, p, caps, c);
  }

  lemma {:induction false} FollowForward(src: string, pat: string, s: nat, p: nat, caps: seq<Cap>, c: seq<nat>)
    requires s <= |src| && p <= |pat| && Follow(src, pat, s, p, caps, c).Success?
    ensures s <= Follow(src, pat, s, p, caps, c).end <= |src|
    decreases |pat| - p
  {
    match Item(src, pat, s, p, caps)
    case Stop(_) =>
    case Go(s1, p1, caps1) => FollowForward(src, pat, s1, p1, caps1, c);
    case Choose(ep, mode) => FollowForward(src, pat, s + c[0], ep + 1, caps, c[1..]);
  }

  lemma CoverButLast(pieces: seq<Piece>, end: nat)
    requires pieces != [] && Cover(pieces, end)
    ensures var q := pieces[|pieces| - 1]; Cover(pieces[..|pieces| - 1], q.from) && q.from <= q.to == end
  {}

  /** Every match is replaced by itself. */
  ghost predicate Echoes(src: string, repl: Replacement) {
    forall a: nat, b: nat, caps :: a <= b <= |src| ==> repl(a, b, caps) == src[a..b]
  }

  lemma SameText(src: string, repl: Replacement, q: Piece)
    requires Echoes(src, repl) && q.from <= q.to <= |src|
    ensures Text(src, repl, q) == src[q.from..q.to]
  {
  }

  /** Replacing every match by itself changes nothing. */
  lemma {:induction false} SameAgain(src: string, repl: Replacement, pieces: seq<Piece>, end: nat)
    requires end <= |src| && Cover(pieces, end) && Echoes(src, repl)
    requires forall i :: 0 <= i < |pieces| ==> pieces[i].to <= |src|
    ensures Assembled(src, repl, pieces) == src[..end]
  {
    hide Text;
    hide Echoes;
    if pieces != [] {
      var p, q := pieces[..|pieces| - 1], pieces[|pieces| - 1];
      CoverButLast(pieces, end);
      hide Cover;
      SameAgain(src, repl, p, q.from);
      SameText(src, repl, q);
      assert src[..q.from] + src[q.from..q.to] == src[..q.to];
    } else {
      assert src[..0] == [];
    }
  }

  /** So does substitution, whatever the pattern. */
  lemma GsubSame(src: string, pat: string, repl: Replacement, max: int, out: string, n: nat)
    requires Substituted(src, pat, repl, max, true, out, n) && Echoes(src, repl)
    ensures out == src
  {
    hide Cut;
    hide Ended;
    hide Echoes;
    hide Assembled;
    hide Matches;
    var a: seq<Piece>, s: nat :| SubstitutedBy(src, pat, repl, max, true, out, n, a, s);
    PiecesSame(src, pat, repl, max, a, s);
  }

  lemma PiecesSame(src: string, pat: string, repl: Replacement, max: int, a: seq<Piece>, s: nat)
    requires Cut(src, pat, max, a, s) && Echoes(src, repl)
    ensures s <= |src| && Assembled(src, repl, a) + src[s..] == src
  {
    CutWithin(src, pat, max, a, s);
    hide Cut;
    hide Cover;
    hide Echoes;
    hide Assembled;
    SameAgain(src, repl, a, s);
    assert src[..s] + src[s..] == src;
  }

  lemma CutWithin(src: string, pat: string, max: int, a: seq<Piece>, s: nat)
    requires Cut(src, pat, max, a, s)
    ensures s <= |src| && Cover(a, s) && forall i :: 0 <= i < |a| ==> a[i].to <= |src|
  {
    hide First;
    hide NoWay;
    hide Cover;
    forall i | 0 <= i < |a| ensures a[i].to <= |src| { assert Follows(src, pat, max, a[..i], a[i]); }
  }

  lemma LeadsHere(src: string, pat: string, s: nat, p: nat, caps: seq<Cap>)
    requires s <= |src| && p <= |pat|
    ensures Leads(src, pat, s, p, s, p, caps)
  {}

  lemma LeadsTo(src: string, pat: string, s: nat, p: nat, s0: nat, p0: nat, caps: seq<Cap>, a: Answer)
    requires s <= |src| && p <= |pat| && s0 <= |src| && p0 <= |pat|
    requires Leads(src, pat, s, p, s0, p0, caps) && First(src, pat, s, p, caps, a)
    ensures First(src, pat, s0, p0, caps, a)
  {}

  lemma LeadsVia(src: string, pat: string, s2: nat, p2: nat, s: nat, p: nat, s0: nat, p0: nat, caps: seq<Cap>)
    requires s <= |src| && p <= |pat| && s0 <= |src| && p0 <= |pat| && s2 <= |src| && p2 <= |pat|
    requires Leads(src, pat, s2, p2, s, p, caps) && Leads(src, pat, s, p, s0, p0, caps)
    ensures Leads(src, pat, s2, p2, s0, p0, caps)
  {
    hide First;
  }

  /** On from an item that leaves the captures alone. */
  lemma LeadsStep(src: string, pat: string, s: nat, p: nat, caps: seq<Cap>)
    requires s <= |src| && p <= |pat| && Item(src, pat, s, p, caps).Go? && Item(src, pat, s, p, caps).caps == caps
    ensures var i := Item(src, pat, s, p, caps); Leads(src, pat, i.s, i.p, s, p, caps)
  {
    hide First;
    var i := Item(src, pat, s, p, caps);
    forall a | First(src, pat, i.s, i.p, caps, a)
      ensures First(src, pat, s, p, caps, a)
    {
      FirstGo(src, pat, s, p, caps, a);
    }
  }

  lemma LeadsOn(src: string, pat: string, s: nat, p: nat, s0: nat, p0: nat, caps: seq<Cap>)
    requires s <= |src| && p <= |pat| && s0 <= |src| && p0 <= |pat|
    requires Item(src, pat, s, p, caps).Go? && Item(src, pat, s, p, caps).caps == caps
    requires Leads(src, pat, s, p, s0, p0, caps)
    ensures var i := Item(src, pat, s, p, caps); Leads(src, pat, i.s, i.p, s0, p0, caps)
  {
    hide First;
    var i := Item(src, pat, s, p, caps);
    LeadsStep(src, pat, s, p, caps);
    LeadsVia(src, pat, i.s, i.p, s, p, s0, p0, caps);
  }

  /** An optional item that cannot be there, or leads nowhere if it is, might as well be left out. */
  lemma LeadsZero(src: string, pat: string, s: nat, p: nat, ep: nat, caps: seq<Cap>)
    requires s <= |src| && p < ep < |pat| && Item(src, pat, s, p, caps) == Choose(ep, Optional)
    requires Feasible(src, pat, s, p, ep, Optional, 1) ==> NoWay(src, pat, s + 1, ep + 1, caps)
    ensures Leads(src, pat, s, ep + 1, s, p, caps)
  {
    hide First;
    hide Item;
    hide NoWay;
    forall a | First(src, pat, s, ep + 1, caps, a) ensures First(src, pat, s, p, caps, a) {
      if a.Fail? {
        FirstFails(src, pat, s, ep + 1, caps);
        forall j | Feasible(src, pat, s, p, ep, Optional, j)
          ensures NoWay(src, pat, s + j, ep + 1, caps)
        {
          assert j == 0 || j == 1;
        }
        FirstNone(src, pat, s, p, caps);
      } else {
        FirstChoice(src, pat, s, p, caps, 0, a);
      }
    }
  }

  /** What follows from the answer at one place for another. */
  ghost predicate Leads(src: string, pat: string, s: nat, p: nat, s0: nat, p0: nat, caps: seq<Cap>)
    requires s <= |src| && p <= |pat| && s0 <= |src| && p0 <= |pat|
  {
    forall a :: First(src, pat, s, p, caps, a) ==> First(src, pat, s0, p0, caps, a)
  }

  lemma FirstFails(src: string, pat: string, s: nat, p: nat, caps: seq<Cap>)
    requires s <= |src| && p <= |pat| && First(src, pat, s, p, caps, Fail)
    ensures NoWay(src, pat, s, p, caps)
  {}
}
