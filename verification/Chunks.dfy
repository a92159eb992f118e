/**
  Precompiled chunks: a function prototype as a string of bytes, what reading such a string means, and
  that reading gives back what was written. The machine is a little-endian one of 32 bits.
 */
module Chunks {
  import opened Basics

  type Byte = n: nat | n < 0x100

  /** Four bytes: an instruction, a line number, a `size_t`. */
  type Word = n: nat | n < 0x1_0000_0000

  /** The eight bytes of a number, as they lie in memory. */
  type Image = s: seq<Byte> | |s| == 8 witness [0, 0, 0, 0, 0, 0, 0, 0]

  type Text = seq<Byte>

  datatype Constant = Nil | Boolean(b: bool) | Number(n: Image) | Str(s: Option<Text>)

  datatype Local = Local(name: Option<Text>, startpc: nat, endpc: nat)

  datatype Head = Head(source: Option<Text>, line: nat, lastLine: nat, nups: Byte, numparams: Byte, vararg: Byte,
                       stack: Byte)

  datatype Debug = Debug(lineinfo: seq<Word>, locvars: seq<Local>, upvalues: seq<Option<Text>>)

  datatype Proto = Proto(head: Head, code: seq<Word>, k: seq<Constant>, p: seq<Proto>, debug: Debug)

  const MAX_INT: nat := 0x7FFF_FFFF

  // ------------------------------------------------------------------------------------------ dumping

  function EncWord(w: Word): (b: seq<Byte>)
    ensures |b| == 4
  {
    [w % 0x100, w / 0x100 % 0x100, w / 0x1_0000 % 0x100, w / 0x100_0000]
  }

  predicate TextFits(t: Option<Text>) { t.Some? ==> |t.value| < 0xFFFF_FFFF }

  function EncText(t: Option<Text>): seq<Byte>
    requires TextFits(t)
  {
    match t
    case None => EncWord(0)
    case Some(s) => EncWord(|s| + 1) + s + [0]
  }

  /** Elements one after the other. */
  function EncAll<T>(enc: T --> seq<Byte>, xs: seq<T>): seq<Byte>
    requires forall x :: x in xs ==> enc.requires(x)
  {
    if xs == [] then [] else enc(xs[0]) + EncAll(enc, xs[1..])
  }

  /** Their number, and then the elements. */
  function EncMany<T>(enc: T --> seq<Byte>, xs: seq<T>): seq<Byte>
    requires |xs| <= MAX_INT && forall x :: x in xs ==> enc.requires(x)
  {
    EncWord(|xs|) + EncAll(enc, xs)
  }

  predicate ConstantFits(c: Constant) { c.Str? ==> TextFits(c.s) }

  predicate LocalFits(l: Local) { TextFits(l.name) && l.startpc <= MAX_INT && l.endpc <= MAX_INT }

  predicate HeadFits(h: Head) { TextFits(h.source) && h.line <= MAX_INT && h.lastLine <= MAX_INT }

  predicate DebugFits(d: Debug) {
    && |d.lineinfo| <= MAX_INT && |d.locvars| <= MAX_INT && |d.upvalues| <= MAX_INT
    && (forall l :: l in d.locvars ==> LocalFits(l)) && (forall u :: u in d.upvalues ==> TextFits(u))
  }

  /** Numbers and sizes are within the range of the machine. */
  predicate Fits(f: Proto)
    decreases f
  {
    && HeadFits(f.head) && |f.code| <= MAX_INT
    && |f.k| <= MAX_INT && (forall c :: c in f.k ==> ConstantFits(c))
    && |f.p| <= MAX_INT && (forall i :: 0 <= i < |f.p| ==> Fits(f.p[i]))
    && DebugFits(f.debug)
  }

  /** Functions are nested no more than `room` deep. */
  predicate Within(f: Proto, room: nat)
    decreases f
  {
    room > 0 && forall i :: 0 <= i < |f.p| ==> Within(f.p[i], room - 1)
  }

  function EncConstant(c: Constant): seq<Byte>
    requires ConstantFits(c)
  {
    match c
    case Nil => [0]
    case Boolean(b) => [1, if b then 1 else 0]
    case Number(n) => [3] + n
    case Str(s) => [4] + EncText(s)
  }

  function EncLocal(l: Local): seq<Byte>
    requires LocalFits(l)
  {
    EncText(l.name) + EncWord(l.startpc) + EncWord(l.endpc)
  }

  /** `omit`: the source is that of the enclosing function, or not wanted. */
  function EncHead(h: Head, omit: bool): seq<Byte>
    requires HeadFits(h)
  {
    EncText(if omit then None else h.source) + EncWord(h.line) + EncWord(h.lastLine) + [h.nups, h.numparams, h.vararg,
                                                                                        h.stack]
  }

  const NOTHING := Debug([], [], [])

  function EncDebug(d: Debug): seq<Byte>
    requires DebugFits(d)
  {
    EncMany(EncWord, d.lineinfo) + EncMany(EncLocal, d.locvars) + EncMany(EncText, d.upvalues)
  }

  /** The bytes of a function whose enclosing function has the source `p`. */
  function EncFunction(f: Proto, p: Option<Text>, strip: bool): seq<Byte>
    requires Fits(f)
    decreases f, |f.p| + 1
  {
    EncHead(f.head, f.head.source == p || strip) + EncMany(EncWord, f.code) + EncMany(EncConstant, f.k)
    + EncWord(|f.p|) + EncProtos(f, strip, 0) + EncDebug(if strip then NOTHING else f.debug)
  }

  /** The functions nested in `f`, from the `i`th on. */
  function EncProtos(f: Proto, strip: bool, i: nat): seq<Byte>
    requires Fits(f) && i <= |f.p|
    decreases f, |f.p| - i
  {
    if i == |f.p| then [] else EncFunction(f.p[i], f.head.source, strip) + EncProtos(f, strip, i + 1)
  }

  /** The least byte comes first. */
  lemma WordBytes(w: Word)
    ensures var b := EncWord(w);
      var b0: int, b1: int, b2: int, b3: int := b[0], b[1], b[2], b[3];
      b0 + 0x100 * b1 + 0x1_0000 * b2 + 0x100_0000 * b3 == w
  {}

  lemma SmallConstants(k: seq<Constant>)
    requires k == [Nil, Boolean(true), Str(None)]
    ensures (forall c :: c in k ==> ConstantFits(c))
    ensures EncMany(EncConstant, k) == [3, 0, 0, 0] + [0] + [1, 1] + [4, 0, 0, 0, 0]
  {
    var k1: seq<Constant>, k2: seq<Constant> := [Boolean(true), Str(None)], [Str(None)];
    forall c | c in k || c in k1 || c in k2 ensures ConstantFits(c) {}
    assert forall c :: c in k1 ==> ConstantFits(c);
    assert k[1..] == k1 && k1[1..] == k2 && k2[1..] == [];
    assert EncConstant(k2[0]) == [4, 0, 0, 0, 0];
    assert EncAll(EncConstant, k2) == EncConstant(k2[0]) + EncAll(EncConstant, []);
    assert EncAll(EncConstant, k1) == EncConstant(k1[0]) + EncAll(EncConstant, k2);
    assert EncAll(EncConstant, k) == EncConstant(k[0]) + EncAll(EncConstant, k1);
  }

  /** A small function, byte by byte: its source with length and closing zero; the lines; the four single bytes; the
      code; the constants with their types; and, none here, functions, lines, variables and names of upvalues. */
  lemma SmallFunction(k: seq<Constant>)
    requires k == [Nil, Boolean(true), Str(None)]
    ensures var f := Proto(Head(Some([65]), 1, 2, 3, 4, 5, 6), [0x01020304], k, [], NOTHING);
      Fits(f) && EncFunction(f, None, false) ==
                 [2, 0, 0, 0, 65, 0] + [1, 0, 0, 0] + [2, 0, 0, 0] + [3, 4, 5, 6] + [1, 0, 0, 0, 4, 3, 2, 1]
                 + [3, 0, 0, 0, 0, 1, 1, 4, 0, 0, 0, 0] + [0, 0, 0, 0]
                 + [0, 0, 0, 0, 0, 0, 0, 0, 0, 0, 0, 0]
  {
    SmallConstants(k);
    var h, code: seq<Word> := Head(Some([65]), 1, 2, 3, 4, 5, 6), [0x01020304];
    var f := Proto(h, code, k, [], NOTHING);
    assert EncAll(EncWord, code) == EncWord(code[0]) + EncAll(EncWord, code[1..]) == [4, 3, 2, 1];
    assert EncMany(EncWord, code) == [1, 0, 0, 0, 4, 3, 2, 1];
    assert EncHead(h, false) == [2, 0, 0, 0, 65, 0] + [1, 0, 0, 0] + [2, 0, 0, 0] + [3, 4, 5, 6];
    assert EncDebug(NOTHING) == [0, 0, 0, 0] + [0, 0, 0, 0] + [0, 0, 0, 0];
    assert EncProtos(f, false, 0) == [];
  }

  // ------------------------------------------------------------------------------------------ loading

  datatype Error = UnexpectedEnd | BadInteger | BadConstant | TooDeep | BadHeader | BadCode

  /** A value read from the front of some bytes, and the bytes that follow. */
  datatype Parsed<+T> = Ok(value: T, rest: seq<Byte>) | Bad(error: Error) {
    predicate IsFailure() { Bad? }

    function PropagateFailure<U>(): Parsed<U>
      requires Bad?
    {
      Bad(error)
    }

    function Extract(): (T, seq<Byte>)
      requires Ok?
    {
      (value, rest)
    }
  }

  type Parser<!T> = seq<Byte> -> Parsed<T>

  function ParseByte(b: seq<Byte>): Parsed<Byte> { if b == [] then Bad(UnexpectedEnd) else Ok(b[0], b[1..]) }

  function ParseBlock(n: nat, b: seq<Byte>): Parsed<seq<Byte>> {
    if |b| < n then Bad(UnexpectedEnd) else Ok(b[..n], b[n..])
  }

  function WordOf(b: seq<Byte>): Word
    requires |b| == 4
  {
    var b0: nat, b1: nat, b2: nat, b3: nat := b[0], b[1], b[2], b[3];
    b0 + 0x100 * b1 + 0x1_0000 * b2 + 0x100_0000 * b3
  }

  function ParseWord(b: seq<Byte>): Parsed<Word> {
    var (w, r) :- ParseBlock(4, b);
    Ok(WordOf(w), r)
  }

  function ParseInt(b: seq<Byte>): Parsed<nat> {
    var (w, r) :- ParseWord(b);
    if w > MAX_INT then Bad(BadInteger) else Ok(w, r)
  }

  /** The last byte is dropped, whatever it is. */
  function ParseText(b: seq<Byte>): Parsed<Option<Text>> {
    var (n, r) :- ParseWord(b);
    if n == 0 then Ok(None, r)
    else
      var (s, r') :- ParseBlock(n, r);
      Ok(Some(s[..n - 1]), r')
  }

  /** So many elements, one after the other. */
  function ParseAll<T>(parse: Parser<T>, n: nat, b: seq<Byte>): Parsed<seq<T>> {
    if n == 0 then Ok([], b)
    else
      var (x, r) :- parse(b);
      var (xs, r') :- ParseAll(parse, n - 1, r);
      Ok([x] + xs, r')
  }

  function ParseMany<T>(parse: Parser<T>, b: seq<Byte>): Parsed<seq<T>> {
    var (n, r) :- ParseInt(b);
    ParseAll(parse, n, r)
  }

  function ParseConstant(b: seq<Byte>): Parsed<Constant> {
    var (t, r) :- ParseByte(b);
    if t == 0 then Ok(Nil, r)
    else if t == 1 then
      var (c, r') :- ParseByte(r);
      Ok(Boolean(c != 0), r')
    else if t == 3 then
      var (n, r') :- ParseBlock(8, r);
      Ok(Number(n), r')
    else if t == 4 then
      var (s, r') :- ParseText(r);
      Ok(Str(s), r')
    else Bad(BadConstant)
  }

  function ParseLocal(b: seq<Byte>): Parsed<Local> {
    var (name, b1) :- ParseText(b);
    var (startpc, b2) :- ParseInt(b1);
    var (endpc, b3) :- ParseInt(b2);
    Ok(Local(name, startpc, endpc), b3)
  }

  /** A function without a source of its own has that of the enclosing function, `p`. */
  function ParseHead(b: seq<Byte>, p: Option<Text>): Parsed<Head> {
    var (source, b1) :- ParseText(b);
    var (line, b2) :- ParseInt(b1);
    var (lastLine, b3) :- ParseInt(b2);
    var (q, b4) :- ParseBlock(4, b3);
    Ok(Head(if source.None? then p else source, line, lastLine, q[0], q[1], q[2], q[3]), b4)
  }

  function ParseDebug(b: seq<Byte>): Parsed<Debug> {
    var (lineinfo, b1) :- ParseMany(ParseWord, b);
    var (locvars, b2) :- ParseMany(ParseLocal, b1);
    var (upvalues, b3) :- ParseMany(ParseText, b2);
    Ok(Debug(lineinfo, locvars, upvalues), b3)
  }

  /** `check` stands for the bytecode verifier; `room` is how many functions deeper nesting may go. */
  function ParseFunction(b: seq<Byte>, p: Option<Text>, room: nat, check: Proto -> bool): Parsed<Proto>
    decreases room, 0
  {
    if room == 0 then Bad(TooDeep)
    else
      var (head, b1) :- ParseHead(b, p);
      var (code, b2) :- ParseMany(ParseWord, b1);
      var (k, b3) :- ParseMany(ParseConstant, b2);
      var (n, b4) :- ParseInt(b3);
      var (fs, b5) :- ParseProtos(n, b4, head.source, room - 1, check);
      var (debug, b6) :- ParseDebug(b5);
      var f := Proto(head, code, k, fs, debug);
      if check(f) then Ok(f, b6) else Bad(BadCode)
  }

  function ParseProtos(n: nat, b: seq<Byte>, p: Option<Text>, room: nat, check: Proto -> bool): Parsed<seq<Proto>>
    decreases room, n
  {
    if n == 0 then Ok([], b)
    else
      var (f, r) :- ParseFunction(b, p, room, check);
      var (fs, r') :- ParseProtos(n - 1, r, p, room, check);
      Ok([f] + fs, r')
  }

  /** What is left of a function that was dumped and loaded: `q` is the source of the enclosing function. */
  function Loaded(f: Proto, q: Option<Text>, strip: bool): (g: Proto)
    ensures |g.p| == |f.p|
    decreases f
  {
    var s := if strip || f.head.source.None? then q else f.head.source;
    Proto(f.head.(source := s), f.code, f.k, seq(|f.p|, i requires 0 <= i < |f.p| => Loaded(f.p[i], s, strip)),
          if strip then NOTHING else f.debug)
  }

  predicate Checked(f: Proto, check: Proto -> bool) {
    check(f) && forall i :: 0 <= i < |f.p| ==> Checked(f.p[i], check)
  }

  // --------------------------------------------------------------------------------------- round trip

  lemma WordTrip(w: Word, rest: seq<Byte>)
    ensures ParseWord(EncWord(w) + rest) == Ok(w, rest)
  {
    var b := EncWord(w) + rest;
    assert b[..4] == EncWord(w) && b[4..] == rest;
    assert w / 0x100 / 0x100 == w / 0x1_0000 && w / 0x1_0000 / 0x100 == w / 0x100_0000;
  }

  lemma IntTrip(n: nat, rest: seq<Byte>)
    requires n <= MAX_INT
    ensures ParseInt(EncWord(n) + rest) == Ok(n, rest)
  {
    WordTrip(n, rest);
  }

  lemma TextTrip(t: Option<Text>, rest: seq<Byte>)
    requires TextFits(t)
    ensures ParseText(EncText(t) + rest) == Ok(t, rest)
  {
    match t
    case None => WordTrip(0, rest);
    case Some(s) =>
      var r := s + [0] + rest;
      WordTrip(|s| + 1, r);
      assert EncText(t) + rest == EncWord(|s| + 1) + r;
      assert r[..|s| + 1] == s + [0] && r[|s| + 1..] == rest;
      assert (s + [0])[..|s|] == s;
  }

  ghost predicate Trips<T(!new)>(enc: T --> seq<Byte>, parse: Parser<T>, x: T) {
    enc.requires(x) && forall rest :: parse(enc(x) + rest) == Ok(x, rest)
  }

  lemma {:induction false} AllTrip<T(!new)>(enc: T --> seq<Byte>, parse: Parser<T>, xs: seq<T>, rest: seq<Byte>)
    requires (forall x :: x in xs ==> enc.requires(x)) && (forall x :: x in xs ==> Trips(enc, parse, x))
    ensures ParseAll(parse, |xs|, EncAll(enc, xs) + rest) == Ok(xs, rest)
  {
    if xs == [] {
      assert EncAll(enc, xs) + rest == rest;
    } else {
      var r := EncAll(enc, xs[1..]) + rest;
      assert Trips(enc, parse, xs[0]);
      assert EncAll(enc, xs) + rest == enc(xs[0]) + r;
      AllTrip(enc, parse, xs[1..], rest);
      assert [xs[0]] + xs[1..] == xs;
    }
  }

  lemma ManyTrip<T(!new)>(enc: T --> seq<Byte>, parse: Parser<T>, xs: seq<T>, rest: seq<Byte>)
    requires |xs| <= MAX_INT && (forall x :: x in xs ==> enc.requires(x))
    requires (forall x :: x in xs ==> Trips(enc, parse, x))
    ensures ParseMany(parse, EncMany(enc, xs) + rest) == Ok(xs, rest)
  {
    var r := EncAll(enc, xs) + rest;
    IntTrip(|xs|, r);
    assert EncMany(enc, xs) + rest == EncWord(|xs|) + r;
    AllTrip(enc, parse, xs, rest);
  }

  lemma ConstantTrip(c: Constant, rest: seq<Byte>)
    requires ConstantFits(c)
    ensures ParseConstant(EncConstant(c) + rest) == Ok(c, rest)
  {
    var b := EncConstant(c) + rest;
    match c
    case Nil => assert b[1..] == rest;
    case Boolean(v) => assert b[1..][1..] == rest;
    case Number(n) => assert b[1..] == n + rest && b[1..][..8] == n && b[1..][8..] == rest;
    case Str(s) =>
      assert b[1..] == EncText(s) + rest;
      TextTrip(s, rest);
  }

  lemma LocalTrip(l: Local, rest: seq<Byte>)
    requires LocalFits(l)
    ensures ParseLocal(EncLocal(l) + rest) == Ok(l, rest)
  {
    var b2 := EncWord(l.endpc) + rest;
    var b1 := EncWord(l.startpc) + b2;
    assert EncLocal(l) + rest == EncText(l.name) + b1;
    TextTrip(l.name, b1);
    IntTrip(l.startpc, b2);
    IntTrip(l.endpc, rest);
  }

  lemma HeadTrip(h: Head, omit: bool, q: Option<Text>, rest: seq<Byte>)
    requires HeadFits(h)
    ensures ParseHead(EncHead(h, omit) + rest, q) == Ok(h.(source := if omit || h.source.None? then q else h.source),
                                                        rest)
  {
    var s := if omit then None else h.source;
    var b3 := [h.nups, h.numparams, h.vararg, h.stack] + rest;
    var b2 := EncWord(h.lastLine) + b3;
    var b1 := EncWord(h.line) + b2;
    assert EncHead(h, omit) + rest == EncText(s) + b1;
    TextTrip(s, b1);
    IntTrip(h.line, b2);
    IntTrip(h.lastLine, b3);
    assert b3[..4] == [h.nups, h.numparams, h.vararg, h.stack] && b3[4..] == rest;
  }

  lemma WordsTrip(ws: seq<Word>, rest: seq<Byte>)
    requires |ws| <= MAX_INT
    ensures ParseMany(ParseWord, EncMany(EncWord, ws) + rest) == Ok(ws, rest)
  {
    forall w | w in ws ensures Trips(EncWord, ParseWord, w) {
      forall r ensures ParseWord(EncWord(w) + r) == Ok(w, r) { WordTrip(w, r); }
    }
    ManyTrip(EncWord, ParseWord, ws, rest);
  }

  lemma ConstantsTrip(cs: seq<Constant>, rest: seq<Byte>)
    requires |cs| <= MAX_INT && forall c :: c in cs ==> ConstantFits(c)
    ensures ParseMany(ParseConstant, EncMany(EncConstant, cs) + rest) == Ok(cs, rest)
  {
    forall c | c in cs ensures Trips(EncConstant, ParseConstant, c) {
      forall r ensures ParseConstant(EncConstant(c) + r) == Ok(c, r) { ConstantTrip(c, r); }
    }
    ManyTrip(EncConstant, ParseConstant, cs, rest);
  }

  lemma LocalsTrip(ls: seq<Local>, rest: seq<Byte>)
    requires |ls| <= MAX_INT && forall l :: l in ls ==> LocalFits(l)
    ensures ParseMany(ParseLocal, EncMany(EncLocal, ls) + rest) == Ok(ls, rest)
  {
    forall l | l in ls ensures Trips(EncLocal, ParseLocal, l) {
      forall r ensures ParseLocal(EncLocal(l) + r) == Ok(l, r) { LocalTrip(l, r); }
    }
    ManyTrip(EncLocal, ParseLocal, ls, rest);
  }

  lemma TextsTrip(ts: seq<Option<Text>>, rest: seq<Byte>)
    requires |ts| <= MAX_INT && forall t :: t in ts ==> TextFits(t)
    ensures ParseMany(ParseText, EncMany(EncText, ts) + rest) == Ok(ts, rest)
  {
    forall t | t in ts ensures Trips(EncText, ParseText, t) {
      forall r ensures ParseText(EncText(t) + r) == Ok(t, r) { TextTrip(t, r); }
    }
    ManyTrip(EncText, ParseText, ts, rest);
  }

  lemma DebugTrip(d: Debug, rest: seq<Byte>)
    requires DebugFits(d)
    ensures ParseDebug(EncDebug(d) + rest) == Ok(d, rest)
  {
    hide EncMany;
    hide ParseMany;
    var b2 := EncMany(EncText, d.upvalues) + rest;
    var b1 := EncMany(EncLocal, d.locvars) + b2;
    assert EncDebug(d) + rest == EncMany(EncWord, d.lineinfo) + b1;
    WordsTrip(d.lineinfo, b1);
    LocalsTrip(d.locvars, b2);
    TextsTrip(d.upvalues, rest);
  }

  lemma FunctionSteps(b: seq<Byte>, p: Option<Text>, room: nat, check: Proto -> bool, f: Proto,
                      b1: seq<Byte>, b2: seq<Byte>, b3: seq<Byte>, b4: seq<Byte>, b5: seq<Byte>, rest: seq<Byte>)
    requires room > 0 && check(f) && ParseHead(b, p) == Ok(f.head, b1) && ParseMany(ParseWord, b1) == Ok(f.code, b2)
    requires ParseMany(ParseConstant, b2) == Ok(f.k, b3) && ParseInt(b3) == Ok(|f.p|, b4)
    requires ParseProtos(|f.p|, b4, f.head.source, room - 1, check) == Ok(f.p, b5)
    requires ParseDebug(b5) == Ok(f.debug, rest)
    ensures ParseFunction(b, p, room, check) == Ok(f, rest)
  {
    hide ParseHead;
    hide ParseMany;
    hide ParseInt;
    hide ParseProtos;
    hide ParseDebug;
  }

  lemma FunctionBytes(f: Proto, p: Option<Text>, strip: bool, rest: seq<Byte>)
    requires Fits(f)
    ensures EncFunction(f, p, strip) + rest == EncHead(f.head, f.head.source == p || strip)
              + (EncMany(EncWord, f.code) + (EncMany(EncConstant, f.k) + (EncWord(|f.p|)
              + (EncProtos(f, strip, 0) + (EncDebug(if strip then NOTHING else f.debug) + rest)))))
  {
    hide EncMany;
    hide EncHead;
    hide EncWord;
    hide EncDebug;
    hide EncProtos;
  }

  /** Loading what was dumped: `p` is the source of the enclosing function when dumping, `q` when loading. */
  lemma {:induction false} FunctionTrip(f: Proto, p: Option<Text>, q: Option<Text>, strip: bool, room: nat,
                                        check: Proto -> bool,
                                        rest: seq<Byte>)
    requires Fits(f) && Within(f, room) && (!strip && p.Some? ==> q == p) && Checked(Loaded(f, q, strip), check)
    ensures ParseFunction(EncFunction(f, p, strip) + rest, q, room, check) == Ok(Loaded(f, q, strip), rest)
    decreases f, |f.p| + 1
  {
    hide ParseHead;
    hide ParseMany;
    hide ParseInt;
    hide ParseProtos;
    hide ParseDebug;
    hide ParseFunction;
    hide EncFunction;
    hide EncProtos;
    hide EncMany;
    hide EncHead;
    hide EncWord;
    hide EncDebug;
    var h, g := f.head, Loaded(f, q, strip);
    var d := if strip then NOTHING else f.debug;
    var b5 := EncDebug(d) + rest;
    var b4 := EncProtos(f, strip, 0) + b5;
    var b3 := EncWord(|f.p|) + b4;
    var b2 := EncMany(EncConstant, f.k) + b3;
    var b1 := EncMany(EncWord, f.code) + b2;
    FunctionBytes(f, p, strip, rest);
    HeadTrip(h, h.source == p || strip, q, b1);
    WordsTrip(f.code, b2);
    ConstantsTrip(f.k, b3);
    IntTrip(|f.p|, b4);
    ProtosTrip(f, g, strip, 0, room - 1, check, b5);
    assert g.p[0..] == g.p;
    DebugTrip(d, rest);
    FunctionSteps(EncFunction(f, p, strip) + rest, q, room, check, g, b1, b2, b3, b4, b5, rest);
  }

  lemma ProtosStep(n: nat, b: seq<Byte>, p: Option<Text>, room: nat, check: Proto -> bool, f: Proto, r: seq<Byte>,
                   fs: seq<Proto>,
                   rest: seq<Byte>)
    requires ParseFunction(b, p, room, check) == Ok(f, r) && ParseProtos(n, r, p, room, check) == Ok(fs, rest)
    ensures ParseProtos(n + 1, b, p, room, check) == Ok([f] + fs, rest)
  {
    hide ParseFunction;
  }

  lemma ProtosBytes(f: Proto, strip: bool, i: nat, rest: seq<Byte>)
    requires Fits(f) && i < |f.p|
    ensures EncProtos(f, strip, i) + rest == EncFunction(f.p[i], f.head.source,
                                                         strip) + (EncProtos(f, strip, i + 1) + rest)
  {
    hide EncFunction;
  }

  lemma {:induction false} ProtosTrip(f: Proto, g: Proto, strip: bool, i: nat, room: nat, check: Proto -> bool,
                                      rest: seq<Byte>)
    requires Fits(f) && Within(f, room + 1) && i <= |f.p| == |g.p| && Checked(g, check)
    requires forall j :: 0 <= j < |f.p| ==> g.p[j] == Loaded(f.p[j], g.head.source, strip)
    requires !strip && f.head.source.Some? ==> g.head.source == f.head.source
    ensures ParseProtos(|f.p| - i, EncProtos(f, strip, i) + rest, g.head.source, room, check) == Ok(g.p[i..], rest)
    decreases f, |f.p| - i
  {
    hide ParseFunction;
    hide EncFunction;
    hide Loaded;
    hide HeadFits;
    hide DebugFits;
    hide ConstantFits;
    if i == |f.p| {
      assert EncProtos(f, strip, i) + rest == rest;
      assert g.p[i..] == [];
    } else {
      hide ParseProtos;
      hide EncProtos;
      var r := EncProtos(f, strip, i + 1) + rest;
      ProtosBytes(f, strip, i, rest);
      FunctionTrip(f.p[i], f.head.source, g.head.source, strip, room, check, r);
      ProtosTrip(f, g, strip, i + 1, room, check, rest);
      ProtosStep(|f.p| - i - 1, EncProtos(f, strip, i) + rest, g.head.source, room, check, g.p[i], r, g.p[i + 1..],
                 rest);
      assert g.p[i..] == [g.p[i]] + g.p[i + 1..];
    }
  }

  // ------------------------------------------------------------------------------------ whole chunks

  /** The source of a main function that has none: `=?`. */
  const UNNAMED: Text := [61, 63]

  /** `header` says what machine and what version of the language a chunk is for. */
  function EncChunk(header: seq<Byte>, f: Proto, strip: bool): seq<Byte>
    requires Fits(f)
  {
    header + EncFunction(f, None, strip)
  }

  function ParseChunk(header: seq<Byte>, b: seq<Byte>, room: nat, check: Proto -> bool): Parsed<Proto> {
    var (h, r) :- ParseBlock(|header|, b);
    if h == header then ParseFunction(r, Some(UNNAMED), room, check) else Bad(BadHeader)
  }

  /** Every function says where it comes from. */
  predicate Named(f: Proto) { f.head.source.Some? && forall i :: 0 <= i < |f.p| ==> Named(f.p[i]) }

  /** A function is loaded as it was, just when no source is missing: a missing one is inherited. */
  lemma {:induction false} LoadedSame(f: Proto, q: Text)
    ensures Loaded(f, Some(q), false) == f <==> Named(f)
    decreases f
  {
    var g := Loaded(f, Some(q), false);
    if f.head.source.Some? {
      forall i | 0 <= i < |f.p| ensures g.p[i] == f.p[i] <==> Named(f.p[i]) { LoadedSame(f.p[i], f.head.source.value); }
      if Named(f) { assert g.p == f.p; }
    }
  }

  /** What loads from a chunk just dumped. */
  lemma ChunkTrip(header: seq<Byte>, f: Proto, strip: bool, room: nat, check: Proto -> bool, rest: seq<Byte>)
    requires Fits(f) && Within(f, room) && Checked(Loaded(f, Some(UNNAMED), strip), check)
    ensures ParseChunk(header, EncChunk(header, f, strip) + rest, room, check) == Ok(Loaded(f, Some(UNNAMED), strip),
                                                                                     rest)
  {
    hide EncFunction;
    hide ParseFunction;
    hide Loaded;
    var b := EncChunk(header, f, strip) + rest;
    assert b[..|header|] == header && b[|header|..] == EncFunction(f, None, strip) + rest;
    FunctionTrip(f, None, Some(UNNAMED), strip, room, check, rest);
  }

  /** Dump and load give back the same function, sources inherited from enclosing functions included. */
  lemma RoundTrip(header: seq<Byte>, f: Proto, room: nat, check: Proto -> bool, rest: seq<Byte>)
    requires Fits(f) && Within(f, room) && Checked(f, check) && Named(f)
    ensures ParseChunk(header, EncChunk(header, f, false) + rest, room, check) == Ok(f, rest)
  {
    LoadedSame(f, UNNAMED);
    ChunkTrip(header, f, false, room, check, rest);
  }

  /** They do so only for functions all of whose sources are known. */
  lemma RoundTripExactly(header: seq<Byte>, f: Proto, room: nat, check: Proto -> bool)
    requires Fits(f) && Within(f, room) && Checked(Loaded(f, Some(UNNAMED), false), check)
    ensures ParseChunk(header, EncChunk(header, f, false), room, check) == Ok(f, []) <==> Named(f)
  {
    LoadedSame(f, UNNAMED);
    ChunkTrip(header, f, false, room, check, []);
    assert EncChunk(header, f, false) + [] == EncChunk(header, f, false);
  }

  /** A function without sources and debug information, and the same for the functions in it. */
  function Bare(f: Proto): (g: Proto)
    ensures |g.p| == |f.p|
  {
    Proto(f.head.(source := None), f.code, f.k, seq(|f.p|, i requires 0 <= i < |f.p| => Bare(f.p[i])), NOTHING)
  }

  /** Nothing else is lost. */
  lemma {:induction false} OnlyDebugLost(f: Proto, q: Option<Text>, strip: bool)
    ensures Bare(Loaded(f, q, strip)) == Bare(f)
    decreases f
  {
    var g := Loaded(f, q, strip);
    forall i | 0 <= i < |f.p| ensures Bare(g.p[i]) == Bare(f.p[i]) { OnlyDebugLost(f.p[i], g.head.source, strip); }
    assert Bare(g).p == Bare(f).p;
  }

  /** Stripped: all sources are the same and no debug information is left, all the way down. */
  predicate Stripped(f: Proto, q: Option<Text>) {
    f.head.source == q && f.debug == NOTHING && forall i :: 0 <= i < |f.p| ==> Stripped(f.p[i], q)
  }

  lemma {:induction false} StripStrips(f: Proto, q: Option<Text>)
    ensures Stripped(Loaded(f, q, true), q)
    decreases f
  {
    forall i | 0 <= i < |f.p| ensures Stripped(Loaded(f.p[i], q, true), q) { StripStrips(f.p[i], q); }
  }

  /** A stripped dump loads to a function that differs in its sources and debug information only, and those are gone. */
  lemma StrippedTrip(header: seq<Byte>, f: Proto, room: nat, check: Proto -> bool, rest: seq<Byte>)
    requires Fits(f) && Within(f, room) && Checked(Loaded(f, Some(UNNAMED), true), check)
    ensures var r := ParseChunk(header, EncChunk(header, f, true) + rest, room, check);
      r.Ok? && r.rest == rest && Bare(r.value) == Bare(f) && Stripped(r.value, Some(UNNAMED))
  {
    ChunkTrip(header, f, true, room, check, rest);
    OnlyDebugLost(f, Some(UNNAMED), true);
    StripStrips(f, Some(UNNAMED));
  }

  // ------------------------------------------------------------------------ whatever loads, dumps again

  lemma {:induction false} AllFits<T(!new)>(parse: Parser<T>, fits: T -> bool, n: nat, b: seq<Byte>)
    requires forall r :: parse(r).Ok? ==> fits(parse(r).value)
    ensures ParseAll(parse, n, b).Ok? ==>
              |ParseAll(parse, n, b).value| == n && forall x :: x in ParseAll(parse, n, b).value ==> fits(x)
  {
    if n > 0 && parse(b).Ok? { AllFits(parse, fits, n - 1, parse(b).rest); }
  }

  lemma ManyFits<T(!new)>(parse: Parser<T>, fits: T -> bool, b: seq<Byte>)
    requires forall r :: parse(r).Ok? ==> fits(parse(r).value)
    ensures ParseMany(parse, b).Ok? ==>
              |ParseMany(parse, b).value| <= MAX_INT && forall x :: x in ParseMany(parse, b).value ==> fits(x)
  {
    if ParseInt(b).Ok? { AllFits(parse, fits, ParseInt(b).value, ParseInt(b).rest); }
  }

  lemma DebugFit(b: seq<Byte>)
    ensures ParseDebug(b).Ok? ==> DebugFits(ParseDebug(b).value)
  {
    ManyFits(ParseWord, w => true, b);
    if ParseMany(ParseWord, b).Ok? {
      var b1 := ParseMany(ParseWord, b).rest;
      ManyFits(ParseLocal, LocalFits, b1);
      if ParseMany(ParseLocal, b1).Ok? { ManyFits(ParseText, TextFits, ParseMany(ParseLocal, b1).rest); }
    }
  }

  /** What has been loaded is within the range of the machine, nested no deeper than allowed, verified, and knows its
      sources. */
  ghost predicate Sound(f: Proto, room: nat, check: Proto -> bool) {
    Fits(f) && Within(f, room) && Checked(f, check) && Named(f)
  }

  lemma SoundOf(f: Proto, room: nat, check: Proto -> bool)
    requires room > 0 && HeadFits(f.head) && f.head.source.Some? && DebugFits(f.debug) && check(f)
    requires |f.code| <= MAX_INT && |f.k| <= MAX_INT && |f.p| <= MAX_INT && (forall c :: c in f.k ==> ConstantFits(c))
    requires forall i :: 0 <= i < |f.p| ==> Sound(f.p[i], room - 1, check)
    ensures Sound(f, room, check)
  {
    hide HeadFits;
    hide DebugFits;
    hide ConstantFits;
    assert forall i :: 0 <= i < |f.p| ==> Sound(f.p[i], room - 1, check) && Fits(f.p[i]);
  }

  lemma HeadFit(b: seq<Byte>, p: Option<Text>)
    requires p.Some? && TextFits(p)
    ensures ParseHead(b, p).Ok? ==> HeadFits(ParseHead(b, p).value) && ParseHead(b, p).value.source.Some?
  {}

  lemma ConstantsFit(b: seq<Byte>)
    ensures ParseMany(ParseConstant, b).Ok? ==>
              |ParseMany(ParseConstant, b).value| <= MAX_INT && forall c :: c in ParseMany(ParseConstant, b).value ==>
                ConstantFits(c)
  {
    ManyFits(ParseConstant, ConstantFits, b);
  }

  lemma IntFits(b: seq<Byte>)
    ensures ParseInt(b).Ok? ==> ParseInt(b).value <= MAX_INT
  {}

  lemma {:induction false} LoadsSound(b: seq<Byte>, p: Option<Text>, room: nat, check: Proto -> bool)
    requires p.Some? && TextFits(p)
    ensures var r := ParseFunction(b, p, room, check); r.Ok? ==> Sound(r.value, room, check)
    decreases room, 0
  {
    hide ParseHead;
    hide ParseMany;
    hide ParseInt;
    hide ParseDebug;
    hide ParseProtos;
    hide Sound;
    hide DebugFits;
    hide ConstantFits;
    var r := ParseFunction(b, p, room, check);
    if r.Ok? {
      var h := ParseHead(b, p);
      HeadFit(b, p);
      var c := ParseMany(ParseWord, h.rest);
      ManyFits(ParseWord, w => true, h.rest);
      var k := ParseMany(ParseConstant, c.rest);
      ConstantsFit(c.rest);
      var n := ParseInt(k.rest);
      IntFits(k.rest);
      var fs := ParseProtos(n.value, n.rest, h.value.source, room - 1, check);
      ProtosSound(n.value, n.rest, h.value.source, room - 1, check);
      DebugFit(fs.rest);
      SoundOf(r.value, room, check);
    }
  }

  lemma {:induction false} ProtosSound(n: nat, b: seq<Byte>, p: Option<Text>, room: nat, check: Proto -> bool)
    requires p.Some? && TextFits(p)
    ensures var r := ParseProtos(n, b, p, room, check);
      r.Ok? ==> |r.value| == n && forall i :: 0 <= i < n ==> Sound(r.value[i], room, check)
    decreases room, n
  {
    hide ParseFunction;
    hide Sound;
    if n > 0 {
      LoadsSound(b, p, room, check);
      var r := ParseFunction(b, p, room, check);
      if r.Ok? { ProtosSound(n - 1, r.rest, p, room, check); }
    }
  }

  /** Whatever bytes a function was loaded from, dumping and loading it again gives the same function. */
  lemma Reload(header: seq<Byte>, b: seq<Byte>, room: nat, check: Proto -> bool)
    requires ParseChunk(header, b, room, check).Ok?
    ensures var f := ParseChunk(header, b, room, check).value;
      Fits(f) && ParseChunk(header, EncChunk(header, f, false), room, check) == Ok(f, [])
  {
    var f := ParseChunk(header, b, room, check).value;
    LoadsSound(b[|header|..], Some(UNNAMED), room, check);
    RoundTrip(header, f, room, check, []);
    assert EncChunk(header, f, false) + [] == EncChunk(header, f, false);
  }
}
