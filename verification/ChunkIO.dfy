/**
  Dumping to a writer that may fail, and loading from a reader that gives its bytes in chunks.
 */
module ChunkIO {
  import opened Basics
  import opened Chunks

  /** What has been written: all of `enc`, or, since the writer failed, only a part from the front; nothing after a
      failure. */
  ghost predicate Wrote(before: seq<Byte>, failed: bool, now: seq<Byte>, fails: bool, enc: seq<Byte>) {
    if failed then fails && now == before
    else if fails then before <= now <= before + enc
    else now == before + enc
  }

  lemma WroteBoth(o: seq<Byte>, f0: bool, o1: seq<Byte>, f1: bool, o2: seq<Byte>, f2: bool, a: seq<Byte>, b: seq<Byte>)
    requires Wrote(o, f0, o1, f1, a) && Wrote(o1, f1, o2, f2, b)
    ensures Wrote(o, f0, o2, f2, a + b)
  {
    assert o + (a + b) == (o + a) + b;
    if !f0 && f1 { assert o1 <= o + a <= o + a + b; }
  }

  class DumpState {
    const strip: bool
    /** What the writer has accepted. */
    var out: seq<Byte>
    var status: int
    /** What the writer will answer, block by block; after the last it accepts everything. */
    var answers: seq<int>
    /** All its answers, and those it has given. */
    ghost const script: seq<int>
    ghost var given: seq<int>

    constructor (strip: bool, answers: seq<int>)
      ensures this.strip == strip && out == [] && status == 0 && script == answers && Valid()
    {
      this.strip := strip;
      out, status := [], 0;
      this.answers, script, given := answers, answers, [];
    }

    /** The status is the last answer, and the first that is not 0: after it no more is written. */
    ghost predicate Valid()
      reads `status, `answers, `given
    {
      && script == given + answers
      && status == (if given == [] then 0 else given[|given| - 1])
      && forall i :: 0 <= i < |given| - 1 ==> given[i] == 0
    }

    ghost predicate Now(before: seq<Byte>, failed: bool, enc: seq<Byte>)
      reads `out, `status, `answers, `given
    {
      Valid() && Wrote(before, failed, out, status != 0, enc)
    }

    /** One more thing after what has been written. */
    lemma Also(o: seq<Byte>, f: bool, a: seq<Byte>, o1: seq<Byte>, f1: bool, b: seq<Byte>)
      requires Wrote(o, f, o1, f1, a) && Now(o1, f1, b)
      ensures Now(o, f, a + b)
    {
      WroteBoth(o, f, o1, f1, out, status != 0, a, b);
    }

    /** `DumpBlock`. */
    method DumpBlock(b: seq<Byte>)
      requires Valid()
      modifies `out, `status, `answers, `given
      ensures Now(old(out), old(status) != 0, b)
    {
      if status == 0 {
        if answers != [] {
          status := answers[0];
          given := given + [answers[0]];
          answers := answers[1..];
        }
        if status == 0 {
          out := out + b;
        }
      }
    }

    /** `DumpInt`, and `DumpVar` of a size. */
    method DumpWord(w: Word)
      requires Valid()
      modifies `out, `status, `answers, `given
      ensures Now(old(out), old(status) != 0, EncWord(w))
    {
      DumpBlock(EncWord(w));
    }

    /** `DumpVector`. */
    method DumpVector(ws: seq<Word>)
      requires |ws| <= MAX_INT
      requires Valid()
      modifies `out, `status, `answers, `given
      ensures Now(old(out), old(status) != 0, EncMany(EncWord, ws))
    {
      ghost var o, f := out, status != 0;
      DumpWord(|ws|);
      ghost var o1, f1 := out, status != 0;
      DumpBlock(EncAll(EncWord, ws));
      Also(o, f, EncWord(|ws|), o1, f1, EncAll(EncWord, ws));
    }

    /** `DumpString`. */
    method DumpString(t: Option<Text>)
      requires TextFits(t)
      requires Valid()
      modifies `out, `status, `answers, `given
      ensures Now(old(out), old(status) != 0, EncText(t))
    {
      ghost var o, f := out, status != 0;
      if t.None? {
        DumpWord(0);
      } else {
        DumpWord(|t.value| + 1);
        ghost var o1, f1 := out, status != 0;
        DumpBlock(t.value + [0]);
        Also(o, f, EncWord(|t.value| + 1), o1, f1, t.value + [0]);
        assert EncText(t) == EncWord(|t.value| + 1) + (t.value + [0]);
      }
    }

    /** One constant, with its type first. */
    method DumpConstant(c: Constant)
      requires ConstantFits(c)
      requires Valid()
      modifies `out, `status, `answers, `given
      ensures Now(old(out), old(status) != 0, EncConstant(c))
    {
      ghost var o, f := out, status != 0;
      var tag: Byte := match c case Nil => 0 case Boolean(_) => 1 case Number(_) => 3 case Str(_) => 4;
      DumpBlock([tag]);
      ghost var o1, f1 := out, status != 0;
      match c {
        case Nil =>
        case Boolean(b) =>
          DumpBlock([if b then 1 else 0]);
          Also(o, f, [tag], o1, f1, [if b then 1 else 0]);
        case Number(n) =>
          DumpBlock(n);
          Also(o, f, [tag], o1, f1, n);
        case Str(s) =>
          DumpString(s);
          Also(o, f, [tag], o1, f1, EncText(s));
      }
    }

    /** The elements of a vector, each written on its own. */
    method DumpConstants(k: seq<Constant>)
      requires |k| <= MAX_INT && forall c :: c in k ==> ConstantFits(c)
      requires Valid()
      modifies `out, `status, `answers, `given
      ensures Now(old(out), old(status) != 0, EncMany(EncConstant, k))
    {
      hide Wrote;
      ghost var o, f := out, status != 0;
      DumpWord(|k|);
      ghost var done := EncWord(|k|);
      assert k[0..] == k;
      var i := 0;
      while i < |k|
        invariant 0 <= i <= |k| && Now(o, f, done) && EncMany(EncConstant, k) == done + EncAll(EncConstant, k[i..])
      {
        ghost var o1, f1 := out, status != 0;
        DumpConstant(k[i]);
        Also(o, f, done, o1, f1, EncConstant(k[i]));
        AllFrom(EncConstant, k, i);
        done := done + EncConstant(k[i]);
        i := i + 1;
      }
      assert EncMany(EncConstant, k) == done;
    }

    method DumpLocal(l: Local)
      requires LocalFits(l)
      requires Valid()
      modifies `out, `status, `answers, `given
      ensures Now(old(out), old(status) != 0, EncLocal(l))
    {
      hide Wrote;
      ghost var o, f := out, status != 0;
      DumpString(l.name);
      ghost var o1, f1 := out, status != 0;
      DumpWord(l.startpc);
      Also(o, f, EncText(l.name), o1, f1, EncWord(l.startpc));
      ghost var o2, f2 := out, status != 0;
      DumpWord(l.endpc);
      Also(o, f, EncText(l.name) + EncWord(l.startpc), o2, f2, EncWord(l.endpc));
    }

    method DumpLocals(ls: seq<Local>)
      requires |ls| <= MAX_INT && forall l :: l in ls ==> LocalFits(l)
      requires Valid()
      modifies `out, `status, `answers, `given
      ensures Now(old(out), old(status) != 0, EncMany(EncLocal, ls))
    {
      hide Wrote;
      ghost var o, f := out, status != 0;
      DumpWord(|ls|);
      ghost var done := EncWord(|ls|);
      assert ls[0..] == ls;
      var i := 0;
      while i < |ls|
        invariant 0 <= i <= |ls| && Now(o, f, done) && EncMany(EncLocal, ls) == done + EncAll(EncLocal, ls[i..])
      {
        ghost var o1, f1 := out, status != 0;
        DumpLocal(ls[i]);
        Also(o, f, done, o1, f1, EncLocal(ls[i]));
        AllFrom(EncLocal, ls, i);
        done := done + EncLocal(ls[i]);
        i := i + 1;
      }
      assert EncMany(EncLocal, ls) == done;
    }

    method DumpStrings(ts: seq<Option<Text>>)
      requires |ts| <= MAX_INT && forall t :: t in ts ==> TextFits(t)
      requires Valid()
      modifies `out, `status, `answers, `given
      ensures Now(old(out), old(status) != 0, EncMany(EncText, ts))
    {
      hide Wrote;
      ghost var o, f := out, status != 0;
      DumpWord(|ts|);
      ghost var done := EncWord(|ts|);
      assert ts[0..] == ts;
      var i := 0;
      while i < |ts|
        invariant 0 <= i <= |ts| && Now(o, f, done) && EncMany(EncText, ts) == done + EncAll(EncText, ts[i..])
      {
        ghost var o1, f1 := out, status != 0;
        DumpString(ts[i]);
        Also(o, f, done, o1, f1, EncText(ts[i]));
        AllFrom(EncText, ts, i);
        done := done + EncText(ts[i]);
        i := i + 1;
      }
      assert EncMany(EncText, ts) == done;
    }

    /** `DumpDebug`. */
    method DumpDebug(d: Debug)
      requires DebugFits(d)
      requires Valid()
      modifies `out, `status, `answers, `given
      ensures Now(old(out), old(status) != 0, EncDebug(if strip then NOTHING else d))
    {
      hide Wrote;
      hide EncMany;
      var e := if strip then NOTHING else d;
      ghost var o, f := out, status != 0;
      DumpVector(e.lineinfo);
      ghost var o1, f1 := out, status != 0;
      DumpLocals(e.locvars);
      Also(o, f, EncMany(EncWord, e.lineinfo), o1, f1, EncMany(EncLocal, e.locvars));
      ghost var o2, f2 := out, status != 0;
      DumpStrings(e.upvalues);
      Also(o, f, EncMany(EncWord, e.lineinfo) + EncMany(EncLocal, e.locvars), o2, f2, EncMany(EncText, e.upvalues));
    }

    /** The fields of a function that come first; its source only if it is not that of the enclosing function. */
    method DumpHead(h: Head, p: Option<Text>)
      requires HeadFits(h)
      requires Valid()
      modifies `out, `status, `answers, `given
      ensures Now(old(out), old(status) != 0, EncHead(h, h.source == p || strip))
    {
      hide Wrote;
      ghost var o, f := out, status != 0;
      var s := if h.source == p || strip then None else h.source;
      DumpString(s);
      ghost var done := EncText(s);
      ghost var o1, f1 := out, status != 0;
      DumpWord(h.line);
      Also(o, f, done, o1, f1, EncWord(h.line));
      done := done + EncWord(h.line);
      o1, f1 := out, status != 0;
      DumpWord(h.lastLine);
      Also(o, f, done, o1, f1, EncWord(h.lastLine));
      done := done + EncWord(h.lastLine);
      var bytes := [h.nups, h.numparams, h.vararg, h.stack];
      ghost var start := done;
      var i := 0;
      while i < 4
        invariant 0 <= i <= 4 && Now(o, f, done) && done == start + bytes[..i]
      {
        o1, f1 := out, status != 0;
        DumpBlock([bytes[i]]);
        Also(o, f, done, o1, f1, [bytes[i]]);
        done := done + [bytes[i]];
        i := i + 1;
      }
      assert bytes[..4] == bytes;
    }

    /** The functions in a function: the second half of `DumpConstants`. */
    method DumpProtos(g: Proto)
      requires Fits(g)
      requires Valid()
      modifies `out, `status, `answers, `given
      ensures Now(old(out), old(status) != 0, EncWord(|g.p|) + EncProtos(g, strip, 0))
      decreases g, 0
    {
      hide Wrote;
      hide EncFunction;
      hide EncProtos;
      hide Fits;
      FitsParts(g);
      ghost var o, f := out, status != 0;
      DumpWord(|g.p|);
      ghost var done := EncWord(|g.p|);
      var i := 0;
      while i < |g.p|
        invariant 0 <= i <= |g.p| && Now(o, f, done)
        invariant EncWord(|g.p|) + EncProtos(g, strip, 0) == done + EncProtos(g, strip, i)
      {
        ghost var o1, f1 := out, status != 0;
        DumpFunction(g.p[i], g.head.source);
        ghost var e := EncFunction(g.p[i], g.head.source, strip);
        Also(o, f, done, o1, f1, e);
        ProtosFrom(g, strip, i);
        done := done + e;
        i := i + 1;
      }
      ProtosNone(g, strip);
      assert done + [] == done;
    }

    /** `DumpFunction`; `p` is the source of the enclosing function. */
    method DumpFunction(g: Proto, p: Option<Text>)
      requires Fits(g)
      requires Valid()
      modifies `out, `status, `answers, `given
      ensures Now(old(out), old(status) != 0, EncFunction(g, p, strip))
      decreases g, 1
    {
      hide Wrote;
      hide EncFunction;
      hide EncProtos;
      hide EncMany;
      hide EncHead;
      hide EncDebug;
      hide EncWord;
      ghost var o, f := out, status != 0;
      DumpHead(g.head, p);
      ghost var done := EncHead(g.head, g.head.source == p || strip);
      ghost var o1, f1 := out, status != 0;
      DumpVector(g.code);
      Also(o, f, done, o1, f1, EncMany(EncWord, g.code));
      done := done + EncMany(EncWord, g.code);
      o1, f1 := out, status != 0;
      DumpConstants(g.k);
      Also(o, f, done, o1, f1, EncMany(EncConstant, g.k));
      done := done + EncMany(EncConstant, g.k);
      o1, f1 := out, status != 0;
      DumpProtos(g);
      Also(o, f, done, o1, f1, EncWord(|g.p|) + EncProtos(g, strip, 0));
      done := done + (EncWord(|g.p|) + EncProtos(g, strip, 0));
      o1, f1 := out, status != 0;
      DumpDebug(g.debug);
      Also(o, f, done, o1, f1, EncDebug(if strip then NOTHING else g.debug));
      FunctionIs(g, p, strip);
    }

    /** `luaU_dump`. */
    method Dump(header: seq<Byte>, g: Proto)
      requires Fits(g) && out == [] && status == 0
      requires Valid()
      modifies `out, `status, `answers, `given
      ensures if status == 0 then out == EncChunk(header, g, strip) else out <= EncChunk(header, g, strip)
      ensures Valid() && (status != 0 ==> status in script)
    {
      DumpBlock(header);
      ghost var o1, f1 := out, status != 0;
      DumpFunction(g, None);
      Also([], false, header, o1, f1, EncFunction(g, None, strip));
    }
  }

  // ------------------------------------------------------------------------------------------ reading

  /** A reader's chunks up to the first that is empty: that is where the stream ends. */
  function Flat(chunks: seq<seq<Byte>>): seq<Byte> {
    if chunks == [] || chunks[0] == [] then [] else chunks[0] + Flat(chunks[1..])
  }

  const EOZ := -1

  class Zio {
    /** What is left of the current chunk. */
    var buffer: seq<Byte>
    /** What the reader will give, call by call. */
    var chunks: seq<seq<Byte>>

    /** What there is to read, as one string of bytes. */
    ghost function Bytes(): seq<Byte>
      reads this
    {
      buffer + Flat(chunks)
    }

    constructor (chunks: seq<seq<Byte>>)
      ensures Bytes() == Flat(chunks)
    {
      buffer := [];
      this.chunks := chunks;
    }

    /** `luaZ_fill`. */
    method Fill() returns (c: int)
      requires buffer == []
      modifies this
      ensures if old(Bytes()) == [] then c == EOZ && buffer == [] else 0 <= c < 0x100 && old(Bytes()) == [c] + Bytes()
    {
      if chunks == [] {
        return EOZ;
      }
      var chunk := chunks[0];
      chunks := chunks[1..];
      if chunk == [] {
        return EOZ;
      }
      buffer := chunk[1..];
      assert chunk == [chunk[0]] + buffer;
      return chunk[0];
    }

    /** `luaZ_lookahead`. */
    method Lookahead() returns (c: int)
      modifies this
      ensures if old(Bytes()) == [] then c == EOZ else Bytes() == old(Bytes()) && buffer != [] && c == buffer[0]
    {
      if buffer == [] {
        c := Fill();
        if c == EOZ {
          return;
        }
        var first: Byte := c;
        buffer := [first] + buffer;
      }
      c := buffer[0];
    }

    /** `luaZ_read`: the bytes read, and how many are missing. */
    method Read(n: nat) returns (b: seq<Byte>, missing: nat)
      modifies this
      ensures missing == 0 ==> n <= |old(Bytes())| && b == old(Bytes())[..n] && Bytes() == old(Bytes())[n..]
      ensures missing > 0 ==> |old(Bytes())| == n - missing && b == old(Bytes())
    {
      b, missing := [], n;
      assert [] + Bytes() == Bytes();
      while missing > 0
        invariant missing <= n && |b| == n - missing && old(Bytes()) == b + Bytes()
      {
        var c := Lookahead();
        if c == EOZ {
          assert b + [] == b;
          return;
        }
        var m := if missing <= |buffer| then missing else |buffer|;
        assert buffer == buffer[..m] + buffer[m..];
        assert Bytes() == buffer[..m] + (buffer[m..] + Flat(chunks));
        b := b + buffer[..m];
        buffer := buffer[m..];
        missing := missing - m;
      }
    }
  }

  // ------------------------------------------------------------------------------------------ loading

  datatype Outcome<+T> = Done(value: T) | Failed(error: Error) {
    predicate IsFailure() { Failed? }

    function PropagateFailure<U>(): Outcome<U>
      requires Failed?
    {
      Failed(error)
    }

    function Extract(): T
      requires Done?
    {
      value
    }
  }

  /** The outcome is what the bytes say, and `rest` is what follows. */
  ghost predicate Reads<T>(p: Parsed<T>, r: Outcome<T>, rest: seq<Byte>) {
    match r
    case Done(v) => p == Ok(v, rest)
    case Failed(e) => p == Bad(e)
  }

  /** Elements read before the others. */
  function After<T>(xs: seq<T>, p: Parsed<seq<T>>): Parsed<seq<T>> {
    match p
    case Ok(ys, r) => Ok(xs + ys, r)
    case Bad(e) => Bad(e)
  }

  lemma AfterNone<T>(p: Parsed<seq<T>>)
    ensures After([], p) == p
  {
    if p.Ok? { assert [] + p.value == p.value; }
  }

  lemma AfterStep<T>(parse: Parser<T>, xs: seq<T>, n: nat, b: seq<Byte>)
    requires n > 0
    ensures match parse(b)
      case Ok(x, r) => After(xs, ParseAll(parse, n, b)) == After(xs + [x], ParseAll(parse, n - 1, r))
      case Bad(e) => After(xs, ParseAll(parse, n, b)) == Bad(e)
  {
    var p := parse(b);
    if p.Ok? {
      var q := ParseAll(parse, n - 1, p.rest);
      if q.Ok? { assert xs + ([p.value] + q.value) == xs + [p.value] + q.value; }
    }
  }

  lemma AfterProtos(xs: seq<Proto>, n: nat, b: seq<Byte>, p: Option<Text>, room: nat, check: Proto -> bool)
    requires n > 0
    ensures match ParseFunction(b, p, room, check)
      case Ok(x, r) => After(xs, ParseProtos(n, b, p, room, check)) == After(xs + [x],
                                                                             ParseProtos(n - 1, r, p, room, check))
      case Bad(e) => After(xs, ParseProtos(n, b, p, room, check)) == Bad(e)
  {
    hide ParseFunction;
    var f := ParseFunction(b, p, room, check);
    if f.Ok? {
      var q := ParseProtos(n - 1, f.rest, p, room, check);
      if q.Ok? { assert xs + ([f.value] + q.value) == xs + [f.value] + q.value; }
    }
  }

  /** The words of a block of memory. */
  function WordsOf(b: seq<Byte>): (ws: seq<Word>)
    requires |b| % 4 == 0
  {
    if b == [] then [] else [WordOf(b[..4])] + WordsOf(b[4..])
  }

  /** Reading words one by one is reading them in one block. */
  lemma {:induction false} BlockOfWords(n: nat, b: seq<Byte>)
    ensures ParseAll(ParseWord, n, b) == if |b| < 4 * n then Bad(UnexpectedEnd) else Ok(WordsOf(b[..4 * n]), b[4 * n..])
  {
    if n == 0 {
      assert b[..0] == [] && b[0..] == b;
    } else if |b| >= 4 {
      BlockOfWords(n - 1, b[4..]);
      if |b| >= 4 * n {
        assert b[..4 * n][..4] == b[..4] && b[..4 * n][4..] == b[4..][..4 * (n - 1)];
        assert b[4..][4 * (n - 1)..] == b[4 * n..];
      }
    }
  }

  class LoadState {
    const z: Zio
    /** `LUAI_MAXCCALLS`. */
    const limit: nat
    const check: Proto -> bool
    /** `nCcalls`. */
    var calls: nat

    constructor (z: Zio, limit: nat, check: Proto -> bool)
      ensures this.z == z && this.limit == limit && this.check == check && calls == 0
    {
      this.z, this.limit, this.check, calls := z, limit, check, 0;
    }

    /** `LoadBlock`. */
    method LoadBlock(n: nat) returns (r: Outcome<seq<Byte>>)
      modifies z
      ensures Reads(ParseBlock(n, old(z.Bytes())), r, z.Bytes())
    {
      var b, missing := z.Read(n);
      r := if missing != 0 then Failed(UnexpectedEnd) else Done(b);
    }

    /** `LoadChar`. */
    method LoadByte() returns (r: Outcome<Byte>)
      modifies z
      ensures Reads(ParseByte(old(z.Bytes())), r, z.Bytes())
    {
      var b :- LoadBlock(1);
      r := Done(b[0]);
    }

    /** `LoadVar` of a size. */
    method LoadWord() returns (r: Outcome<Word>)
      modifies z
      ensures Reads(ParseWord(old(z.Bytes())), r, z.Bytes())
    {
      var b :- LoadBlock(4);
      r := Done(WordOf(b));
    }

    /** `LoadInt`. */
    method LoadInt() returns (r: Outcome<nat>)
      modifies z
      ensures Reads(ParseInt(old(z.Bytes())), r, z.Bytes())
    {
      var w :- LoadWord();
      r := if w > MAX_INT then Failed(BadInteger) else Done(w);
    }

    /** `LoadString`. */
    method LoadString() returns (r: Outcome<Option<Text>>)
      modifies z
      ensures Reads(ParseText(old(z.Bytes())), r, z.Bytes())
    {
      var size :- LoadWord();
      if size == 0 {
        return Done(None);
      }
      var s :- LoadBlock(size);
      r := Done(Some(s[..size - 1]));
    }

    /** `LoadCode`, and the line numbers: their number and then all of them at once. */
    method LoadVector() returns (r: Outcome<seq<Word>>)
      modifies z
      ensures Reads(ParseMany(ParseWord, old(z.Bytes())), r, z.Bytes())
    {
      var n :- LoadInt();
      BlockOfWords(n, z.Bytes());
      var b :- LoadBlock(4 * n);
      r := Done(WordsOf(b));
    }

    method LoadConstant() returns (r: Outcome<Constant>)
      modifies z
      ensures Reads(ParseConstant(old(z.Bytes())), r, z.Bytes())
    {
      var t :- LoadByte();
      match t {
        case 0 => r := Done(Nil);
        case 1 =>
          var c :- LoadByte();
          r := Done(Boolean(c != 0));
        case 3 =>
          var n :- LoadBlock(8);
          r := Done(Number(n));
        case 4 =>
          var s :- LoadString();
          r := Done(Str(s));
        case _ => r := Failed(BadConstant);
      }
    }

    /** The first loop of `LoadConstants`. */
    method LoadConstants() returns (r: Outcome<seq<Constant>>)
      modifies z
      ensures Reads(ParseMany(ParseConstant, old(z.Bytes())), r, z.Bytes())
    {
      hide ParseConstant;
      var n :- LoadInt();
      ghost var all := ParseAll(ParseConstant, n, z.Bytes());
      var k, i := [], 0;
      AfterNone(all);
      while i < n
        invariant 0 <= i <= n && all == After(k, ParseAll(ParseConstant, n - i, z.Bytes()))
      {
        AfterStep(ParseConstant, k, n - i, z.Bytes());
        var c :- LoadConstant();
        k, i := k + [c], i + 1;
      }
      assert k + [] == k;
      r := Done(k);
    }

    method LoadLocal() returns (r: Outcome<Local>)
      modifies z
      ensures Reads(ParseLocal(old(z.Bytes())), r, z.Bytes())
    {
      hide ParseText;
      hide ParseInt;
      var name :- LoadString();
      var startpc :- LoadInt();
      var endpc :- LoadInt();
      r := Done(Local(name, startpc, endpc));
    }

    method LoadLocals() returns (r: Outcome<seq<Local>>)
      modifies z
      ensures Reads(ParseMany(ParseLocal, old(z.Bytes())), r, z.Bytes())
    {
      hide ParseLocal;
      var n :- LoadInt();
      ghost var all := ParseAll(ParseLocal, n, z.Bytes());
      var ls, i := [], 0;
      AfterNone(all);
      while i < n
        invariant 0 <= i <= n && all == After(ls, ParseAll(ParseLocal, n - i, z.Bytes()))
      {
        AfterStep(ParseLocal, ls, n - i, z.Bytes());
        var l :- LoadLocal();
        ls, i := ls + [l], i + 1;
      }
      assert ls + [] == ls;
      r := Done(ls);
    }

    method LoadStrings() returns (r: Outcome<seq<Option<Text>>>)
      modifies z
      ensures Reads(ParseMany(ParseText, old(z.Bytes())), r, z.Bytes())
    {
      hide ParseText;
      var n :- LoadInt();
      ghost var all := ParseAll(ParseText, n, z.Bytes());
      var ts, i := [], 0;
      AfterNone(all);
      while i < n
        invariant 0 <= i <= n && all == After(ts, ParseAll(ParseText, n - i, z.Bytes()))
      {
        AfterStep(ParseText, ts, n - i, z.Bytes());
        var t :- LoadString();
        ts, i := ts + [t], i + 1;
      }
      assert ts + [] == ts;
      r := Done(ts);
    }

    /** `LoadDebug`. */
    method LoadDebug() returns (r: Outcome<Debug>)
      modifies z
      ensures Reads(ParseDebug(old(z.Bytes())), r, z.Bytes())
    {
      hide ParseMany;
      var lineinfo :- LoadVector();
      var locvars :- LoadLocals();
      var upvalues :- LoadStrings();
      r := Done(Debug(lineinfo, locvars, upvalues));
    }

    /** The fields of a function that come first. */
    method LoadHead(p: Option<Text>) returns (r: Outcome<Head>)
      modifies z
      ensures Reads(ParseHead(old(z.Bytes()), p), r, z.Bytes())
    {
      hide ParseText;
      hide ParseInt;
      var source :- LoadString();
      var line :- LoadInt();
      var lastLine :- LoadInt();
      var q :- LoadBlock(4);
      r := Done(Head(if source.None? then p else source, line, lastLine, q[0], q[1], q[2], q[3]));
    }

    ghost function Room(): nat
      reads this
    {
      if calls < limit then limit - calls else 0
    }

    /** The second loop of `LoadConstants`: the functions in a function. */
    method LoadProtos(n: nat, p: Option<Text>) returns (r: Outcome<seq<Proto>>)
      modifies z, this
      ensures Reads(ParseProtos(n, old(z.Bytes()), p, old(Room()), check), r, z.Bytes())
      ensures (r.Done? ==> calls == old(calls))
      decreases Room(), 1
    {
      hide ParseFunction;
      hide ParseProtos;
      ghost var all := ParseProtos(n, z.Bytes(), p, Room(), check);
      var fs, i := [], 0;
      AfterNone(all);
      while i < n
        invariant 0 <= i <= n && all == After(fs, ParseProtos(n - i, z.Bytes(), p, Room(), check))
        invariant calls == old(calls)
      {
        AfterProtos(fs, n - i, z.Bytes(), p, Room(), check);
        var f :- LoadFunction(p);
        fs, i := fs + [f], i + 1;
      }
      NoProtos(z.Bytes(), p, Room(), check);
      assert fs + [] == fs;
      r := Done(fs);
    }

    /** `LoadFunction`; `p` is the source of the enclosing function. */
    method LoadFunction(p: Option<Text>) returns (r: Outcome<Proto>)
      modifies z, this
      ensures Reads(ParseFunction(old(z.Bytes()), p, old(Room()), check), r, z.Bytes())
      ensures (r.Done? ==> calls == old(calls))
      decreases Room(), 0
    {
      hide ParseHead;
      hide ParseMany;
      hide ParseInt;
      hide ParseProtos;
      hide ParseDebug;
      calls := calls + 1;
      if calls > limit {
        return Failed(TooDeep);
      }
      var head :- LoadHead(p);
      var code :- LoadVector();
      var k :- LoadConstants();
      var n :- LoadInt();
      var fs :- LoadProtos(n, head.source);
      var debug :- LoadDebug();
      var f := Proto(head, code, k, fs, debug);
      if !check(f) {
        return Failed(BadCode);
      }
      calls := calls - 1;
      r := Done(f);
    }

    /** `luaU_undump`. */
    method Undump(header: seq<Byte>) returns (r: Outcome<Proto>)
      modifies z, this
      ensures Reads(ParseChunk(header, old(z.Bytes()), old(Room()), check), r, z.Bytes())
    {
      hide ParseFunction;
      var h :- LoadBlock(|header|);
      if h != header {
        return Failed(BadHeader);
      }
      r := LoadFunction(Some(UNNAMED));
    }
  }

  lemma NoProtos(b: seq<Byte>, p: Option<Text>, room: nat, check: Proto -> bool)
    ensures ParseProtos(0, b, p, room, check) == Ok([], b)
  {}

  /** What was dumped, however the reader then cuts it up, loads as it was. */
  method DumpThenLoad(header: seq<Byte>, f: Proto, limit: nat, check: Proto -> bool, answers: seq<int>,
                      cut: seq<Byte> -> seq<seq<Byte>>)
    returns (status: int, out: seq<Byte>, r: Outcome<Proto>)
    requires Fits(f) && Within(f, limit) && Checked(f, check) && Named(f) && forall b :: Flat(cut(b)) == b
    ensures status == 0 ==> out == EncChunk(header, f, false) && r == Done(f)
    ensures out <= EncChunk(header, f, false)
    ensures status != 0 ==> status in answers
    ensures match ParseChunk(header, out, limit, check) case Ok(g, _) => r == Done(g) case Bad(e) => r == Failed(e)
  {
    var d := new DumpState(false, answers);
    d.Dump(header, f);
    status, out := d.status, d.out;
    var z := new Zio(cut(out));
    var l := new LoadState(z, limit, check);
    r := l.Undump(header);
    RoundTrip(header, f, limit, check, []);
    assert EncChunk(header, f, false) + [] == EncChunk(header, f, false);
  }

  lemma AllFrom<T>(enc: T --> seq<Byte>, xs: seq<T>, i: nat)
    requires i < |xs| && forall x :: x in xs ==> enc.requires(x)
    ensures EncAll(enc, xs[i..]) == enc(xs[i]) + EncAll(enc, xs[i + 1..])
  {
    assert xs[i..][1..] == xs[i + 1..];
  }

  lemma FitsParts(g: Proto)
    requires Fits(g)
    ensures |g.p| <= MAX_INT && forall i :: 0 <= i < |g.p| ==> Fits(g.p[i])
  {}

  lemma FunctionIs(g: Proto, p: Option<Text>, strip: bool)
    requires Fits(g)
    ensures EncFunction(g, p, strip) == EncHead(g.head, g.head.source == p || strip) + EncMany(EncWord, g.code)
              + EncMany(EncConstant,
                        g.k) + (EncWord(|g.p|) + EncProtos(g, strip, 0)) + EncDebug(if strip then NOTHING else g.debug)
  {
    hide EncMany;
    hide EncHead;
    hide EncDebug;
    hide EncWord;
    hide EncProtos;
  }

  lemma ProtosFrom(g: Proto, strip: bool, i: nat)
    requires Fits(g) && i < |g.p|
    ensures EncProtos(g, strip, i) == EncFunction(g.p[i], g.head.source, strip) + EncProtos(g, strip, i + 1)
  {}

  lemma ProtosNone(g: Proto, strip: bool)
    requires Fits(g)
    ensures EncProtos(g, strip, |g.p|) == []
  {}
}
